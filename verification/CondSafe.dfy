// What every interleaving keeps.
module CondSafe {
  import opened Collections
  import opened CondModel

  function Wakers(threads: seq<Pc>): nat {
    if threads == [] then 0 else Wakers(threads[..|threads| - 1]) + if threads[|threads| - 1].Counted() then 1 else 0
  }

  lemma {:induction false} WakersSet(threads: seq<Pc>, t: nat, pc: Pc)
    requires t < |threads|
    ensures Wakers(threads[t := pc]) ==
            Wakers(threads) - (if threads[t].Counted() then 1 else 0) + (if pc.Counted() then 1 else 0)
  {
    var n := |threads| - 1;
    if t < n {
      assert threads[t := pc][..n] == threads[..n][t := pc];
      WakersSet(threads[..n], t, pc);
    } else {
      assert threads[t := pc][..n] == threads[..n];
    }
  }

  lemma {:induction false} NoWakers(threads: seq<Pc>, u: nat)
    requires u < |threads| && Wakers(threads) == 0
    ensures !threads[u].Counted()
  {
    if u < |threads| - 1 { NoWakers(threads[..|threads| - 1], u); }
  }

  lemma {:induction false} NoneCounted(threads: seq<Pc>)
    requires forall u :: 0 <= u < |threads| ==> !threads[u].Counted()
    ensures Wakers(threads) == 0
  {
    if threads != [] { NoneCounted(threads[..|threads| - 1]); }
  }

  // ---- the invariant ----

  // The lock holder is taking the id out of the table, its cond already destroyed.
  predicate Removing(pc: Pc, id: int) {
    (pc.UnbindClear? && pc.b.id == id) || (pc.UnbindDrop? && pc.b.id == id) || (pc.DestroyRemove? && pc.id == id)
  }

  predicate Ending(pc: Pc, c: int) { (pc.DestroyRemove? && pc.c == c) || (pc.DestroyStore? && pc.c == c) }

  ghost predicate Leaving(s: State, id: int) {
    s.holder.Some? && 0 <= s.holder.value < |s.threads| && Removing(s.threads[s.holder.value], id)
  }

  ghost predicate Expiring(s: State, c: int) {
    s.holder.Some? && 0 <= s.holder.value < |s.threads| && Ending(s.threads[s.holder.value], c)
  }

  ghost predicate Locked(s: State) {
    forall u :: 0 <= u < |s.threads| ==> (s.threads[u].Holding() <==> s.holder == Some(u))
  }

  // Bindings are for distinct kernel conds, each still there unless it is being taken out.
  ghost predicate Bound(s: State) {
    && (forall k :: 0 <= k < |s.bindings| ==>
          s.Made(s.bindings[k].id, s.bindings[k].cond) && (s.Live(s.bindings[k].id) || Leaving(s, s.bindings[k].id)))
    && (forall j, k :: 0 <= j < k < |s.bindings| ==> s.bindings[j].id != s.bindings[k].id)
  }

  // A public id was made for its own cond, and is there unless pthread_cond_destroy is about
  // to withdraw it.
  ghost predicate Published(s: State) {
    forall c :: s.Val(c).Id? ==> s.Made(s.Val(c).id, c) && (s.Live(s.Val(c).id) || Expiring(s, c))
  }

  predicate NoneCalls(s: State, id: int) {
    forall u :: 0 <= u < |s.threads| ==> !(s.threads[u].WakeCall? && s.threads[u].id == id)
  }

  predicate Alive(kernel: seq<Kernel>, id: int) { 0 <= id < |kernel| && kernel[id].live }

  // Bindings of other mutexes are as they were; those of m that are gone are destroyed.
  ghost predicate Kept(bindings: seq<Binding>, kernel: seq<Kernel>, m: int, start: seq<Binding>) {
    && (forall b: Binding :: b.mutex != m ==> multiset(bindings)[b] == multiset(start)[b])
    && (forall b: Binding :: b.mutex == m ==> multiset(bindings)[b] <= multiset(start)[b])
    && (forall b: Binding :: b in start && b.mutex == m ==> b in bindings || !Alive(kernel, b.id))
    && (forall b: Binding :: b in start ==> 0 <= b.id < |kernel|)
  }

  ghost predicate Scanned(bindings: seq<Binding>, kernel: seq<Kernel>, m: int, i: nat, start: seq<Binding>) {
    && i <= |bindings| && Kept(bindings, kernel, m, start)
    && forall k :: 0 <= k < i ==> bindings[k].mutex != m
  }

  ghost predicate Chosen(s: State, m: int, i: nat, start: seq<Binding>, b: Binding) {
    && Scanned(s.bindings, s.kernel, m, i, start) && i < |s.bindings| && s.bindings[i] == b && b.mutex == m
    && s.Val(b.cond) != Id(b.id)
  }

  ghost predicate ThreadOk(s: State, pc: Pc) {
    match pc
    case WakeCall(c, id) => s.Live(id) && s.Made(id, c)
    case Unbind(m, i, start) => Scanned(s.bindings, s.kernel, m, i, start)
    case UnbindWait(m, i, start, b, _) => Chosen(s, m, i, start, b) && s.Live(b.id)
    case UnbindKill(m, i, start, b, _) => Chosen(s, m, i, start, b) && s.Live(b.id) && NoneCalls(s, b.id)
    case UnbindRestore(m, i, start, b, _) => Chosen(s, m, i, start, b) && s.Live(b.id)
    case UnbindClear(m, i, start, b, _) => Chosen(s, m, i, start, b) && !s.Live(b.id)
    case UnbindDrop(m, i, start, b) => Chosen(s, m, i, start, b) && !s.Live(b.id)
    case UnbindDone(m, start, busy) => Kept(s.bindings, s.kernel, m, start) && (!busy ==> Unbound(s.bindings, m))
    case ResolveAdd(c, m, id) =>
      s.Live(id) && s.Made(id, c) && NoneCalls(s, id) && s.Val(c) != Id(id)
      && (forall k :: 0 <= k < |s.bindings| ==> s.bindings[k].id != id)
    case ResolvePublish(c, m, id) => s.Live(id) && s.Made(id, c)
    case DestroyRemove(c, id) => s.Made(id, c) && !s.Live(id) && s.NoneWakes(c)
    case _ => forall c :: pc.Destroys(c) ==> s.NoneWakes(c)
  }

  predicate Unbound(bindings: seq<Binding>, m: int) {
    forall k :: 0 <= k < |bindings| ==> bindings[k].mutex != m
  }

  ghost predicate Threads(s: State) {
    forall u :: 0 <= u < |s.threads| ==> ThreadOk(s, s.threads[u])
  }

  ghost predicate Inv(s: State) {
    s.inflight == Wakers(s.threads) && Locked(s) && Bound(s) && Published(s) && Threads(s)
  }

  // ---- steps outside the lock ----

  // Nothing but the stepping thread's place changes, and public ids are at most withdrawn.
  ghost predicate Outside(s: State, t: int, pc: Pc, s': State) {
    && 0 <= t < |s.threads| && s'.threads == s.threads[t := pc]
    && !s.threads[t].Holding() && !pc.Holding()
    && s'.holder == s.holder && s'.kernel == s.kernel && s'.bindings == s.bindings
    && (forall c :: s'.Val(c) == s.Val(c) || !s'.Val(c).Id?)
    && (pc.WakeCall? ==> s.Val(pc.c) == Id(pc.id))
    && (forall c :: pc.Wakes(c) ==> s.threads[t].Wakes(c) || s.NoneDestroys(c))
  }

  lemma CallsSame(s: State, t: int, pc: Pc, s': State, id: int, c: int)
    requires Outside(s, t, pc, s') && Published(s) && s.Made(id, c) && s.Val(c) != Id(id) && NoneCalls(s, id)
    ensures NoneCalls(s', id)
  {
  }

  lemma NoneWakesSame(s: State, t: int, pc: Pc, s': State, u: int, c: int)
    requires Outside(s, t, pc, s') && 0 <= u < |s.threads| && s.threads[u].Destroys(c) && s.NoneWakes(c)
    ensures s'.NoneWakes(c)
  {
  }

  lemma OtherOutside(s: State, t: int, pc: Pc, s': State, u: int)
    requires Outside(s, t, pc, s') && Published(s) && 0 <= u < |s.threads| && u != t
    requires forall k :: 0 <= k < |s.bindings| ==> s.Made(s.bindings[k].id, s.bindings[k].cond)
    requires ThreadOk(s, s.threads[u])
    ensures ThreadOk(s', s.threads[u])
  {
    hide Published, NoneCalls, Outside, State.NoneWakes, Bound, Kept, Scanned;
    var q := s.threads[u];
    assert s'.kernel == s.kernel && s'.bindings == s.bindings
           && forall c :: s'.Val(c) == s.Val(c) || !s'.Val(c).Id? by { OutsideSame(s, t, pc, s'); }
    forall c | q.Destroys(c)
      ensures s'.NoneWakes(c)
    {
      assert q.DestroyRemove? ==> c == q.c;
      NoneWakesSame(s, t, pc, s', u, c);
    }
    if q.UnbindKill? { CallsSame(s, t, pc, s', q.b.id, q.b.cond); }
    if q.ResolveAdd? { CallsSame(s, t, pc, s', q.id, q.c); }
  }

  lemma OutsideSame(s: State, t: int, pc: Pc, s': State)
    requires Outside(s, t, pc, s')
    ensures s'.kernel == s.kernel && s'.bindings == s.bindings && s'.holder == s.holder
    ensures forall c :: s'.Val(c) == s.Val(c) || !s'.Val(c).Id?
    ensures forall u :: 0 <= u < |s.threads| && u != t ==> s'.threads[u] == s.threads[u]
  {
  }

  lemma OutsideKeeps(s: State, t: int, pc: Pc, s': State)
    requires Inv(s) && Outside(s, t, pc, s') && ThreadOk(s', pc)
    requires s'.inflight == s.inflight - (if s.threads[t].Counted() then 1 else 0) + (if pc.Counted() then 1 else 0)
    ensures Inv(s')
  {
    hide ThreadOk;
    WakersSet(s.threads, t, pc);
    assert s.holder != Some(t);
    assert forall id :: Leaving(s, id) ==> Leaving(s', id);
    assert forall c :: Expiring(s, c) ==> Expiring(s', c);
    forall u | 0 <= u < |s'.threads| && u != t
      ensures ThreadOk(s', s'.threads[u])
    {
      OtherOutside(s, t, pc, s', u);
    }
  }

  // ---- steps that take, use or release the table lock ----

  ghost predicate UnderLock(s: State, t: int, pc: Pc, s': State) {
    && 0 <= t < |s.threads| && s'.threads == s.threads[t := pc] && s'.inflight == s.inflight
    && !s.threads[t].Counted() && !pc.Counted()
    && (s.threads[t].Holding() || s.holder == None) && s'.holder == (if pc.Holding() then Some(t) else None)
    && (forall id, c :: s.Made(id, c) ==> s'.Made(id, c))
    && (forall id :: s.Live(id) && !NoneCalls(s, id) ==> s'.Live(id))
    && (forall c :: pc.Destroys(c) ==> s.threads[t].Destroys(c))
  }

  lemma OtherUnderLock(s: State, t: int, pc: Pc, s': State, u: int)
    requires UnderLock(s, t, pc, s') && 0 <= u < |s.threads| && u != t && !s.threads[u].Holding()
    requires ThreadOk(s, s.threads[u])
    ensures ThreadOk(s', s.threads[u])
  {
    hide Kept, Scanned, Chosen;
    var q := s.threads[u];
    if q.WakeCall? {
      assert !NoneCalls(s, q.id);
    }
    forall c | q.Destroys(c)
      ensures s'.NoneWakes(c)
    {
    }
  }

  lemma UnderLockKeeps(s: State, t: int, pc: Pc, s': State)
    requires Inv(s) && UnderLock(s, t, pc, s')
    requires Bound(s') && Published(s') && ThreadOk(s', pc)
    ensures Inv(s')
  {
    hide ThreadOk, Bound, Published;
    WakersSet(s.threads, t, pc);
    forall u | 0 <= u < |s'.threads| && u != t
      ensures ThreadOk(s', s'.threads[u])
    {
      OtherUnderLock(s, t, pc, s', u);
    }
  }

  // ---- the steps ----

  lemma ExpiringQuiet(s: State, c: int)
    requires Inv(s) && Expiring(s, c)
    ensures s.NoneWakes(c)
  {
    hide Kept, Scanned, Chosen, Bound, Published;
    var q := s.threads[s.holder.value];
    assert ThreadOk(s, q) && q.Destroys(c);
  }

  // A cond a signal is about to load is not being withdrawn.
  lemma LoadedOk(s: State, t: int)
    requires Inv(s) && 0 <= t < |s.threads| && s.threads[t].WakeLoad?
    ensures s.Val(s.threads[t].c).Id? ==> ThreadOk(s, WakeCall(s.threads[t].c, s.Val(s.threads[t].c).id))
  {
    hide Kept, Scanned, Chosen, Bound;
    var c := s.threads[t].c;
    assert s.threads[t].Wakes(c);
    if Expiring(s, c) { ExpiringQuiet(s, c); }
  }

  lemma WakeIsOutside(s: State, t: int, s': State)
    requires 0 <= t < |s.threads| && WakeStep(s, t, s')
    requires ThreadOk(s, s.threads[t])
    requires s.threads[t].WakeLoad? && s.Val(s.threads[t].c).Id? ==> ThreadOk(s, WakeCall(s.threads[t].c, s.Val(s.threads[t].c).id))
    ensures Outside(s, t, s'.threads[t], s') && ThreadOk(s', s'.threads[t])
  {
    hide Kept, Scanned, Chosen;
  }

  lemma WakeKeeps(s: State, t: int, s': State)
    requires Inv(s) && 0 <= t < |s.threads| && WakeStep(s, t, s')
    ensures Inv(s')
  {
    hide ThreadOk, Bound, Published, Inv, Outside, State.NoneDestroys;
    InvParts(s, t);
    if s.threads[t].WakeLoad? { LoadedOk(s, t); }
    WakeIsOutside(s, t, s');
    OutsideKeeps(s, t, s'.threads[t], s');
  }

  lemma InvParts(s: State, t: int)
    requires Inv(s) && 0 <= t < |s.threads|
    ensures Locked(s) && Bound(s) && Published(s) && ThreadOk(s, s.threads[t])
  {
  }

  // While the holder takes nothing out, every binding's cond is there.
  lemma AllThere(s: State, t: int)
    requires Inv(s) && 0 <= t < |s.threads|
    requires s.holder == None || s.holder == Some(t)
    requires forall id :: !Removing(s.threads[t], id)
    ensures forall k :: 0 <= k < |s.bindings| ==> s.Live(s.bindings[k].id) && s.Made(s.bindings[k].id, s.bindings[k].cond)
  {
    hide Kept, Scanned, Chosen, ThreadOk, Published;
  }

  // The table as it is when some step leaves kernel and bindings alone and takes nothing out.
  lemma BoundSame(s: State, t: int, pc: Pc, s': State)
    requires Inv(s) && UnderLock(s, t, pc, s') && s'.bindings == s.bindings && s'.kernel == s.kernel
    requires forall id :: Removing(s.threads[t], id) ==> Removing(pc, id)
    requires s.holder == None || s.holder == Some(t)
    ensures Bound(s')
  {
    hide Kept, Scanned, Chosen, ThreadOk, Published;
    assert forall id :: Leaving(s, id) ==> Leaving(s', id);
  }

  lemma PublishedSame(s: State, t: int, pc: Pc, s': State)
    requires Inv(s) && UnderLock(s, t, pc, s') && (forall id :: s.Live(id) ==> s'.Live(id))
    requires s.holder == None || s.holder == Some(t)
    requires forall c :: s'.Val(c) == s.Val(c) || !s'.Val(c).Id? || (s'.Made(s'.Val(c).id, c) && s'.Live(s'.Val(c).id))
    requires forall c :: Ending(s.threads[t], c) ==> Ending(pc, c) || !s'.Val(c).Id?
    ensures Published(s')
  {
    hide Kept, Scanned, Chosen, ThreadOk, Bound;
    forall c | s'.Val(c).Id?
      ensures s'.Made(s'.Val(c).id, c) && (s'.Live(s'.Val(c).id) || Expiring(s', c))
    {
    }
  }

  lemma UnbindBegins(s: State, t: int, m: int, s': State)
    requires Inv(s) && 0 <= t < |s.threads| && s.threads[t].Idle? && s.holder == None
    requires s' == s.(holder := Some(t)).At(t, Unbind(m, 0, s.bindings))
    ensures Inv(s')
  {
    hide Kept, Scanned, Chosen, Bound, Published, Inv;
    var pc := s'.threads[t];
    InvParts(s, t);
    AllThere(s, t);
    KeptFirst(s.bindings, s.kernel, m);
    BoundSame(s, t, pc, s');
    PublishedSame(s, t, pc, s');
    UnderLockKeeps(s, t, pc, s');
  }

  lemma KeptFirst(bindings: seq<Binding>, kernel: seq<Kernel>, m: int)
    requires forall k :: 0 <= k < |bindings| ==> 0 <= bindings[k].id < |kernel|
    ensures Scanned(bindings, kernel, m, 0, bindings)
  {
  }

  lemma UnbindScans(s: State, t: int, s': State)
    requires Inv(s) && 0 <= t < |s.threads| && s.threads[t].Unbind? && UnbindStep(s, t, s')
    ensures Inv(s')
  {
    hide Kept, Bound, Published, Inv, Unbound;
    var pc, at := s'.threads[t], s.threads[t];
    InvParts(s, t);
    AllThere(s, t);
    if at.i >= |s.bindings| { AllScanned(s, at.m, at.i, at.start); }
    BoundSame(s, t, pc, s');
    PublishedSame(s, t, pc, s');
    UnderLockKeeps(s, t, pc, s');
  }

  lemma AllScanned(s: State, m: int, i: nat, start: seq<Binding>)
    requires Scanned(s.bindings, s.kernel, m, i, start) && i >= |s.bindings|
    ensures Unbound(s.bindings, m)
  {
  }

  lemma UnbindWaits(s: State, t: int, s': State)
    requires Inv(s) && 0 <= t < |s.threads| && UnbindStep(s, t, s')
    requires s.threads[t].UnbindWait? || s.threads[t].UnbindRestore? || s.threads[t].UnbindClear? || s.threads[t].UnbindDone?
    ensures Inv(s')
  {
    hide Kept, Bound, Published, Inv, Unbound;
    var pc, at := s'.threads[t], s.threads[t];
    InvParts(s, t);
    if at.UnbindWait? { NoneLeft(s, at.b.id); }
    if at.UnbindRestore? { AllThere(s, t); }
    BoundSame(s, t, pc, s');
    PublishedSame(s, t, pc, s');
    UnderLockKeeps(s, t, pc, s');
  }

  // With nobody counted, nobody has loaded an id.
  lemma NoneLeft(s: State, id: int)
    requires Inv(s) && s.inflight == 0
    ensures NoneCalls(s, id)
  {
    hide ThreadOk, Bound, Published;
    forall u | 0 <= u < |s.threads|
      ensures !s.threads[u].Counted()
    {
      NoWakers(s.threads, u);
    }
  }

  // ---- destroying a cond ----

  lemma KeptKill(bindings: seq<Binding>, kernel: seq<Kernel>, m: int, i: nat, start: seq<Binding>, id: int)
    requires Scanned(bindings, kernel, m, i, start) && 0 <= id < |kernel|
    ensures Scanned(bindings, kernel[id := kernel[id].(live := false)], m, i, start)
  {
  }

  // Destroying an id that no signal holds, and whose binding is on its way out.
  lemma KillBound(s: State, t: int, id: int, pc: Pc, s': State)
    requires Inv(s) && 0 <= t < |s.threads| && s.holder == Some(t) && forall i :: !Removing(s.threads[t], i)
    requires s.Live(id) && s' == s.Kill(id).At(t, pc) && pc.Holding() && Removing(pc, id)
    ensures Bound(s')
  {
    hide Kept, Scanned, Chosen, ThreadOk, Published;
    AllThere(s, t);
  }

  lemma UnbindKills(s: State, t: int, s': State)
    requires Inv(s) && 0 <= t < |s.threads| && s.threads[t].UnbindKill? && UnbindStep(s, t, s')
    ensures Inv(s')
  {
    hide Kept, Scanned, Bound, Published, Inv, Unbound;
    var pc, at := s'.threads[t], s.threads[t];
    InvParts(s, t);
    if pc.UnbindRestore? {
      BoundSame(s, t, pc, s');
      PublishedSame(s, t, pc, s');
    } else {
      KillBound(s, t, at.b.id, pc, s');
      KeptKill(s.bindings, s.kernel, at.m, at.i, at.start, at.b.id);
      AllThere(s, t);
      KillPublished(s, t, at.b.id, at.b.cond, pc, s');
    }
    UnderLockKeeps(s, t, pc, s');
  }

  lemma KillPublished(s: State, t: int, id: int, c: int, pc: Pc, s': State)
    requires Inv(s) && 0 <= t < |s.threads| && s.holder == Some(t) && s.Made(id, c)
    requires forall x :: !Ending(s.threads[t], x)
    requires s' == s.Kill(id).At(t, pc) && pc.Holding() && (s.Val(c) != Id(id) || Ending(pc, c))
    ensures Published(s')
  {
    hide Kept, Scanned, Chosen, ThreadOk, Bound;
    forall x | s'.Val(x).Id?
      ensures s'.Made(s'.Val(x).id, x) && (s'.Live(s'.Val(x).id) || Expiring(s', x))
    {
      assert s.Val(x).Id? && s.Made(s.Val(x).id, x) && s.Live(s.Val(x).id);
    }
  }

  lemma SwapRemovedFacts(bs: seq<Binding>, i: nat)
    requires i < |bs|
    ensures |SwapRemoved(bs, i)| == |bs| - 1
    ensures forall k :: 0 <= k < |bs| - 1 ==> SwapRemoved(bs, i)[k] == bs[if k == i then |bs| - 1 else k]
    ensures multiset(SwapRemoved(bs, i)) == multiset(bs) - multiset{bs[i]}
  {
    var n := |bs| - 1;
    assert bs == bs[..n] + [bs[n]];
    if i < n {
      assert bs[..n] == bs[..i] + [bs[i]] + bs[i + 1..n];
      assert SwapRemoved(bs, i) == bs[..i] + [bs[n]] + bs[i + 1..n];
    } else {
      assert SwapRemoved(bs, i) == bs[..n];
    }
  }

  lemma KeptDrop(bindings: seq<Binding>, kernel: seq<Kernel>, m: int, i: nat, start: seq<Binding>)
    requires Scanned(bindings, kernel, m, i, start) && i < |bindings| && bindings[i].mutex == m
    requires !Alive(kernel, bindings[i].id)
    ensures Scanned(SwapRemoved(bindings, i), kernel, m, i, start)
  {
    SwapRemovedFacts(bindings, i);
    var rest := SwapRemoved(bindings, i);
    forall b: Binding | b in start && b.mutex == m && b !in rest
      ensures !Alive(kernel, b.id)
    {
      assert multiset(rest)[b] == 0;
    }
  }

  // Taking out the one binding whose cond is gone leaves a sound table.
  lemma DropBound(s: State, t: int, i: nat, pc: Pc, s': State)
    requires Inv(s) && 0 <= t < |s.threads| && s.holder == Some(t) && i < |s.bindings|
    requires forall id :: Removing(s.threads[t], id) ==> id == s.bindings[i].id
    requires s' == s.(bindings := SwapRemoved(s.bindings, i)).At(t, pc)
    ensures Bound(s')
  {
    hide Kept, Scanned, Chosen, ThreadOk, Published;
    SwapRemovedFacts(s.bindings, i);
    forall k | 0 <= k < |s'.bindings|
      ensures s'.Made(s'.bindings[k].id, s'.bindings[k].cond) && s'.Live(s'.bindings[k].id)
    {
      var was := if k == i then |s.bindings| - 1 else k;
      assert s'.bindings[k] == s.bindings[was] && s.bindings[was].id != s.bindings[i].id;
    }
  }

  lemma UnbindDrops(s: State, t: int, s': State)
    requires Inv(s) && 0 <= t < |s.threads| && s.threads[t].UnbindDrop? && UnbindStep(s, t, s')
    ensures Inv(s')
  {
    hide Kept, Scanned, Bound, Published, Inv, Unbound;
    var pc, at := s'.threads[t], s.threads[t];
    InvParts(s, t);
    KeptDrop(s.bindings, s.kernel, at.m, at.i, at.start);
    DropBound(s, t, at.i, pc, s');
    PublishedSame(s, t, pc, s');
    UnderLockKeeps(s, t, pc, s');
  }

  lemma UnbindKeeps(s: State, t: int, s': State)
    requires Inv(s) && 0 <= t < |s.threads| && UnbindStep(s, t, s')
    ensures Inv(s')
  {
    hide Inv;
    match s.threads[t]
    case Idle =>
      var m :| s.holder == None && s' == s.(holder := Some(t)).At(t, Unbind(m, 0, s.bindings));
      UnbindBegins(s, t, m, s');
    case Unbind(_, _, _) => UnbindScans(s, t, s');
    case UnbindKill(_, _, _, _, _) => UnbindKills(s, t, s');
    case UnbindDrop(_, _, _, _) => UnbindDrops(s, t, s');
    case _ => UnbindWaits(s, t, s');
  }

  // ---- the first wait ----

  lemma ResolveKeeps(s: State, t: int, s': State)
    requires Inv(s) && 0 <= t < |s.threads| && ResolveStep(s, t, s')
    ensures Inv(s')
  {
    hide Inv;
    match s.threads[t]
    case Resolve(_, _) => ResolveCreates(s, t, s');
    case ResolveAdd(_, _, _) => ResolveAdds(s, t, s');
    case _ => ResolveRest(s, t, s');
  }

  lemma ResolveRest(s: State, t: int, s': State)
    requires Inv(s) && 0 <= t < |s.threads| && ResolveStep(s, t, s')
    requires s.threads[t].Idle? || s.threads[t].ResolvePublish? || s.threads[t].ResolveDone?
    ensures Inv(s')
  {
    hide Kept, Scanned, Chosen, Bound, Published, Inv;
    var pc := s'.threads[t];
    InvParts(s, t);
    BoundSame(s, t, pc, s');
    PublishedSame(s, t, pc, s');
    UnderLockKeeps(s, t, pc, s');
  }

  // An id nobody can know yet.
  lemma ResolveCreates(s: State, t: int, s': State)
    requires Inv(s) && 0 <= t < |s.threads| && s.threads[t].Resolve? && ResolveStep(s, t, s')
    ensures Inv(s')
  {
    hide Kept, Scanned, Chosen, Bound, Published, Inv;
    var pc, at := s'.threads[t], s.threads[t];
    InvParts(s, t);
    if pc.ResolveDone? {
      BoundSame(s, t, pc, s');
    } else {
      AllThere(s, t);
      NewIsUnknown(s, t, |s.kernel|);
      GrownBound(s, t, pc, s');
    }
    PublishedSame(s, t, pc, s');
    UnderLockKeeps(s, t, pc, s');
  }

  lemma NewIsUnknown(s: State, t: int, id: int)
    requires Inv(s) && id == |s.kernel|
    ensures NoneCalls(s, id) && forall c :: s.Val(c) != Id(id)
  {
    hide Kept, Scanned, Chosen, Bound;
    forall u | 0 <= u < |s.threads|
      ensures !(s.threads[u].WakeCall? && s.threads[u].id == id)
    {
      assert ThreadOk(s, s.threads[u]);
    }
  }

  lemma GrownBound(s: State, t: int, pc: Pc, s': State)
    requires Inv(s) && 0 <= t < |s.threads| && s.holder == Some(t) && s.threads[t].Resolve?
    requires s'.bindings == s.bindings && |s'.kernel| == |s.kernel| + 1 && s'.kernel[..|s.kernel|] == s.kernel
    requires s'.threads == s.threads[t := pc] && s'.holder == Some(t)
    ensures Bound(s')
  {
    hide Kept, Scanned, Chosen, ThreadOk, Published;
    AllThere(s, t);
    assert forall id :: 0 <= id < |s.kernel| ==> s'.kernel[..|s.kernel|][id] == s.kernel[id];
  }

  lemma ResolveAdds(s: State, t: int, s': State)
    requires Inv(s) && 0 <= t < |s.threads| && s.threads[t].ResolveAdd? && ResolveStep(s, t, s')
    ensures Inv(s')
  {
    hide Kept, Scanned, Chosen, Bound, Published, Inv;
    var pc, at := s'.threads[t], s.threads[t];
    InvParts(s, t);
    AllThere(s, t);
    if pc.ResolveDone? {
      UnaddedBound(s, t, at.id, pc, s');
      KillPublished(s, t, at.id, at.c, pc, s');
    } else {
      AddedBound(s, t, pc, s');
      PublishedSame(s, t, pc, s');
    }
    UnderLockKeeps(s, t, pc, s');
  }

  lemma AddedBound(s: State, t: int, pc: Pc, s': State)
    requires Inv(s) && 0 <= t < |s.threads| && s.threads[t].ResolveAdd? && s.holder == Some(t)
    requires var at := s.threads[t]; s' == s.(bindings := s.bindings + [Binding(at.c, at.id, at.m)]).At(t, pc)
    ensures Bound(s')
  {
    hide Kept, Scanned, Chosen, Published;
    AllThere(s, t);
    assert ThreadOk(s, s.threads[t]);
  }

  lemma UnaddedBound(s: State, t: int, id: int, pc: Pc, s': State)
    requires Inv(s) && 0 <= t < |s.threads| && s.threads[t].ResolveAdd? && s.holder == Some(t) && id == s.threads[t].id
    requires s.Live(id) && s' == s.Kill(id).At(t, pc)
    ensures Bound(s')
  {
    hide Kept, Scanned, Chosen, Published;
    AllThere(s, t);
    assert ThreadOk(s, s.threads[t]);
  }

  // ---- pthread_cond_destroy and pthread_cond_init ----

  lemma DestroyKeeps(s: State, t: int, s': State)
    requires Inv(s) && 0 <= t < |s.threads| && DestroyStep(s, t, s')
    ensures Inv(s')
  {
    hide Inv;
    match s.threads[t]
    case DestroyKill(_) => DestroyKills(s, t, s');
    case DestroyRemove(_, _) => DestroyRemoves(s, t, s');
    case DestroyLock(_) => DestroyLocked(s, t, s');
    case DestroyStore(_) => DestroyLocked(s, t, s');
    case DestroyDone(_) => DestroyLocked(s, t, s');
    case _ => DestroyOutside(s, t, s');
  }

  lemma DestroyOutside(s: State, t: int, s': State)
    requires Inv(s) && 0 <= t < |s.threads| && DestroyStep(s, t, s')
    requires s.threads[t].Idle? || s.threads[t].DestroyLoad? || s.threads[t].DestroyClear?
    ensures Inv(s')
  {
    hide Kept, Scanned, Chosen, Bound, Published, Inv;
    InvParts(s, t);
    assert forall c :: s.NoneWakes(c) && !s'.threads[t].Wakes(c) ==> s'.NoneWakes(c);
    OutsideKeeps(s, t, s'.threads[t], s');
  }

  lemma DestroyLocked(s: State, t: int, s': State)
    requires Inv(s) && 0 <= t < |s.threads| && DestroyStep(s, t, s')
    requires s.threads[t].DestroyLock? || s.threads[t].DestroyStore? || s.threads[t].DestroyDone?
    ensures Inv(s')
  {
    hide Kept, Scanned, Chosen, Bound, Published, Inv;
    var pc := s'.threads[t];
    InvParts(s, t);
    BoundSame(s, t, pc, s');
    PublishedSame(s, t, pc, s');
    UnderLockKeeps(s, t, pc, s');
  }

  lemma DestroyKills(s: State, t: int, s': State)
    requires Inv(s) && 0 <= t < |s.threads| && s.threads[t].DestroyKill? && DestroyStep(s, t, s')
    ensures Inv(s')
  {
    hide Kept, Scanned, Chosen, Bound, Inv;
    var pc, at := s'.threads[t], s.threads[t];
    InvParts(s, t);
    if pc.DestroyRemove? {
      KillBound(s, t, pc.id, pc, s');
      KillPublished(s, t, pc.id, at.c, pc, s');
      CallsElsewhere(s, at.c, pc.id);
    } else {
      BoundSame(s, t, pc, s');
      PublishedSame(s, t, pc, s');
    }
    UnderLockKeeps(s, t, pc, s');
  }

  // Only a signal on the id's own cond can hold it.
  lemma CallsElsewhere(s: State, c: int, id: int)
    requires Inv(s) && s.Made(id, c) && s.NoneWakes(c)
    ensures NoneCalls(s, id)
  {
    hide Kept, Scanned, Chosen, Bound, Published;
    forall u | 0 <= u < |s.threads|
      ensures !(s.threads[u].WakeCall? && s.threads[u].id == id)
    {
      assert ThreadOk(s, s.threads[u]);
    }
  }

  lemma {:induction false} RemovedIdIs(bs: seq<Binding>, id: int, i: nat) returns (k: nat)
    requires i <= |bs|
    ensures i <= k <= |bs| && forall j :: i <= j < k ==> bs[j].id != id
    ensures if k == |bs| then RemovedId(bs, id, i) == bs else bs[k].id == id && RemovedId(bs, id, i) == SwapRemoved(bs, k)
    decreases |bs| - i
  {
    if i == |bs| || bs[i].id == id { k := i; } else { k := RemovedIdIs(bs, id, i + 1); }
  }

  lemma DestroyRemoves(s: State, t: int, s': State)
    requires Inv(s) && 0 <= t < |s.threads| && s.threads[t].DestroyRemove? && DestroyStep(s, t, s')
    ensures Inv(s')
  {
    hide Kept, Scanned, Chosen, Bound, Published, Inv, RemovedId;
    var pc, at := s'.threads[t], s.threads[t];
    InvParts(s, t);
    var k := RemovedIdIs(s.bindings, at.id, 0);
    if k == |s.bindings| {
      UnlistedBound(s, t, pc, s');
    } else {
      DropBound(s, t, k, pc, s');
    }
    PublishedSame(s, t, pc, s');
    UnderLockKeeps(s, t, pc, s');
  }

  lemma UnlistedBound(s: State, t: int, pc: Pc, s': State)
    requires Inv(s) && 0 <= t < |s.threads| && s.holder == Some(t) && s.threads[t].DestroyRemove?
    requires forall k :: 0 <= k < |s.bindings| ==> s.bindings[k].id != s.threads[t].id
    requires s' == s.At(t, pc)
    ensures Bound(s')
  {
    hide Kept, Scanned, Chosen, ThreadOk, Published;
  }

  lemma InitKeeps(s: State, t: int, s': State)
    requires Inv(s) && 0 <= t < |s.threads| && InitStep(s, t, s')
    ensures Inv(s')
  {
    hide Kept, Scanned, Chosen, Bound, Published, Inv;
    InvParts(s, t);
    assert s'.threads == s'.threads[t := Idle];
    OutsideKeeps(s, t, Idle, s');
  }

  // ---- every run ----

  lemma StepKeeps(s: State, s': State)
    requires Inv(s) && Step(s, s')
    ensures Inv(s')
  {
    hide WakeStep, UnbindStep, ResolveStep, DestroyStep, InitStep, Inv;
    var t :| 0 <= t < |s.threads| && Acts(s, t, s');
    if WakeStep(s, t, s') { WakeKeeps(s, t, s'); }
    else if UnbindStep(s, t, s') { UnbindKeeps(s, t, s'); }
    else if ResolveStep(s, t, s') { ResolveKeeps(s, t, s'); }
    else if DestroyStep(s, t, s') { DestroyKeeps(s, t, s'); }
    else { InitKeeps(s, t, s'); }
  }

  lemma InitialOk(s: State)
    requires Initial(s)
    ensures Inv(s)
  {
    NoneCounted(s.threads);
  }

  lemma {:induction false} EveryState(states: seq<State>, k: nat)
    requires Run(states) && k < |states|
    ensures Inv(states[k])
  {
    if k == 0 {
      InitialOk(states[0]);
    } else {
      EveryState(states, k - 1);
      assert Step(states[k - 1], states[k - 1 + 1]);
      StepKeeps(states[k - 1], states[k]);
    }
  }

  // No signal or broadcast reaches the kernel with an id already destroyed, and no id is
  // destroyed twice: each of the three places that destroys one has a live one.
  lemma WakesReachLiveConds(states: seq<State>, k: nat, u: nat)
    requires Run(states) && k < |states| && u < |states[k].threads|
    ensures var s := states[k]; var at := s.threads[u];
            && (at.WakeCall? ==> s.Live(at.id) && s.Made(at.id, at.c))
            && (at.UnbindKill? ==> s.Live(at.b.id))
            && (at.DestroyKill? && s.Val(at.c).Id? ==> s.Live(s.Val(at.c).id))
            && (at.ResolveAdd? ==> s.Live(at.id))
  {
    hide Inv, Run, Kept, Scanned, Bound;
    EveryState(states, k);
    InvParts(states[k], u);
  }

  // What pt_unbind_mutex_locked has done when it returns: every binding of another mutex is
  // still in the table, as often as before; without EBUSY none of its own is left, and each
  // that was there is destroyed.
  lemma UnbindingIsExact(states: seq<State>, k: nat, u: nat)
    requires Run(states) && k < |states| && u < |states[k].threads| && states[k].threads[u].UnbindDone?
    ensures var s := states[k]; var at := s.threads[u];
            && (forall b: Binding :: b.mutex != at.m ==> multiset(s.bindings)[b] == multiset(at.start)[b])
            && (!at.busy ==> (forall b: Binding :: b in s.bindings ==> b.mutex != at.m)
                             && forall b: Binding :: b in at.start && b.mutex == at.m ==> !s.Live(b.id))
  {
    hide Inv, Run;
    EveryState(states, k);
    InvParts(states[k], u);
  }
}
