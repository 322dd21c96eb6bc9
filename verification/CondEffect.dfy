// What the condition variable calls do: a signal that finds an id makes its kernel call, and each
// call, left alone, comes to the end it is there for.
module CondEffect {
  import opened Collections
  import opened CondModel
  import opened CondSafe

  // ---- one thread's own way ----

  // A thread's place is changed by nobody else.
  lemma OwnStep(s: State, s': State, u: int)
    requires Step(s, s') && 0 <= u < |s.threads|
    ensures |s'.threads| == |s.threads| && (s'.threads[u] == s.threads[u] || Acts(s, u, s'))
  {
    var t :| 0 <= t < |s.threads| && Acts(s, t, s');
    OthersStay(s, t, s');
  }

  lemma OthersStay(s: State, t: int, s': State)
    requires 0 <= t < |s.threads| && Acts(s, t, s')
    ensures |s'.threads| == |s.threads| && forall u :: 0 <= u < |s.threads| && u != t ==> s'.threads[u] == s.threads[u]
  {
    hide RemovedId, SwapRemoved, Acts;
    if WakeStep(s, t, s') { WakeOthers(s, t, s'); }
    else if UnbindStep(s, t, s') { UnbindOthers(s, t, s'); }
    else { MoreOthers(s, t, s'); }
  }

  lemma WakeOthers(s: State, t: int, s': State)
    requires 0 <= t < |s.threads| && WakeStep(s, t, s')
    ensures s'.threads == s.threads[t := s'.threads[t]]
  {
  }

  lemma UnbindOthers(s: State, t: int, s': State)
    requires 0 <= t < |s.threads| && UnbindStep(s, t, s')
    ensures s'.threads == s.threads[t := s'.threads[t]]
  {
    hide SwapRemoved;
  }

  lemma MoreOthers(s: State, t: int, s': State)
    requires 0 <= t < |s.threads| && Acts(s, t, s') && !WakeStep(s, t, s') && !UnbindStep(s, t, s')
    ensures s'.threads == s.threads[t := s'.threads[t]]
  {
    hide RemovedId;
  }

  lemma {:induction false} SameThreads(states: seq<State>, a: nat, k: nat)
    requires Run(states) && a <= k < |states|
    ensures |states[k].threads| == |states[a].threads|
  {
    hide Step;
    if a < k {
      SameThreads(states, a, k - 1);
      ThreadsKept(states, k - 1);
    }
  }

  lemma ThreadsKept(states: seq<State>, k: nat)
    requires Run(states) && k + 1 < |states|
    ensures Step(states[k], states[k + 1]) && |states[k + 1].threads| == |states[k].threads|
  {
    assert Step(states[k], states[k + 1]);
    var s := states[k];
    var t :| 0 <= t < |s.threads| && Acts(s, t, states[k + 1]);
    OthersStay(s, t, states[k + 1]);
  }

  // ---- signals ----

  lemma LoadStep(s: State, s': State, t: int, c: int)
    requires 0 <= t < |s.threads| && s.threads[t] == WakeLoad(c) && Acts(s, t, s')
    ensures t < |s'.threads| && s'.threads[t] == if s.Val(c).Id? then WakeCall(c, s.Val(c).id) else WakeLeave
  {
  }

  // A signal that has begun, up to its return, looks at its cond's word once; holding an id the word
  // sends it into the kernel with that id.
  lemma {:induction false} SignalLooks(states: seq<State>, a: nat, b: nat, t: nat, c: int) returns (k: nat)
    requires Run(states) && a < b < |states| && t < |states[a].threads| && t < |states[b].threads|
    requires states[a].threads[t] == WakeLoad(c) && states[b].threads[t].Idle?
    ensures a <= k < b && t < |states[k + 1].threads|
    ensures states[k + 1].threads[t] == if states[k].Val(c).Id? then WakeCall(c, states[k].Val(c).id) else WakeLeave
    decreases b - a
  {
    hide Run, Step, Acts;
    ThreadsKept(states, a);
    OwnStep(states[a], states[a + 1], t);
    if states[a + 1].threads[t] == WakeLoad(c) {
      k := SignalLooks(states, a + 1, b, t, c);
    } else {
      LoadStep(states[a], states[a + 1], t, c);
      k := a;
    }
  }

  // In state k thread t is at its kernel call for c with the id.
  predicate Calls(s: State, t: nat, c: int, id: int) { t < |s.threads| && s.threads[t] == WakeCall(c, id) }

  // While the word holds an id from the signal's beginning to its end, the signal is at the kernel
  // with that id in between; and it ends without a call only if the word held no id at some time.
  lemma SignalCalls(states: seq<State>, a: nat, b: nat, t: nat, c: int)
    requires Run(states) && a < b < |states| && t < |states[a].threads| && t < |states[b].threads|
    requires states[a].threads[t] == WakeLoad(c) && states[b].threads[t].Idle?
    ensures forall id :: (forall k :: a <= k < b ==> states[k].Val(c) == Id(id))
              ==> exists k :: a < k <= b && Calls(states[k], t, c, id)
    ensures (forall k, id :: a < k <= b ==> !Calls(states[k], t, c, id)) ==> exists k :: a <= k < b && !states[k].Val(c).Id?
  {
    hide Run;
    var k := SignalLooks(states, a, b, t, c);
    assert states[k].Val(c).Id? ==> Calls(states[k + 1], t, c, states[k].Val(c).id);
  }

  // ---- calls left alone ----

  // Steps of thread t and of no other.
  ghost predicate Solo(states: seq<State>, t: int) {
    states != [] && forall k {:trigger SoloAt(states, t, k)} :: 0 <= k < |states| - 1 ==> SoloAt(states, t, k)
  }

  ghost predicate SoloAt(states: seq<State>, t: int, k: int)
    requires 0 <= k < |states| - 1
  {
    0 <= t < |states[k].threads| && Acts(states[k], t, states[k + 1])
  }

  // Alone, thread t can get from s to s'.
  ghost predicate Gets(s: State, t: int, s': State) {
    exists states :: Solo(states, t) && states[0] == s && states[|states| - 1] == s'
  }

  lemma Stays(s: State, t: int)
    ensures Gets(s, t, s)
  {
    assert Solo([s], t);
  }

  lemma Then(s: State, t: int, r: State, s': State)
    requires Gets(s, t, r) && 0 <= t < |r.threads| && Acts(r, t, s')
    ensures Gets(s, t, s')
  {
    var states :| Solo(states, t) && states[0] == s && states[|states| - 1] == r;
    var more := states + [s'];
    forall k | 0 <= k < |more| - 1
      ensures SoloAt(more, t, k)
    {
      if k < |states| - 1 { assert SoloAt(states, t, k); }
    }
    assert Solo(more, t);
  }

  // Idle, with the lock free and no call on c under way.
  predicate Ready(s: State, t: int) { 0 <= t < |s.threads| && s.threads[t].Idle? && s.holder == None }

  predicate Quiet(s: State, c: int) { s.NoneWakes(c) && s.NoneDestroys(c) }

  // A signal on a created cond: into the kernel and back, with nothing changed.
  lemma SignalAlone(s: State, t: int, c: int)
    requires Ready(s, t) && s.NoneDestroys(c) && s.Val(c).Id?
    ensures var call := s.(inflight := s.inflight + 1).At(t, WakeCall(c, s.Val(c).id));
      Gets(s, t, call) && Gets(call, t, s)
  {
    hide Gets;
    var s1 := s.(inflight := s.inflight + 1).At(t, WakeLoad(c));
    var s2, s3 := s1.At(t, WakeCall(c, s.Val(c).id)), s1.At(t, WakeLeave);
    assert s2.threads == s.threads[t := WakeCall(c, s.Val(c).id)];
    Stays(s, t);
    Then(s, t, s, s1);
    Then(s, t, s1, s2);
    Stays(s2, t);
    Then(s2, t, s2, s3);
    assert s3.(inflight := s.inflight).At(t, Idle).threads == s.threads;
    Then(s2, t, s3, s);
  }

  function Inside(s: State, t: int, pc: Pc): State
    requires 0 <= t < |s.threads|
  {
    s.(holder := Some(t), threads := s.threads[t := pc])
  }

  // The lock goes back with the thread's last step.
  lemma Released(s: State, t: int, r: State)
    requires Ready(s, t) && Gets(s, t, r) && 0 <= t < |r.threads| && r.threads == s.threads[t := r.threads[t]]
    requires r.threads[t].ResolveDone? || r.threads[t].DestroyDone? || r.threads[t].UnbindDone?
    ensures Gets(s, t, r.(holder := None, threads := s.threads))
  {
    hide Gets;
    var s' := r.(holder := None).At(t, Idle);
    assert s'.threads == s.threads;
    Then(s, t, r, s');
  }

  // The slow path of a first wait: a new kernel cond, bound to the mutex and published; or none,
  // when there is no memory for the binding or the kernel makes none.
  lemma ResolveAlone(s: State, t: int, c: int, m: int)
    requires Ready(s, t) && s.NoneDestroys(c) && (s.Val(c).Uninit? || s.Val(c).Static?)
    ensures var id := |s.kernel|;
      && Gets(s, t, s.(kernel := s.kernel + [Kernel(c, true)], bindings := s.bindings + [Binding(c, id, m)]).Store(c, Id(id)))
      && Gets(s, t, s.(kernel := s.kernel + [Kernel(c, false)])) && Gets(s, t, Inside(s, t, ResolveDone))
  {
    hide Gets;
    var id := |s.kernel|;
    var s1 := Inside(s, t, Resolve(c, m));
    var s2 := Inside(s, t, ResolveAdd(c, m, id)).(kernel := s.kernel + [Kernel(c, true)]);
    Stays(s, t);
    Then(s, t, s, s1);
    assert s1.At(t, ResolveAdd(c, m, id)).threads == s2.threads;
    Then(s, t, s1, s2);
    assert s1.At(t, ResolveDone).threads == Inside(s, t, ResolveDone).threads;
    Then(s, t, s1, Inside(s, t, ResolveDone));
    ResolveRuns(s, t, s2, c, m);
  }

  lemma ResolveRuns(s: State, t: int, s2: State, c: int, m: int)
    requires Ready(s, t) && Gets(s, t, s2)
    requires s2 == Inside(s, t, ResolveAdd(c, m, |s.kernel|)).(kernel := s.kernel + [Kernel(c, true)])
    ensures var id := |s.kernel|;
      && Gets(s, t, s.(kernel := s.kernel + [Kernel(c, true)], bindings := s.bindings + [Binding(c, id, m)]).Store(c, Id(id)))
      && Gets(s, t, s.(kernel := s.kernel + [Kernel(c, false)]))
  {
    hide Gets;
    var id := |s.kernel|;
    var s3 := s2.(bindings := s.bindings + [Binding(c, id, m)]).At(t, ResolvePublish(c, m, id));
    var s4 := s3.Store(c, Id(id)).At(t, ResolveDone);
    Then(s, t, s2, s3);
    Then(s, t, s3, s4);
    Released(s, t, s4);
    var f3 := s2.Kill(id).At(t, ResolveDone);
    Then(s, t, s2, f3);
    assert f3.kernel == s.kernel + [Kernel(c, false)];
    Released(s, t, f3);
  }

  // Where another wait has created the cond meanwhile, or it is being unbound, nothing changes.
  lemma ResolveAgain(s: State, t: int, c: int, m: int)
    requires Ready(s, t) && s.NoneDestroys(c) && (s.Val(c).Id? || s.Val(c).Unbinding?)
    ensures Gets(s, t, Inside(s, t, Resolve(c, m))) && Gets(Inside(s, t, Resolve(c, m)), t, Inside(s, t, ResolveDone))
    ensures forall s' :: ResolveStep(Inside(s, t, Resolve(c, m)), t, s') ==> s' == Inside(s, t, ResolveDone)
  {
    hide Gets;
    var s1 := Inside(s, t, Resolve(c, m));
    Stays(s, t);
    Then(s, t, s, s1);
    assert s1.At(t, ResolveDone).threads == Inside(s, t, ResolveDone).threads;
    Stays(s1, t);
    Then(s1, t, s1, Inside(s, t, ResolveDone));
  }

  // pthread_cond_destroy of a cond never created leaves its word as before the first use, ...
  lemma DestroyUnused(s: State, t: int, c: int)
    requires Ready(s, t) && Quiet(s, c) && (s.Val(c).Uninit? || s.Val(c).Static?)
    ensures Gets(s, t, s.Store(c, Uninit))
  {
    hide Gets;
    var s1 := s.At(t, DestroyLoad(c));
    Stays(s, t);
    Then(s, t, s, s1);
    var s2 := s1.At(t, DestroyClear(c));
    Then(s, t, s1, s2);
    var s3 := s2.Store(c, Uninit).At(t, Idle);
    assert s3.threads == s.threads;
    Then(s, t, s2, s3);
  }

  // ... of one created takes the kernel cond and its binding with it, or nothing when the kernel
  // refuses.
  lemma DestroyAlone(s: State, t: int, c: int)
    requires Ready(s, t) && Quiet(s, c) && s.Val(c).Id? && s.Live(s.Val(c).id)
    ensures Gets(s, t, s.Kill(s.Val(c).id).(bindings := RemovedId(s.bindings, s.Val(c).id, 0)).Store(c, Uninit))
    ensures Gets(s, t, Inside(s, t, DestroyDone(c)))
  {
    hide Gets, RemovedId;
    var id := s.Val(c).id;
    DestroyEnters(s, t, c);
    var s3 := Inside(s, t, DestroyKill(c));
    assert s3.At(t, DestroyDone(c)) == Inside(s, t, DestroyDone(c));
    Then(s, t, s3, Inside(s, t, DestroyDone(c)));
    var s4 := s3.Kill(id).At(t, DestroyRemove(c, id));
    Then(s, t, s3, s4);
    DestroyRuns(s, t, s4, c, id);
  }

  lemma DestroyEnters(s: State, t: int, c: int)
    requires Ready(s, t) && Quiet(s, c) && (s.Val(c).Id? || s.Val(c).Unbinding?)
    ensures Gets(s, t, Inside(s, t, DestroyKill(c)))
  {
    hide Gets;
    var s1 := s.At(t, DestroyLoad(c));
    Stays(s, t);
    Then(s, t, s, s1);
    var s2 := s1.At(t, DestroyLock(c));
    Then(s, t, s1, s2);
    var s3 := s2.(holder := Some(t)).At(t, DestroyKill(c));
    Then(s, t, s2, s3);
    assert s3 == Inside(s, t, DestroyKill(c));
  }

  lemma DestroyRuns(s: State, t: int, s4: State, c: int, id: int)
    requires Ready(s, t) && s.Live(id) && Gets(s, t, s4) && s4 == Inside(s, t, DestroyKill(c)).Kill(id).At(t, DestroyRemove(c, id))
    ensures Gets(s, t, s.Kill(id).(bindings := RemovedId(s.bindings, id, 0)).Store(c, Uninit))
  {
    hide Gets, RemovedId;
    var s5 := s4.(bindings := RemovedId(s.bindings, id, 0)).At(t, DestroyStore(c));
    var s6 := s5.Store(c, Uninit).At(t, DestroyDone(c));
    Then(s, t, s4, s5);
    Then(s, t, s5, s6);
    Released(s, t, s6);
  }

  // A cond that is being unbound is no cond to the kernel: nothing changes.
  lemma DestroyUnbinding(s: State, t: int, c: int)
    requires Ready(s, t) && Quiet(s, c) && s.Val(c).Unbinding?
    ensures Gets(s, t, Inside(s, t, DestroyKill(c)))
    ensures forall s' :: DestroyStep(Inside(s, t, DestroyKill(c)), t, s') <==> s' == Inside(s, t, DestroyDone(c))
  {
    hide Gets;
    DestroyEnters(s, t, c);
    assert Inside(s, t, DestroyKill(c)).At(t, DestroyDone(c)) == Inside(s, t, DestroyDone(c));
  }

  // ---- unbinding ----

  // The word of a bound cond that is public is free for the next creation; another is left alone.
  function Withdrawn(s: State, b: Binding): State { if s.Val(b.cond) == Id(b.id) then s.Store(b.cond, Uninit) else s }

  // One binding of the mutex: its kernel cond goes, the binding goes, the word is withdrawn.
  function Freed(s: State, i: nat): State
    requires i < |s.bindings| && s.Live(s.bindings[i].id)
  {
    Withdrawn(s, s.bindings[i]).Kill(s.bindings[i].id).(bindings := SwapRemoved(s.bindings, i))
  }

  lemma UnbindEnters(s: State, t: int, m: int)
    requires Ready(s, t)
    ensures Gets(s, t, Inside(s, t, Unbind(m, 0, s.bindings)))
  {
    Stays(s, t);
    Then(s, t, s, Inside(s, t, Unbind(m, 0, s.bindings)));
  }

  // Up to the kernel's answer.
  function Asked(s: State, t: int, m: int, i: nat, start: seq<Binding>): State
    requires 0 <= t < |s.threads| && i < |s.bindings|
  {
    var b := s.bindings[i];
    var published := s.Val(b.cond) == Id(b.id);
    Inside(if published then s.Store(b.cond, Unbinding) else s, t, UnbindKill(m, i, start, b, published))
  }

  lemma UnbindAsks(q: State, s: State, t: int, m: int, i: nat, start: seq<Binding>)
    requires 0 <= t < |s.threads| && i < |s.bindings| && s.bindings[i].mutex == m && s.inflight == 0
    requires Gets(q, t, Inside(s, t, Unbind(m, i, start)))
    ensures Gets(q, t, Asked(s, t, m, i, start))
  {
    hide Gets;
    var b := s.bindings[i];
    var published := s.Val(b.cond) == Id(b.id);
    var s1 := Inside(s, t, Unbind(m, i, start));
    var s2 := (if published then s1.Store(b.cond, Unbinding) else s1).At(t, UnbindWait(m, i, start, b, published));
    Then(q, t, s1, s2);
    assert s2.At(t, UnbindKill(m, i, start, b, published)) == Asked(s, t, m, i, start);
    Then(q, t, s2, Asked(s, t, m, i, start));
  }

  // When the kernel destroys the cond.
  lemma UnbindFrees(q: State, s: State, t: int, m: int, i: nat, start: seq<Binding>)
    requires 0 <= t < |s.threads| && i < |s.bindings| && s.bindings[i].mutex == m && s.inflight == 0
    requires s.Live(s.bindings[i].id) && Gets(q, t, Inside(s, t, Unbind(m, i, start)))
    ensures Gets(q, t, Inside(Freed(s, i), t, Unbind(m, i, start)))
  {
    hide Gets, SwapRemoved;
    var b := s.bindings[i];
    var published := s.Val(b.cond) == Id(b.id);
    UnbindAsks(q, s, t, m, i, start);
    var s3 := Asked(s, t, m, i, start);
    var s4 := s3.Kill(b.id).At(t, UnbindClear(m, i, start, b, published));
    Then(q, t, s3, s4);
    var s5 := (if published then s4.Store(b.cond, Uninit) else s4).At(t, UnbindDrop(m, i, start, b));
    Then(q, t, s4, s5);
    var s6 := s5.(bindings := SwapRemoved(s.bindings, i)).At(t, Unbind(m, i, start));
    Then(q, t, s5, s6);
    assert s6.threads == s.threads[t := Unbind(m, i, start)];
    assert published ==> s6.values == s.values[b.cond := Uninit];
    assert s6 == Inside(Freed(s, i), t, Unbind(m, i, start));
  }

  // When threads wait on it: the call ends with everything as it was, the cond's word among it.
  lemma UnbindBusy(q: State, s: State, t: int, m: int, i: nat, start: seq<Binding>)
    requires 0 <= t < |s.threads| && i < |s.bindings| && s.bindings[i].mutex == m && s.inflight == 0
    requires Gets(q, t, Inside(s, t, Unbind(m, i, start)))
    ensures Gets(q, t, Inside(s, t, UnbindDone(m, start, true)))
  {
    hide Gets;
    var b := s.bindings[i];
    var published := s.Val(b.cond) == Id(b.id);
    UnbindAsks(q, s, t, m, i, start);
    var s3 := Asked(s, t, m, i, start);
    var s4 := s3.At(t, UnbindRestore(m, i, start, b, published));
    Then(q, t, s3, s4);
    var s5 := (if published then s4.Store(b.cond, Id(b.id)) else s4).At(t, UnbindDone(m, start, true));
    Then(q, t, s4, s5);
    assert s5.threads == s.threads[t := UnbindDone(m, start, true)];
    assert s5.values == s.values;
    assert s5 == Inside(s, t, UnbindDone(m, start, true));
  }

  // However the kernel answers, the word of a cond whose binding stays holds its id again when the
  // call ends, unless somebody else has stored to it.
  lemma RestoreGivesBack(s: State, t: int, s': State)
    requires 0 <= t < |s.threads| && s.threads[t].UnbindRestore? && UnbindStep(s, t, s')
    ensures var at := s.threads[t];
      && (at.published ==> s'.Val(at.b.cond) == Id(at.b.id)) && (!at.published ==> s'.values == s.values)
      && (forall c :: c != at.b.cond ==> s'.Val(c) == s.Val(c)) && s'.bindings == s.bindings && s'.kernel == s.kernel
  {
  }

  lemma UnbindSkips(q: State, s: State, t: int, m: int, i: nat, start: seq<Binding>)
    requires 0 <= t < |s.threads| && Gets(q, t, Inside(s, t, Unbind(m, i, start)))
    ensures i < |s.bindings| && s.bindings[i].mutex != m ==> Gets(q, t, Inside(s, t, Unbind(m, i + 1, start)))
    ensures i >= |s.bindings| ==> Gets(q, t, Inside(s, t, UnbindDone(m, start, false)))
  {
    hide Gets;
    var s1 := Inside(s, t, Unbind(m, i, start));
    if i >= |s.bindings| {
      assert s1.At(t, UnbindDone(m, start, false)) == Inside(s, t, UnbindDone(m, start, false));
      Then(q, t, s1, Inside(s, t, UnbindDone(m, start, false)));
    } else if s.bindings[i].mutex != m {
      assert s1.At(t, Unbind(m, i + 1, start)) == Inside(s, t, Unbind(m, i + 1, start));
      Then(q, t, s1, Inside(s, t, Unbind(m, i + 1, start)));
    }
  }

  // The table as unbinding finds it: kernel conds all different and alive.
  predicate Sound(s: State) {
    && (forall k :: 0 <= k < |s.bindings| ==> s.Live(s.bindings[k].id))
    && forall j, k :: 0 <= j < k < |s.bindings| ==> s.bindings[j].id != s.bindings[k].id
  }

  lemma FreedSound(s: State, i: nat)
    requires i < |s.bindings| && Sound(s)
    ensures Sound(Freed(s, i))
  {
    var bs := SwapRemoved(s.bindings, i);
    assert forall k :: 0 <= k < |bs| ==> bs[k] == if k == i then s.bindings[|bs|] else s.bindings[k];
  }

  // All of the mutex's bindings freed, one after the other, in the order the scan meets them.
  function AllFreed(s: State, m: int, i: nat): State
    requires Sound(s)
    decreases |s.bindings| - i
  {
    if i >= |s.bindings| then s
    else if s.bindings[i].mutex != m then AllFreed(s, m, i + 1)
    else
      FreedSound(s, i);
      AllFreed(Freed(s, i), m, i)
  }

  lemma {:induction false} UnbindRuns(q: State, s: State, t: int, m: int, i: nat, start: seq<Binding>)
    requires 0 <= t < |s.threads| && Sound(s) && s.inflight == 0 && Gets(q, t, Inside(s, t, Unbind(m, i, start)))
    ensures AllFreed(s, m, i).threads == s.threads && Gets(q, t, Inside(AllFreed(s, m, i), t, UnbindDone(m, start, false)))
    ensures (forall k :: 0 <= k < i && k < |s.bindings| ==> s.bindings[k].mutex != m) ==> Unbound(AllFreed(s, m, i).bindings, m)
    decreases |s.bindings| - i
  {
    hide Gets, Inside, Freed;
    UnbindSkips(q, s, t, m, i, start);
    if i < |s.bindings| {
      if s.bindings[i].mutex != m {
        UnbindRuns(q, s, t, m, i + 1, start);
      } else {
        FreedSound(s, i);
        FreedIs(s, i);
        UnbindFrees(q, s, t, m, i, start);
        UnbindRuns(q, Freed(s, i), t, m, i, start);
      }
    }
  }

  lemma FreedIs(s: State, i: nat)
    requires i < |s.bindings| && s.Live(s.bindings[i].id)
    ensures Freed(s, i).threads == s.threads && Freed(s, i).inflight == s.inflight && |Freed(s, i).bindings| == |s.bindings| - 1
    ensures forall k :: 0 <= k < i ==> Freed(s, i).bindings[k] == s.bindings[k]
  {
  }

  // Alone, with no signal counted, unbinding frees all of the mutex's conds and gives the lock back.
  lemma UnbindAlone(s: State, t: int, m: int)
    requires Ready(s, t) && Sound(s) && s.inflight == 0
    ensures Gets(s, t, AllFreed(s, m, 0).(holder := None)) && Unbound(AllFreed(s, m, 0).bindings, m)
  {
    hide Gets, AllFreed;
    UnbindEnters(s, t, m);
    UnbindRuns(s, s, t, m, 0, s.bindings);
    Released(s, t, Inside(AllFreed(s, m, 0), t, UnbindDone(m, s.bindings, false)));
  }

  // A table between calls is sound.
  lemma QuietIsSound(states: seq<State>, k: nat)
    requires Run(states) && k < |states| && states[k].holder == None
    ensures Sound(states[k])
  {
    hide Run;
    EveryState(states, k);
    QuietBound(states[k]);
  }

  lemma QuietBound(s: State)
    requires Inv(s) && s.holder == None
    ensures Sound(s)
  {
    hide Published, Threads, Locked;
  }

  // ---- runs ----

  // What a thread does alone is a run's going on.
  lemma {:induction false} RunsGoOn(states: seq<State>, more: seq<State>, t: int)
    requires Run(states) && Solo(more, t) && more[0] == states[|states| - 1]
    ensures Run(states + more[1..])
    decreases |more|
  {
    hide Acts, Initial;
    if |more| == 1 {
      assert states + more[1..] == states;
    } else {
      assert SoloAt(more, t, 0);
      assert Step(more[0], more[1]);
      var longer, rest := states + [more[1]], more[1..];
      forall k | 0 <= k < |rest| - 1
        ensures SoloAt(rest, t, k)
      {
        assert SoloAt(more, t, k + 1);
      }
      RunsGoOn(longer, rest, t);
      assert longer + rest[1..] == states + more[1..];
    }
  }

  lemma Begins(values: map<int, Value>, threads: nat)
    requires forall c :: c in values ==> values[c].Uninit? || values[c].Static?
    ensures Run([State(values, [], 0, None, [], seq(threads, _ => Idle))])
  {
  }
}
