// reaching_ha: a backward search for the addis that supplies the high half of a TOC access.
module HaSearch {
  import opened Collections
  import opened FlowGraph

  type Key = (int, int)          // symbol and addend

  datatype HaSite = HaSite(index: int, reg: int, key: Key)

  // The section's control flow, its TOC16_HA sites by offset, and what each instruction may
  // write; an instruction without a listed write set may write anything.
  datatype Section = Section(preds: map<int, seq<int>>, entries: set<int>, bad: bool, unknown: bool,
                             haAt: map<int, HaSite>, writes: map<int, set<int>>)
  {
    function Preds(n: int): seq<int> { if n in preds then preds[n] else [] }
    predicate Edge(p: int, n: int) { Lists(preds, n, p) }
    predicate MayWrite(p: int, reg: int) { p !in writes || reg in writes[p] }
    predicate Supplies(p: int, reg: int) { p in haAt && haAt[p].reg == reg }
    // Control passes through p with reg as it was.
    predicate Transparent(p: int, reg: int) { !Supplies(p, reg) && !MayWrite(p, reg) && p !in entries }
  }

  datatype Verdict =
    | Found(sites: set<int>)
    | BadFlow
    | UseIsEntry
    | OtherTarget(at: int)
    | MayChange(at: int)
    | FromEntry(at: int)

  // A way from p to the use on which nothing behind p writes reg or is an entry.
  ghost predicate BackPath(sec: Section, use: int, reg: int, path: seq<int>) {
    && |path| >= 2 && path[|path| - 1] == use
    && (forall k {:trigger EdgeOn(sec, path, k)} :: 0 <= k < |path| - 1 ==> EdgeOn(sec, path, k))
    && (forall k :: 1 <= k < |path| - 1 ==> sec.Transparent(path[k], reg))
  }

  ghost predicate EdgeOn(sec: Section, path: seq<int>, k: int)
    requires 0 <= k < |path| - 1
  {
    sec.Edge(path[k], path[k + 1])
  }

  // An execution from an entry point to the use, as the instructions it goes through.
  ghost predicate Walk(sec: Section, use: int, o: seq<int>) {
    && |o| >= 1 && o[0] in sec.entries && o[|o| - 1] == use
    && forall k {:trigger EdgeOn(sec, o, k)} :: 0 <= k < |o| - 1 ==> EdgeOn(sec, o, k)
  }

  // On the walk, the last instruction before the use that may write reg is the addis of one
  // of the given sites, with the right target.
  ghost predicate SuppliedBy(sec: Section, o: seq<int>, reg: int, key: Key, sites: set<int>) {
    exists k :: 0 <= k < |o| - 1 && LastWriter(sec, o, reg, k)
                && sec.Supplies(o[k], reg) && sec.haAt[o[k]].key == key && sec.haAt[o[k]].index in sites
  }

  ghost predicate LastWriter(sec: Section, o: seq<int>, reg: int, k: int)
    requires 0 <= k < |o| - 1
  {
    forall i :: k < i < |o| - 1 ==> !sec.Supplies(o[i], reg) && !sec.MayWrite(o[i], reg)
  }

  // ---- what the search has established ----

  // Everything seen is settled, and its predecessors are seen or waiting.
  ghost predicate Explored(sec: Section, reg: int, key: Key, seen: set<int>, stack: seq<int>, found: set<int>) {
    forall p :: p in seen ==>
      if sec.Supplies(p, reg) then sec.haAt[p].key == key && sec.haAt[p].index in found
      else sec.Transparent(p, reg) && forall q :: sec.Edge(q, p) ==> q in seen || q in stack
  }

  // A way from p to the use that the search has followed backwards.
  ghost predicate Way(sec: Section, use: int, reg: int, p: int, path: seq<int>) {
    BackPath(sec, use, reg, path) && path[0] == p
  }

  ghost predicate Pending(sec: Section, use: int, reg: int, via: map<int, seq<int>>, stack: seq<int>) {
    forall p :: p in stack ==> p in via && Way(sec, use, reg, p, via[p])
  }

  // The use's own predecessors are seen or waiting.
  ghost predicate Begun(sec: Section, use: int, seen: set<int>, stack: seq<int>) {
    forall q :: sec.Edge(q, use) ==> q in seen || q in stack
  }

  ghost predicate Arrivals(sec: Section, use: int, reg: int, found: set<int>) {
    forall j :: j in found ==> Arrives(sec, use, reg, j)
  }

  lemma Extend(sec: Section, use: int, reg: int, path: seq<int>, q: int)
    requires BackPath(sec, use, reg, path) && sec.Transparent(path[0], reg) && sec.Edge(q, path[0])
    ensures BackPath(sec, use, reg, [q] + path)
  {
    var longer := [q] + path;
    forall k | 0 <= k < |longer| - 1
      ensures EdgeOn(sec, longer, k)
    {
      if k > 0 { assert EdgeOn(sec, path, k - 1); }
    }
  }

  // The addis sites whose value arrives at the use.
  ghost predicate Arrives(sec: Section, use: int, reg: int, index: int) {
    exists path :: BackPath(sec, use, reg, path) && sec.Supplies(path[0], reg) && sec.haAt[path[0]].index == index
  }

  // The reason a refusal names is real.
  ghost predicate Refused(sec: Section, use: int, reg: int, key: Key, v: Verdict, way: seq<int>) {
    match v
    case Found(_) => true
    case BadFlow => sec.bad || sec.unknown
    case UseIsEntry => use in sec.entries
    case OtherTarget(p) => Way(sec, use, reg, p, way) && sec.Supplies(p, reg) && sec.haAt[p].key != key
    case MayChange(p) => Way(sec, use, reg, p, way) && !sec.Supplies(p, reg) && sec.MayWrite(p, reg)
    case FromEntry(p) => Way(sec, use, reg, p, way) && !sec.Supplies(p, reg) && p in sec.entries
  }

  // The nodes an edge can start from.
  ghost function Sources(sec: Section): set<int> {
    set n, k | n in sec.preds && 0 <= k < |sec.preds[n]| :: sec.preds[n][k]
  }

  // Dropping the top of the stack once it is settled, or already seen.
  lemma Dropped(sec: Section, use: int, reg: int, key: Key, seen: set<int>, stack: seq<int>, found: set<int>,
                via: map<int, seq<int>>, seen': set<int>, found': set<int>, rest: seq<int>)
    requires stack != [] && rest == stack[..|stack| - 1]
    requires Explored(sec, reg, key, seen, stack, found) && Begun(sec, use, seen, stack)
    requires Pending(sec, use, reg, via, stack)
    requires seen' == seen + {stack[|stack| - 1]} && found <= found'
    requires stack[|stack| - 1] in seen
             || (sec.Supplies(stack[|stack| - 1], reg) && sec.haAt[stack[|stack| - 1]].key == key
                 && sec.haAt[stack[|stack| - 1]].index in found')
    ensures Explored(sec, reg, key, seen', rest, found') && Begun(sec, use, seen', rest)
    ensures Pending(sec, use, reg, via, rest)
  {
    hide BackPath, Way, Section.Edge, Section.Supplies, Section.Transparent;
    assert forall q :: q in stack ==> q in rest || q == stack[|stack| - 1];
  }

  // Going on to the predecessors of a transparent instruction.
  lemma Pushed(sec: Section, use: int, reg: int, key: Key, seen: set<int>, stack: seq<int>, found: set<int>,
               via: map<int, seq<int>>, rest: seq<int>)
    returns (via': map<int, seq<int>>)
    requires stack != [] && rest == stack[..|stack| - 1] + sec.Preds(stack[|stack| - 1])
    requires Explored(sec, reg, key, seen, stack, found) && Begun(sec, use, seen, stack)
    requires Pending(sec, use, reg, via, stack)
    requires sec.Transparent(stack[|stack| - 1], reg)
    ensures Explored(sec, reg, key, seen + {stack[|stack| - 1]}, rest, found)
    ensures Begun(sec, use, seen + {stack[|stack| - 1]}, rest) && Pending(sec, use, reg, via', rest)
  {
    hide BackPath, Section.MayWrite;
    var p := stack[|stack| - 1];
    assert Way(sec, use, reg, p, via[p]);
    assert forall q :: q in stack ==> q in rest || q == p;
    assert forall q :: sec.Edge(q, p) ==> q in rest;
    forall q | sec.Edge(q, p)
      ensures Way(sec, use, reg, q, [q] + via[p])
    {
      Extend(sec, use, reg, via[p], q);
    }
    via' := via + map q | q in sec.Preds(p) :: [q] + via[p];
    forall q | q in rest
      ensures q in via' && Way(sec, use, reg, q, via'[q])
    {
      if q in sec.Preds(p) { assert sec.Edge(q, p); } else { assert q in stack; }
    }
  }

  // Only predecessors are ever on the stack.
  ghost predicate FromSources(sec: Section, stack: seq<int>) {
    forall p :: p in stack ==> p in Sources(sec)
  }

  lemma TopIsSource(sec: Section, stack: seq<int>)
    requires FromSources(sec, stack) && stack != []
    ensures FromSources(sec, stack[..|stack| - 1]) && stack[|stack| - 1] in Sources(sec)
  {
    var p := stack[|stack| - 1];
    assert p in stack;
  }

  lemma PredsAreSources(sec: Section, p: int, stack: seq<int>)
    requires FromSources(sec, stack)
    ensures FromSources(sec, stack + sec.Preds(p))
  {
  }

  lemma Starts(sec: Section, use: int, reg: int, key: Key, via: map<int, seq<int>>)
    requires via == map p | p in sec.Preds(use) :: [p, use]
    ensures Explored(sec, reg, key, {}, sec.Preds(use), {}) && Begun(sec, use, {}, sec.Preds(use))
    ensures FromSources(sec, sec.Preds(use))
    ensures Pending(sec, use, reg, via, sec.Preds(use))
  {
    forall p | p in sec.Preds(use)
      ensures Way(sec, use, reg, p, via[p])
    {
      assert sec.Edge(p, use);
      assert forall k :: 0 <= k < |[p, use]| - 1 ==> EdgeOn(sec, [p, use], k);
    }
  }

  // Every way back ends at an addis of the right target before anything else may write reg
  // and before any entry: what a list without a reason means.
  ghost predicate Clean(sec: Section, use: int, reg: int, key: Key) {
    && !sec.bad && !sec.unknown && use !in sec.entries
    && forall path :: BackPath(sec, use, reg, path) ==> CleanAt(sec, path[0], reg, key)
  }

  ghost predicate CleanAt(sec: Section, p: int, reg: int, key: Key) {
    if sec.Supplies(p, reg) then sec.haAt[p].key == key else sec.Transparent(p, reg)
  }

  lemma {:induction false} WaySeen(sec: Section, use: int, reg: int, key: Key, seen: set<int>, found: set<int>,
                                   path: seq<int>)
    requires Explored(sec, reg, key, seen, [], found) && Begun(sec, use, seen, []) && BackPath(sec, use, reg, path)
    ensures path[0] in seen
  {
    assert EdgeOn(sec, path, 0);
    if |path| > 2 {
      var rest := path[1..];
      forall k | 0 <= k < |rest| - 1
        ensures EdgeOn(sec, rest, k)
      {
        assert EdgeOn(sec, path, k + 1);
      }
      WaySeen(sec, use, reg, key, seen, found, rest);
      assert sec.Transparent(path[1], reg);
    }
  }

  lemma Exact(sec: Section, use: int, reg: int, key: Key, seen: set<int>, found: set<int>)
    requires Explored(sec, reg, key, seen, [], found) && Begun(sec, use, seen, [])
    requires !sec.bad && !sec.unknown && use !in sec.entries
    ensures Clean(sec, use, reg, key)
    ensures forall j :: Arrives(sec, use, reg, j) ==> j in found
  {
    forall path | BackPath(sec, use, reg, path)
      ensures CleanAt(sec, path[0], reg, key)
      ensures sec.Supplies(path[0], reg) ==> sec.haAt[path[0]].index in found
    {
      WaySeen(sec, use, reg, key, seen, found, path);
    }
  }

  // Followed back from the use, a walk meets an addis that arrives before anything else that
  // may write the register, and before its entry.
  lemma {:induction false} WalkedBack(sec: Section, use: int, reg: int, key: Key, o: seq<int>, n: nat) returns (k: nat)
    requires Clean(sec, use, reg, key) && Walk(sec, use, o) && n < |o| - 1
    requires forall i :: n < i < |o| - 1 ==> sec.Transparent(o[i], reg)
    ensures k < |o| - 1 && LastWriter(sec, o, reg, k)
    ensures sec.Supplies(o[k], reg) && sec.haAt[o[k]].key == key && Arrives(sec, use, reg, sec.haAt[o[k]].index)
  {
    var path := o[n..];
    forall i | 0 <= i < |path| - 1
      ensures EdgeOn(sec, path, i)
    {
      assert EdgeOn(sec, o, n + i);
    }
    assert BackPath(sec, use, reg, path);
    assert CleanAt(sec, path[0], reg, key);
    if sec.Supplies(o[n], reg) {
      k := n;
    } else {
      k := WalkedBack(sec, use, reg, key, o, n - 1);
    }
  }

  // A clean use gets the register from an addis that arrives, on every execution.
  lemma CleanIsSupplied(sec: Section, use: int, reg: int, key: Key, o: seq<int>) returns (k: nat)
    requires Clean(sec, use, reg, key) && Walk(sec, use, o)
    ensures k < |o| - 1 && LastWriter(sec, o, reg, k)
    ensures sec.Supplies(o[k], reg) && sec.haAt[o[k]].key == key && Arrives(sec, use, reg, sec.haAt[o[k]].index)
  {
    k := WalkedBack(sec, use, reg, key, o, |o| - 2);
  }

  // Registers before each instruction of a walk: one with a listed write set keeps the others.
  ghost predicate Kept(sec: Section, o: seq<int>, run: seq<int -> int>) {
    |run| == |o| && forall k {:trigger run[k]} :: 0 <= k < |o| - 1 && o[k] in sec.writes ==> KeptBy(sec.writes[o[k]], run[k], run[k + 1])
  }

  ghost predicate KeptBy(written: set<int>, was: int -> int, now: int -> int) { forall r :: r !in written ==> now(r) == was(r) }

  // What the last writer left in the register is there at the use.
  lemma {:induction false} ValueArrives(sec: Section, o: seq<int>, run: seq<int -> int>, reg: int, k: nat, n: nat)
    requires k < n < |o| && LastWriter(sec, o, reg, k) && Kept(sec, o, run)
    ensures run[n](reg) == run[k + 1](reg)
  {
    if n > k + 1 {
      ValueArrives(sec, o, run, reg, k, n - 1);
      assert !sec.MayWrite(o[n - 1], reg);
      assert KeptBy(sec.writes[o[n - 1]], run[n - 1], run[n]);
    }
  }

  // Every execution sets the register for the use by an addis of the target.
  ghost predicate AlwaysSupplied(sec: Section, use: int, reg: int, key: Key) {
    forall o :: Walk(sec, use, o) ==> exists k :: 0 <= k < |o| - 1 && SuppliedAt(sec, o, reg, key, k)
  }

  ghost predicate SuppliedAt(sec: Section, o: seq<int>, reg: int, key: Key, k: int)
    requires 0 <= k < |o| - 1
  {
    LastWriter(sec, o, reg, k) && sec.Supplies(o[k], reg) && sec.haAt[o[k]].key == key
  }

  // Executions come to every instruction there is a way back to.
  ghost predicate AllRun(sec: Section, use: int, reg: int) {
    forall path :: BackPath(sec, use, reg, path) ==> exists o :: Walk(sec, path[0], o)
  }

  lemma WalkOn(sec: Section, use: int, reg: int, o: seq<int>, path: seq<int>)
    requires BackPath(sec, use, reg, path) && Walk(sec, path[0], o)
    ensures Walk(sec, use, o + path[1..])
  {
    var way := o + path[1..];
    forall k | 0 <= k < |way| - 1
      ensures EdgeOn(sec, way, k)
    {
      if k < |o| - 1 {
        assert EdgeOn(sec, o, k);
      } else {
        assert way[k] == path[k - (|o| - 1)] && way[k + 1] == path[k - (|o| - 1) + 1];
        assert EdgeOn(sec, path, k - (|o| - 1));
      }
    }
  }

  // On a walk that goes on along a way back, what supplies the use comes no later than the way's
  // first instruction, and is that one if it may write the register.
  lemma SuppliedEarly(sec: Section, use: int, reg: int, key: Key, o: seq<int>, path: seq<int>, k: int)
    requires BackPath(sec, use, reg, path) && o != [] && o[|o| - 1] == path[0]
    requires 0 <= k < |o + path[1..]| - 1 && SuppliedAt(sec, o + path[1..], reg, key, k)
    ensures k <= |o| - 1 && (sec.Supplies(path[0], reg) || sec.MayWrite(path[0], reg) ==> k == |o| - 1)
  {
    var way := o + path[1..];
    assert way[|o| - 1] == path[0];
    assert forall i :: |o| - 1 < i < |way| - 1 ==> way[i] == path[i - (|o| - 1)];
  }

  // A use that every execution supplies is clean: the search gives up no more than it must.
  lemma SuppliedIsClean(sec: Section, use: int, reg: int, key: Key)
    requires !sec.bad && !sec.unknown && AllRun(sec, use, reg) && AlwaysSupplied(sec, use, reg, key)
    ensures Clean(sec, use, reg, key)
  {
    if use in sec.entries { assert Walk(sec, use, [use]); }
    forall path | BackPath(sec, use, reg, path)
      ensures CleanAt(sec, path[0], reg, key)
    {
      var o :| Walk(sec, path[0], o);
      CleanStart(sec, use, reg, key, o, path);
    }
  }

  lemma CleanStart(sec: Section, use: int, reg: int, key: Key, o: seq<int>, path: seq<int>)
    requires AlwaysSupplied(sec, use, reg, key) && BackPath(sec, use, reg, path) && Walk(sec, path[0], o)
    ensures CleanAt(sec, path[0], reg, key)
  {
    hide SuppliedAt;
    WalkOn(sec, use, reg, o, path);
    assert Walk(sec, use, o + path[1..]);
    var k :| 0 <= k < |o + path[1..]| - 1 && SuppliedAt(sec, o + path[1..], reg, key, k);
    SuppliedEarly(sec, use, reg, key, o, path, k);
    SuppliedIs(sec, o + path[1..], reg, key, k);
    if path[0] in sec.entries && !sec.Supplies(path[0], reg) {
      var e := [path[0]];
      assert Walk(sec, path[0], e);
      WalkOn(sec, use, reg, e, path);
      assert Walk(sec, use, e + path[1..]);
      var i :| 0 <= i < |e + path[1..]| - 1 && SuppliedAt(sec, e + path[1..], reg, key, i);
      SuppliedEarly(sec, use, reg, key, e, path, i);
      SuppliedIs(sec, e + path[1..], reg, key, i);
      assert false;
    }
  }

  lemma SuppliedIs(sec: Section, o: seq<int>, reg: int, key: Key, k: int)
    requires 0 <= k < |o| - 1 && SuppliedAt(sec, o, reg, key, k)
    ensures sec.Supplies(o[k], reg) && sec.haAt[o[k]].key == key
  {
  }

  // Where executions come to everything, the answer is a list exactly when every execution gets
  // the register from an addis of the target.
  lemma CleanExactly(sec: Section, use: int, reg: int, key: Key)
    requires !sec.bad && !sec.unknown && AllRun(sec, use, reg)
    ensures Clean(sec, use, reg, key) <==> AlwaysSupplied(sec, use, reg, key)
  {
    hide BackPath, Walk;
    if Clean(sec, use, reg, key) {
      forall o | Walk(sec, use, o)
        ensures exists k :: 0 <= k < |o| - 1 && SuppliedAt(sec, o, reg, key, k)
      {
        var k := CleanIsSupplied(sec, use, reg, key, o);
        assert SuppliedAt(sec, o, reg, key, k);
      }
    }
    if AlwaysSupplied(sec, use, reg, key) { SuppliedIsClean(sec, use, reg, key); }
  }

  lemma Complete(sec: Section, use: int, reg: int, key: Key, found: set<int>)
    requires Clean(sec, use, reg, key) && forall j :: Arrives(sec, use, reg, j) ==> j in found
    ensures forall o :: Walk(sec, use, o) ==> SuppliedBy(sec, o, reg, key, found)
  {
    forall o | Walk(sec, use, o)
      ensures SuppliedBy(sec, o, reg, key, found)
    {
      var k := CleanIsSupplied(sec, use, reg, key, o);
    }
  }

  // The search ends on every graph, cyclic ones included, and its list is complete: every
  // execution gets the register from a listed site.  Nothing is listed or refused idly.
  method ReachingHa(sec: Section, use: int, reg: int, key: Key) returns (v: Verdict, ghost way: seq<int>)
    ensures v.Found? ==> forall o :: Walk(sec, use, o) ==> SuppliedBy(sec, o, reg, key, v.sites)
    ensures v.Found? <==> Clean(sec, use, reg, key)
    ensures v.Found? ==> forall j :: j in v.sites <==> Arrives(sec, use, reg, j)
    ensures Refused(sec, use, reg, key, v, way)
  {
    hide BackPath, Explored, Begun, Walk, SuppliedBy, Section.Edge, Sources, FromSources;
    way := [];
    if sec.bad || sec.unknown {
      return BadFlow, way;
    }
    if use in sec.entries {
      return UseIsEntry, way;
    }
    var stack := sec.Preds(use);
    var found, seen: set<int> := {}, {};
    ghost var via := map p | p in sec.Preds(use) :: [p, use];
    Starts(sec, use, reg, key, via);
    while stack != []
      invariant Explored(sec, reg, key, seen, stack, found) && Begun(sec, use, seen, stack)
      invariant Pending(sec, use, reg, via, stack) && FromSources(sec, stack)
      invariant Arrivals(sec, use, reg, found)
      decreases |Sources(sec) - seen|, |stack|
    {
      var p := stack[|stack| - 1];
      ghost var was, before := stack, seen;
      stack := stack[..|stack| - 1];
      TopIsSource(sec, was);
      if p in seen {
        SelfUnion(seen, p);
        Dropped(sec, use, reg, key, seen, was, found, via, seen, found, stack);
        continue;
      }
      assert Way(sec, use, reg, p, via[p]);
      seen := seen + {p};
      Fewer(Sources(sec), before, p);
      if sec.Supplies(p, reg) {
        if sec.haAt[p].key != key {
          return OtherTarget(p), via[p];
        }
        ghost var sofar := found;
        found := found + {sec.haAt[p].index};
        Dropped(sec, use, reg, key, before, was, sofar, via, seen, found, stack);
        continue;
      }
      if sec.MayWrite(p, reg) {
        return MayChange(p), via[p];
      }
      if p in sec.entries {
        return FromEntry(p), via[p];
      }
      via := Pushed(sec, use, reg, key, before, was, found, via, stack + sec.Preds(p));
      PredsAreSources(sec, p, stack);
      stack := stack + sec.Preds(p);
    }
    Exact(sec, use, reg, key, seen, found);
    Complete(sec, use, reg, key, found);
    return Found(found), way;
  }
}
