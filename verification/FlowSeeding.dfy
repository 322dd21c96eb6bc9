// flow's entry seeding, for a section without proven switch tables: after it, every
// instruction is an entry or is reached from one.
module FlowSeeding {
  import opened Collections
  import opened FlowGraph
  import opened HaSearch

  predicate Offset(size: int, n: int) { 0 <= n < size && n % 4 == 0 }

  function Offsets(size: int): set<int> { set n | 0 <= n < size && Offset(size, n) }

  predicate InRange(size: int, n: int) { 0 <= n < size }

  ghost function Range(size: int): set<int> { set n | 0 <= n < size && InRange(size, n) }

  // Edges join instructions of the section.
  ghost predicate Inside(fl: Section, size: int) {
    forall p, n :: fl.Edge(p, n) ==> Offset(size, p) && Offset(size, n)
  }

  ghost predicate Reached(fl: Section, starts: set<int>, n: int) {
    exists o :: Walk(fl.(entries := starts), n, o)
  }

  ghost predicate Seeded(fl: Section, size: int) {
    forall n :: Offset(size, n) ==> Reached(fl, fl.entries, n)
  }

  // ---- reach ----

  ghost predicate Closed(fl: Section, seen: set<int>, todo: seq<int>) {
    forall p, n :: p in seen && fl.Edge(p, n) ==> n in seen || n in todo
  }

  ghost predicate AllReached(fl: Section, starts: set<int>, seen: set<int>, todo: seq<int>, size: int) {
    forall n :: n in seen || n in todo ==> InRange(size, n) && Reached(fl, starts, n)
  }

  lemma ReachedStep(fl: Section, starts: set<int>, p: int, n: int)
    requires Reached(fl, starts, p) && fl.Edge(p, n)
    ensures Reached(fl, starts, n)
  {
    var sec := fl.(entries := starts);
    var o :| Walk(sec, p, o);
    var longer := o + [n];
    forall k | 0 <= k < |longer| - 1
      ensures EdgeOn(sec, longer, k)
    {
      if k < |o| - 1 { assert EdgeOn(sec, o, k); }
    }
    assert Walk(sec, n, longer);
  }

  lemma ReachedStart(fl: Section, starts: set<int>, n: int)
    requires n in starts
    ensures Reached(fl, starts, n)
  {
    assert Walk(fl.(entries := starts), n, [n]);
  }

  // A set that holds the starts and is closed holds whatever a walk reaches.
  lemma {:induction false} ClosedHolds(fl: Section, size: int, starts: set<int>, seen: set<int>, o: seq<int>, n: int)
    requires Closed(fl, seen, []) && Inside(fl, size) && InRange(size, n)
    requires forall c :: c in starts && InRange(size, c) ==> c in seen
    requires Walk(fl.(entries := starts), n, o)
    ensures n in seen
    decreases |o|
  {
    if |o| > 1 {
      var sec := fl.(entries := starts);
      var p := o[|o| - 2];
      assert EdgeOn(sec, o, |o| - 2);
      assert fl.Edge(p, n);
      var shorter := o[..|o| - 1];
      forall k | 0 <= k < |shorter| - 1
        ensures EdgeOn(sec, shorter, k)
      {
        assert EdgeOn(sec, o, k);
      }
      ClosedHolds(fl, size, starts, seen, shorter, p);
    }
  }

  lemma Popped(fl: Section, starts: set<int>, size: int, seen: set<int>, todo: seq<int>, more: seq<int>)
    requires todo != []
    requires Closed(fl, seen, todo) && AllReached(fl, starts, seen, todo, size) && Inside(fl, size)
    requires todo[|todo| - 1] !in seen && forall n :: n in more <==> fl.Edge(todo[|todo| - 1], n)
    ensures Closed(fl, seen + {todo[|todo| - 1]}, todo[..|todo| - 1] + more)
    ensures AllReached(fl, starts, seen + {todo[|todo| - 1]}, todo[..|todo| - 1] + more, size)
  {
    hide Reached, Section.Edge;
    var c := todo[|todo| - 1];
    assert c in todo;
    assert forall n :: n in todo ==> n == c || n in todo[..|todo| - 1];
    forall n | n in more
      ensures Reached(fl, starts, n)
    {
      ReachedStep(fl, starts, c, n);
    }
  }

  lemma Skipped(fl: Section, starts: set<int>, size: int, seen: set<int>, todo: seq<int>)
    requires todo != []
    requires Closed(fl, seen, todo) && AllReached(fl, starts, seen, todo, size)
    requires todo[|todo| - 1] in seen
    ensures Closed(fl, seen, todo[..|todo| - 1]) && AllReached(fl, starts, seen, todo[..|todo| - 1], size)
  {
    hide Reached, Section.Edge;
    assert forall n :: n in todo ==> n == todo[|todo| - 1] || n in todo[..|todo| - 1];
  }

  method Reach(fl: Section, size: int, succ: map<int, seq<int>>, starts: set<int>) returns (seen: set<int>)
    requires Inside(fl, size) && forall p, n :: Lists(succ, p, n) <==> fl.Edge(p, n)
    ensures forall n :: n in seen <==> InRange(size, n) && Reached(fl, starts, n)
  {
    hide Reached, Closed, AllReached, Section.Edge, Inside;
    var listed := Listing(starts);
    var todo: seq<int> := [];
    var i := 0;
    while i < |listed|
      invariant 0 <= i <= |listed|
      invariant forall c :: c in todo ==> c in starts && InRange(size, c)
      invariant forall c :: c in listed[..i] && InRange(size, c) ==> c in todo
    {
      assert listed[..i + 1] == listed[..i] + [listed[i]];
      assert listed[i] in listed;
      if 0 <= listed[i] < size { todo := todo + [listed[i]]; }
      i := i + 1;
    }
    assert listed[..i] == listed;
    seen := {};
    StartReach(fl, starts, todo, size);
    while todo != []
      invariant Closed(fl, seen, todo) && AllReached(fl, starts, seen, todo, size)
      invariant forall c :: c in starts && InRange(size, c) ==> c in seen || c in todo
      decreases |Range(size) - seen|, |todo|
    {
      var c := todo[|todo| - 1];
      assert forall n :: n in todo ==> n == c || n in todo[..|todo| - 1];
      if c in seen {
        Skipped(fl, starts, size, seen, todo);
        todo := todo[..|todo| - 1];
        continue;
      }
      var more := if c in succ then succ[c] else [];
      assert forall n :: n in more <==> Lists(succ, c, n);
      Popped(fl, starts, size, seen, todo, more);
      OnTop(fl, starts, seen, todo, size);
      Fewer(Range(size), seen, c);
      seen := seen + {c};
      todo := todo[..|todo| - 1] + more;
    }
    ReachExact(fl, size, starts, seen);
  }

  lemma OnTop(fl: Section, starts: set<int>, seen: set<int>, todo: seq<int>, size: int)
    requires AllReached(fl, starts, seen, todo, size) && todo != []
    ensures todo[|todo| - 1] in Range(size)
  {
    var c := todo[|todo| - 1];
    assert c in todo;
  }

  lemma StartReach(fl: Section, starts: set<int>, todo: seq<int>, size: int)
    requires forall c :: c in todo ==> c in starts && InRange(size, c)
    ensures Closed(fl, {}, todo) && AllReached(fl, starts, {}, todo, size)
  {
    forall c | c in todo
      ensures Reached(fl, starts, c)
    {
      ReachedStart(fl, starts, c);
    }
  }

  lemma ReachExact(fl: Section, size: int, starts: set<int>, seen: set<int>)
    requires Closed(fl, seen, []) && AllReached(fl, starts, seen, [], size) && Inside(fl, size)
    requires forall c :: c in starts && InRange(size, c) ==> c in seen
    ensures forall n :: n in seen <==> InRange(size, n) && Reached(fl, starts, n)
  {
    forall n | InRange(size, n) && Reached(fl, starts, n)
      ensures n in seen
    {
      var o :| Walk(fl.(entries := starts), n, o);
      ClosedHolds(fl, size, starts, seen, o, n);
    }
  }

  // ---- the seeding loop ----

  predicate HasPred(fl: Section, n: int) { fl.Preds(n) != [] }

  function NoPred(fl: Section, size: int): set<int> {
    set n | 0 <= n < size && n % 4 == 0 && !HasPred(fl, n)
  }

  // What the seeding adds: the instructions nothing leads to, and those nothing reaches even so.
  ghost predicate Adds(fl: Section, size: int, n: int) {
    Offset(size, n) && (!HasPred(fl, n) || !Reached(fl, fl.entries + NoPred(fl, size), n))
  }

  ghost predicate Covered(fl: Section, size: int, starts: set<int>) {
    forall n :: Offset(size, n) ==> Reached(fl, starts, n)
  }

  lemma MoreReach(fl: Section, few: set<int>, many: set<int>, n: int)
    requires Reached(fl, few, n) && few <= many
    ensures Reached(fl, many, n)
  {
    var o :| Walk(fl.(entries := few), n, o);
    assert forall k :: 0 <= k < |o| - 1 ==> EdgeOn(fl.(entries := few), o, k) ==> EdgeOn(fl.(entries := many), o, k);
    assert Walk(fl.(entries := many), n, o);
  }

  // With the additions made, everything is reached.
  lemma AdditionsCover(fl: Section, size: int, seeded: set<int>)
    requires forall n :: n in seeded <==> Adds(fl, size, n)
    ensures Covered(fl, size, fl.entries + seeded)
  {
    forall n | Offset(size, n)
      ensures Reached(fl, fl.entries + seeded, n)
    {
      if n in seeded {
        ReachedStart(fl, fl.entries + seeded, n);
      } else {
        MoreReach(fl, fl.entries + NoPred(fl, size), fl.entries + seeded, n);
      }
    }
  }

  lemma CoveredIsSeeded(fl: Section, size: int, entries: set<int>)
    requires Covered(fl, size, entries)
    ensures Seeded(fl.(entries := entries), size)
  {
    var sec := fl.(entries := entries);
    forall n | Offset(size, n)
      ensures Reached(sec, sec.entries, n)
    {
      assert Reached(fl, entries, n);
      var o :| Walk(fl.(entries := entries), n, o);
      assert Walk(sec.(entries := sec.entries), n, o);
    }
  }

  lemma Round(fl: Section, size: int, seeded: set<int>, noPred: set<int>, seen: set<int>, added: set<int>, i: nat)
    requires noPred == NoPred(fl, size)
    requires forall n :: n in seen <==> InRange(size, n) && Reached(fl, fl.entries + seeded + noPred, n)
    requires forall n :: n in added <==> n in noPred || (Offset(size, n) && n !in seen)
    requires if i == 0 then seeded == {} else forall n :: n in seeded <==> Adds(fl, size, n)
    ensures i == 0 ==> forall n :: n in added <==> Adds(fl, size, n)
    ensures i > 0 ==> added <= seeded
  {
    hide Reached;
    if i == 0 {
      assert fl.entries + seeded + noPred == fl.entries + noPred;
    } else {
      AdditionsCover(fl, size, seeded);
      forall n | Offset(size, n)
        ensures n in seen
      {
        MoreReach(fl, fl.entries + seeded, fl.entries + seeded + noPred, n);
      }
      forall n | n in added
        ensures n in seeded
      {
        assert n in noPred ==> Offset(size, n) && !HasPred(fl, n);
      }
      Within(added, seeded);
    }
  }

  // The loop settles by its second round, so the fallback that makes every instruction an
  // entry is never taken.
  method SeedEntries(fl: Section, size: nat) returns (entries: set<int>, ghost rounds: nat)
    requires Inside(fl, size)
    ensures Seeded(fl.(entries := entries), size) && rounds <= 2
    ensures forall n :: n in entries <==> n in fl.entries || Adds(fl, size, n)
  {
    hide Reached, Inside, Adds, Seeded, Covered;
    var succ := Successors(fl.preds);
    var seeded: set<int> := {};
    var settled := false;
    rounds := 0;
    var i := 0;
    while i < 2 * (size / 4) + 4
      invariant rounds == i <= 1
      invariant if i == 0 then seeded == {} else forall n :: n in seeded <==> Adds(fl, size, n)
      invariant !settled
    {
      var noPred := NoPred(fl, size);
      var seen := Reach(fl, size, succ, fl.entries + seeded + noPred);
      var added := noPred + (Offsets(size) - seen);
      Round(fl, size, seeded, noPred, seen, added, i);
      i := i + 1;
      rounds := i;
      if added <= seeded {
        settled := true;
        break;
      }
      seeded := seeded + added;
    }
    if !settled {
      seeded := Offsets(size);
    }
    AdditionsCover(fl, size, seeded);
    entries := fl.entries + seeded;
    CoveredIsSeeded(fl, size, entries);
  }
}
