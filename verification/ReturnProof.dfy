// prove_returns: a worklist over the section's control-flow graph, a sweep over its stores
// and a look at every blr.  Its "yes" means that on every execution from a function entry LR
// is the caller's return address at each of those blr.
module ReturnProof {
  import opened Collections
  import opened ReturnModel
  import opened FlowGraph
  import opened Relocations

  // operand: the field of the word that a relocation may fill in, by the word's form.
  datatype Section = Section(size: nat, code: map<int, Insn>, preds: map<int, seq<int>>,
                             roots: set<int>, others: set<int>, data: set<int>, blrs: seq<int>,
                             operand: map<int, Part>, relocs: set<Reloc>)
  {
    function At(off: int): Insn { if off in code then code[off] else Unmodelled }

    predicate Takes(off: int, p: Part) {
      off in operand && (operand[off] == p || (operand[off] == Half && p == HalfDs))
    }

    // Relocations after which the word still does what it was decoded as: the target of a branch,
    // and a displacement that is not from r1.
    predicate Expects(off: int, r: Reloc) {
      match At(off)
      case Unmodelled => true
      case Branch(_) => r.offset == off && (r.part == Branch14 || r.part == Branch24) && Takes(off, r.part)
      case Other(_) => r.offset == off + 2 && (r.part == Half || r.part == HalfDs) && Takes(off, r.part)
      case _ => false
    }

    // Some other relocation writes into the word.
    predicate Altered(off: int) {
      exists r :: r in relocs && r.Reaches(off, off + 4) && !Expects(off, r)
    }

    predicate Edge(n: int, d: int) { Lists(preds, d, n) }

    // A position the sweep visits.
    predicate Offset(off: int) { 0 <= off < size && off % 4 == 0 }

    ghost predicate WellFormed() {
      && size % 4 == 0
      && (forall off :: off in code ==> Decoded(code[off]))
      && (forall d :: d in preds ==> Offset(d) && forall n :: n in preds[d] ==> Offset(n))
    }

    // Where executions and unknown control may start.
    function Entries(): set<int> { roots + others }

    function Limit(): int { 64 * (size / 4 + 1) }
  }

  // Sixty-four visits for every word and as many more; a word is another one once a relocation that
  // it is not made for writes any of its four bytes.
  lemma LimitIs(sec: Section)
    requires sec.size % 4 == 0
    ensures sec.Limit() == 16 * sec.size + 64
  {
  }

  lemma AlteredExactly(sec: Section, off: int)
    requires forall r :: r in sec.relocs ==> r.Width() > 0
    ensures sec.Altered(off) <==> exists r, b :: r in sec.relocs && !sec.Expects(off, r) && off <= b < off + 4 && r.Writes(b)
  {
    forall r | r in sec.relocs
      ensures r.Reaches(off, off + 4) <==> exists b :: off <= b < off + 4 && r.Writes(b)
    {
      ReachesExactly(r, off, off + 4);
    }
  }

  datatype Verdict = Proved | DidNotSettle | StoreAnywhere(off: int) | StoreOverSlot(off: int) | NotAtEntry(off: int)

  type State = map<int, Facts>

  function Get(st: State, n: int): Option<Facts> {
    if n in st then Some(st[n]) else None
  }

  // ---- what a settled state certifies ----

  // Everything n passes on is already known at its successor d.
  predicate Passed(sec: Section, st: State, n: int, d: int) {
    n in st && sec.Edge(n, d) && d !in sec.data ==>
      d in st && Weaker(st[d], Step(sec.At(n), st[n]))
  }

  ghost predicate Flowed(sec: Section, st: State, n: int) {
    n !in sec.data ==> forall d :: sec.Edge(n, d) ==> Passed(sec, st, n, d)
  }

  ghost predicate Certified(sec: Section, st: State) {
    && (forall r :: r in sec.roots ==> r in st && Weaker(st[r], ROOT))
    && (forall n :: n in st ==> Flowed(sec, st, n))
    && (forall n :: n in st && sec.Offset(n) && n !in sec.data ==> StoreAllowed(sec.At(n), st[n]))
    && (forall k :: 0 <= k < |sec.blrs| ==> sec.blrs[k] in st && st[sec.blrs[k]].lr == AtEntry)
  }

  // ---- executions ----

  datatype Point = Point(at: int, machine: Machine)

  // Control starts at a function entry and follows edges; table words are never executed.
  ghost predicate Run(sec: Section, e: Entry, run: seq<Point>) {
    && |run| > 0
    && run[0].at in sec.roots && sec.Offset(run[0].at)
    && run[0].machine.reg(1) == e.sp && run[0].machine.lr == e.lr
    && (forall k :: 0 <= k < |run| ==> run[k].at !in sec.data)
    && (forall k {:trigger Follows(sec, e, run, k)} :: 0 <= k < |run| - 1 ==> Follows(sec, e, run, k))
  }

  ghost predicate Follows(sec: Section, e: Entry, run: seq<Point>, k: int)
    requires 0 <= k < |run| - 1
  {
    && sec.Edge(run[k].at, run[k + 1].at)
    && Does(sec.At(run[k].at), sec.Altered(run[k].at), e, run[k].machine, run[k + 1].machine)
  }

  // The instructions an execution goes through.
  function Places(run: seq<Point>): seq<int> { seq(|run|, k requires 0 <= k < |run| => run[k].at) }

  function FactsAt(st: State, n: int): Facts { if n in st then st[n] else UNKNOWN }

  // The taint before the k-th instruction on the way.
  function TaintAt(sec: Section, st: State, o: seq<int>, k: nat): Taint
    requires k < |o|
  {
    if k == 0 then CLEAN
    else Spread(sec.At(o[k - 1]), sec.Altered(o[k - 1]), FactsAt(st, o[k - 1]), TaintAt(sec, st, o, k - 1))
  }

  // The facts computed at each point hold whenever an execution gets there, but for the taint of
  // the way it came.
  lemma {:induction false} FactsHold(sec: Section, st: State, e: Entry, run: seq<Point>, k: nat)
    requires sec.WellFormed() && Certified(sec, st) && Run(sec, e, run) && k < |run|
    ensures sec.Offset(run[k].at) && run[k].at in st
    ensures HoldsBut(st[run[k].at], TaintAt(sec, st, Places(run), k), e, run[k].machine)
  {
    hide HoldsBut, Step, Spread, Does, Section.Altered, StoreAllowed;
    if k == 0 {
      AtRoot(e, run[0].machine);
      WeakerHolds(st[run[0].at], ROOT, CLEAN, e, run[0].machine);
    } else {
      FactsHold(sec, st, e, run, k - 1);
      var n, d := run[k - 1].at, run[k].at;
      var i, altered, u := sec.At(n), sec.Altered(n), TaintAt(sec, st, Places(run), k - 1);
      assert Follows(sec, e, run, k - 1);
      StepSound(i, altered, st[n], u, e, run[k - 1].machine, run[k].machine);
      assert Passed(sec, st, n, d);
      WeakerHolds(st[d], Step(i, st[n]), Spread(i, altered, st[n], u), e, run[k].machine);
    }
  }

  lemma AtRoot(e: Entry, s: Machine)
    requires s.reg(1) == e.sp && s.lr == e.lr
    ensures HoldsBut(ROOT, CLEAN, e, s)
  {
  }

  // Soundness: an execution of a certified section returns to its caller at each listed blr it
  // comes to with LR untainted.
  lemma ReturnsToCaller(sec: Section, st: State, e: Entry, run: seq<Point>, k: nat)
    requires sec.WellFormed() && Certified(sec, st) && Run(sec, e, run) && k < |run|
    requires run[k].at in sec.blrs && !Spoiled(TaintAt(sec, st, Places(run), k))
    ensures run[k].machine.lr == e.lr
  {
    FactsHold(sec, st, e, run, k);
  }

  // Without system calls and altered words nothing is ever tainted.
  lemma {:induction false} NoTaint(sec: Section, st: State, o: seq<int>, k: nat)
    requires k < |o| && forall j :: 0 <= j < k ==> !sec.At(o[j]).Syscall? && !sec.Altered(o[j])
    ensures TaintAt(sec, st, o, k) == CLEAN
  {
    hide Step;
    if k > 0 { NoTaint(sec, st, o, k - 1); }
  }

  lemma PlainReturns(sec: Section, st: State, e: Entry, run: seq<Point>, k: nat)
    requires sec.WellFormed() && Certified(sec, st) && Run(sec, e, run) && k < |run| && run[k].at in sec.blrs
    requires forall n :: sec.Offset(n) ==> !sec.At(n).Syscall? && !sec.Altered(n)
    ensures run[k].machine.lr == e.lr
  {
    forall j | 0 <= j < k
      ensures sec.Offset(run[j].at)
    {
      FactsHold(sec, st, e, run, j);
    }
    NoTaint(sec, st, Places(run), k);
    ReturnsToCaller(sec, st, e, run, k);
  }

  // ---- the other direction ----

  // A way through the section from a function entry.
  ghost predicate Walk(sec: Section, o: seq<int>) {
    && |o| > 0 && o[0] in sec.roots && sec.Offset(o[0])
    && (forall k :: 0 <= k < |o| ==> o[k] !in sec.data)
    && (forall k {:trigger OnEdge(sec, o, k)} :: 0 <= k < |o| - 1 ==> OnEdge(sec, o, k))
  }

  predicate OnEdge(sec: Section, o: seq<int>, k: int)
    requires 0 <= k < |o| - 1
  {
    sec.Edge(o[k], o[k + 1])
  }

  const ZERO := Machine(r => 0, 0, a => 0)

  // An execution of the way: x is what the kernel leaves in LR, and an altered word clears all.
  function StateAt(sec: Section, o: seq<int>, x: int, start: Machine, k: nat): Machine
    requires k < |o|
  {
    if k == 0 then start
    else if sec.Altered(o[k - 1]) then ZERO
    else Next(sec.At(o[k - 1]), x, StateAt(sec, o, x, start, k - 1))
  }

  function RunOf(sec: Section, o: seq<int>, x: int, start: Machine): (run: seq<Point>)
    ensures |run| == |o|
  {
    seq(|o|, k requires 0 <= k < |o| => Point(o[k], StateAt(sec, o, x, start, k)))
  }

  lemma RunOfRuns(sec: Section, o: seq<int>, x: int, e: Entry, start: Machine)
    requires sec.WellFormed() && Walk(sec, o) && start.reg(1) == e.sp && start.lr == e.lr
    ensures Run(sec, e, RunOf(sec, o, x, start)) && Places(RunOf(sec, o, x, start)) == o
  {
    hide Next, Exec, Section.Altered, Decoded, Section.Edge;
    var run := RunOf(sec, o, x, start);
    forall k | 0 <= k < |run| - 1
      ensures Follows(sec, e, run, k)
    {
      assert OnEdge(sec, o, k);
      DecodedAt(sec, o[k]);
      NextExec(sec.At(o[k]), x, e, run[k].machine);
    }
  }

  lemma DecodedAt(sec: Section, n: int)
    requires sec.WellFormed()
    ensures Decoded(sec.At(n))
  {
  }

  lemma {:induction false} CarriesOn(sec: Section, st: State, e: Entry, o: seq<int>, x: int, start: Machine, k: nat)
    requires sec.WellFormed() && Certified(sec, st) && Walk(sec, o) && k < |o|
    requires start.reg(1) == e.sp && start.lr == e.lr && !TaintAt(sec, st, o, k).Lost?
    ensures Carries(TaintAt(sec, st, o, k), x, e, StateAt(sec, o, x, start, k))
  {
    hide Step, Next, HoldsBut, Carries, Section.Altered, StoreAllowed, Decoded;
    if k == 0 {
      CarriesNone(x, e, start);
    } else {
      var n := o[k - 1];
      LostStays(sec.At(n), sec.Altered(n), FactsAt(st, n), TaintAt(sec, st, o, k - 1));
      CarriesOn(sec, st, e, o, x, start, k - 1);
      var run := RunOf(sec, o, x, start);
      RunOfRuns(sec, o, x, e, start);
      FactsHold(sec, st, e, run, k - 1);
      DecodedAt(sec, n);
      assert run[k - 1].at == n;
      NextCarries(sec.At(n), st[n], TaintAt(sec, st, o, k - 1), x, e, run[k - 1].machine);
    }
  }

  lemma CarriesNone(x: int, e: Entry, s: Machine)
    ensures Carries(CLEAN, x, e, s)
  {
  }

  lemma LostStays(i: Insn, altered: bool, f: Facts, u: Taint)
    requires !Spread(i, altered, f, u).Lost?
    ensures !u.Lost? && !altered
  {
  }

  // Behind an altered word nothing depends on the start.
  lemma {:induction false} LostForgets(sec: Section, st: State, o: seq<int>, x: int, s: Machine, t: Machine, k: nat)
    requires k < |o| && TaintAt(sec, st, o, k).Lost?
    ensures StateAt(sec, o, x, s, k) == StateAt(sec, o, x, t, k)
  {
    hide Next, Step;
    if !sec.Altered(o[k - 1]) { LostForgets(sec, st, o, x, s, t, k - 1); }
  }

  // A run that ends at a listed blr with another address in LR.
  ghost predicate Strays(sec: Section, e: Entry, run: seq<Point>) {
    Run(sec, e, run) && run[|run| - 1].at in sec.blrs && run[|run| - 1].machine.lr != e.lr
  }

  ghost predicate TaintedWay(sec: Section, st: State, o: seq<int>) {
    Walk(sec, o) && o[|o| - 1] in sec.blrs && Spoiled(TaintAt(sec, st, o, |o| - 1))
  }

  function Start(lr: int): Machine { Machine(r => 0, lr, a => 0) }

  lemma TaintStrays(sec: Section, st: State, o: seq<int>) returns (e: Entry, run: seq<Point>)
    requires sec.WellFormed() && Certified(sec, st) && TaintedWay(sec, st, o)
    ensures Strays(sec, e, run)
  {
    hide Section.WellFormed, Certified, Run, StateAt, TaintAt;
    var n := |o| - 1;
    var lr := if TaintAt(sec, st, o, n).Lost? then StateAt(sec, o, 1, Start(0), n).lr + 1 else 0;
    e := Entry(0, lr);
    run := RunOf(sec, o, 1, Start(lr));
    RunOfRuns(sec, o, 1, e, Start(lr));
    if TaintAt(sec, st, o, n).Lost? {
      LostForgets(sec, st, o, 1, Start(0), Start(lr), n);
    } else {
      CarriesOn(sec, st, e, o, 1, Start(lr), n);
    }
  }

  lemma RunIsWalk(sec: Section, e: Entry, run: seq<Point>)
    requires Run(sec, e, run)
    ensures Walk(sec, Places(run))
  {
    forall k | 0 <= k < |run| - 1
      ensures OnEdge(sec, Places(run), k)
    {
      assert Follows(sec, e, run, k);
    }
  }

  // Some execution of a certified section strays if and only if some way from a function entry
  // comes to a listed blr with LR tainted.
  lemma StraysExactly(sec: Section, st: State)
    requires sec.WellFormed() && Certified(sec, st)
    ensures (exists e, run :: Strays(sec, e, run)) <==> exists o :: TaintedWay(sec, st, o)
  {
    hide Section.WellFormed, Certified, TaintAt, Run;
    if o :| TaintedWay(sec, st, o) {
      var e, run := TaintStrays(sec, st, o);
    }
    forall e, run | Strays(sec, e, run)
      ensures TaintedWay(sec, st, Places(run))
    {
      RunNotEmpty(sec, e, run);
      RunIsWalk(sec, e, run);
      if !Spoiled(TaintAt(sec, st, Places(run), |run| - 1)) {
        ReturnsToCaller(sec, st, e, run, |run| - 1);
      }
    }
  }

  lemma RunNotEmpty(sec: Section, e: Entry, run: seq<Point>)
    requires Run(sec, e, run)
    ensures |run| > 0
  {
  }

  // The leaf sc ; blr: certified, and some run of it strays.
  lemma SyscallEscapes() returns (sec: Section, st: State, e: Entry, run: seq<Point>)
    ensures sec.WellFormed() && Certified(sec, st) && Strays(sec, e, run)
    ensures forall n :: !sec.Altered(n)
  {
    sec, st := LeafCertified();
    var o := [0, 4];
    assert OnEdge(sec, o, 0);
    LeafTainted(st);
    e, run := TaintStrays(sec, st, o);
  }

  function Leaf(): Section {
    Section(8, map[0 := Syscall, 4 := Branch(false)], map[4 := [0]], {0}, {}, {}, [4], map[], {})
  }

  lemma LeafTainted(st: State)
    ensures Spoiled(TaintAt(Leaf(), st, [0, 4], 1))
  {
    assert Leaf().At(0) == Syscall && !Leaf().Altered(0);
  }

  lemma LeafCertified() returns (sec: Section, st: State)
    ensures sec == Leaf() && sec.WellFormed() && Certified(sec, st) && sec.blrs == [4]
  {
    sec := Leaf();
    st := map[0 := ROOT, 4 := Wrote(ROOT, VOLATILE)];
    assert Passed(sec, st, 0, 4);
    assert sec.At(0) == Syscall && sec.blrs[0] == 4 && sec.Offset(0);
  }

  // ---- the cost of settling ----

  // How often the facts at a point can still change.
  function Budget(f: Option<Facts>): nat {
    match f
    case None => 6
    case Some(g) =>
      (if g.sp == UNKNOWN.sp then 0 else 1) + (if g.lr == UNKNOWN.lr then 0 else 1)
      + (if g.copies == UNKNOWN.copies then 0 else 1) + (if g.reloads == UNKNOWN.reloads then 0 else 1)
      + (if g.slot == UNKNOWN.slot then 0 else 1)
  }

  function TotalBudget(st: State, words: nat): nat {
    if words == 0 then 0 else Budget(Get(st, 4 * (words - 1))) + TotalBudget(st, words - 1)
  }

  lemma MergeSpends(a: Option<Facts>, b: Facts)
    ensures a != Some(Merge(a, b)) ==> Budget(Some(Merge(a, b))) < Budget(a)
  {
  }

  lemma {:induction false} BudgetUpdate(st: State, words: nat, d: int, f: Facts)
    requires Budget(Some(f)) < Budget(Get(st, d))
    ensures TotalBudget(st[d := f], words) <= TotalBudget(st, words)
    ensures d % 4 == 0 && 0 <= d < 4 * words ==> TotalBudget(st[d := f], words) < TotalBudget(st, words)
  {
    if words > 0 {
      BudgetUpdate(st, words - 1, d, f);
      if 4 * (words - 1) != d {
        assert Get(st[d := f], 4 * (words - 1)) == Get(st, 4 * (words - 1));
      }
    }
  }

  lemma {:induction false} BudgetBound(st: State, words: nat)
    ensures TotalBudget(st, words) <= 6 * words
  {
    if words > 0 { BudgetBound(st, words - 1); }
  }

  lemma MergeWeaker(a: Option<Facts>, g: Facts)
    ensures Weaker(Merge(a, g), g) && (a.Some? ==> Weaker(Merge(a, g), a.value))
  {
  }

  // Lowering the facts at d leaves everything passed on to d passed on.
  lemma LowerKeepsFlow(sec: Section, st: State, m: int, d: int, merged: Facts)
    requires Flowed(sec, st, m) && m in st && m != d
    requires d in st ==> Weaker(merged, st[d])
    ensures Flowed(sec, st[d := merged], m)
  {
    var st' := st[d := merged];
    if m !in sec.data {
      forall x | sec.Edge(m, x)
        ensures Passed(sec, st', m, x)
      {
        assert Passed(sec, st, m, x);
      }
    }
  }

  // ---- labels ----

  // Facts for the points that agree with every instruction exactly, not just weakly: nothing is
  // lost where ways meet.
  ghost predicate Labelled(sec: Section, labels: State) {
    && (forall e :: e in sec.others ==> e in labels && labels[e] == UNKNOWN)
    && (forall r :: r in sec.roots && r !in sec.others ==> r in labels && labels[r] == ROOT)
    && (forall n, d :: n in labels && n !in sec.data && sec.Edge(n, d) && d !in sec.data ==> Leads(sec, labels, n, d))
  }

  predicate Leads(sec: Section, labels: State, n: int, d: int)
    requires n in labels
  {
    d in labels && (d in sec.others || labels[d] == Step(sec.At(n), labels[n]))
  }

  ghost predicate Fits(st: State, labels: State) { forall n :: n in st ==> n in labels && st[n] == labels[n] }

  // What fits the labels goes on fitting them.
  ghost predicate StillFits(sec: Section, st: State, st': State) {
    forall labels :: Labelled(sec, labels) && Fits(st, labels) ==> Fits(st', labels)
  }

  ghost predicate FitsAll(sec: Section, st: State) { forall labels :: Labelled(sec, labels) ==> Fits(st, labels) }

  lemma MergeSame(f: Facts, g: Facts)
    ensures Merge(Some(f), f) == f && Merge(Some(UNKNOWN), g) == UNKNOWN && Merge(None, f) == f
  {
  }

  lemma RelaxFits(sec: Section, labels: State, st: State, st': State, work: seq<int>, work': seq<int>, n: int, d: int, out: Facts)
    requires Labelled(sec, labels) && Fits(st, labels) && n in labels && n !in sec.data && sec.Edge(n, d)
    requires out == Step(sec.At(n), labels[n]) && (forall e :: e in sec.Entries() ==> e in st)
    requires Relaxed(sec, st, work, d, out, st', work')
    ensures Fits(st', labels)
  {
    hide Step, Merge, Section.Edge;
    if d !in sec.data && st' != st {
      assert Leads(sec, labels, n, d);
      MergeSame(labels[d], out);
      MergeSame(ROOT, ROOT);
      MergeSame(UNKNOWN, ROOT);
    }
  }

  // Every point but n is waiting or has passed on what it knows; function entries never say
  // more than a fresh call would.
  ghost predicate Pending(sec: Section, st: State, work: seq<int>, n: Option<int>) {
    && (forall r :: r in sec.roots ==> r in st && Weaker(st[r], ROOT))
    && (forall e :: e in sec.Entries() ==> e in st)
    && (forall m :: m in st && n != Some(m) ==> m in work || Flowed(sec, st, m))
  }

  // The facts at d with what arrives there; a function entry knows no more than a fresh call.
  function MergedAt(sec: Section, st: State, d: int, out: Facts): Facts {
    var merged := Merge(Get(st, d), out);
    if d in sec.roots then Merge(Some(merged), ROOT) else merged
  }

  // Of each fact, what all agree on that come to d: those before, these, and at a function entry a
  // fresh call's; nothing where they do not.
  lemma MergedExactly(sec: Section, st: State, d: int, out: Facts)
    ensures var m := MergedAt(sec, st, d, out);
      && m.sp == (if (d in st ==> st[d].sp == out.sp) && (d in sec.roots ==> out.sp == Known(0)) then out.sp else SpUnknown)
      && m.lr == (if (d in st ==> st[d].lr == out.lr) && (d in sec.roots ==> out.lr == AtEntry) then out.lr else LrUnknown)
      && m.copies == (if (d in st ==> st[d].copies == out.copies) && (d in sec.roots ==> out.copies == {}) then out.copies else {})
      && m.reloads == (if (d in st ==> st[d].reloads == out.reloads) && (d in sec.roots ==> out.reloads == {}) then out.reloads else {})
      && m.slot == (if (d in st ==> st[d].slot == out.slot) && (d in sec.roots ==> out.slot == NotSaved) then out.slot else SlotUnknown)
  {
  }

  // ---- where facts come from ----

  // The facts of n, as they were, are handed on along an edge to d.
  predicate Handed(sec: Section, before: State, st: State, n: int, d: int, st': State)
    requires n in before
  {
    n !in sec.data && sec.Edge(n, d) && d !in sec.data && st' == st[d := MergedAt(sec, st, d, Step(sec.At(n), before[n]))]
  }

  ghost predicate HandsOn(sec: Section, trail: seq<State>, i: int)
    requires 0 <= i < |trail| - 1
  {
    exists n, d, j :: 0 <= j <= i && HandedFrom(sec, trail, i, j, n, d)
  }

  predicate HandedFrom(sec: Section, trail: seq<State>, i: int, j: int, n: int, d: int)
    requires 0 <= j <= i < |trail| - 1
  {
    n in trail[j] && Handed(sec, trail[j], trail[i], n, d, trail[i + 1])
  }

  // Facts grow from the entries', and by nothing else than being handed on.
  ghost predicate Grows(sec: Section, trail: seq<State>) {
    && trail != [] && trail[0] == Seeds(sec)
    && forall i {:trigger HandsOn(sec, trail, i)} :: 0 <= i < |trail| - 1 ==> HandsOn(sec, trail, i)
  }

  ghost predicate GrowsTo(sec: Section, trail: seq<State>, st: State) { Grows(sec, trail) && trail[|trail| - 1] == st }

  lemma GrowsMore(sec: Section, trail: seq<State>, j: nat, n: int, d: int, st': State)
    requires Grows(sec, trail) && j < |trail| && n in trail[j] && Handed(sec, trail[j], trail[|trail| - 1], n, d, st')
    ensures GrowsTo(sec, trail + [st'], st')
  {
    hide Handed, Seeds;
    var more := trail + [st'];
    forall i | 0 <= i < |more| - 1
      ensures HandsOn(sec, more, i)
    {
      if i < |trail| - 1 {
        assert HandsOn(sec, trail, i);
        var m, e, k :| 0 <= k <= i && HandedFrom(sec, trail, i, k, m, e);
        assert HandedFrom(sec, more, i, k, m, e);
      } else {
        assert HandedFrom(sec, more, i, j, n, d);
      }
    }
  }

  // What passing `out` on to d does to the facts and the worklist.
  ghost predicate Relaxed(sec: Section, st: State, work: seq<int>, d: int, out: Facts, st': State, work': seq<int>) {
    && (d in sec.data ==> st' == st && work' == work)
    && (d !in sec.data ==>
          && d in st' && Weaker(st'[d], out)
          && ((st' == st && work' == work)
              || (&& st' == st[d := MergedAt(sec, st, d, out)] && work' == work + [d]
                  && (d in st ==> Weaker(st'[d], st[d]))
                  && (d in sec.roots ==> Weaker(st'[d], ROOT))
                  && Budget(Some(st'[d])) < Budget(Get(st, d)))))
  }

  method Relax(sec: Section, st: State, work: seq<int>, d: int, out: Facts) returns (st': State, work': seq<int>)
    ensures Relaxed(sec, st, work, d, out, st', work')
  {
    st', work' := st, work;
    if d !in sec.data {
      var merged := Merge(Get(st, d), out);
      MergeWeaker(Get(st, d), out);
      MergeSpends(Get(st, d), out);
      if d in sec.roots {
        MergeWeaker(Some(merged), ROOT);
        MergeSpends(Some(merged), ROOT);
        merged := Merge(Some(merged), ROOT);
      }
      if Get(st, d) != Some(merged) {
        st' := st[d := merged];
        work' := work + [d];
      }
    }
  }

  lemma RelaxKeepsPending(sec: Section, st: State, work: seq<int>, n: int, d: int, out: Facts, st': State, work': seq<int>)
    requires Pending(sec, st, work, Some(n)) && Relaxed(sec, st, work, d, out, st', work')
    ensures Pending(sec, st', work', Some(n))
  {
    if st' != st {
      forall m | m in st' && m != n
        ensures m in work' || Flowed(sec, st', m)
      {
        if m != d && m !in work {
          LowerKeepsFlow(sec, st, m, d, st'[d]);
        }
      }
    }
  }

  lemma RelaxSpends(sec: Section, st: State, work: seq<int>, d: int, out: Facts, st': State, work': seq<int>, words: nat)
    requires Relaxed(sec, st, work, d, out, st', work') && sec.Offset(d) && sec.size % 4 == 0 && words == sec.size / 4
    ensures |work'| + TotalBudget(st', words) <= |work| + TotalBudget(st, words) && |work| <= |work'|
  {
    if st' != st {
      BudgetUpdate(st, words, d, st'[d]);
    }
  }

  // Takes one point off the worklist and passes its facts on to all its successors.
  method Visit(sec: Section, succ: map<int, seq<int>>, st: State, work: seq<int>, ghost words: nat, ghost trail: seq<State>)
    returns (st': State, work': seq<int>, ghost trail': seq<State>)
    requires sec.WellFormed() && words == sec.size / 4 && work != []
    requires forall n, d :: Lists(succ, n, d) <==> sec.Edge(n, d)
    requires Pending(sec, st, work, None) && GrowsTo(sec, trail, st)
    ensures Pending(sec, st', work', None) && GrowsTo(sec, trail', st')
    ensures |work'| + TotalBudget(st', words) <= |work| - 1 + TotalBudget(st, words)
    ensures |work| - 1 <= |work'|
    ensures StillFits(sec, st, st')
  {
    hide Labelled, Section.Entries, HandsOn, Step, MergedAt, Seeds;
    var n := work[|work| - 1];
    st', work', trail' := st, work[..|work| - 1], trail;
    ghost var from := |trail| - 1;
    assert forall m :: m in work ==> m in work' || m == n;
    if n in sec.data || n !in st {
      return;
    }
    var out := Step(sec.At(n), st[n]);
    var ds := if n in succ then succ[n] else [];
    for k := 0 to |ds|
      invariant Pending(sec, st', work', Some(n)) && n in st'
      invariant n in work' || (st'[n] == st[n] && forall j :: 0 <= j < k ==> Passed(sec, st', n, ds[j]))
      invariant |work'| + TotalBudget(st', words) <= |work| - 1 + TotalBudget(st, words)
      invariant |work| - 1 <= |work'|
      invariant StillFits(sec, st, st')
      invariant GrowsTo(sec, trail', st') && from < |trail'| && trail'[from] == st
    {
      var d := ds[k];
      assert Lists(succ, n, d);
      var st1, work1 := Relax(sec, st', work', d, out);
      RelaxStillFits(sec, st, st', work', st1, work1, n, d, out);
      RelaxKeepsPending(sec, st', work', n, d, out, st1, work1);
      RelaxSpends(sec, st', work', d, out, st1, work1, words);
      RelaxKeepsPassed(sec, st', work', n, d, out, st1, work1, ds[..k]);
      if st1 != st' {
        GrowsMore(sec, trail', from, n, d, st1);
        trail' := trail' + [st1];
      }
      st', work' := st1, work1;
    }
    forall d | sec.Edge(n, d)
      ensures d in ds
    {
      assert Lists(succ, n, d);
    }
    VisitDone(sec, st', work', n, ds);
  }

  lemma RelaxStillFits(sec: Section, st: State, st1: State, work1: seq<int>, st2: State, work2: seq<int>, n: int, d: int, out: Facts)
    requires StillFits(sec, st, st1) && n in st && n !in sec.data && sec.Edge(n, d) && out == Step(sec.At(n), st[n])
    requires forall e :: e in sec.Entries() ==> e in st1
    requires Relaxed(sec, st1, work1, d, out, st2, work2)
    ensures StillFits(sec, st, st2)
  {
    hide Labelled, Section.Entries, Relaxed, Step, Section.Edge;
    forall labels | Labelled(sec, labels) && Fits(st, labels)
      ensures Fits(st2, labels)
    {
      RelaxFits(sec, labels, st1, st2, work1, work2, n, d, out);
    }
  }

  lemma RelaxKeepsPassed(sec: Section, st: State, work: seq<int>, n: int, d: int, out: Facts, st': State, work': seq<int>,
                         done: seq<int>)
    requires Relaxed(sec, st, work, d, out, st', work') && n in st && sec.Edge(n, d)
    requires n in work || (out == Step(sec.At(n), st[n]) && forall j :: 0 <= j < |done| ==> Passed(sec, st, n, done[j]))
    ensures n in work' || (st'[n] == st[n] && forall j :: 0 <= j < |done| + 1 ==> Passed(sec, st', n, (done + [d])[j]))
  {
    if n !in work' {
      forall j | 0 <= j < |done|
        ensures Passed(sec, st', n, done[j])
      {
        assert Passed(sec, st, n, done[j]);
      }
    }
  }

  lemma VisitDone(sec: Section, st: State, work: seq<int>, n: int, ds: seq<int>)
    requires Pending(sec, st, work, Some(n)) && n in st
    requires n in work || forall j :: 0 <= j < |ds| ==> Passed(sec, st, n, ds[j])
    requires forall d :: sec.Edge(n, d) ==> d in ds
    ensures Pending(sec, st, work, None)
  {
  }

  // No store through r1 may reach the slot, except the proven save.
  method Sweep(sec: Section, st: State) returns (v: Verdict)
    requires sec.size % 4 == 0
    ensures (v == Proved || v.StoreAnywhere? || v.StoreOverSlot?) && Reason(sec, st, v)
    ensures v == Proved <==>
      forall n :: n in st && sec.Offset(n) && n !in sec.data ==> StoreAllowed(sec.At(n), st[n])
  {
    var off := 0;
    while off < sec.size
      invariant 0 <= off <= sec.size && off % 4 == 0
      invariant forall n :: n < off && n in st && sec.Offset(n) && n !in sec.data ==> StoreAllowed(sec.At(n), st[n])
    {
      if off !in sec.data && off in st && sec.At(off).Store? {
        var i, f := sec.At(off), st[off];
        if i.target.Anywhere? || f.sp == SpUnknown {
          return StoreAnywhere(off);
        }
        var lo := f.sp.off + i.target.disp;
        if lo < SLOT_OFF + SLOT_WIDTH && SLOT_OFF < lo + i.target.width {
          if !Saves(i, f) {
            return StoreOverSlot(off);
          }
        }
      }
      off := off + 4;
    }
    return Proved;
  }

  ghost predicate EntriesInside(sec: Section) { forall e :: e in sec.Entries() ==> sec.Offset(e) }

  lemma EntriesAreFew(sec: Section)
    requires sec.WellFormed()
    ensures EntriesInside(sec) ==> |sec.Entries()| <= 58 * (sec.size / 4) + 64
  {
    if EntriesInside(sec) { FewWords(sec.Entries(), sec.size / 4); }
  }

  // What is known at the entries before anything is propagated.
  function Seeds(sec: Section): State {
    var roots: State := map r | r in sec.roots :: ROOT;
    roots + map n | n in sec.others :: Merge(Get(roots, n), UNKNOWN)
  }

  // A function entry knows what a fresh call does, unless it may be come to otherwise; other entries nothing.
  lemma SeedsAre(sec: Section, n: int)
    ensures n in Seeds(sec) <==> n in sec.roots || n in sec.others
    ensures n in sec.others ==> Seeds(sec)[n] == UNKNOWN
    ensures n in sec.roots && n !in sec.others ==> Seeds(sec)[n] == Facts(Known(0), AtEntry, {}, {}, NotSaved)
  {
  }

  lemma SeedsPending(sec: Section, work: seq<int>)
    requires forall n :: n in work <==> n in sec.Entries()
    ensures Pending(sec, Seeds(sec), work, None) && FitsAll(sec, Seeds(sec))
  {
  }

  // The worklist.  With entries that are instructions of the section, or at most 58 to an
  // instruction, it always settles; with more entries than the limit on visits it never does.
  method Settle(sec: Section) returns (settled: bool, state: State, ghost trail: seq<State>)
    requires sec.WellFormed()
    ensures GrowsTo(sec, trail, state)
    ensures settled ==> Pending(sec, state, [], None) && FitsAll(sec, state)
    ensures |sec.Entries()| <= 58 * (sec.size / 4) + 64 ==> settled
    ensures |sec.Entries()| > sec.Limit() ==> !settled
  {
    hide Pending, Section.Entries, Merge, TotalBudget, Labelled, Fits, HandsOn;
    var succ := Successors(sec.preds);
    state := Seeds(sec);
    trail := [state];
    var work := Listing(sec.Entries());
    SeedsPending(sec, work);
    var rounds := 0;
    ghost var words := sec.size / 4;
    BudgetBound(state, words);
    while work != []
      invariant 0 <= rounds <= sec.Limit()
      invariant Pending(sec, state, work, None) && FitsAll(sec, state) && GrowsTo(sec, trail, state)
      invariant rounds + |work| + TotalBudget(state, words) <= |sec.Entries()| + 6 * words
      invariant |sec.Entries()| <= rounds + |work|
      decreases sec.Limit() - rounds
    {
      rounds := rounds + 1;
      if rounds > sec.Limit() {
        return false, state, trail;
      }
      state, work, trail := Visit(sec, succ, state, work, words, trail);
    }
    settled := true;
  }

  // What a refusal points at.
  predicate Reason(sec: Section, st: State, v: Verdict) {
    match v
    case Proved => true
    case DidNotSettle => true
    case StoreAnywhere(off) => Stored(sec, st, off) && (sec.At(off).target.Anywhere? || st[off].sp == SpUnknown)
    case StoreOverSlot(off) => Stored(sec, st, off) && !StoreAllowed(sec.At(off), st[off])
    case NotAtEntry(r) => r in sec.blrs && (r !in st || st[r].lr != AtEntry)
  }

  predicate Stored(sec: Section, st: State, off: int) {
    off in st && sec.Offset(off) && off !in sec.data && sec.At(off).Store?
  }

  // Labels that say all a certificate has to, at returns that are reached.
  ghost predicate Shows(sec: Section, labels: State) {
    && Labelled(sec, labels)
    && (forall n :: n in labels && sec.Offset(n) && n !in sec.data ==> StoreAllowed(sec.At(n), labels[n]))
    && (forall k :: 0 <= k < |sec.blrs| ==> Returned(sec, labels, sec.blrs[k]))
  }

  ghost predicate Returned(sec: Section, labels: State, r: int) {
    r in labels && labels[r].lr == AtEntry && exists o :: Walk(sec, o) && o[|o| - 1] == r
  }

  lemma {:induction false} WalkSeen(sec: Section, st: State, o: seq<int>, k: nat)
    requires Pending(sec, st, [], None) && Walk(sec, o) && k < |o|
    ensures o[k] in st
  {
    hide Step, Weaker, Section.Edge;
    if k > 0 {
      WalkSeen(sec, st, o, k - 1);
      assert OnEdge(sec, o, k - 1);
      assert Flowed(sec, st, o[k - 1]);
      assert Passed(sec, st, o[k - 1], o[k]);
    }
  }

  // Nothing is refused where labels show the section to return.
  lemma ShownIsProved(sec: Section, st: State, labels: State, v: Verdict)
    requires Pending(sec, st, [], None) && FitsAll(sec, st) && Shows(sec, labels)
    requires Reason(sec, st, v) && v != DidNotSettle
    ensures v == Proved
  {
    hide Pending, Labelled, StoreAllowed, Section.Offset;
    assert Fits(st, labels);
    match v
    case StoreAnywhere(off) => Refused(sec.At(off), st[off]);
    case NotAtEntry(r) =>
      assert Returned(sec, labels, r);
      var o :| Walk(sec, o) && o[|o| - 1] == r;
      WalkEnd(sec, st, o);
    case _ =>
  }

  lemma WalkEnd(sec: Section, st: State, o: seq<int>)
    requires Pending(sec, st, [], None) && Walk(sec, o)
    ensures o[|o| - 1] in st
  {
    WalkSeen(sec, st, o, |o| - 1);
  }

  lemma Refused(i: Insn, f: Facts)
    requires i.Store? && (i.target.Anywhere? || f.sp == SpUnknown)
    ensures !StoreAllowed(i, f)
  {
  }

  // The whole proof.  A refusal says what is missing in the settled facts, and is no certificate;
  // where exact labels show that the section returns, there is none.
  method ProveReturns(sec: Section) returns (v: Verdict, ghost st: State, ghost trail: seq<State>)
    requires sec.WellFormed()
    ensures GrowsTo(sec, trail, st)
    ensures v == Proved ==> Certified(sec, st)
    ensures v != Proved && v != DidNotSettle ==> !Certified(sec, st)
    ensures v != DidNotSettle ==> Pending(sec, st, [], None) && Reason(sec, st, v)
    ensures (exists labels :: Shows(sec, labels)) && v != DidNotSettle ==> v == Proved
    ensures EntriesInside(sec) || |sec.Entries()| <= 58 * (sec.size / 4) + 64 ==> v != DidNotSettle
    ensures |sec.Entries()| > sec.Limit() ==> v == DidNotSettle
  {
    hide EntriesInside, Section.Entries, StoreAllowed, Shows, FitsAll, Pending, Section.Offset, GrowsTo;
    EntriesAreFew(sec);
    var settled, state;
    settled, state, trail := Settle(sec);
    st := state;
    if !settled {
      return DidNotSettle, state, trail;
    }
    v := Sweep(sec, state);
    if v == Proved {
      for k := 0 to |sec.blrs|
        invariant v == Proved
        invariant forall j :: 0 <= j < k ==> sec.blrs[j] in state && state[sec.blrs[j]].lr == AtEntry
      {
        var r := sec.blrs[k];
        if r !in state || state[r].lr != AtEntry {
          v := NotAtEntry(r);
          break;
        }
      }
    }
    if v == Proved {
      PendingNothing(sec, state);
    }
    forall labels | Shows(sec, labels)
      ensures v == Proved
    {
      ShownIsProved(sec, state, labels, v);
    }
  }

  lemma PendingNothing(sec: Section, st: State)
    requires Pending(sec, st, [], None)
    ensures (forall r :: r in sec.roots ==> r in st && Weaker(st[r], ROOT)) && forall n :: n in st ==> Flowed(sec, st, n)
  {
  }

  // ---- the ABI's frames ----

  // A function of these instructions one after the other, its last word a blr.
  function Straight(code: seq<Insn>): Section {
    Section(4 * |code|, map n | 0 <= n < 4 * |code| && n % 4 == 0 :: code[n / 4],
            map n | 0 < n < 4 * |code| && n % 4 == 0 :: [n - 4], {0}, {}, {}, [4 * |code| - 4], map[], {})
  }

  // The facts along the code.
  function Along(code: seq<Insn>): State {
    map n | 0 <= n < 4 * |code| && n % 4 == 0 :: StepAll(code[..n / 4], ROOT)
  }

  lemma StepNext(code: seq<Insn>, k: nat, f: Facts)
    requires k < |code|
    ensures StepAll(code[..k + 1], f) == Step(code[k], StepAll(code[..k], f))
  {
    hide Step;
    assert code[..k + 1] == code[..k] + [code[k]];
    StepAllJoin(code[..k], [code[k]], f);
    StepFirst([code[k]], StepAll(code[..k], f), CLEAN);
  }

  lemma StraightLabelled(code: seq<Insn>)
    requires code != []
    ensures Labelled(Straight(code), Along(code))
  {
    hide Step;
    var sec, labels := Straight(code), Along(code);
    assert code[..0] == [];
    forall n, d | n in labels && n !in sec.data && sec.Edge(n, d) && d !in sec.data
      ensures Leads(sec, labels, n, d)
    {
      assert d == n + 4;
      StepNext(code, n / 4, ROOT);
      assert d / 4 == n / 4 + 1;
    }
  }

  lemma StraightWalk(code: seq<Insn>)
    requires code != []
    ensures exists o :: Walk(Straight(code), o) && o[|o| - 1] == 4 * |code| - 4
  {
    var sec := Straight(code);
    var o := seq(|code|, k => 4 * k);
    forall k | 0 <= k < |o| - 1
      ensures OnEdge(sec, o, k)
    {
      assert o[k + 1] in sec.preds && sec.preds[o[k + 1]] == [o[k]];
    }
    assert Walk(sec, o);
  }

  // Prologue, any body inside the frame, epilogue and blr are shown to return.
  lemma FrameShows(rx: int, ry: int, frame: int, body: seq<Insn>)
    requires rx != 1 && ry != 1 && forall k :: 0 <= k < |body| ==> InFrame(body[k], frame)
    requires frame >= 0
    ensures var code := Prologue(rx, frame) + body + Epilogue(ry, frame) + [Branch(false)];
      Shows(Straight(code), Along(code))
  {
    hide Step, StepAll, Labelled, Walk, InFrame;
    var front := Prologue(rx, frame) + body + Epilogue(ry, frame);
    var code := front + [Branch(false)];
    var sec, labels := Straight(code), Along(code);
    StraightLabelled(code);
    StraightWalk(code);
    forall n | n in labels && sec.Offset(n) && n !in sec.data
      ensures StoreAllowed(sec.At(n), labels[n])
    {
      FrameStores(rx, ry, frame, body, n / 4);
    }
    AbiFrameReturns(rx, ry, frame, body);
    assert code[..|front|] == front;
    assert (4 * |code| - 4) / 4 == |front|;
    assert Returned(sec, labels, 4 * |code| - 4);
  }

  // Every store of the frame misses the slot or is the save.
  lemma FrameStores(rx: int, ry: int, frame: int, body: seq<Insn>, k: nat)
    requires rx != 1 && ry != 1 && forall j :: 0 <= j < |body| ==> InFrame(body[j], frame)
    requires frame >= 0
    requires k < |Prologue(rx, frame) + body + Epilogue(ry, frame) + [Branch(false)]|
    ensures var code := Prologue(rx, frame) + body + Epilogue(ry, frame) + [Branch(false)];
      StoreAllowed(code[k], StepAll(code[..k], ROOT))
  {
    var pro, epi := Prologue(rx, frame), Epilogue(ry, frame);
    var code := pro + body + epi + [Branch(false)];
    if k < 3 {
      PrologueStores(rx, frame, k);
      assert code[..k] == pro[..k];
    } else if k < 3 + |body| {
      PrologueSaves(rx, frame);
      FrameKeeps(body, frame, StepAll(pro, ROOT), SpreadAll(pro, ROOT, CLEAN));
      assert code[..k] == pro + body[..k - 3];
      StepAllJoin(pro, body[..k - 3], ROOT);
    }
  }

  lemma PrologueStores(rx: int, frame: int, k: nat)
    requires rx != 1 && k < 3 && frame >= 0
    ensures StoreAllowed(Prologue(rx, frame)[k], StepAll(Prologue(rx, frame)[..k], ROOT))
  {
    var pro := Prologue(rx, frame);
    if k == 1 {
      StepNext(pro, 0, ROOT);
    } else if k == 2 {
      StepNext(pro, 0, ROOT);
      StepNext(pro, 1, ROOT);
    }
  }

  // A leaf and its blr are shown to return.
  lemma LeafShows(body: seq<Insn>)
    requires forall k :: 0 <= k < |body| ==> InLeaf(body[k])
    ensures Shows(Straight(body + [Branch(false)]), Along(body + [Branch(false)]))
  {
    hide Step, StepAll, Labelled, Walk, InLeaf;
    var code := body + [Branch(false)];
    var sec, labels := Straight(code), Along(code);
    StraightLabelled(code);
    StraightWalk(code);
    LeafKeeps(body, ROOT);
    forall n | n in labels && sec.Offset(n) && n !in sec.data
      ensures StoreAllowed(sec.At(n), labels[n])
    {
      if n / 4 < |body| { assert code[..n / 4] == body[..n / 4]; }
    }
    assert code[..|body|] == body;
    assert (4 * |code| - 4) / 4 == |body|;
    assert Returned(sec, labels, 4 * |code| - 4);
  }

  method ProveLeaf(body: seq<Insn>) returns (v: Verdict, ghost st: State)
    requires forall k :: 0 <= k < |body| ==> InLeaf(body[k]) && Decoded(body[k])
    ensures v == Proved
  {
    hide Shows;
    LeafShows(body);
    StraightInside(body + [Branch(false)]);
    ghost var trail;
    v, st, trail := ProveReturns(Straight(body + [Branch(false)]));
  }

  // Such functions are proved to return.
  method ProveFrame(rx: int, ry: int, frame: int, body: seq<Insn>) returns (v: Verdict, ghost st: State)
    requires rx != 1 && ry != 1 && frame >= 0
    requires forall k :: 0 <= k < |body| ==> InFrame(body[k], frame) && Decoded(body[k])
    ensures v == Proved
  {
    hide Shows;
    var code := Prologue(rx, frame) + body + Epilogue(ry, frame) + [Branch(false)];
    FrameShows(rx, ry, frame, body);
    StraightInside(code);
    ghost var trail;
    v, st, trail := ProveReturns(Straight(code));
  }

  lemma StraightInside(code: seq<Insn>)
    requires code != [] && forall k :: 0 <= k < |code| ==> Decoded(code[k])
    ensures Straight(code).WellFormed() && EntriesInside(Straight(code))
  {
  }
}
