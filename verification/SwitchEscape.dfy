// Runs of loaded sections, with justified proofs, that leave through a case the proof excludes.
module SwitchEscape {
  import opened Collections
  import opened BitMath
  import opened Relocations
  import opened SwitchModel
  import opened SwitchSound
  import opened SwitchProof

  const KEY: Key := (7, 0)
  const TABLE := Table(0x100, {(1, 0)})

  // A bgt that a relocation sends to the very next instruction; bdzlr between mtctr and bctr;
  // an eight-byte relocation four bytes before the table; none of these.
  datatype Flaw = ToNext | Decrement | WideReloc | Flawless

  // A dispatch with the bound 0 on what a system call leaves in r3: sc, load of the table address,
  // cmplwi, bgt, sldi, lwax, add, mtctr, a conditional branch to LR that is not taken, bctr.
  function Code(w: Flaw, k: int): Insn {
    if k == 0 then Syscall
    else if k == 1 then LoadToc(9, 2, 8, KEY, Direct, true)
    else if k == 2 then Cmpl(0, 32, 3, 0)
    else if k == 3 then (if w.ToNext? then Bc(12, 1, 16, None) else Bc(12, 1, 0x40, Some(0x40)))
    else if k == 4 then Rld(2, 4, 3, 2, 30)
    else if k == 5 then Lwax(5, 9, 4)
    else if k == 6 then Add(5, 9, 5)
    else if k == 7 then Mtctr(5)
    else BranchReg(if w.Decrement? then 18 else 12)
  }

  // A branch to the next instruction falls through and jumps to one and the same place.
  function Preds(w: Flaw): map<int, seq<int>> {
    map[4 := [0], 8 := [4], 12 := [8], 16 := if w.ToNext? then [12, 12] else [12],
        20 := [16], 24 := [20], 28 := [24], 32 := [28], 36 := [32]]
  }

  function Relocs(w: Flaw): set<Reloc> {
    {Reloc(6, HalfDs)}
    + if w.ToNext? then {Reloc(12, Branch14)} else if w.WideReloc? then {Reloc(0xfc, Bytes(8))} else {}
  }

  function Dispatch(w: Flaw): Section {
    Section(0x200, map k | 0 <= k < 9 :: 4 * k := Code(w, k), Preds(w), {0}, map[(KEY, 8) := (0x100, (1, 0))], Relocs(w),
            map[0x100 := 0x80, 0x104 := 0x88])
  }

  const PATH := [0, 4, 8, 12, 16, 20, 24, 28, 32, 36]
  const CHAIN := [16, 20, 24, 28, 32, 36]

  // The ways into the jump: both predecessors of 16 give the same one.
  function Paths(w: Flaw): seq<seq<int>> { if w.ToNext? then [PATH, PATH] else [PATH] }

  // The section as loaded: the cases are at 0x180 and 0x188.
  function Image(w: Flaw): Env {
    Env(0x10000, (a: int) => if a == 0x10100 then (if w.WideReloc? then 0x88 else 0x80) else if a == 0x10104 then 0x88 else 0,
        0x18000, (k: Key, width: int) => 0x10100, (k: Key) => 0x20000, (k: Key) => false)
  }

  // "Case 0 only".
  function TheProof(w: Flaw): Proof { Proof(Preds(w), {0x180}, 0x100, 1, {(1, 0)}) }

  // Before each instruction.  On the way through the branch to the next instruction r3 is 1,
  // beyond the bound the compare checks for.
  function State(w: Flaw, k: int): Machine {
    var index := if w.ToNext? then 1 else 0;
    var entry := if w.Decrement? || w.Flawless? then 0x80 else 0x88;
    Machine(r => if r == 2 then 0x18000
                 else if r == 3 then index
                 else if r == 9 && k >= 2 then 0x10100
                 else if r == 4 && k >= 5 then 4 * index
                 else if r == 5 && k == 6 then entry
                 else if r == 5 && k >= 7 then 0x10100 + entry
                 else 0,
            f => f == 0 && k >= 3 && w.ToNext?,
            if k < 8 then 0 else if k == 9 && w.Decrement? then 0x1017f else 0x10100 + entry)
  }

  function Symbolic(k: int): Sym {
    if k <= 1 then START
    else if k == 2 then Sym(map[9 := TABLE], map[], [], None, 0)
    else
      Sym(if k <= 4 then map[9 := TABLE, 3 := V(1, 64)]
          else if k == 5 then map[9 := TABLE, 3 := V(1, 64), 4 := Scaled(1, 32)]
          else if k == 6 then map[9 := TABLE, 3 := V(1, 64), 4 := Scaled(1, 32), 5 := Entry(0x100, 0, {(1, 0)})]
          else map[9 := TABLE, 3 := V(1, 64), 4 := Scaled(1, 32), 5 := Entry(0x100, 0, {(1, 0)})][5 := Target(0x100, 0, {(1, 0)})],
          map[0 := Cmp(1, 64, 32, 0)],
          if k >= 4 then [Bound(1, 32, 0)] else [],
          if k >= 8 then Some(Target(0x100, 0, {(1, 0)})) else None,
          1)
  }

  lemma PutBack<K, T>(m: map<K, T>, k: K, v: T)
    ensures (m - {k})[k := v] == m[k := v]
  {
  }

  lemma SymbolicFront(w: Flaw, k: int)
    requires 0 <= k < 5
    ensures SymStep(Code(w, k), 4 * k, 4 * k + 4, Dispatch(w).tables, Symbolic(k)) == Some(Symbolic(k + 1))
  {
    hide Pow2, BoundOf, SymRlwinm, SymRld, SymLwax, SymAdd;
    if k == 1 { PutBack(Symbolic(1).regs, 9, TABLE); }
    if k == 4 { SymbolicShift(w); }
  }

  lemma SymbolicShift(w: Flaw)
    ensures SymStep(Code(w, 4), 16, 20, Dispatch(w).tables, Symbolic(4)) == Some(Symbolic(5))
  {
    hide Pow2, BoundOf, SymRlwinm, SymLwax, SymAdd, Dispatch;
    PutBack(Symbolic(4).regs, 4, Scaled(1, 32));
  }

  lemma SymbolicBack(w: Flaw, k: int)
    requires 6 <= k < 9
    ensures SymStep(Code(w, k), 4 * k, 4 * k + 4, Dispatch(w).tables, Symbolic(k)) == Some(Symbolic(k + 1))
  {
    hide Pow2, BoundOf, SymRlwinm, SymRld, SymLwax;
    if k == 6 {
      SelfUnion(TABLE.refs, (1, 0));
      PutBack(Symbolic(6).regs, 5, Target(0x100, 0, {(1, 0)}));
    }
  }

  lemma IndexBound()
    ensures BoundOf(Symbolic(5).bounds, 1, 32) == Some(0)
  {
    assert Symbolic(5).bounds[1..] == [];
  }

  lemma SymbolicLoad(w: Flaw)
    ensures SymStep(Code(w, 5), 20, 24, Dispatch(w).tables, Symbolic(5)) == Some(Symbolic(6))
  {
    hide Pow2, BoundOf, Dispatch, SymAdd, SymRld, SymRlwinm;
    PutBack(Symbolic(5).regs, 5, Entry(0x100, 0, {(1, 0)}));
    IndexBound();
  }

  lemma CodeAt(w: Flaw, k: int)
    requires 0 <= k < 9
    ensures Dispatch(w).At(4 * k) == Code(w, k)
  {
  }

  lemma {:induction false} SymbolicRun(w: Flaw, n: nat)
    requires n < |PATH|
    ensures SymRun(Dispatch(w), PATH, n) == Some(Symbolic(n))
  {
    hide SymStep, Symbolic, Code, Dispatch;
    if n == 0 {
      SymbolicStart();
    } else {
      SymbolicRun(w, n - 1);
      if n < 6 { SymbolicFront(w, n - 1); } else if n == 6 { SymbolicLoad(w); } else { SymbolicBack(w, n - 1); }
      assert PATH[n - 1] == 4 * (n - 1) && PATH[n] == 4 * n;
      CodeAt(w, n - 1);
    }
  }

  lemma SymbolicStart()
    ensures Symbolic(0) == START
  {
  }

  lemma MachineStep(w: Flaw, k: int)
    requires 0 <= k < 9
    ensures Exec(Code(w, k), 4 * k, 4 * k + 4, Image(w), State(w, k), State(w, k + 1))
  {
    hide *;
    if k < 4 { MachineFront(w, k); } else if k == 4 { MachineShift(w); } else { MachineBack(w, k); }
  }

  lemma MachineFront(w: Flaw, k: int)
    requires 0 <= k < 4
    ensures Exec(Code(w, k), 4 * k, 4 * k + 4, Image(w), State(w, k), State(w, k + 1))
  {
    hide Field, Rotl32, Rotl64, Pow2, Low, Wrap, SignExtend32;
    if k == 2 { LowSmall(State(w, k).reg(3), 32); }
  }

  lemma MachineShift(w: Flaw)
    ensures Exec(Code(w, 4), 16, 20, Image(w), State(w, 4), State(w, 5))
  {
    hide Field, Rotl64, Pow2, Low, Wrap;
    var index := State(w, 4).reg(3);
    Sldi2(index, 32);
    LowSmall(index, 32);
  }

  lemma MachineBack(w: Flaw, k: int)
    requires 5 <= k < 9
    ensures Exec(Code(w, k), 4 * k, 4 * k + 4, Image(w), State(w, k), State(w, k + 1))
  {
    hide Field, Rotl64, Pow2, Low, Wrap;
    WrapNone(0x10100);
    WrapNone(0x10104);
    WrapNone(0x10180);
    WrapNone(0x10188);
    WrapNone(0x1017f);
    WrapNone(0x80);
    WrapNone(0x88);
  }

  function Run(w: Flaw): seq<Machine> { seq(10, k => State(w, k)) }

  lemma StateSane(w: Flaw, k: int)
    ensures Sane(Image(w), State(w, k))
  {
  }

  lemma MachineRun(w: Flaw)
    ensures Along(Dispatch(w), Image(w), PATH, Run(w)) && TocHeld(Dispatch(w), Image(w), PATH, Run(w))
  {
    hide Exec, State, Code, Image, Sane, Dispatch, TocThere;
    forall i | 0 <= i < |PATH|
      ensures Sane(Image(w), Run(w)[i]) && TocThere(Dispatch(w).At(PATH[i]), Image(w), Run(w)[i])
    {
      StateSane(w, i);
      TocIsThere(w, PATH[i], i);
    }
    forall i | 0 <= i < |PATH| - 1
      ensures StepAlong(Dispatch(w), Image(w), PATH, Run(w), i)
    {
      MachineStep(w, i);
      assert PATH[i] == 4 * i && PATH[i + 1] == 4 * i + 4;
      CodeAt(w, i);
    }
  }

  lemma TocIsThere(w: Flaw, off: int, k: int)
    ensures TocThere(Dispatch(w).At(off), Image(w), State(w, k))
  {
  }

  lemma ChainIsStraight(w: Flaw)
    ensures StraightLine(Preds(w), CHAIN) && StraightLine(Preds(w), [0, 4, 8, 12])
  {
  }

  lemma PathIsStraight(w: Flaw)
    requires !w.ToNext?
    ensures StraightLine(Preds(w), PATH)
  {
  }

  lemma PathCovers(w: Flaw)
    ensures Covers(Preds(w), 36, Paths(w))
  {
    hide StraightLine, Covers;
    if w.ToNext? {
      ChainIsStraight(w);
      var seg := [0, 4, 8, 12];
      assert seg + CHAIN == PATH;
      ManyPathsCover(Preds(w), 36, CHAIN, [12, 12], [seg, seg], [PATH, PATH]);
    } else {
      PathIsStraight(w);
      OnePathCovers(Preds(w), 36, PATH);
    }
  }

  lemma PathCase(w: Flaw)
    ensures CaseOf(Dispatch(w), PATH) == Some(Case(0x100, 0, {(1, 0)}))
  {
    hide SymRun, Dispatch;
    SymbolicRun(w, 9);
    SymbolicEnd();
  }

  lemma ProofIsJustified(w: Flaw)
    ensures Justified(Dispatch(w), 36, TheProof(w), Paths(w)) && TakenFrom(Dispatch(w), TheProof(w).relied)
  {
    hide CaseOf, Dispatch, Covers;
    DispatchIs(w);
    PathCovers(w);
    PathCase(w);
    assert TargetOf(Dispatch(w), 0x100, 0) == 0x180;
  }

  lemma DispatchIs(w: Flaw)
    ensures var sec := Dispatch(w);
      sec.WellFormed() && sec.preds == Preds(w) && sec.entries == {0} && sec.size == 0x200 && sec.relocs == Relocs(w) && sec.Word(0x100) == 0x80
  {
    var sec := Dispatch(w);
    forall off | off in sec.code
      ensures Encodable(sec.code[off])
    {
      var k :| 0 <= k < 9 && off == 4 * k;
      assert sec.code[off] == Code(w, k);
    }
  }

  lemma ImageIsLoaded(w: Flaw)
    ensures Loaded(Dispatch(w), Image(w))
  {
    WrapNone(0x10100);
    if w.WideReloc? {
      assert Reloc(0xfc, Bytes(8)) in Dispatch(w).relocs && !Dispatch(w).Untouched(0x100);
    }
  }

  // Every relocation in the code is one the run expects.
  lemma NoneAltered(w: Flaw, k: int)
    requires 0 <= k < 9
    ensures !Dispatch(w).Altered(4 * k)
  {
    hide Dispatch;
    DispatchIs(w);
    CodeAt(w, k);
  }

  // Where the run stands before each step, by its number.
  lemma UnsureAt(w: Flaw, k: nat)
    requires k < |PATH| - 1
    ensures Unsure(Dispatch(w), PATH, k)
       <==> Misjudged(Code(w, k), false, 4 * k, 4 * k + 4, Dispatch(w).tables, Symbolic(k))
  {
    hide Dispatch, Symbolic, Code, SymRun, Misjudged, Section.Altered;
    SymbolicRun(w, k);
    NoneAltered(w, k);
    CodeAt(w, k);
    assert PATH[k] == 4 * k && PATH[k + 1] == 4 * k + 4;
  }

  lemma NothingKnown()
    ensures MayExceed(Symbolic(3), Cmp(1, 64, 32, 0))
  {
    hide Low;
    LowSmall(1, 32);
    assert Meets(Symbolic(3).bounds, 1, 1) && Above(Cmp(1, 64, 32, 0), 1);
  }

  lemma FlawedStep(w: Flaw, k: nat)
    requires k < |PATH| - 1
    ensures Unsure(Dispatch(w), PATH, k) <==> (w.ToNext? && k == 3) || (w.Decrement? && k == 8)
  {
    hide Dispatch, Unsure, MayExceed, SymStep;
    UnsureAt(w, k);
    NothingKnown();
  }

  // Judged and kept but for the one flaw.
  lemma OneFlaw(w: Flaw)
    ensures Judged(Dispatch(w), PATH) <==> w.WideReloc? || w.Flawless?
    ensures TableKept(Dispatch(w), 0x100) <==> !w.WideReloc?
  {
    hide Dispatch, Unsure;
    DispatchIs(w);
    forall k: nat | k < |PATH| - 1
      ensures Unsure(Dispatch(w), PATH, k) <==> (w.ToNext? && k == 3) || (w.Decrement? && k == 8)
    {
      FlawedStep(w, k);
    }
    assert Unsure(Dispatch(w), PATH, 3) == w.ToNext? && Unsure(Dispatch(w), PATH, 8) == w.Decrement?;
    if w.WideReloc? { assert Reloc(0xfc, Bytes(8)) in Dispatch(w).relocs; }
  }

  lemma PathIsWalk(w: Flaw)
    ensures var f := Flow(Dispatch(w).preds, Dispatch(w).entries); Walk(f, PATH) && Agrees(f, TheProof(w).relied)
  {
    var f := Flow(Dispatch(w).preds, Dispatch(w).entries);
    forall k | 0 <= k < |PATH| - 1
      ensures EdgeAt(f, PATH, k)
    {
    }
  }

  // For each flaw a justified proof over the section's own flow and memory, and a run along it
  // that leaves through a case the proof excludes.  Without a flaw the same run lands.
  lemma FlawEscapes(w: Flaw)
    ensures var sec := Dispatch(w);
      var f := Flow(sec.preds, sec.entries);
      && sec.WellFormed() && Loaded(sec, Image(w))
      && Justified(sec, 36, TheProof(w), Paths(w)) && TakenFrom(sec, TheProof(w).relied)
      && Walk(f, PATH) && Agrees(f, TheProof(w).relied) && PATH[|PATH| - 1] == 36
      && Along(sec, Image(w), PATH, Run(w)) && TocHeld(sec, Image(w), PATH, Run(w))
      && (TableKept(sec, TheProof(w).at) <==> !w.WideReloc?)
      && (w.Flawless? <==> exists d :: d in TheProof(w).targets && Lands(Run(w)[|Run(w)| - 1]) == Image(w).base + d)
  {
    hide Along, Loaded, Justified, Walk, Agrees, TakenFrom, TocHeld, Judged, TableKept, Dispatch;
    DispatchIs(w);
    ImageIsLoaded(w);
    ProofIsJustified(w);
    PathIsWalk(w);
    MachineRun(w);
    OneFlaw(w);
    assert 0x180 in TheProof(w).targets;
  }

  // The path is confirmed but for the two flaws in it: the conditions of TargetsComplete are met
  // without a flaw, and each flaw takes away one of them.
  lemma FlawsSeen(w: Flaw)
    ensures Confirmed(Dispatch(w), PATH) <==> w.WideReloc? || w.Flawless?
  {
    hide Along, Loaded, Justified, Walk, Agrees, TakenFrom, TocHeld, Judged, TableKept, Dispatch, Confirmed;
    OneFlaw(w);
    if w.WideReloc? || w.Flawless? {
      PathCase(w);
      JudgedIsConfirmed(Dispatch(w), PATH);
    } else {
      FlawEscapes(w);
      if Confirmed(Dispatch(w), PATH) {
        TargetsComplete(Dispatch(w), Image(w), 36, TheProof(w), Paths(w), Flow(Dispatch(w).preds, Dispatch(w).entries), PATH, Run(w));
      }
    }
  }

  lemma SymbolicEnd()
    ensures Symbolic(9).ctr == Some(Target(0x100, 0, {(1, 0)}))
  {
  }
}
