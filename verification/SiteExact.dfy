// What each site's outcome is, said of the words, of the image and of the executions: both ways.
module SiteExact {
  import opened Collections
  import opened SiteModel
  import opened SiteSpec
  import HaSearch
  import FlowSeeding

  // ---- the table of addis sites ----

  // A TOC16_HA row that lies on an addis from r2 within the section's bytes.
  predicate OnAddisR2(sec: Section, row: Row) {
    && row.role == Ha && row.offset % 4 == 2 && row.offset <= sec.size - 2
    && sec.src(row.offset - 2).op == 15 && sec.src(row.offset - 2).ra == 2
  }

  lemma GoodIs(sec: Section, row: Row)
    ensures GoodHa(sec, row) <==> OnAddisR2(sec, row)
  {
  }

  lemma {:induction false} LastAt(sec: Section, rows: seq<Row>, ps: seq<int>, j: int)
    requires Positions(rows, ps) && Increasing(ps) && j in ps
    ensures var t := HaTable(sec, rows, ps);
      At(rows[j]) in t && j <= t[At(rows[j])].index
  {
    var p, front := ps[|ps| - 1], ps[..|ps| - 1];
    var i :| 0 <= i < |ps| && ps[i] == j;
    if i < |ps| - 1 {
      assert front[i] == j;
      LastAt(sec, rows, front, j);
    }
  }

  // No row on an addis is missing from the table, except for a later one at its offset.
  lemma TableHasAll(sec: Section, rows: seq<Row>, j: int)
    requires 0 <= j < |rows| && OnAddisR2(sec, rows[j])
    ensures var t := HaTable(sec, rows, GoodRows(sec, rows));
      At(rows[j]) in t && j <= t[At(rows[j])].index
  {
    GoodIs(sec, rows[j]);
    LastAt(sec, rows, GoodRows(sec, rows), j);
  }

  // ---- accesses ----

  // Executions come to every instruction of a seeded section.
  lemma SeededRuns(sec: Section, rows: seq<Row>, use: int, reg: int)
    requires !sec.flow.bad && !sec.flow.unknown && FlowSeeded(sec) && FlowSeeding.Inside(sec.flow, sec.size - sec.size % 4)
    ensures HaSearch.AllRun(Flow(sec, rows), use, reg)
  {
    var fl, size := Flow(sec, rows), sec.size - sec.size % 4;
    forall path | HaSearch.BackPath(fl, use, reg, path)
      ensures exists o :: HaSearch.Walk(fl, path[0], o)
    {
      assert HaSearch.EdgeOn(fl, path, 0);
      assert sec.flow.Edge(path[0], path[1]);
      assert FlowSeeding.Reached(sec.flow, sec.flow.entries, path[0]);
      var o :| HaSearch.Walk(sec.flow.(entries := sec.flow.entries), path[0], o);
      assert forall i :: 0 <= i < |o| - 1 ==> HaSearch.EdgeOn(sec.flow.(entries := sec.flow.entries), o, i) ==> HaSearch.EdgeOn(fl, o, i);
      assert HaSearch.Walk(fl, path[0], o);
    }
  }

  // The linked pair is one whose rewriting is modelled, on the register due, and the image's
  // answer is j, whatever the registers hold.
  ghost predicate Answers(sec: Section, row: Row, form: Form, pair: Pair, j: Judgement) {
    && sec.linked(row.offset - 2).Some?
    && var w, ow := sec.src(row.offset - 2), sec.linked(row.offset - 2).value;
    && Modelled(w, ow, pair) && ow.ra == BaseDue(pair, w.ra)
    && forall before: Regs, at: Regs :: Carried(sec.toc, pair, w.ra, before, at) ==>
         ImageSays(sec.image, w, ow, form, sec.resolve(row.key), at, j)
  }

  lemma Registers(toc: int, pair: Pair, ra: nat) returns (before: Regs, at: Regs)
    requires pair.With? ==> ra != 2
    ensures Carried(toc, pair, ra, before, at)
  {
    before := r => toc;
    var high := if pair.With? && pair.linked.Some? then Shifted(pair.linked.value, before) else 0;
    at := r => if r == 2 then toc else high;
  }

  lemma VerifiedIsAnswer(sec: Section, row: Row, pair: Pair)
    requires FormOf(sec, row).Some? && sec.linked(At(row)).Some? && (pair.With? ==> sec.src(At(row)).ra !in {0, 2})
    ensures PairJudgement(sec, row, pair) == Verified <==> Answers(sec, row, FormOf(sec, row).value, pair, Verified)
  {
    var w, ow, form := sec.src(At(row)), sec.linked(At(row)).value, FormOf(sec, row).value;
    var target := sec.resolve(row.key);
    if PairJudgement(sec, row, pair) == Verified {
      var before, at := Registers(sec.toc, pair, w.ra);
      JudgedExactly(sec.image, sec.toc, w, ow, row.ds, form, target, pair, before, at, Verified);
      forall before: Regs, at: Regs | Carried(sec.toc, pair, w.ra, before, at)
        ensures ImageSays(sec.image, w, ow, form, target, at, Verified)
      {
        JudgedExactly(sec.image, sec.toc, w, ow, row.ds, form, target, pair, before, at, Verified);
      }
    }
    if Answers(sec, row, form, pair, Verified) {
      var before, at := Registers(sec.toc, pair, w.ra);
      assert ImageSays(sec.image, w, ow, form, target, at, Verified);
      JudgedExactly(sec.image, sec.toc, w, ow, row.ds, form, target, pair, before, at, Verified);
    }
  }

  // The image fails the pair: it answers so, or the addis is gone and the access still uses its register.
  ghost predicate Fails(sec: Section, row: Row, form: Form, pair: Pair) {
    || Answers(sec, row, form, pair, Failed)
    || (&& sec.linked(row.offset - 2).Some? && AddisGone(pair)
        && var w, ow := sec.src(row.offset - 2), sec.linked(row.offset - 2).value;
           ow.ra == w.ra && ow.ra != 2 && (SameForm(w, ow) || TurnedAddi(w, ow)))
  }

  lemma FailedIsFails(sec: Section, row: Row, pair: Pair)
    requires FormOf(sec, row).Some? && sec.linked(At(row)).Some? && (pair.With? ==> sec.src(At(row)).ra !in {0, 2})
    ensures PairJudgement(sec, row, pair) == Failed <==> Fails(sec, row, FormOf(sec, row).value, pair)
  {
    var w, ow, form := sec.src(At(row)), sec.linked(At(row)).value, FormOf(sec, row).value;
    var target := sec.resolve(row.key);
    BaseIs(pair, w.ra);
    if PairJudgement(sec, row, pair) == Failed {
      forall before: Regs, at: Regs | Carried(sec.toc, pair, w.ra, before, at) && ow.ra == BaseDue(pair, w.ra)
        ensures ImageSays(sec.image, w, ow, form, target, at, Failed)
      {
        JudgedExactly(sec.image, sec.toc, w, ow, row.ds, form, target, pair, before, at, Failed);
      }
    }
    var before, at := Registers(sec.toc, pair, w.ra);
    JudgedExactly(sec.image, sec.toc, w, ow, row.ds, form, target, pair, before, at, Failed);
  }

  // A row whose relocation can be looked at: in a placed section with bytes, at the low half of a
  // word of it.
  predicate Looked(sec: Section, row: Row) {
    sec.place.Placed? && sec.hasBytes && row.offset % 4 == 2 && row.offset <= sec.size - 2
  }

  // The addis of row j is the last to write the register on some execution that comes to the access.
  ghost predicate Supplying(sec: Section, rows: seq<Row>, row: Row, j: int) {
    HaSearch.Arrives(Flow(sec, rows), row.offset - 2, sec.src(row.offset - 2).ra, j)
  }

  ghost predicate SuppliedWell(sec: Section, rows: seq<Row>, row: Row, form: Form) {
    forall j :: 0 <= j < |rows| && Supplying(sec, rows, row, j)
      ==> Answers(sec, row, form, With(sec.linked(rows[j].offset - 2)), Verified)
  }

  lemma AllPairs(sec: Section, rows: seq<Row>, k: int)
    requires 0 <= k < |rows| && rows[k].role == Lo && Usable(sec, rows[k]) && Based(sec, rows, rows[k])
    requires FormOf(sec, rows[k]).Some? && sec.linked(At(rows[k])).Some?
    ensures SuppliedWell(sec, rows, rows[k], FormOf(sec, rows[k]).value)
            <==> !SomePair(sec, rows, k, Failed) && !SomePair(sec, rows, k, Refused)
  {
    hide Based, HaSearch.Arrives, Answers, PairJudgement;
    var row, form := rows[k], FormOf(sec, rows[k]).value;
    OwnRegister(sec, rows, row);
    forall j | 0 <= j < |rows| && Supplying(sec, rows, row, j)
      ensures Answers(sec, row, form, Linked(sec, rows, j), Verified)
              <==> PairJudgement(sec, row, Linked(sec, rows, j)) == Verified
      ensures Uses(sec, rows, k, j)
    {
      VerifiedIsAnswer(sec, row, Linked(sec, rows, j));
    }
    if SuppliedWell(sec, rows, row, form) {
      forall j | 0 <= j < |rows| && Uses(sec, rows, k, j)
        ensures PairJudgement(sec, row, Linked(sec, rows, j)) == Verified
      {
        assert Supplying(sec, rows, row, j);
      }
    } else {
      var j :| 0 <= j < |rows| && Supplying(sec, rows, row, j)
               && !Answers(sec, row, form, With(sec.linked(rows[j].offset - 2)), Verified);
      assert SomePair(sec, rows, k, PairJudgement(sec, row, Linked(sec, rows, j)));
    }
  }

  lemma OwnRegister(sec: Section, rows: seq<Row>, row: Row)
    requires row.role == Lo && Based(sec, rows, row)
    ensures sec.src(At(row)).ra !in {0, 2}
  {
  }

  // A low half is verified if and only if it can be looked at, is of a known form on a register of
  // its own, has a target, gets the register from an addis of that target on every execution, is in
  // the image, and the image verifies it with each of those addis.
  lemma LowHalfExactly(sec: Section, rows: seq<Row>, k: int)
    requires 0 <= k < |rows| && rows[k].role == Lo && !sec.flow.bad && !sec.flow.unknown
    requires FlowSeeded(sec) && FlowSeeding.Inside(sec.flow, sec.size - sec.size % 4)
    ensures var row := rows[k];
      var w := sec.src(row.offset - 2);
      Expected(sec, rows, k) == Settled(Verified) <==>
        && Looked(sec, row) && Classify(w, row.ds).Some? && w.ra != 0 && w.ra != 2
        && !sec.resolve(row.key).Unresolved? && sec.linked(row.offset - 2).Some?
        && HaSearch.AlwaysSupplied(Flow(sec, rows), row.offset - 2, w.ra, row.key)
        && SuppliedWell(sec, rows, row, Classify(w, row.ds).value)
  {
    hide HaSearch.Clean, HaSearch.AlwaysSupplied, HaSearch.Arrives, SuppliedWell, SomePair;
    var row, w := rows[k], sec.src(At(rows[k]));
    SeededRuns(sec, rows, At(row), w.ra);
    HaSearch.CleanExactly(Flow(sec, rows), At(row), w.ra, row.key);
    if Usable(sec, row) && Based(sec, rows, row) && FormOf(sec, row).Some? && sec.linked(At(row)).Some? {
      AllPairs(sec, rows, k);
    }
  }

  // It fails if and only if it has lost its place in the file, or one of its addis fails with it.
  lemma LowHalfFails(sec: Section, rows: seq<Row>, k: int)
    requires 0 <= k < |rows| && rows[k].role == Lo && !sec.flow.bad && !sec.flow.unknown
    requires FlowSeeded(sec) && FlowSeeding.Inside(sec.flow, sec.size - sec.size % 4)
    ensures var row := rows[k];
      var w := sec.src(row.offset - 2);
      Expected(sec, rows, k) == Settled(Failed) <==>
        && Looked(sec, row) && Classify(w, row.ds).Some? && w.ra != 0 && w.ra != 2 && !sec.resolve(row.key).Unresolved?
        && HaSearch.AlwaysSupplied(Flow(sec, rows), row.offset - 2, w.ra, row.key)
        && (sec.linked(row.offset - 2).None? || SuppliedBadly(sec, rows, row, Classify(w, row.ds).value))
  {
    hide HaSearch.Clean, HaSearch.AlwaysSupplied, HaSearch.Arrives, SuppliedBadly, SomePair;
    var row, w := rows[k], sec.src(At(rows[k]));
    SeededRuns(sec, rows, At(row), w.ra);
    HaSearch.CleanExactly(Flow(sec, rows), At(row), w.ra, row.key);
    if Usable(sec, row) && Based(sec, rows, row) && FormOf(sec, row).Some? && sec.linked(At(row)).Some? {
      SomeFails(sec, rows, k);
    }
  }

  ghost predicate SuppliedBadly(sec: Section, rows: seq<Row>, row: Row, form: Form) {
    exists j :: 0 <= j < |rows| && Supplying(sec, rows, row, j) && Fails(sec, row, form, With(sec.linked(rows[j].offset - 2)))
  }

  lemma SomeFails(sec: Section, rows: seq<Row>, k: int)
    requires 0 <= k < |rows| && rows[k].role == Lo && Usable(sec, rows[k]) && Based(sec, rows, rows[k])
    requires FormOf(sec, rows[k]).Some? && sec.linked(At(rows[k])).Some?
    ensures SuppliedBadly(sec, rows, rows[k], FormOf(sec, rows[k]).value) <==> SomePair(sec, rows, k, Failed)
  {
    hide Based, HaSearch.Arrives, Fails, PairJudgement;
    var row, form := rows[k], FormOf(sec, rows[k]).value;
    OwnRegister(sec, rows, row);
    forall j | 0 <= j < |rows| && Supplying(sec, rows, row, j)
      ensures Fails(sec, row, form, Linked(sec, rows, j)) <==> PairJudgement(sec, row, Linked(sec, rows, j)) == Failed
      ensures Uses(sec, rows, k, j)
    {
      FailedIsFails(sec, row, Linked(sec, rows, j));
    }
    if SomePair(sec, rows, k, Failed) {
      var j :| 0 <= j < |rows| && Uses(sec, rows, k, j) && PairJudgement(sec, row, Linked(sec, rows, j)) == Failed;
      assert Supplying(sec, rows, row, j);
    }
  }

  // Registers along a walk of the linked code: an instruction writes no more than is listed, r2 keeps
  // the TOC pointer, and an addis that is still there runs.
  ghost predicate Runs(sec: Section, rows: seq<Row>, o: seq<int>, run: seq<Regs>) {
    && HaSearch.Kept(Flow(sec, rows), o, run)
    && (forall i :: 0 <= i < |run| ==> run[i](2) == sec.toc)
    && forall i {:trigger run[i]} :: 0 <= i < |o| - 1 ==> AddisRuns(sec.linked(o[i]), run[i], run[i + 1])
  }

  ghost predicate AddisRuns(w: Option<Word>, was: Regs, now: Regs) {
    w.Some? && w.value.op == 15 ==> now(w.value.rt) == Shifted(w.value, was)
  }

  // Whatever way an execution comes to a verified low half, the image verifies the address it computes.
  lemma VerifiedAddress(sec: Section, rows: seq<Row>, k: int, o: seq<int>, run: seq<Regs>)
    requires 0 <= k < |rows| && rows[k].role == Lo && Expected(sec, rows, k) == Settled(Verified)
    requires HaSearch.Walk(Flow(sec, rows), At(rows[k]), o) && Runs(sec, rows, o, run)
    ensures FormOf(sec, rows[k]).Some? && sec.linked(At(rows[k])).Some?
    ensures ImageSays(sec.image, sec.src(At(rows[k])), sec.linked(At(rows[k])).value, FormOf(sec, rows[k]).value,
                      sec.resolve(rows[k].key), run[|o| - 1], Verified)
  {
    hide HaSearch.Walk, HaSearch.LastWriter, Expected, Runs, Carried, EffectiveAddress, FormOf, GoodHa, Flow;
    var i, j := VerifiedLowHalf(sec, rows, k, o);
    RunLength(sec, rows, o, run);
    CarriedAlong(sec, rows, k, o, run, i, j);
  }

  // The register comes through from the addis to the access.
  lemma CarriedAlong(sec: Section, rows: seq<Row>, k: int, o: seq<int>, run: seq<Regs>, i: nat, j: int)
    requires 0 <= k < |rows| && 0 <= j < |rows| && i < |o| - 1 && Runs(sec, rows, o, run) && |run| == |o|
    requires AddisKept(Linked(sec, rows, j), sec.src(At(rows[k])).ra) || AddisGone(Linked(sec, rows, j))
    requires o[i] == At(rows[j]) && HaSearch.LastWriter(Flow(sec, rows), o, sec.src(At(rows[k])).ra, i)
    ensures Carried(sec.toc, Linked(sec, rows, j), sec.src(At(rows[k])).ra, run[i], run[|o| - 1])
  {
    hide HaSearch.Kept, HaSearch.LastWriter, Shifted, Flow;
    var ra := sec.src(At(rows[k])).ra;
    HaSearch.ValueArrives(Flow(sec, rows), o, run, ra, i, |o| - 1);
    assert AddisRuns(sec.linked(o[i]), run[i], run[i + 1]);
  }

  lemma RunLength(sec: Section, rows: seq<Row>, o: seq<int>, run: seq<Regs>)
    requires Runs(sec, rows, o, run)
    ensures |run| == |o|
  {
  }

  // An access alone: on r2, and the image verifies it.
  lemma AloneExactly(sec: Section, rows: seq<Row>, k: int)
    requires 0 <= k < |rows| && rows[k].role == Single
    ensures var row := rows[k];
      var w := sec.src(row.offset - 2);
      Expected(sec, rows, k) == Settled(Verified) <==>
        && Looked(sec, row) && Classify(w, row.ds).Some? && w.ra == 2 && !sec.resolve(row.key).Unresolved?
        && Answers(sec, row, Classify(w, row.ds).value, Alone, Verified)
    ensures var row := rows[k];
      var w := sec.src(row.offset - 2);
      Expected(sec, rows, k) == Settled(Failed) <==>
        && Looked(sec, row) && Classify(w, row.ds).Some? && w.ra == 2 && !sec.resolve(row.key).Unresolved?
        && (sec.linked(row.offset - 2).None? || Answers(sec, row, Classify(w, row.ds).value, Alone, Failed))
  {
    hide Answers, PairJudgement;
    var row := rows[k];
    if FormOf(sec, row).Some? && sec.linked(At(row)).Some? {
      VerifiedIsAnswer(sec, row, Alone);
      FailedIsFails(sec, row, Alone);
    }
    if sec.linked(At(row)).None? { NoWord(sec, row); }
  }

  // No linked word, no answer.
  lemma NoWord(sec: Section, row: Row)
    requires sec.linked(At(row)).None?
    ensures forall form, pair, j :: !Answers(sec, row, form, pair, j)
  {
  }

  // An addis is verified if and only if some access uses it and each that does is verified; it fails
  // if and only if one fails.
  lemma HaExactly(sec: Section, rows: seq<Row>, j: int)
    requires 0 <= j < |rows| && rows[j].role == Ha && Looked(sec, rows[j]) && OnAddisR2(sec, rows[j])
    ensures Expected(sec, rows, j) == Settled(Verified) <==>
      && (exists k :: 0 <= k < |rows| && Uses(sec, rows, k, j))
      && forall k :: 0 <= k < |rows| && Uses(sec, rows, k, j) ==> Expected(sec, rows, k) == Settled(Verified)
    ensures Expected(sec, rows, j) == Settled(Failed) <==>
      exists k :: 0 <= k < |rows| && Uses(sec, rows, k, j) && Expected(sec, rows, k) == Settled(Failed)
  {
    hide AccessJudgement, Uses;
    forall k | 0 <= k < |rows| && Uses(sec, rows, k, j)
      ensures Expected(sec, rows, k) == Settled(AccessJudgement(sec, rows, k))
      ensures SomeUse(sec, rows, j, AccessJudgement(sec, rows, k))
    {
      UsedIsLow(sec, rows, k, j);
    }
  }

  // Only low halves use an addis.
  lemma UsedIsLow(sec: Section, rows: seq<Row>, k: int, j: int)
    requires 0 <= k < |rows| && Uses(sec, rows, k, j)
    ensures rows[k].role == Lo && Usable(sec, rows[k])
  {
  }

  // A section that was dropped takes its sites with it, and no other site is dropped; one that is
  // not where its code is known to be, or has no bytes, has all its sites refused.
  lemma DropsExactly(sec: Section, rows: seq<Row>, k: int)
    requires 0 <= k < |rows|
    ensures Expected(sec, rows, k) == Discarded <==> sec.place.Dropped?
    ensures sec.place.Misplaced? || (sec.place.Placed? && !Looked(sec, rows[k])) ==> Expected(sec, rows, k) == Settled(Refused)
  {
  }
}
