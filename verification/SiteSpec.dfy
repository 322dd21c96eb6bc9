// The outcome each relocation site of a section must get, stated without the walk that
// assigns it.
module SiteSpec {
  import opened Collections
  import opened SiteModel
  import HaSearch
  import FlowSeeding

  datatype Role = Ha | Lo | Single | Unsupported
  datatype Row = Row(index: int, offset: nat, role: Role, ds: bool, key: HaSearch.Key)

  datatype Placement = Placed | Dropped | Misplaced

  // A section with its source words, the image's words at its placement and its control flow.
  datatype Section = Section(obj: int, nr: int, place: Placement, hasBytes: bool, size: nat,
                             src: int -> Word, linked: int -> Option<Word>, resolve: HaSearch.Key -> Target,
                             toc: int, image: Image, flow: HaSearch.Section)

  datatype SiteKey = SiteKey(obj: int, nr: int, index: int)
  datatype Outcome = Settled(state: Judgement) | Discarded

  function KeyOf(sec: Section, row: Row): SiteKey { SiteKey(sec.obj, sec.nr, row.index) }

  predicate Usable(sec: Section, row: Row) {
    row.role != Unsupported && row.offset % 4 == 2 && row.offset + 2 <= sec.size
  }

  function At(row: Row): int { row.offset - 2 }

  predicate IsAddisToc(w: Word) { w.op == 15 && w.ra == 2 }

  predicate GoodHa(sec: Section, row: Row) {
    Usable(sec, row) && row.role == Ha && IsAddisToc(sec.src(At(row)))
  }

  predicate Positions(rows: seq<Row>, ps: seq<int>) { forall i :: 0 <= i < |ps| ==> 0 <= ps[i] < |rows| }

  predicate Increasing(ps: seq<int>) { forall i, j :: 0 <= i < j < |ps| ==> ps[i] < ps[j] }

  predicate Below(ps: seq<int>, bound: int) { forall i :: 0 <= i < |ps| ==> ps[i] < bound }

  // The positions of the usable TOC16_HA rows, in order, and of the other usable rows.
  function Rows(sec: Section, rows: seq<Row>, ha: bool, n: nat): (ps: seq<int>)
    requires n <= |rows|
    ensures Increasing(ps) && forall p :: p in ps ==> 0 <= p < n
    ensures forall p :: 0 <= p < n ==> (p in ps <==> Usable(sec, rows[p]) && (rows[p].role == Ha) == ha)
  {
    if n == 0 then []
    else
      var front := Rows(sec, rows, ha, n - 1);
      assert forall i :: 0 <= i < |front| ==> front[i] in front;
      if Usable(sec, rows[n - 1]) && (rows[n - 1].role == Ha) == ha then front + [n - 1] else front
  }

  // Those that sit on an addis rX,r2.
  function OnAddis(sec: Section, rows: seq<Row>, ps: seq<int>): (good: seq<int>)
    requires Positions(rows, ps) && Increasing(ps)
    ensures forall p :: p in good <==> p in ps && IsAddisToc(sec.src(At(rows[p])))
    ensures Increasing(good) && forall bound :: Below(ps, bound) ==> Below(good, bound)
  {
    if ps == [] then []
    else
      var p := ps[|ps| - 1];
      var front := OnAddis(sec, rows, ps[..|ps| - 1]);
      assert forall q :: q in ps <==> q in ps[..|ps| - 1] || q == p;
      assert Below(ps[..|ps| - 1], p);
      if IsAddisToc(sec.src(At(rows[p]))) then front + [p] else front
  }

  function GoodRows(sec: Section, rows: seq<Row>): (good: seq<int>)
    ensures Increasing(good) && Positions(rows, good)
    ensures forall p :: 0 <= p < |rows| ==> (p in good <==> GoodHa(sec, rows[p]))
  {
    var ps := Rows(sec, rows, true, |rows|);
    assert forall i :: 0 <= i < |ps| ==> ps[i] in ps;
    var good := OnAddis(sec, rows, ps);
    assert forall i :: 0 <= i < |good| ==> good[i] in good;   // and so in ps
    good
  }

  // The table the search looks an offset up in; a later site at one offset replaces an earlier.
  function HaTable(sec: Section, rows: seq<Row>, ps: seq<int>): map<int, HaSearch.HaSite>
    requires Positions(rows, ps)
  {
    if ps == [] then map[]
    else
      var p := ps[|ps| - 1];
      HaTable(sec, rows, ps[..|ps| - 1])[At(rows[p]) := HaSearch.HaSite(p, sec.src(At(rows[p])).rt, rows[p].key)]
  }

  lemma {:induction false} HaTableEntry(sec: Section, rows: seq<Row>, ps: seq<int>, at: int)
    requires Positions(rows, ps) && at in HaTable(sec, rows, ps)
    ensures var h := HaTable(sec, rows, ps)[at];
            h.index in ps && At(rows[h.index]) == at && h.reg == sec.src(at).rt && h.key == rows[h.index].key
  {
    var p := ps[|ps| - 1];
    if at != At(rows[p]) { HaTableEntry(sec, rows, ps[..|ps| - 1], at); }
  }

  // What the search finds at an offset is a usable TOC16_HA row on an addis rX,r2 there.
  lemma TableEntryIsGood(sec: Section, rows: seq<Row>, at: int)
    requires at in HaTable(sec, rows, GoodRows(sec, rows))
    ensures var h := HaTable(sec, rows, GoodRows(sec, rows))[at];
            0 <= h.index < |rows| && GoodHa(sec, rows[h.index]) && At(rows[h.index]) == at
            && h.reg == sec.src(at).rt && h.key == rows[h.index].key
  {
    HaTableEntry(sec, rows, GoodRows(sec, rows), at);
    var j := HaTable(sec, rows, GoodRows(sec, rows))[at].index;
    assert j in GoodRows(sec, rows);
  }

  function Flow(sec: Section, rows: seq<Row>): HaSearch.Section {
    sec.flow.(haAt := HaTable(sec, rows, GoodRows(sec, rows)))
  }

  // ---- outcomes ----

  function FormOf(sec: Section, row: Row): Option<Form> { Classify(sec.src(At(row)), row.ds) }

  ghost predicate Based(sec: Section, rows: seq<Row>, row: Row) {
    var ra := sec.src(At(row)).ra;
    if row.role == Lo then ra != 0 && ra != 2 && HaSearch.Clean(Flow(sec, rows), At(row), ra, row.key)
    else ra == 2
  }

  // The access at k takes its high half from the addis at j, on some path.
  ghost predicate Uses(sec: Section, rows: seq<Row>, k: int, j: int)
    requires 0 <= k < |rows|
  {
    && Usable(sec, rows[k]) && rows[k].role == Lo && FormOf(sec, rows[k]).Some? && Based(sec, rows, rows[k])
    && HaSearch.Arrives(Flow(sec, rows), At(rows[k]), sec.src(At(rows[k])).ra, j)
  }

  function PairJudgement(sec: Section, row: Row, pair: Pair): Judgement
    requires FormOf(sec, row).Some? && sec.linked(At(row)).Some?
  {
    Evaluate(sec.image, sec.toc, sec.src(At(row)), sec.linked(At(row)).value, row.ds, FormOf(sec, row).value,
             sec.resolve(row.key), pair)
  }

  function Linked(sec: Section, rows: seq<Row>, j: int): Pair
    requires 0 <= j < |rows|
  {
    With(sec.linked(At(rows[j])))
  }

  ghost predicate SomePair(sec: Section, rows: seq<Row>, k: int, s: Judgement)
    requires 0 <= k < |rows| && FormOf(sec, rows[k]).Some? && sec.linked(At(rows[k])).Some?
  {
    exists j :: 0 <= j < |rows| && Uses(sec, rows, k, j) && PairJudgement(sec, rows[k], Linked(sec, rows, j)) == s
  }

  // An access is only as good as the worst of its addis.
  ghost function AccessJudgement(sec: Section, rows: seq<Row>, k: int): Judgement
    requires 0 <= k < |rows|
  {
    var row := rows[k];
    if FormOf(sec, row).None? || !Based(sec, rows, row) || sec.resolve(row.key).Unresolved? then Refused
    else if sec.linked(At(row)).None? then Failed
    else if row.role != Lo then PairJudgement(sec, row, Alone)
    else if SomePair(sec, rows, k, Failed) then Failed
    else if SomePair(sec, rows, k, Refused) then Refused
    else Verified
  }

  ghost predicate SomeUse(sec: Section, rows: seq<Row>, j: int, s: Judgement) {
    exists k :: 0 <= k < |rows| && Uses(sec, rows, k, j) && AccessJudgement(sec, rows, k) == s
  }

  // An addis is only as good as the worst access that uses it, and refused with none.
  ghost function HaJudgement(sec: Section, rows: seq<Row>, j: int): Judgement {
    if SomeUse(sec, rows, j, Failed) then Failed
    else if SomeUse(sec, rows, j, Refused) then Refused
    else if SomeUse(sec, rows, j, Verified) then Verified
    else Refused
  }

  ghost function Expected(sec: Section, rows: seq<Row>, k: int): Outcome
    requires 0 <= k < |rows|
  {
    if sec.place == Dropped then Discarded
    else if sec.place == Misplaced || !sec.hasBytes || !Usable(sec, rows[k]) then Settled(Refused)
    else if rows[k].role != Ha then Settled(AccessJudgement(sec, rows, k))
    else if IsAddisToc(sec.src(At(rows[k]))) then Settled(HaJudgement(sec, rows, k))
    else Settled(Refused)
  }

  // An addis that arrives is a good row of the section.
  lemma ArrivesIsGood(sec: Section, rows: seq<Row>, use: int, reg: int, j: int)
    requires HaSearch.Arrives(Flow(sec, rows), use, reg, j)
    ensures 0 <= j < |rows| && GoodHa(sec, rows[j])
  {
    var fl := Flow(sec, rows);
    var path :| HaSearch.BackPath(fl, use, reg, path) && fl.Supplies(path[0], reg) && fl.haAt[path[0]].index == j;
    TableEntryIsGood(sec, rows, path[0]);
  }

  ghost predicate FlowSeeded(sec: Section) {
    !sec.flow.bad && !sec.flow.unknown ==> FlowSeeding.Seeded(sec.flow, sec.size - sec.size % 4)
  }

  // Seeding leaves no access without an addis: some execution arrives at the use, and it has
  // met one.
  lemma SomethingArrives(sec: Section, rows: seq<Row>, k: int)
    requires FlowSeeded(sec) && 0 <= k < |rows| && Usable(sec, rows[k]) && rows[k].role == Lo && Based(sec, rows, rows[k])
    ensures exists j :: HaSearch.Arrives(Flow(sec, rows), At(rows[k]), sec.src(At(rows[k])).ra, j)
  {
    var fl, use, ra := Flow(sec, rows), At(rows[k]), sec.src(At(rows[k])).ra;
    assert FlowSeeding.Offset(sec.size - sec.size % 4, use);
    assert FlowSeeding.Reached(sec.flow, sec.flow.entries, use);
    var o :| HaSearch.Walk(sec.flow.(entries := sec.flow.entries), use, o);
    assert forall i :: 0 <= i < |o| - 1 ==> HaSearch.EdgeOn(sec.flow.(entries := sec.flow.entries), o, i) ==> HaSearch.EdgeOn(fl, o, i);
    assert HaSearch.Walk(fl, use, o);
    var i := HaSearch.CleanIsSupplied(fl, use, ra, rows[k].key, o);
  }

  // ---- what a verified access means ----

  // On the walk o to the access at k, the last instruction that may write the base register
  // is the addis of row j, aimed at the access's own target; and what the image made of the
  // two, the addis kept or gone, computes an address the image answers for.
  ghost predicate SuppliedRight(sec: Section, rows: seq<Row>, k: int, o: seq<int>, i: int, j: int)
    requires 0 <= k < |rows|
  {
    var w := sec.src(At(rows[k]));
    && 0 <= i < |o| - 1 && 0 <= j < |rows| && HaSearch.LastWriter(Flow(sec, rows), o, w.ra, i)
    && o[i] == At(rows[j]) && GoodHa(sec, rows[j]) && sec.src(o[i]).rt == w.ra && rows[j].key == rows[k].key
    && FormOf(sec, rows[k]).Some? && sec.linked(At(rows[k])).Some?
    && Right(sec.image, sec.toc, w, sec.linked(At(rows[k])).value, FormOf(sec, rows[k]).value, sec.resolve(rows[k].key),
             Linked(sec, rows, j))
    && (AddisKept(Linked(sec, rows, j), w.ra) || AddisGone(Linked(sec, rows, j)))
  }

  lemma VerifiedLowHalf(sec: Section, rows: seq<Row>, k: int, o: seq<int>) returns (i: int, j: int)
    requires 0 <= k < |rows| && rows[k].role == Lo && Expected(sec, rows, k) == Settled(Verified)
    requires HaSearch.Walk(Flow(sec, rows), At(rows[k]), o)
    ensures SuppliedRight(sec, rows, k, o, i, j)
  {
    var fl, use, w := Flow(sec, rows), At(rows[k]), sec.src(At(rows[k]));
    i := HaSearch.CleanIsSupplied(fl, use, w.ra, rows[k].key, o);
    TableEntryIsGood(sec, rows, o[i]);
    j := fl.haAt[o[i]].index;
    ArrivesIsGood(sec, rows, use, w.ra, j);
    assert Uses(sec, rows, k, j);
    var s := PairJudgement(sec, rows[k], Linked(sec, rows, j));
    assert SomePair(sec, rows, k, s);
    VerifiedIsRight(sec.image, sec.toc, w, sec.linked(use).value, rows[k].ds, FormOf(sec, rows[k]).value,
                    sec.resolve(rows[k].key), Linked(sec, rows, j));
    BaseIs(Linked(sec, rows, j), w.ra);
  }

  lemma VerifiedAlone(sec: Section, rows: seq<Row>, k: int)
    requires 0 <= k < |rows| && rows[k].role == Single && Expected(sec, rows, k) == Settled(Verified)
    ensures FormOf(sec, rows[k]).Some? && sec.linked(At(rows[k])).Some?
    ensures Right(sec.image, sec.toc, sec.src(At(rows[k])), sec.linked(At(rows[k])).value, FormOf(sec, rows[k]).value,
                  sec.resolve(rows[k].key), Alone)
  {
    VerifiedIsRight(sec.image, sec.toc, sec.src(At(rows[k])), sec.linked(At(rows[k])).value, rows[k].ds,
                    FormOf(sec, rows[k]).value, sec.resolve(rows[k].key), Alone);
  }

  // A verified addis is used, and every access that uses it is verified.
  lemma VerifiedHa(sec: Section, rows: seq<Row>, j: int)
    requires 0 <= j < |rows| && rows[j].role == Ha && Expected(sec, rows, j) == Settled(Verified)
    ensures exists k :: 0 <= k < |rows| && Uses(sec, rows, k, j)
    ensures forall k :: 0 <= k < |rows| && Uses(sec, rows, k, j) ==> Expected(sec, rows, k) == Settled(Verified)
  {
    assert SomeUse(sec, rows, j, Verified);
    forall k | 0 <= k < |rows| && Uses(sec, rows, k, j)
      ensures AccessJudgement(sec, rows, k) == Verified
    {
      assert SomeUse(sec, rows, j, AccessJudgement(sec, rows, k));
    }
  }
}
