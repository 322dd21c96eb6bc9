// run_check: all sections are walked, and the verdict counts every site once.
module SiteTally {
  import opened SiteModel
  import opened SiteSpec
  import opened SiteCheck

  // A section and its sites; one outside the checked code is refused whole, as a misplaced
  // one is.
  datatype Work = Work(sec: Section, rows: seq<Row>, blocked: bool) {
    function Effective(): Section { if blocked then sec.(place := Misplaced) else sec }
    ghost function Outcome(k: int): Outcome
      requires 0 <= k < |rows|
    {
      Expected(Effective(), rows, k)
    }
  }

  // A section outside the checked code has all its sites refused, any other those it should have.
  lemma OutcomeIs(work: Work, k: int)
    requires 0 <= k < |work.rows|
    ensures work.Outcome(k) == if work.blocked then Settled(Refused) else Expected(work.sec, work.rows, k)
  {
  }

  datatype Status = Pass | Fail | Incomplete
  datatype Tally = Tally(verified: nat, failed: nat, refused: nat, discarded: nat)

  ghost predicate WellFormed(works: seq<Work>) {
    && (forall i :: 0 <= i < |works| ==> DistinctRows(works[i].rows) && FlowSeeded(works[i].sec))
    && (forall i, j :: 0 <= i < j < |works| ==> works[i].sec.obj != works[j].sec.obj || works[i].sec.nr != works[j].sec.nr)
  }

  // Some site has the outcome.
  ghost predicate SomeSite(works: seq<Work>, o: Outcome) {
    exists i, k :: 0 <= i < |works| && 0 <= k < |works[i].rows| && works[i].Outcome(k) == o
  }

  function Total(works: seq<Work>): nat {
    if works == [] then 0 else Total(works[..|works| - 1]) + |works[|works| - 1].rows|
  }

  function Add(t: Tally, o: Outcome): Tally {
    match o
    case Settled(Verified) => t.(verified := t.verified + 1)
    case Settled(Failed) => t.(failed := t.failed + 1)
    case Settled(Refused) => t.(refused := t.refused + 1)
    case Discarded => t.(discarded := t.discarded + 1)
  }

  function Number(t: Tally, o: Outcome): nat {
    match o
    case Settled(Verified) => t.verified
    case Settled(Failed) => t.failed
    case Settled(Refused) => t.refused
    case Discarded => t.discarded
  }

  // The sites of the first n sections, and no others, are disposed of.
  ghost predicate Walked(sites: map<SiteKey, Outcome>, works: seq<Work>, n: int) {
    && (forall i, k :: 0 <= i < n <= |works| && 0 <= k < |works[i].rows| ==> Disposed(sites, works, i, k))
    && (forall key :: key in sites ==> exists i :: 0 <= i < n <= |works| && RowKey(works[i].sec, works[i].rows, key))
  }

  ghost predicate Disposed(sites: map<SiteKey, Outcome>, works: seq<Work>, i: int, k: int)
    requires 0 <= i < |works| && 0 <= k < |works[i].rows|
  {
    var key := KeyOf(works[i].sec, works[i].rows[k]);
    key in sites && sites[key] == works[i].Outcome(k)
  }

  lemma NotYetWalked(sites: map<SiteKey, Outcome>, works: seq<Work>, n: nat, k: nat)
    requires Walked(sites, works, n) && n < |works| && WellFormed(works) && k < |works[n].rows|
    ensures KeyOf(works[n].sec, works[n].rows[k]) !in sites
  {
  }

  lemma WalkedMore(was: map<SiteKey, Outcome>, sites: map<SiteKey, Outcome>, works: seq<Work>, n: nat)
    requires Walked(was, works, n) && n < |works|
    requires forall k :: 0 <= k < |works[n].rows| ==> Disposed(sites, works, n, k)
    requires forall key :: key in was ==> key in sites && sites[key] == was[key]
    requires forall key :: key in sites ==> key in was || RowKey(works[n].sec, works[n].rows, key)
    ensures Walked(sites, works, n + 1)
  {
    hide RowKey, Expected;
    forall i, k | 0 <= i < n + 1 && 0 <= k < |works[i].rows|
      ensures Disposed(sites, works, i, k)
    {
      if i < n { assert Disposed(was, works, i, k); }
    }
    forall key | key in sites
      ensures exists i :: 0 <= i < n + 1 && RowKey(works[i].sec, works[i].rows, key)
    {
      if key !in was { assert RowKey(works[n].sec, works[n].rows, key); }
    }
  }

  lemma RowsKeptApart(sec: Section, blocked: Section, rows: seq<Row>, key: SiteKey)
    requires blocked.obj == sec.obj && blocked.nr == sec.nr
    ensures RowKey(blocked, rows, key) <==> RowKey(sec, rows, key)
  {
    assert forall k :: 0 <= k < |rows| ==> KeyOf(blocked, rows[k]) == KeyOf(sec, rows[k]);
  }

  method WalkSections(c: Checker, works: seq<Work>) returns (total: nat)
    requires c.Valid() && c.sites == map[] && c.order == [] && WellFormed(works)
    modifies c
    ensures c.Valid() && Walked(c.sites, works, |works|) && total == |c.order| == Total(works)
  {
    hide Expected, FlowSeeded, Walked, Disposed, RowKey, DistinctRows;
    total := 0;
    NoneWalked(works);
    assert works[..0] == [];
    var n := 0;
    while n < |works|
      invariant 0 <= n <= |works| && c.Valid()
      invariant Walked(c.sites, works, n) && total == |c.order| == Total(works[..n])
    {
      var work := works[n];
      ghost var was := c.sites;
      forall k | 0 <= k < |work.rows|
        ensures KeyOf(work.Effective(), work.rows[k]) !in c.sites
      {
        NotYetWalked(c.sites, works, n, k);
      }
      EffectiveSeeded(work);
      c.CheckSection(work.Effective(), work.rows);
      SectionWalked(was, c.sites, works, n);
      assert works[..n + 1][..n] == works[..n];
      total := total + |work.rows|;
      n := n + 1;
    }
    assert works[..n] == works;
  }

  lemma NoneWalked(works: seq<Work>)
    ensures Walked(map[], works, 0)
  {
  }

  lemma EffectiveSeeded(work: Work)
    requires FlowSeeded(work.sec)
    ensures FlowSeeded(work.Effective())
  {
  }

  lemma SectionWalked(was: map<SiteKey, Outcome>, sites: map<SiteKey, Outcome>, works: seq<Work>, n: nat)
    requires Walked(was, works, n) && n < |works|
    requires forall k :: 0 <= k < |works[n].rows| ==>
      KeyOf(works[n].Effective(), works[n].rows[k]) in sites
      && sites[KeyOf(works[n].Effective(), works[n].rows[k])] == Expected(works[n].Effective(), works[n].rows, k)
    requires forall key :: key in was ==> key in sites && sites[key] == was[key]
    requires forall key :: key in sites ==> key in was || RowKey(works[n].Effective(), works[n].rows, key)
    ensures Walked(sites, works, n + 1)
  {
    hide Expected, Walked, RowKey;
    var work := works[n];
    forall k | 0 <= k < |work.rows|
      ensures Disposed(sites, works, n, k)
    {
      assert KeyOf(work.Effective(), work.rows[k]) == KeyOf(work.sec, work.rows[k]);
    }
    forall key | key in sites && key !in was
      ensures RowKey(work.sec, work.rows, key)
    {
      RowsKeptApart(work.sec, work.Effective(), work.rows, key);
    }
    WalkedMore(was, sites, works, n);
  }

  method Values(c: Checker) returns (values: seq<Outcome>)
    requires c.Valid()
    ensures |values| == |c.order|
    ensures forall o :: o in values <==> exists key :: key in c.sites && c.sites[key] == o
  {
    values := [];
    var n := 0;
    while n < |c.order|
      invariant 0 <= n <= |c.order| && |values| == n
      invariant forall i :: 0 <= i < n ==> c.order[i] in c.sites && values[i] == c.sites[c.order[i]]
    {
      assert c.order[n] in c.order;
      values := values + [c.sites[c.order[n]]];
      n := n + 1;
    }
    forall key | key in c.sites
      ensures c.sites[key] in values
    {
      var i :| 0 <= i < |c.order| && c.order[i] == key;
      assert values[i] == c.sites[key];
    }
  }

  lemma AddNumber(t: Tally, o: Outcome, p: Outcome)
    ensures Number(Add(t, o), p) == Number(t, p) + if p == o then 1 else 0
  {
  }

  method CountOutcomes(values: seq<Outcome>) returns (t: Tally)
    ensures t.verified + t.failed + t.refused + t.discarded == |values|
    ensures forall o :: Number(t, o) > 0 <==> o in values
  {
    hide Number;
    t := Tally(0, 0, 0, 0);
    NumberZero();
    var n := 0;
    while n < |values|
      invariant 0 <= n <= |values| && t.verified + t.failed + t.refused + t.discarded == n
      invariant forall o :: Number(t, o) > 0 <==> o in values[..n]
    {
      assert values[..n + 1] == values[..n] + [values[n]];
      forall o
        ensures Number(Add(t, values[n]), o) > 0 <==> o in values[..n] || o == values[n]
      {
        AddNumber(t, values[n], o);
      }
      t := Add(t, values[n]);
      n := n + 1;
    }
    assert values[..n] == values;
  }

  lemma NumberZero()
    ensures forall o :: Number(Tally(0, 0, 0, 0), o) == 0
  {
  }

  // Nothing is left out, and the status says what the sites' outcomes are: a pass means every
  // site that was not discarded is verified.
  method RunCheck(c: Checker, works: seq<Work>) returns (status: Status, t: Tally, unaccounted: int)
    requires c.Valid() && c.sites == map[] && c.order == [] && WellFormed(works)
    modifies c
    ensures unaccounted == 0 && t.verified + t.failed + t.refused + t.discarded == Total(works)
    ensures status == Fail <==> SomeSite(works, Settled(Failed))
    ensures status == Pass <==> SomeSite(works, Settled(Verified))
                                && !SomeSite(works, Settled(Failed)) && !SomeSite(works, Settled(Refused))
  {
    hide Walked, SomeSite, Checker.Valid;
    var total := WalkSections(c, works);
    var values := Values(c);
    t := CountOutcomes(values);
    unaccounted := total - (t.verified + t.failed + t.refused + t.discarded);
    Reported(c.sites, works, Settled(Failed));
    Reported(c.sites, works, Settled(Refused));
    Reported(c.sites, works, Settled(Verified));
    assert Number(t, Settled(Failed)) == t.failed && Number(t, Settled(Refused)) == t.refused && Number(t, Settled(Verified)) == t.verified;
    if t.failed > 0 {
      status := Fail;
    } else if t.refused > 0 || unaccounted != 0 || t.verified == 0 {
      status := Incomplete;
    } else {
      status := Pass;
    }
  }

  lemma Reported(sites: map<SiteKey, Outcome>, works: seq<Work>, o: Outcome)
    requires Walked(sites, works, |works|)
    ensures SomeSite(works, o) <==> exists key :: key in sites && sites[key] == o
  {
    hide Expected;
    if SomeSite(works, o) {
      var i, k :| 0 <= i < |works| && 0 <= k < |works[i].rows| && works[i].Outcome(k) == o;
      assert Disposed(sites, works, i, k);
    }
    forall key | key in sites && sites[key] == o
      ensures SomeSite(works, o)
    {
      var i :| 0 <= i < |works| && RowKey(works[i].sec, works[i].rows, key);
      var k :| 0 <= k < |works[i].rows| && KeyOf(works[i].sec, works[i].rows[k]) == key;
      assert Disposed(sites, works, i, k);
    }
  }
}
