// Checker.check_section and run_check: every relocation site is disposed of exactly once.
module SiteCheck {
  import opened Collections
  import opened SiteModel
  import opened SiteSpec
  import HaSearch

  function Count(done: seq<bool>): nat {
    if done == [] then 0 else Count(done[..|done| - 1]) + if done[|done| - 1] then 1 else 0
  }

  lemma {:induction false} CountSet(done: seq<bool>, k: nat)
    requires k < |done| && !done[k]
    ensures Count(done[k := true]) == Count(done) + 1
  {
    var n := |done| - 1;
    if k < n {
      assert done[k := true][..n] == done[..n][k := true];
      CountSet(done[..n], k);
    } else {
      assert done[k := true][..n] == done[..n];
    }
  }

  lemma {:induction false} CountAll(done: seq<bool>)
    requires forall k :: 0 <= k < |done| ==> done[k]
    ensures Count(done) == |done|
  {
    if done != [] { CountAll(done[..|done| - 1]); }
  }

  lemma {:induction false} CountNone(n: nat)
    ensures Count(seq(n, _ => false)) == 0
  {
    if n > 0 {
      assert seq(n, _ => false)[..n - 1] == seq(n - 1, _ => false);
      CountNone(n - 1);
    }
  }

  predicate DistinctRows(rows: seq<Row>) {
    forall i, j :: 0 <= i < j < |rows| ==> rows[i].index != rows[j].index
  }

  predicate Distinct<T(==)>(s: seq<T>) { forall i, j :: 0 <= i < j < |s| ==> s[i] != s[j] }

  // ---- the accesses each addis has been used by ----

  ghost predicate UsedIn(sec: Section, rows: seq<Row>, ks: seq<int>, j: int, s: Judgement) {
    exists k :: k in ks && 0 <= k < |rows| && Uses(sec, rows, k, j) && AccessJudgement(sec, rows, k) == s
  }

  ghost predicate UsedBy(sec: Section, rows: seq<Row>, ks: seq<int>, used: seq<seq<Judgement>>) {
    && |used| == |rows|
    && forall j, s :: 0 <= j < |rows| ==> (s in used[j] <==> UsedIn(sec, rows, ks, j, s))
  }

  lemma UsedKept(sec: Section, rows: seq<Row>, ks: seq<int>, k: int, used: seq<seq<Judgement>>)
    requires UsedBy(sec, rows, ks, used) && 0 <= k < |rows|
    requires forall j :: 0 <= j < |rows| ==> !Uses(sec, rows, k, j)
    ensures UsedBy(sec, rows, ks + [k], used)
  {
    hide Uses, AccessJudgement;
    forall j, s | 0 <= j < |rows|
      ensures UsedIn(sec, rows, ks, j, s) <==> UsedIn(sec, rows, ks + [k], j, s)
    {
      UsedInMore(sec, rows, ks, k, j, s);
    }
  }

  lemma UsedInMore(sec: Section, rows: seq<Row>, ks: seq<int>, k: int, j: int, s: Judgement)
    requires 0 <= k < |rows|
    ensures UsedIn(sec, rows, ks + [k], j, s) <==>
            UsedIn(sec, rows, ks, j, s) || (Uses(sec, rows, k, j) && AccessJudgement(sec, rows, k) == s)
  {
    hide Uses, AccessJudgement;
    assert forall i :: i in ks + [k] <==> i in ks || i == k;
  }

  // state appended to the lists of the given sites
  ghost predicate Appended(used: seq<seq<Judgement>>, sites: seq<int>, state: Judgement, used': seq<seq<Judgement>>) {
    && |used'| == |used|
    && forall j :: 0 <= j < |used| ==> used'[j] == if j in sites then used[j] + [state] else used[j]
  }

  lemma UsedMore(sec: Section, rows: seq<Row>, ks: seq<int>, k: int, used: seq<seq<Judgement>>,
                 sites: seq<int>, used': seq<seq<Judgement>>)
    requires UsedBy(sec, rows, ks, used) && 0 <= k < |rows|
    requires forall j :: 0 <= j < |rows| ==> (j in sites <==> Uses(sec, rows, k, j))
    requires Appended(used, sites, AccessJudgement(sec, rows, k), used')
    ensures UsedBy(sec, rows, ks + [k], used')
  {
    hide Uses, AccessJudgement, UsedIn;
    forall j, s | 0 <= j < |rows|
      ensures s in used'[j] <==> UsedIn(sec, rows, ks + [k], j, s)
    {
      UsedInMore(sec, rows, ks, k, j, s);
    }
  }

  method AppendAll(used: seq<seq<Judgement>>, sites: seq<int>, state: Judgement) returns (used': seq<seq<Judgement>>)
    requires Distinct(sites) && forall j :: j in sites ==> 0 <= j < |used|
    ensures Appended(used, sites, state, used')
  {
    used' := used;
    var i := 0;
    while i < |sites|
      invariant 0 <= i <= |sites| && |used'| == |used|
      invariant forall j :: 0 <= j < |used| ==> used'[j] == if j in sites[..i] then used[j] + [state] else used[j]
    {
      var j := sites[i];
      assert j in sites && j !in sites[..i];
      assert sites[..i + 1] == sites[..i] + [j];
      used' := used'[j := used'[j] + [state]];
      i := i + 1;
    }
    assert sites[..i] == sites;
  }

  function Worst(states: seq<Judgement>): Judgement {
    if Failed in states then Failed else if Refused in states then Refused else Verified
  }

  lemma HaSettled(sec: Section, rows: seq<Row>, ks: seq<int>, used: seq<seq<Judgement>>, j: int)
    requires UsedBy(sec, rows, ks, used) && 0 <= j < |rows|
    requires forall k :: 0 <= k < |rows| && Usable(sec, rows[k]) && rows[k].role != Ha ==> k in ks
    ensures HaJudgement(sec, rows, j) == if used[j] == [] then Refused else Worst(used[j])
  {
    hide AccessJudgement, HaSearch.Arrives, Based;
    forall s
      ensures s in used[j] <==> SomeUse(sec, rows, j, s)
    {
      if SomeUse(sec, rows, j, s) {
        var k :| 0 <= k < |rows| && Uses(sec, rows, k, j) && AccessJudgement(sec, rows, k) == s;
        assert k in ks;
      }
    }
    if used[j] != [] { assert used[j][0] in used[j]; }
  }

  ghost predicate RowKey(sec: Section, rows: seq<Row>, key: SiteKey) {
    exists k :: 0 <= k < |rows| && KeyOf(sec, rows[k]) == key
  }

  // Each addis of the list as the image has it, with the access.
  method Results(sec: Section, rows: seq<Row>, row: Row, sites: seq<int>) returns (results: seq<Judgement>)
    requires FormOf(sec, row).Some? && sec.linked(At(row)).Some? && forall j :: j in sites ==> 0 <= j < |rows|
    ensures forall s :: s in results <==> exists j :: j in sites && PairJudgement(sec, row, Linked(sec, rows, j)) == s
    ensures sites != [] ==> results != []
  {
    results := [];
    var i := 0;
    while i < |sites|
      invariant 0 <= i <= |sites| && |results| == i
      invariant forall n :: 0 <= n < |sites| ==> sites[n] in sites
      invariant forall n :: 0 <= n < i ==> results[n] == PairJudgement(sec, row, Linked(sec, rows, sites[n]))
    {
      assert sites[i] in sites;
      results := results + [PairJudgement(sec, row, Linked(sec, rows, sites[i]))];
      i := i + 1;
    }
    forall s
      ensures s in results <==> exists j :: j in sites && PairJudgement(sec, row, Linked(sec, rows, j)) == s
    {
      forall n | 0 <= n < |results|
        ensures exists j :: j in sites && PairJudgement(sec, row, Linked(sec, rows, j)) == results[n]
      {
        assert sites[n] in sites;
      }
      forall j | j in sites && PairJudgement(sec, row, Linked(sec, rows, j)) == s
        ensures s in results
      {
        var n :| 0 <= n < |sites| && sites[n] == j;
        assert results[n] == s;
      }
    }
  }

  // The worst result is the access's own judgement.
  lemma AccessSettled(sec: Section, rows: seq<Row>, k: int, sites: seq<int>, results: seq<Judgement>)
    requires 0 <= k < |rows| && rows[k].role == Lo && FormOf(sec, rows[k]).Some? && Based(sec, rows, rows[k])
    requires !sec.resolve(rows[k].key).Unresolved? && sec.linked(At(rows[k])).Some? && results != []
    requires forall j :: j in sites <==> 0 <= j < |rows| && Uses(sec, rows, k, j)
    requires forall s :: s in results <==> exists j :: j in sites && PairJudgement(sec, rows[k], Linked(sec, rows, j)) == s
    ensures AccessJudgement(sec, rows, k) == Worst(results)
    ensures Worst(results) in results
  {
    hide Uses, Based, PairJudgement;
    forall s
      ensures s in results <==> SomePair(sec, rows, k, s)
    {
    }
    assert results[0] in results;
  }

  class Checker {
    var sites: map<SiteKey, Outcome>
    var order: seq<SiteKey>             // the insertion order of sites
    var accesses: nat

    constructor ()
      ensures Valid() && sites == map[] && order == [] && accesses == 0
    {
      sites, order, accesses := map[], [], 0;
    }

    ghost predicate Valid()
      reads this`sites, this`order
    {
      Distinct(order) && forall key :: key in order <==> key in sites
    }

    // A second call for one site raises an error in the source: no caller ever makes one.
    method Dispose(key: SiteKey, outcome: Outcome)
      requires Valid() && key !in sites
      modifies this`sites, this`order
      ensures Valid() && sites == old(sites)[key := outcome] && order == old(order) + [key]
    {
      assert forall i :: 0 <= i < |order| ==> order[i] in order;
      sites := sites[key := outcome];
      order := order + [key];
    }

    // The rows done have their outcomes, the others none, and nothing else has changed.
    ghost predicate Books(sec: Section, rows: seq<Row>, done: seq<bool>, was: map<SiteKey, Outcome>, count: nat)
      reads this`sites, this`order
    {
      && Valid() && |done| == |rows| && |order| == count + Count(done)
      && (forall k :: 0 <= k < |rows| && done[k] ==>
            KeyOf(sec, rows[k]) in sites && sites[KeyOf(sec, rows[k])] == Expected(sec, rows, k))
      && (forall k :: 0 <= k < |rows| && !done[k] ==> KeyOf(sec, rows[k]) !in sites)
      && (forall key :: key in was ==> key in sites && sites[key] == was[key])
      && (forall key :: key in sites ==> key in was || RowKey(sec, rows, key))
    }

    method DisposeRow(sec: Section, rows: seq<Row>, k: int, outcome: Outcome,
                      ghost done: seq<bool>, ghost was: map<SiteKey, Outcome>, ghost count: nat)
      returns (ghost done': seq<bool>)
      requires Books(sec, rows, done, was, count) && DistinctRows(rows)
      requires 0 <= k < |rows| && !done[k] && outcome == Expected(sec, rows, k)
      modifies this`sites, this`order
      ensures done' == done[k := true] && Books(sec, rows, done', was, count)
    {
      hide Expected, Count, Distinct;
      done' := done[k := true];
      CountSet(done, k);
      Dispose(KeyOf(sec, rows[k]), outcome);
      assert RowKey(sec, rows, KeyOf(sec, rows[k]));
      forall i | 0 <= i < |rows| && i != k
        ensures KeyOf(sec, rows[i]) != KeyOf(sec, rows[k])
      {
        assert rows[i].index != rows[k].index;
      }
    }

    // One access: disposed of, and its judgement noted at every addis it uses.
    method CheckAccess(sec: Section, rows: seq<Row>, k: int, haAt: map<int, HaSearch.HaSite>, used: seq<seq<Judgement>>,
                       ghost ks: seq<int>, ghost done: seq<bool>, ghost was: map<SiteKey, Outcome>, ghost count: nat)
      returns (used': seq<seq<Judgement>>, ghost done': seq<bool>)
      requires Books(sec, rows, done, was, count) && DistinctRows(rows) && FlowSeeded(sec)
      requires sec.place == Placed && sec.hasBytes && haAt == HaTable(sec, rows, GoodRows(sec, rows))
      requires 0 <= k < |rows| && !done[k] && Usable(sec, rows[k]) && rows[k].role != Ha
      requires UsedBy(sec, rows, ks, used) && |used| == |rows|
      modifies this
      ensures done' == done[k := true] && Books(sec, rows, done', was, count) && UsedBy(sec, rows, ks + [k], used') && |used'| == |rows|
      ensures accesses == old(accesses) + 1
    {
      hide Books, UsedBy, HaTable, HaSearch.Walk, HaSearch.SuppliedBy, HaSearch.Refused, Evaluate, Classify,
           SomePair, GoodRows, FlowSeeded, HaSearch.Clean, HaSearch.Arrives, GoodHa;
      accesses := accesses + 1;
      var row := rows[k];
      var at := At(row);
      var w := sec.src(at);
      var form := Classify(w, row.ds);
      assert Books(sec, rows, done, was, count);
      used' := used;
      if form.None? {
        done' := DisposeRow(sec, rows, k, Settled(Refused), done, was, count);
        UsedKept(sec, rows, ks, k, used);
        return;
      }
      var sites: seq<int> := [];
      if row.role == Lo {
        if w.ra == 0 || w.ra == 2 {
          done' := DisposeRow(sec, rows, k, Settled(Refused), done, was, count);
          UsedKept(sec, rows, ks, k, used);
          return;
        }
        var v, way := HaSearch.ReachingHa(sec.flow.(haAt := haAt), at, w.ra, row.key);
        if !v.Found? {
          done' := DisposeRow(sec, rows, k, Settled(Refused), done, was, count);
          UsedKept(sec, rows, ks, k, used);
          return;
        }
        sites := Listing(v.sites);
      } else if w.ra != 2 {
        done' := DisposeRow(sec, rows, k, Settled(Refused), done, was, count);
        UsedKept(sec, rows, ks, k, used);
        return;
      }
      var state := Refused;
      UsesAre(sec, rows, k, sites);
      if sec.resolve(row.key).Unresolved? {
        state := Refused;
      } else if sec.linked(at).None? {
        state := Failed;
      } else if row.role != Lo {
        state := Evaluate(sec.image, sec.toc, w, sec.linked(at).value, row.ds, form.value, sec.resolve(row.key), Alone);
      } else {
        SomethingArrives(sec, rows, k);
        var results := Results(sec, rows, row, sites);
        AccessSettled(sec, rows, k, sites, results);
        if Failed in results {
          state := Failed;
        } else if Refused in results {
          state := Refused;
        } else if Verified in results {
          state := Verified;
        } else {
          assert false;      // no addis: the site would be left out
          return;
        }
      }
      done' := DisposeRow(sec, rows, k, Settled(state), done, was, count);
      used' := AppendAll(used, sites, state);
      UsedMore(sec, rows, ks, k, used, sites, used');
    }

    // Every row by one and the same outcome: the section is dropped, or nothing in it can be
    // checked.
    method DisposeAll(sec: Section, rows: seq<Row>, outcome: Outcome, ghost was: map<SiteKey, Outcome>, ghost count: nat)
      returns (ghost done: seq<bool>)
      requires Books(sec, rows, seq(|rows|, _ => false), was, count) && DistinctRows(rows)
      requires forall k :: 0 <= k < |rows| ==> Expected(sec, rows, k) == outcome
      modifies this`sites, this`order
      ensures Books(sec, rows, done, was, count) && AllDone(done)
    {
      hide Books, Expected;
      done := seq(|rows|, _ => false);
      var n := 0;
      while n < |rows|
        invariant 0 <= n <= |rows| == |done| && Books(sec, rows, done, was, count)
        invariant forall k :: 0 <= k < |rows| ==> done[k] == (k < n)
      {
        done := DisposeRow(sec, rows, n, outcome, done, was, count);
        n := n + 1;
      }
    }

    // The rows no access or addis can sit on are refused, the others sorted by role.
    method Scan(sec: Section, rows: seq<Row>, ghost was: map<SiteKey, Outcome>, ghost count: nat)
      returns (ha: seq<int>, rest: seq<int>, ghost done: seq<bool>)
      requires Books(sec, rows, seq(|rows|, _ => false), was, count) && DistinctRows(rows)
      requires sec.place == Placed && sec.hasBytes
      modifies this`sites, this`order
      ensures ha == Rows(sec, rows, true, |rows|) && rest == Rows(sec, rows, false, |rows|)
      ensures |done| == |rows| && Books(sec, rows, done, was, count)
      ensures forall k :: 0 <= k < |rows| ==> done[k] == !Usable(sec, rows[k])
    {
      hide Books, AccessJudgement, HaJudgement, Usable, Increasing;
      done := seq(|rows|, _ => false);
      ha, rest := [], [];
      var n := 0;
      while n < |rows|
        invariant 0 <= n <= |rows| == |done| && Books(sec, rows, done, was, count)
        invariant ha == Rows(sec, rows, true, n) && rest == Rows(sec, rows, false, n)
        invariant forall k :: 0 <= k < |rows| ==> done[k] == (k < n && !Usable(sec, rows[k]))
      {
        if !Usable(sec, rows[n]) {
          done := DisposeRow(sec, rows, n, Settled(Refused), done, was, count);
        } else if rows[n].role == Ha {
          ha := ha + [n];
        } else {
          rest := rest + [n];
        }
        n := n + 1;
      }
    }

    method FilterHa(sec: Section, rows: seq<Row>, ha: seq<int>, ghost start: seq<bool>, ghost was: map<SiteKey, Outcome>, ghost count: nat)
      returns (good: seq<int>, haAt: map<int, HaSearch.HaSite>, ghost done: seq<bool>)
      requires |start| == |rows| && Books(sec, rows, start, was, count) && DistinctRows(rows)
      requires sec.place == Placed && sec.hasBytes && ha == Rows(sec, rows, true, |rows|)
      requires forall k :: 0 <= k < |rows| ==> start[k] == !Usable(sec, rows[k])
      modifies this`sites, this`order
      ensures good == GoodRows(sec, rows) && haAt == HaTable(sec, rows, good)
      ensures |done| == |rows| && Books(sec, rows, done, was, count) && Filtered(sec, rows, ha, good, done)
    {
      hide Books, AccessJudgement, HaJudgement, Usable, HaTable, Positions, Increasing, OnAddis, IsAddisToc, Filtered, DistinctRows;
      done := start;
      good := [];
      FilterStart(sec, rows, ha, done);
      var m := 0;
      while m < |ha|
        invariant 0 <= m <= |ha| && |done| == |rows| && Books(sec, rows, done, was, count)
        invariant Positions(rows, ha[..m]) && Increasing(ha[..m]) && good == OnAddis(sec, rows, ha[..m])
        invariant Filtered(sec, rows, ha[..m], good, done)
      {
        FilterStep(sec, rows, ha, m, done);
        if IsAddisToc(sec.src(At(rows[ha[m]]))) {
          good := good + [ha[m]];
        } else {
          done := DisposeRow(sec, rows, ha[m], Settled(Refused), done, was, count);
        }
        m := m + 1;
      }
      assert ha[..m] == ha;
      assert good == GoodRows(sec, rows);
      haAt := Table(sec, rows, good);
    }

    // Every row of the section is disposed of exactly once, with the outcome it must have.
    method CheckSection(sec: Section, rows: seq<Row>)
      requires Valid() && DistinctRows(rows) && FlowSeeded(sec)
      requires forall k :: 0 <= k < |rows| ==> KeyOf(sec, rows[k]) !in sites
      modifies this
      ensures Valid() && |order| == |old(order)| + |rows|
      ensures forall k :: 0 <= k < |rows| ==>
        KeyOf(sec, rows[k]) in sites && sites[KeyOf(sec, rows[k])] == Expected(sec, rows, k)
      ensures forall key :: key in old(sites) ==> key in sites && sites[key] == old(sites)[key]
      ensures forall key :: key in sites ==> key in old(sites) || RowKey(sec, rows, key)
    {
      ghost var was, count := sites, |order|;
      ghost var done := seq(|rows|, _ => false);
      CountNone(|rows|);
      assert Books(sec, rows, done, was, count);
      if sec.place == Dropped {
        done := DisposeAll(sec, rows, Discarded, was, count);
      } else if sec.place == Misplaced || !sec.hasBytes {
        done := DisposeAll(sec, rows, Settled(Refused), was, count);
      } else {
        done := CheckRows(sec, rows, was, count);
      }
      CountAll(done);
    }

    method CheckRows(sec: Section, rows: seq<Row>, ghost was: map<SiteKey, Outcome>, ghost count: nat)
      returns (ghost done: seq<bool>)
      requires Books(sec, rows, seq(|rows|, _ => false), was, count) && DistinctRows(rows) && FlowSeeded(sec)
      requires sec.place == Placed && sec.hasBytes
      modifies this
      ensures |done| == |rows| && Books(sec, rows, done, was, count) && AllDone(done)
    {
      hide Books, AccessJudgement, HaJudgement, Usable, UsedBy, HaTable, FlowSeeded, DistinctRows, Increasing, Positions, Rows;
      var ha, rest, good, haAt, used;
      ha, rest, done := Scan(sec, rows, was, count);
      good, haAt, done := FilterHa(sec, rows, ha, done, was, count);
      used, done := CheckAccesses(sec, rows, rest, haAt, ha, good, done, was, count);
      done := CheckAddis(sec, rows, rest, good, used, done, was, count);
    }

    method CheckAccesses(sec: Section, rows: seq<Row>, rest: seq<int>, haAt: map<int, HaSearch.HaSite>, ghost ha: seq<int>,
                         ghost good: seq<int>, ghost start: seq<bool>, ghost was: map<SiteKey, Outcome>, ghost count: nat)
      returns (used: seq<seq<Judgement>>, ghost done: seq<bool>)
      requires |start| == |rows| && Books(sec, rows, start, was, count) && DistinctRows(rows) && FlowSeeded(sec)
      requires sec.place == Placed && sec.hasBytes && good == GoodRows(sec, rows) && haAt == HaTable(sec, rows, good)
      requires ha == Rows(sec, rows, true, |rows|) && rest == Rows(sec, rows, false, |rows|)
      requires Filtered(sec, rows, ha, good, start)
      modifies this
      ensures |used| == |done| == |rows| && Books(sec, rows, done, was, count) && UsedBy(sec, rows, rest, used)
      ensures forall k :: 0 <= k < |rows| ==> done[k] == (k !in good)
    {
      hide Books, AccessJudgement, HaJudgement, UsedBy, HaTable, FlowSeeded, DistinctRows, Increasing, Positions, IsAddisToc,
           Uses;
      used, done := seq(|rows|, _ => []), start;
      NoneUsed(sec, rows);
      assert rest[..0] == [];
      var m := 0;
      while m < |rest|
        invariant 0 <= m <= |rest| && |done| == |rows| == |used| && Books(sec, rows, done, was, count)
        invariant UsedBy(sec, rows, rest[..m], used)
        invariant forall k :: 0 <= k < |rows| ==> done[k] == (start[k] || k in rest[..m])
      {
        NotYet(rest, m);
        assert rest[..m + 1] == rest[..m] + [rest[m]];
        used, done := CheckAccess(sec, rows, rest[m], haAt, used, rest[..m], done, was, count);
        m := m + 1;
      }
      assert rest[..m] == rest;
    }

    method CheckAddis(sec: Section, rows: seq<Row>, rest: seq<int>, good: seq<int>, used: seq<seq<Judgement>>,
                      ghost start: seq<bool>, ghost was: map<SiteKey, Outcome>, ghost count: nat)
      returns (ghost done: seq<bool>)
      requires |used| == |start| == |rows| && Books(sec, rows, start, was, count) && DistinctRows(rows)
      requires sec.place == Placed && sec.hasBytes && good == GoodRows(sec, rows) && rest == Rows(sec, rows, false, |rows|)
      requires UsedBy(sec, rows, rest, used) && forall k :: 0 <= k < |rows| ==> start[k] == (k !in good)
      modifies this`sites, this`order
      ensures |done| == |rows| && Books(sec, rows, done, was, count) && AllDone(done)
    {
      hide Books, AccessJudgement, HaJudgement, UsedBy, DistinctRows, Increasing, Worst;
      done := start;
      var m := 0;
      while m < |good|
        invariant 0 <= m <= |good| && |done| == |rows| && Books(sec, rows, done, was, count)
        invariant forall k :: 0 <= k < |rows| ==> done[k] == (k !in good || k in good[..m])
      {
        var j := good[m];
        NotYet(good, m);
        assert good[..m + 1] == good[..m] + [j];
        assert GoodHa(sec, rows[j]);
        HaSettled(sec, rows, rest, used, j);
        done := DisposeRow(sec, rows, j, Settled(if used[j] == [] then Refused else Worst(used[j])), done, was, count);
        m := m + 1;
      }
      assert good[..m] == good;
    }
  }

  // The usable rows but the addis sites not yet sorted are left.
  ghost predicate Filtered(sec: Section, rows: seq<Row>, hs: seq<int>, good: seq<int>, done: seq<bool>) {
    |done| == |rows| && forall k :: 0 <= k < |rows| ==> done[k] == (!Usable(sec, rows[k]) || (k in hs && k !in good))
  }

  lemma FilterStart(sec: Section, rows: seq<Row>, ha: seq<int>, done: seq<bool>)
    requires ha == Rows(sec, rows, true, |rows|) && |done| == |rows|
    requires forall k :: 0 <= k < |rows| ==> done[k] == !Usable(sec, rows[k])
    ensures Positions(rows, ha[..0]) && Increasing(ha[..0]) && OnAddis(sec, rows, ha[..0]) == []
    ensures Filtered(sec, rows, ha[..0], [], done)
  {
  }

  lemma FilterMark(sec: Section, rows: seq<Row>, hs: seq<int>, good: seq<int>, done: seq<bool>, p: int)
    requires Filtered(sec, rows, hs, good, done) && p !in hs && p !in good
    requires 0 <= p < |rows| && Usable(sec, rows[p])
    ensures !done[p] && Filtered(sec, rows, hs + [p], good + [p], done)
    ensures Filtered(sec, rows, hs + [p], good, done[p := true])
  {
    hide Usable;
  }

  lemma FilterStep(sec: Section, rows: seq<Row>, ha: seq<int>, m: nat, done: seq<bool>)
    requires ha == Rows(sec, rows, true, |rows|) && m < |ha| && Positions(rows, ha[..m]) && Increasing(ha[..m])
    requires Filtered(sec, rows, ha[..m], OnAddis(sec, rows, ha[..m]), done)
    ensures 0 <= ha[m] < |rows| && Usable(sec, rows[ha[m]]) && rows[ha[m]].role == Ha && !done[ha[m]]
    ensures Positions(rows, ha[..m + 1]) && Increasing(ha[..m + 1])
    ensures var good := OnAddis(sec, rows, ha[..m]);
            if IsAddisToc(sec.src(At(rows[ha[m]]))) then
              OnAddis(sec, rows, ha[..m + 1]) == good + [ha[m]] && Filtered(sec, rows, ha[..m + 1], good + [ha[m]], done)
            else
              OnAddis(sec, rows, ha[..m + 1]) == good && Filtered(sec, rows, ha[..m + 1], good, done[ha[m] := true])
  {
    hide IsAddisToc, Usable, Filtered, Rows, Positions, Increasing;
    HaPrefix(sec, rows, ha, m);
    HaPrefix(sec, rows, ha, m + 1);
    assert ha[..m + 1][..m] == ha[..m];
    assert ha[..m + 1] == ha[..m] + [ha[m]];
    FilterMark(sec, rows, ha[..m], OnAddis(sec, rows, ha[..m]), done, ha[m]);
  }

  ghost predicate AllDone(done: seq<bool>) { forall k :: 0 <= k < |done| ==> done[k] }

  lemma HaPrefix(sec: Section, rows: seq<Row>, ha: seq<int>, m: nat)
    requires ha == Rows(sec, rows, true, |rows|) && m <= |ha|
    ensures Positions(rows, ha[..m]) && Increasing(ha[..m])
    ensures m < |ha| ==> 0 <= ha[m] < |rows| && Usable(sec, rows[ha[m]]) && rows[ha[m]].role == Ha && ha[m] !in ha[..m]
  {
    assert forall i :: 0 <= i < |ha| ==> ha[i] in ha;
  }

  lemma NotYet(ps: seq<int>, m: nat)
    requires Increasing(ps) && m < |ps|
    ensures ps[m] in ps && ps[m] !in ps[..m]
  {
  }

  lemma NoneUsed(sec: Section, rows: seq<Row>)
    ensures UsedBy(sec, rows, [], seq(|rows|, _ => []))
  {
  }

  method Table(sec: Section, rows: seq<Row>, ps: seq<int>) returns (haAt: map<int, HaSearch.HaSite>)
    requires Positions(rows, ps)
    ensures haAt == HaTable(sec, rows, ps)
  {
    haAt := map[];
    assert ps[..0] == [];
    var i := 0;
    while i < |ps|
      invariant 0 <= i <= |ps| && haAt == HaTable(sec, rows, ps[..i])
    {
      assert ps[..i + 1][..i] == ps[..i];
      haAt := haAt[At(rows[ps[i]]) := HaSearch.HaSite(ps[i], sec.src(At(rows[ps[i]])).rt, rows[ps[i]].key)];
      i := i + 1;
    }
    assert ps[..i] == ps;
  }

  // The list of a search is the addis sites the access uses; without a low half there are none.
  lemma UsesAre(sec: Section, rows: seq<Row>, k: int, sites: seq<int>)
    requires 0 <= k < |rows| && Usable(sec, rows[k]) && FormOf(sec, rows[k]).Some? && Based(sec, rows, rows[k])
    requires rows[k].role == Lo ==> forall j :: j in sites <==> HaSearch.Arrives(Flow(sec, rows), At(rows[k]), sec.src(At(rows[k])).ra, j)
    requires rows[k].role != Lo ==> sites == []
    ensures forall j :: j in sites <==> 0 <= j < |rows| && Uses(sec, rows, k, j)
  {
    hide Based, HaSearch.Arrives, GoodHa, HaTable;
    forall j | HaSearch.Arrives(Flow(sec, rows), At(rows[k]), sec.src(At(rows[k])).ra, j)
      ensures 0 <= j < |rows|
    {
      ArrivesIsGood(sec, rows, At(rows[k]), sec.src(At(rows[k])).ra, j);
    }
  }
}
