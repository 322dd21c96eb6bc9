// r2_known: where r2 still holds the TOC pointer the code was entered with, and what the switch
// proof is worth with that.
module TocRegister {
  import opened Collections
  import opened FlowGraph
  import H = HaSearch
  import opened FlowSeeding
  import M = SwitchModel
  import P = SwitchProof

  const TOC := 2

  // Some write of r2 is followed by a way to n.
  ghost predicate AfterWrite(fl: H.Section, size: int, n: int) {
    exists p, d :: Writer(fl, size, p) && fl.Edge(p, d) && Reached(fl, {d}, n)
  }

  predicate Writer(fl: H.Section, size: int, p: int) { Offset(size, p) && fl.MayWrite(p, TOC) }

  // fl: edges over code alone, table words left out.
  method R2Known(fl: H.Section, size: nat) returns (known: set<int>)
    requires Inside(fl, size)
    ensures forall n :: n in known <==> Offset(size, n) && !AfterWrite(fl, size, n)
  {
    hide Reached, Inside, H.Section.Edge, H.Section.MayWrite;
    var succ := Successors(fl.preds);
    EdgesListed(fl, succ);
    var starts: set<int> := {};
    var off := 0;
    while off < size
      invariant off % 4 == 0
      invariant forall d :: d in starts <==> exists p :: p < off && Writer(fl, size, p) && fl.Edge(p, d)
    {
      ghost var before := starts;
      if fl.MayWrite(off, TOC) && off in succ {
        starts := starts + set d | d in succ[off];
      }
      assert forall d :: d in starts <==> d in before || (fl.MayWrite(off, TOC) && Lists(succ, off, d));
      off := off + 4;
    }
    var reached := Reach(fl, size, succ, starts);
    known := Offsets(size) - reached;
    forall n | Offset(size, n)
      ensures n in reached <==> AfterWrite(fl, size, n)
    {
      FromWriters(fl, size, starts, n);
    }
  }

  lemma EdgesListed(fl: H.Section, succ: map<int, seq<int>>)
    requires forall n, d :: Lists(succ, n, d) <==> Lists(fl.preds, d, n)
    ensures forall p, n :: Lists(succ, p, n) <==> fl.Edge(p, n)
  {
  }

  lemma FromWriters(fl: H.Section, size: int, starts: set<int>, n: int)
    requires forall d :: d in starts <==> exists p :: Writer(fl, size, p) && fl.Edge(p, d)
    ensures Reached(fl, starts, n) <==> AfterWrite(fl, size, n)
  {
    if Reached(fl, starts, n) {
      var o :| H.Walk(fl.(entries := starts), n, o);
      FromOne(fl, starts, n, o);
      var p :| Writer(fl, size, p) && fl.Edge(p, o[0]);
    }
    if AfterWrite(fl, size, n) {
      var p, d :| Writer(fl, size, p) && fl.Edge(p, d) && Reached(fl, {d}, n);
      assert d in starts;
      MoreReach(fl, {d}, starts, n);
    }
  }

  lemma FromOne(fl: H.Section, starts: set<int>, n: int, o: seq<int>)
    requires H.Walk(fl.(entries := starts), n, o)
    ensures o[0] in starts && Reached(fl, {o[0]}, n)
  {
    assert forall k :: 0 <= k < |o| - 1 ==> H.EdgeOn(fl.(entries := starts), o, k) ==> H.EdgeOn(fl.(entries := {o[0]}), o, k);
    assert H.Walk(fl.(entries := {o[0]}), n, o);
  }

  // ---- what it means ----

  // Whoever does not write r2 by the tables leaves it as it was, a call among them.
  ghost predicate GivesBack(fl: H.Section, o: seq<int>, run: seq<M.Machine>)
    requires |run| == |o|
  {
    forall k :: 0 <= k < |o| - 1 ==> !fl.MayWrite(o[k], TOC) ==> run[k + 1].reg(TOC) == run[k].reg(TOC)
  }

  ghost predicate Follows(fl: H.Section, o: seq<int>) {
    forall k {:trigger H.EdgeOn(fl, o, k)} :: 0 <= k < |o| - 1 ==> H.EdgeOn(fl, o, k)
  }

  lemma PartReached(fl: H.Section, o: seq<int>, j: int, k: int)
    requires Follows(fl, o) && 0 <= j < k < |o|
    ensures Reached(fl, {o[j + 1]}, o[k])
  {
    var part := o[j + 1..k + 1];
    var from := fl.(entries := {o[j + 1]});
    forall i | 0 <= i < |part| - 1
      ensures H.EdgeOn(from, part, i)
    {
      assert H.EdgeOn(fl, o, j + 1 + i);
    }
    assert H.Walk(from, o[k], part);
  }

  // At a known place no execution has written r2 yet.
  lemma NoWriteBefore(fl: H.Section, size: int, known: set<int>, o: seq<int>, j: int, k: int)
    requires Inside(fl, size) && Follows(fl, o) && 0 <= j < k < |o|
    requires o[k] in known && forall n :: n in known ==> !AfterWrite(fl, size, n)
    ensures !fl.MayWrite(o[j], TOC)
  {
    hide Reached;
    assert H.EdgeOn(fl, o, j);
    assert fl.Edge(o[j], o[j + 1]);
    PartReached(fl, o, j, k);
  }

  lemma {:induction false} R2Kept(fl: H.Section, o: seq<int>, run: seq<M.Machine>, k: nat)
    requires |run| == |o| && GivesBack(fl, o, run) && k < |o|
    requires forall j :: 0 <= j < k ==> !fl.MayWrite(o[j], TOC)
    ensures run[k].reg(TOC) == run[0].reg(TOC)
  {
    if k > 0 { R2Kept(fl, o, run, k - 1); }
  }

  // The flow of a switch proof with the write sets beside it.
  function Graph(f: P.Flow, writes: map<int, set<int>>): H.Section {
    H.Section(f.preds, f.entries, false, false, map[], writes)
  }

  // The run decodes by r2 only where it is known.
  ghost predicate ReliesOn(sec: P.Section, known: set<int>) {
    forall off :: M.NeedsToc(sec.At(off)) ==> off in known
  }

  lemma TocIsHeld(sec: P.Section, env: M.Env, f: P.Flow, writes: map<int, set<int>>, size: int, known: set<int>,
                  o: seq<int>, run: seq<M.Machine>)
    requires Inside(Graph(f, writes), size) && P.Walk(f, o) && |run| == |o| && GivesBack(Graph(f, writes), o, run)
    requires forall n :: n in known ==> !AfterWrite(Graph(f, writes), size, n)
    requires ReliesOn(sec, known) && run[0].reg(TOC) == env.got
    ensures P.TocHeld(sec, env, o, run)
  {
    hide Inside, AfterWrite, GivesBack, H.Section.MayWrite, P.Section.At;
    var fl := Graph(f, writes);
    WalkFollows(f, writes, o);
    forall k | 0 <= k < |o| - 1
      ensures M.TocThere(sec.At(o[k]), env, run[k])
    {
      if M.NeedsToc(sec.At(o[k])) {
        forall j | 0 <= j < k
          ensures !fl.MayWrite(o[j], TOC)
        {
          NoWriteBefore(fl, size, known, o, j, k);
        }
        R2Kept(fl, o, run, k);
      }
    }
  }

  lemma WalkFollows(f: P.Flow, writes: map<int, set<int>>, o: seq<int>)
    requires P.Walk(f, o)
    ensures Follows(Graph(f, writes), o)
  {
    forall k | 0 <= k < |o| - 1
      ensures H.EdgeOn(Graph(f, writes), o, k)
    {
      assert P.EdgeAt(f, o, k);
    }
  }

  // Entered with the TOC pointer in r2, every execution lands at a listed target.
  lemma LandsAtTarget(sec: P.Section, env: M.Env, j: int, p: P.Proof, paths: seq<seq<int>>,
                      f: P.Flow, writes: map<int, set<int>>, size: int, known: set<int>, o: seq<int>, run: seq<M.Machine>)
    requires sec.WellFormed() && P.Loaded(sec, env) && P.Justified(sec, j, p, paths)
    requires P.TableKept(sec, p.at) && forall i :: 0 <= i < |paths| ==> P.Confirmed(sec, paths[i])
    requires P.Walk(f, o) && P.Agrees(f, p.relied) && o[|o| - 1] == j && P.Along(sec, env, o, run)
    requires Inside(Graph(f, writes), size) && GivesBack(Graph(f, writes), o, run)
    requires ReliesOn(sec, known) && forall n :: n in known ==> !AfterWrite(Graph(f, writes), size, n)
    requires run[0].reg(TOC) == env.got
    ensures exists d :: d in p.targets && run[|run| - 1].ctr == env.base + d
  {
    hide P.Justified, P.Walk, P.Agrees, P.Loaded, P.Confirmed, P.TableKept, Inside, AfterWrite, GivesBack, ReliesOn, P.TocHeld, Graph;
    AlongLength(sec, env, o, run);
    TocIsHeld(sec, env, f, writes, size, known, o, run);
    P.TargetsComplete(sec, env, j, p, paths, f, o, run);
  }

  lemma AlongLength(sec: P.Section, env: M.Env, o: seq<int>, run: seq<M.Machine>)
    requires P.Along(sec, env, o, run)
    ensures |run| == |o| > 0
  {
  }
}
