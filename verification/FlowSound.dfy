// What the settled flow is good for: every execution of the section, its computed jumps going
// where CTR says, follows the edges of the settled graph.
module FlowSound {
  import opened Collections
  import opened FlowGraph
  import H = HaSearch
  import opened FlowSeeding
  import M = SwitchModel
  import P = SwitchProof
  import opened TocRegister
  import opened FlowSettling

  // The settled flow of a section, with the proofs its graph bears out.
  datatype Settled = Settled(proofs: Proofs, seeded: set<int>, out: map<int, seq<int>>, known: set<int>,
                             agains: Proofs, ways: map<int, seq<seq<int>>>)
  {
    function Data(job: Job): set<int> { DataOf(job.size, proofs) }
    function Entries(job: Job): set<int> { job.base + seeded }
    function Code(job: Job): H.Section { CodeGraph(job, out, Data(job), Entries(job)) }
    function Flow(job: Job): P.Flow { P.Flow(Code(job).preds, Entries(job)) }
    function Sec(job: Job): P.Section { SectionOf(job, out, Entries(job), known) }

    ghost predicate Stands(job: Job) { Standing(job, proofs, seeded, out, known, agains, ways) }

    // What is said of a way into a dispatch rests on no misjudged step, and no relocation reaches into a table.
    ghost predicate Trusted(job: Job) {
      forall j :: j in proofs && j in agains && j in ways ==>
        P.TableKept(Sec(job), agains[j].at) && forall i :: 0 <= i < |ways[j]| ==> P.Confirmed(Sec(job), ways[j][i])
    }
  }

  // One transfer of control: along an edge of the instruction itself, or to where CTR points.
  ghost predicate Moves(job: Job, env: M.Env, o: seq<int>, run: seq<M.Machine>, k: int)
    requires |run| == |o| && 0 <= k < |o| - 1
  {
    Lists(job.preds, o[k + 1], o[k]) || (o[k] in job.indirect && M.Lands(run[k]) == env.base + o[k + 1])
  }

  // An execution from an entry that is no table word; a function is entered with the TOC
  // pointer in r2.
  ghost predicate Execution(job: Job, st: Settled, env: M.Env, o: seq<int>, run: seq<M.Machine>) {
    && P.Along(st.Sec(job), env, o, run) && GivesBack(st.Code(job), o, run)
    && (forall k {:trigger Moves(job, env, o, run, k)} :: 0 <= k < |o| - 1 ==> Moves(job, env, o, run, k))
    && o[0] in st.Entries(job) && o[0] !in st.Data(job)
    && (o[0] in job.fnRoots ==> run[0].reg(TOC) == env.got)
  }

  // The ways so far follow the graph.
  ghost predicate OnGraph(job: Job, st: Settled, o: seq<int>, n: nat) {
    forall k :: 0 <= k < n && k < |o| - 1 ==> st.Code(job).Edge(o[k], o[k + 1])
  }

  lemma PrefixRuns(job: Job, st: Settled, env: M.Env, o: seq<int>, run: seq<M.Machine>, n: nat)
    requires Execution(job, st, env, o, run) && n < |o| && OnGraph(job, st, o, n)
    ensures var pre, part := o[..n + 1], run[..n + 1];
      P.Along(st.Sec(job), env, pre, part) && GivesBack(st.Code(job), pre, part) && P.Walk(st.Flow(job), pre)
  {
    hide M.Does, M.Sane, P.Section.At, P.Section.Altered, H.Section.MayWrite, Settled.Code, Settled.Sec, Settled.Entries;
    var pre, part := o[..n + 1], run[..n + 1];
    forall k | 0 <= k < |pre| - 1
      ensures P.StepAlong(st.Sec(job), env, pre, part, k)
    {
      assert P.StepAlong(st.Sec(job), env, o, run, k);
    }
    forall k | 0 <= k < |pre| - 1
      ensures P.EdgeAt(st.Flow(job), pre, k)
    {
      assert st.Code(job).Edge(o[k], o[k + 1]);
    }
  }

  lemma FlowAgrees(job: Job, st: Settled, j: int)
    requires st.Stands(job) && j in st.proofs
    ensures j in st.agains && P.Agrees(st.Flow(job), st.agains[j].relied)
  {
    hide P.Justified, DataOf, Evidence, Reached, AfterWrite;
    CodeEdge(job, st.out, st.Data(job), st.Entries(job));
    var relied := st.agains[j].relied;
    forall c, p | c in relied && st.Flow(job).Edge(p, c)
      ensures p in relied[c]
    {
      assert st.Code(job).Edge(p, c);
      assert relied[c] == st.Sec(job).Preds(c);
    }
  }

  lemma KnownIsSafe(job: Job, st: Settled)
    requires st.Stands(job)
    ensures forall n :: n in st.known ==> !AfterWrite(Graph(st.Flow(job), job.writes), job.size, n)
    ensures Graph(st.Flow(job), job.writes) == st.Code(job)
  {
    hide AfterWrite, DataOf, Evidence, Reached, Again;
  }

  lemma DecodesByKnown(job: Job, st: Settled)
    requires job.WellFormed()
    ensures ReliesOn(st.Sec(job), st.known) && st.Sec(job).WellFormed() && st.Sec(job).size == job.size
  {
  }

  // A proven dispatch that an execution comes to goes to one of its targets.
  lemma DispatchLands(job: Job, st: Settled, env: M.Env, o: seq<int>, run: seq<M.Machine>, n: nat)
    requires job.WellFormed() && st.Stands(job) && st.Trusted(job) && P.Loaded(st.Sec(job), env) && env.base % 4 == 0
    requires Execution(job, st, env, o, run) && n < |o| && OnGraph(job, st, o, n) && o[n] in st.proofs
    ensures exists d :: d in st.proofs[o[n]].targets && M.Lands(run[n]) == env.base + d
  {
    hide P.Justified, P.Walk, P.Agrees, P.Loaded, P.Confirmed, P.TableKept, P.Along, Inside, AfterWrite, GivesBack, ReliesOn, Reached,
         Evidence, DataOf, P.TakenFrom, Settled.Sec, Settled.Code, Settled.Flow, Settled.Entries, Fair;
    var j := o[n];
    AlongLength(st.Sec(job), env, o, run);
    PrefixRuns(job, st, env, o, run, n);
    var pre, part := o[..n + 1], run[..n + 1];
    FromFunction(job, st, env, o, run, n);
    FlowAgrees(job, st, j);
    KnownIsSafe(job, st);
    DecodesByKnown(job, st);
    StandsInside(job, st);
    BorneOut(job, st, j);
    LandsAtTarget(st.Sec(job), env, j, st.agains[j], st.ways[j], st.Flow(job), job.writes, job.size, st.known, pre, part);
    var d :| d in st.agains[j].targets && part[|part| - 1].ctr == env.base + d;
    AlignedTargets(job, st, j, d);
    Aligned(run[n].ctr, env.base, d);
  }

  lemma Aligned(ctr: int, base: int, d: int)
    requires base % 4 == 0 && d % 4 == 0 && ctr == base + d
    ensures ctr - ctr % 4 == base + d
  {
  }

  lemma BorneOut(job: Job, st: Settled, j: int)
    requires st.Stands(job) && st.Trusted(job) && j in st.proofs
    ensures j in st.agains && j in st.ways && P.Justified(st.Sec(job), j, st.agains[j], st.ways[j])
    ensures st.agains[j].targets == st.proofs[j].targets && P.TableKept(st.Sec(job), st.agains[j].at)
    ensures forall i :: 0 <= i < |st.ways[j]| ==> P.Confirmed(st.Sec(job), st.ways[j][i])
  {
    hide P.Justified, P.TakenFrom, P.Confirmed, P.TableKept, Evidence, Reached, AfterWrite, DataOf, SectionOf;
  }

  lemma StandsInside(job: Job, st: Settled)
    requires job.WellFormed() && st.Stands(job)
    ensures Inside(st.Code(job), job.size)
  {
    hide EdgesOf, Fair, Inside, CodeGraph;
    GraphInside(job, st.proofs, st.out, st.Entries(job));
  }

  lemma AlignedTargets(job: Job, st: Settled, j: int, d: int)
    requires st.Stands(job) && j in st.proofs && d in st.proofs[j].targets
    ensures d % 4 == 0
  {
    hide Again, Evidence, Reached, AfterWrite, EdgesOf, CodeGraph, SectionOf;
  }

  // Only executions from a function come to a proven dispatch.
  lemma FromFunction(job: Job, st: Settled, env: M.Env, o: seq<int>, run: seq<M.Machine>, n: nat)
    requires st.Stands(job) && Execution(job, st, env, o, run) && n < |o| && OnGraph(job, st, o, n) && o[n] in st.proofs
    ensures o[0] in job.fnRoots
  {
    hide P.Along, GivesBack, Again, Evidence, AfterWrite, EdgesOf, DataOf, Moves, Fair;
    if o[0] !in job.fnRoots {
      var starts := st.Entries(job) - job.fnRoots;
      WayReached(st.Code(job), starts, o, n);
    }
  }

  lemma WayReached(fl: H.Section, starts: set<int>, o: seq<int>, n: nat)
    requires n < |o| && o[0] in starts && forall k :: 0 <= k < n ==> fl.Edge(o[k], o[k + 1])
    ensures Reached(fl, starts, o[n])
  {
    var pre, from := o[..n + 1], fl.(entries := starts);
    forall k | 0 <= k < |pre| - 1
      ensures H.EdgeOn(from, pre, k)
    {
      assert fl.Edge(o[k], o[k + 1]);
    }
    assert H.Walk(from, o[n], pre);
  }

  // Code never falls or jumps into a table that stands.
  lemma NotIntoData(job: Job, st: Settled, p: int, n: int)
    requires job.WellFormed() && st.Stands(job) && p !in st.Data(job) && Lists(st.out, n, p)
    ensures n !in st.Data(job)
  {
    hide EdgesOf, CodeGraph, Again, Reached, AfterWrite, Fair;
  }

  lemma StandsEdges(job: Job, st: Settled)
    requires st.Stands(job)
    ensures EdgesOf(job, st.proofs, false, job.indirect, st.out)
  {
    hide EdgesOf, Fair, Again, Evidence, Reached, AfterWrite, CodeGraph;
  }

  // With every computed jump proven, every execution follows the settled graph, step by step,
  // and never runs a table word.
  lemma {:induction false} StaysInGraph(job: Job, st: Settled, env: M.Env, o: seq<int>, run: seq<M.Machine>, n: nat)
    requires job.WellFormed() && st.Stands(job) && st.Trusted(job) && P.Loaded(st.Sec(job), env) && env.base % 4 == 0
    requires (forall j :: j in job.indirect ==> j in st.proofs) && Execution(job, st, env, o, run) && n < |o|
    ensures OnGraph(job, st, o, n) && o[n] !in st.Data(job)
  {
    hide Job.WellFormed, Standing, Settled.Trusted, P.Loaded, P.Along, GivesBack, EdgesOf, DataOf, H.Section.Edge, Settled.Code,
         Settled.Entries, Settled.Sec;
    if n > 0 {
      StaysInGraph(job, st, env, o, run, n - 1);
      AlongLength(st.Sec(job), env, o, run);
      assert Moves(job, env, o, run, n - 1);
      var p, d := o[n - 1], o[n];
      if !Lists(job.preds, d, p) {
        DispatchLands(job, st, env, o, run, n - 1);
      }
      StandsEdges(job, st);
      EdgeIs(job, st.proofs, false, st.out, p, d);
      NotIntoData(job, st, p, d);
      CodeEdge(job, st.out, st.Data(job), st.Entries(job));
      CodeIs(job, st);
    }
  }

  lemma CodeIs(job: Job, st: Settled)
    ensures st.Code(job) == CodeGraph(job, st.out, st.Data(job), st.Entries(job))
  {
  }
}
