// flow's settling: switch proofs, the words that count as data, what is known of r2 and the
// entries nobody names, until they agree with one another.
module FlowSettling {
  import opened Collections
  import opened FlowGraph
  import opened Relocations
  import H = HaSearch
  import opened FlowSeeding
  import M = SwitchModel
  import P = SwitchProof
  import opened TocRegister

  // A section: the edges its instructions have by themselves, its computed jumps, the entries
  // named from elsewhere and those of them that are functions, its instructions decoded as where
  // r2 is known, and what may show a word to be code.
  datatype Job = Job(size: nat, preds: map<int, seq<int>>, indirect: seq<int>, base: set<int>, fnRoots: set<int>,
                     writes: map<int, set<int>>, code: map<int, M.Insn>, tables: M.Tables, relocs: set<Reloc>,
                     words: map<int, int>, labels: set<int>, namedFrom: map<int, set<M.Ref>>)
  {
    ghost predicate WellFormed() {
      && size % 4 == 0
      && (forall p, n :: Lists(preds, n, p) ==> Offset(size, p) && Offset(size, n))
      && (forall k :: 0 <= k < |indirect| ==> Offset(size, indirect[k]))
      && (forall i, k :: 0 <= i < k < |indirect| ==> indirect[i] != indirect[k])
      && (forall off :: off in code ==> M.Encodable(code[off]))
      && (forall off :: off in words ==> 0 <= words[off] < 0x1_0000_0000)
    }

    function Named(n: int): set<M.Ref> { if n in namedFrom then namedFrom[n] else {} }
  }

  // What a word decodes as where r2 is not known.
  function Demote(i: M.Insn): M.Insn {
    match i
    case AddisHa(_, _) => M.Havoc
    case LoadToc(rt, ra, width, key, base, _) => M.LoadToc(rt, ra, width, key, base, false)
    case _ => i
  }

  function SectionOf(job: Job, preds: map<int, seq<int>>, entries: set<int>, known: set<int>): P.Section {
    P.Section(job.size, map off | off in job.code :: if off in known then job.code[off] else Demote(job.code[off]),
              preds, entries, job.tables, job.relocs, job.words)
  }

  type Proofs = map<int, P.Proof>

  function At(m: map<int, seq<int>>, n: int): seq<int> { if n in m then m[n] else [] }

  // ---- edges ----

  function Targets(job: Job, proofs: Proofs, wild: bool, j: int): set<int> {
    if j in proofs then proofs[j].targets else if wild then Offsets(job.size) else {}
  }

  // The computed jumps that lead to d.
  function JumpsTo(job: Job, proofs: Proofs, wild: bool, js: seq<int>, d: int): seq<int> {
    if js == [] then []
    else
      var j := js[|js| - 1];
      JumpsTo(job, proofs, wild, js[..|js| - 1], d) + if d in Targets(job, proofs, wild, j) then [j] else []
  }

  lemma {:induction false} JumpIn(job: Job, proofs: Proofs, wild: bool, js: seq<int>, d: int, j: int)
    ensures j in JumpsTo(job, proofs, wild, js, d) <==> j in js && d in Targets(job, proofs, wild, j)
  {
    if js != [] {
      var n := |js| - 1;
      JumpIn(job, proofs, wild, js[..n], d, j);
      assert js == js[..n] + [js[n]];
    }
  }

  ghost predicate EdgesOf(job: Job, proofs: Proofs, wild: bool, js: seq<int>, out: map<int, seq<int>>) {
    forall d :: At(out, d) == At(job.preds, d) + JumpsTo(job, proofs, wild, js, d)
  }

  method WithEdges(job: Job, proofs: Proofs, wild: bool) returns (out: map<int, seq<int>>)
    ensures EdgesOf(job, proofs, wild, job.indirect, out)
  {
    hide At, Targets, EdgesOf, JumpsTo;
    out := job.preds;
    NoJumpYet(job, proofs, wild);
    for k := 0 to |job.indirect|
      invariant EdgesOf(job, proofs, wild, job.indirect[..k], out)
    {
      var j := job.indirect[k];
      var targets := Targets(job, proofs, wild, j);
      ghost var before := out;
      out := AddJump(out, targets, j);
      OneMoreJump(job, proofs, wild, k, before, out);
    }
    assert job.indirect[..|job.indirect|] == job.indirect;
  }

  lemma NoJumpYet(job: Job, proofs: Proofs, wild: bool)
    ensures EdgesOf(job, proofs, wild, job.indirect[..0], job.preds)
  {
  }

  lemma OneMoreJump(job: Job, proofs: Proofs, wild: bool, k: nat, was: map<int, seq<int>>, out: map<int, seq<int>>)
    requires k < |job.indirect| && EdgesOf(job, proofs, wild, job.indirect[..k], was)
    requires forall d :: At(out, d) == At(was, d) + if d in Targets(job, proofs, wild, job.indirect[k]) then [job.indirect[k]] else []
    ensures EdgesOf(job, proofs, wild, job.indirect[..k + 1], out)
  {
    hide At, Targets;
    var js := job.indirect[..k + 1];
    assert js[..|js| - 1] == job.indirect[..k] && js[|js| - 1] == job.indirect[k];
    forall d
      ensures At(out, d) == At(job.preds, d) + JumpsTo(job, proofs, wild, js, d)
    {
      assert At(was, d) == At(job.preds, d) + JumpsTo(job, proofs, wild, job.indirect[..k], d);
    }
  }

  ghost predicate Joined(out: map<int, seq<int>>, was: map<int, seq<int>>, ds: seq<int>, j: int) {
    forall d :: At(out, d) == At(was, d) + if d in ds then [j] else []
  }

  lemma OneMoreIn<T>(ds: seq<T>, i: nat, x: T)
    requires i < |ds|
    ensures x in ds[..i + 1] <==> x in ds[..i] || x == ds[i]
  {
    assert ds[..i + 1] == ds[..i] + [ds[i]];
  }

  lemma JoinAt(out: map<int, seq<int>>, was: map<int, seq<int>>, ds: seq<int>, i: nat, j: int, n: int)
    requires i < |ds| && ds[i] !in ds[..i]
    requires At(out, n) == At(was, n) + if n in ds[..i] then [j] else []
    ensures At(out[ds[i] := At(out, ds[i]) + [j]], n) == At(was, n) + if n in ds[..i + 1] then [j] else []
  {
    OneMoreIn(ds, i, n);
  }

  lemma JoinOne(out: map<int, seq<int>>, was: map<int, seq<int>>, ds: seq<int>, i: nat, j: int)
    requires i < |ds| && ds[i] !in ds[..i] && Joined(out, was, ds[..i], j)
    ensures Joined(out[ds[i] := At(out, ds[i]) + [j]], was, ds[..i + 1], j)
  {
    hide At;
    var more := out[ds[i] := At(out, ds[i]) + [j]];
    forall n
      ensures At(more, n) == At(was, n) + if n in ds[..i + 1] then [j] else []
    {
      JoinAt(out, was, ds, i, j, n);
    }
  }

  lemma NoneJoined(was: map<int, seq<int>>, ds: seq<int>, j: int)
    ensures Joined(was, was, ds[..0], j)
  {
  }

  method AddJump(was: map<int, seq<int>>, targets: set<int>, j: int) returns (out: map<int, seq<int>>)
    ensures forall d :: At(out, d) == At(was, d) + if d in targets then [j] else []
  {
    hide At;
    var ds := Listing(targets);
    out := was;
    NoneJoined(was, ds, j);
    for i := 0 to |ds|
      invariant Joined(out, was, ds[..i], j)
    {
      JoinOne(out, was, ds, i, j);
      out := out[ds[i] := At(out, ds[i]) + [j]];
    }
    assert ds[..|ds|] == ds;
  }

  lemma EdgeIs(job: Job, proofs: Proofs, wild: bool, out: map<int, seq<int>>, p: int, d: int)
    requires EdgesOf(job, proofs, wild, job.indirect, out)
    ensures Lists(out, d, p) <==> Lists(job.preds, d, p) || (p in job.indirect && d in Targets(job, proofs, wild, p))
  {
    JumpIn(job, proofs, wild, job.indirect, d, p);
    assert p in At(out, d) <==> p in At(job.preds, d) || p in JumpsTo(job, proofs, wild, job.indirect, d);
  }

  // ---- the graph of the code alone ----

  predicate InTable(p: P.Proof, n: int) { p.at <= n < p.at + 4 * p.count && n % 4 == 0 }

  function WordAt(at: int, i: int): int { at + 4 * i }

  // The words of a table are the count from its beginning on.
  lemma InTableIs(p: P.Proof, n: int)
    requires p.at % 4 == 0
    ensures InTable(p, n) <==> exists i :: 0 <= i < p.count && n == WordAt(p.at, i)
  {
    if InTable(p, n) { assert n == WordAt(p.at, (n - p.at) / 4); }
  }

  predicate IsData(proofs: Proofs, n: int) { exists j :: j in proofs && InTable(proofs[j], n) }

  // The words of the tables.
  function DataOf(size: int, proofs: Proofs): set<int> { set n | 0 <= n < size && IsData(proofs, n) }

  lemma DataIs(size: int, proofs: Proofs, n: int)
    requires forall j :: j in proofs ==> FairOne(size, proofs[j])
    ensures n in DataOf(size, proofs) <==> exists j, i :: j in proofs && 0 <= i < proofs[j].count && n == WordAt(proofs[j].at, i)
  {
    forall j | j in proofs
      ensures InTable(proofs[j], n) <==> exists i :: 0 <= i < proofs[j].count && n == WordAt(proofs[j].at, i)
      ensures InTable(proofs[j], n) ==> 0 <= n < size
    {
      InTableIs(proofs[j], n);
    }
  }

  function Without(ps: seq<int>, data: set<int>): (r: seq<int>)
    ensures forall p :: p in r <==> p in ps && p !in data
  {
    if ps == [] then [] else (if ps[0] in data then [] else [ps[0]]) + Without(ps[1..], data)
  }

  function CodeGraph(job: Job, out: map<int, seq<int>>, data: set<int>, entries: set<int>): H.Section {
    Graph(P.Flow(map d | d in out && d !in data :: Without(out[d], data), entries), job.writes)
  }

  lemma CodeEdge(job: Job, out: map<int, seq<int>>, data: set<int>, entries: set<int>)
    ensures forall p, d :: CodeGraph(job, out, data, entries).Edge(p, d) <==> Lists(out, d, p) && p !in data && d !in data
  {
  }

  // ---- proofs ----

  // Standing proofs are of computed jumps not given up, have their tables in the section and
  // lead to instructions.
  ghost predicate Fair(job: Job, banned: set<int>, proofs: Proofs) {
    forall j :: j in proofs ==> j in job.indirect && j !in banned && FairOne(job.size, proofs[j])
  }

  ghost predicate FairOne(size: int, p: P.Proof) {
    && 0 <= p.at && p.at % 4 == 0 && p.at + 4 * p.count <= size
    && forall d :: d in p.targets ==> Offset(size, d)
  }

  lemma FairTargets(job: Job, sec: P.Section, j: int, p: P.Proof, paths: seq<seq<int>>)
    requires P.Justified(sec, j, p, paths) && sec.size == job.size
    ensures FairOne(job.size, p)
  {
    hide P.Covers, P.CaseOf, P.TargetOf;
    forall d | d in p.targets
      ensures Offset(job.size, d)
    {
      var i :| 0 <= i < p.count && d == P.TargetOf(sec, p.at, i);
      assert 0 <= P.TargetOf(sec, p.at, i) < sec.size;
    }
  }

  // Predecessor lists the proof relies on have changed, or one of its instructions is an entry.
  predicate Broken(p: P.Proof, full: map<int, seq<int>>, entries: set<int>) {
    exists c :: c in p.relied && (c in entries || multiset(At(full, c)) != multiset(p.relied[c]))
  }

  predicate SameProof(p: P.Proof, q: P.Proof) {
    && p.relied.Keys == q.relied.Keys && (forall c :: c in p.relied ==> multiset(p.relied[c]) == multiset(q.relied[c]))
    && p.targets == q.targets && p.at == q.at && p.count == q.count && p.refs == q.refs
  }

  lemma SameIs(p: P.Proof, q: P.Proof)
    ensures SameProof(p, p) && (SameProof(p, q) ==> P.Alike(p, q) && SameProof(q, p))
  {
  }

  function Optimistic(job: Job, entries: set<int>): P.Section { SectionOf(job, job.preds, entries, Offsets(job.size)) }

  // A proof for every jump that has one.
  ghost predicate Tried(job: Job, entries: set<int>, banned: set<int>, proofs: Proofs, js: seq<int>) {
    forall j :: j in js && j !in banned ==>
      if j in proofs then P.Finds(Optimistic(job, entries), j, proofs[j]) else P.FindsNone(Optimistic(job, entries), j)
  }

  // First proofs over the static edges, with r2 taken to be known everywhere.
  method FirstProofs(job: Job, entries: set<int>, banned: set<int>) returns (proofs: Proofs)
    requires job.WellFormed()
    ensures Fair(job, banned, proofs) && Tried(job, entries, banned, proofs, job.indirect)
  {
    hide P.Justified, P.TakenFrom, SectionOf, FairOne, EdgesOf, P.NoProof, P.Found;
    proofs := map[];
    for k := 0 to |job.indirect|
      invariant Fair(job, banned, proofs) && Tried(job, entries, banned, proofs, job.indirect[..k])
      invariant forall j :: j in proofs ==> j in job.indirect[..k]
    {
      assert job.indirect[..k + 1] == job.indirect[..k] + [job.indirect[k]];
      assert forall i :: 0 <= i < k ==> job.indirect[i] != job.indirect[k];
      var j := job.indirect[k];
      if j !in banned {
        var sec := Optimistic(job, entries);
        SizeOf(job, job.preds, entries, Offsets(job.size));
        var r, paths := P.SwitchTargets(sec, j);
        if r.Some? {
          P.FoundIs(sec, j, r.value, paths);
          FairTargets(job, sec, j, r.value, paths);
          proofs := proofs[j := r.value];
        }
      }
    }
    assert job.indirect[..|job.indirect|] == job.indirect;
  }

  lemma SizeOf(job: Job, preds: map<int, seq<int>>, entries: set<int>, known: set<int>)
    ensures SectionOf(job, preds, entries, known).size == job.size
  {
  }

  // With an edge from every proven jump to its targets, and from every other to everything, no
  // proof is broken.
  ghost predicate AllWell(job: Job, proofs: Proofs, entries: set<int>) {
    forall full :: EdgesOf(job, proofs, true, job.indirect, full) ==> NoneBroken(proofs, full, entries)
  }

  ghost predicate NoneBroken(proofs: Proofs, full: map<int, seq<int>>, entries: set<int>) {
    forall j :: j in proofs ==> !Broken(proofs[j], full, entries)
  }

  lemma NotWell(job: Job, proofs: Proofs, full: map<int, seq<int>>, entries: set<int>, j: int)
    requires j in proofs && Broken(proofs[j], full, entries) && EdgesOf(job, proofs, true, job.indirect, full)
    ensures !AllWell(job, proofs, entries)
  {
    hide Broken, EdgesOf;
  }

  // A broken proof makes way for another one over this section, if there is any.
  ghost predicate MendedOne(sec: P.Section, j: int, p: P.Proof, now: Proofs) {
    if j in now then P.Finds(sec, j, now[j]) && !SameProof(now[j], p)
    else P.FindsNone(sec, j) || exists q :: P.Finds(sec, j, q) && SameProof(q, p)
  }

  ghost predicate MendedAll(sec: P.Section, was: Proofs, broken: seq<int>, now: Proofs) {
    (forall j :: j in now ==> j in was) && forall j :: j in was ==> MendedHere(sec, was, broken, now, j)
  }

  ghost predicate MendedHere(sec: P.Section, was: Proofs, broken: seq<int>, now: Proofs, j: int)
    requires j in was
  {
    if j in broken then MendedOne(sec, j, was[j], now) else j in now && now[j] == was[j]
  }

  // One pass: whatever is broken, with every unproven jump going everywhere, is proved again over the
  // edges proven so far, or dropped; the rest stands.
  ghost predicate Mended(job: Job, entries: set<int>, was: Proofs, now: Proofs) {
    exists full, known, broken ::
      && EdgesOf(job, was, true, job.indirect, full) && EdgesOf(job, was, false, job.indirect, known)
      && broken != [] && (forall j :: j in broken <==> j in was && Broken(was[j], full, entries))
      && MendedAll(SectionOf(job, known, entries, Offsets(job.size)), was, broken, now)
  }

  // Pass after pass until nothing is broken; after 4 n + 1 passes, for n jumps, no proof is left.
  ghost predicate MendsTo(job: Job, entries: set<int>, trail: seq<Proofs>, proofs: Proofs) {
    && 0 < |trail| <= 4 * |job.indirect| + 2 && Passes(job, entries, trail)
    && if |trail| == 4 * |job.indirect| + 2 then proofs == map[]
       else proofs == trail[|trail| - 1] && Whole(job, entries, proofs)
  }

  ghost predicate Passes(job: Job, entries: set<int>, trail: seq<Proofs>) {
    forall i {:trigger PassAt(job, entries, trail, i)} :: 0 <= i < |trail| - 1 ==> PassAt(job, entries, trail, i)
  }

  ghost predicate PassAt(job: Job, entries: set<int>, trail: seq<Proofs>, i: int)
    requires 0 <= i < |trail| - 1
  {
    Mended(job, entries, trail[i], trail[i + 1])
  }

  ghost predicate Whole(job: Job, entries: set<int>, proofs: Proofs) {
    exists full :: EdgesOf(job, proofs, true, job.indirect, full) && NoneBroken(proofs, full, entries)
  }

  lemma OneMorePass(job: Job, entries: set<int>, trail: seq<Proofs>, now: Proofs)
    requires trail != [] && Passes(job, entries, trail) && Mended(job, entries, trail[|trail| - 1], now)
    ensures Passes(job, entries, trail + [now])
  {
    hide Mended;
    var more := trail + [now];
    forall i | 0 <= i < |more| - 1
      ensures PassAt(job, entries, more, i)
    {
      if i < |trail| - 1 { assert PassAt(job, entries, trail, i); }
    }
  }

  lemma NotBroken(proofs: Proofs, full: map<int, seq<int>>, entries: set<int>, broken: seq<int>)
    requires broken == [] && forall j :: j in broken <==> j in proofs && Broken(proofs[j], full, entries)
    ensures NoneBroken(proofs, full, entries)
  {
    hide Broken;
  }

  method MendAll(job: Job, banned: set<int>, sec: P.Section, was: Proofs, broken: seq<int>) returns (now: Proofs)
    requires Fair(job, banned, was) && sec.size == job.size
    requires (forall j :: j in broken ==> j in was) && forall i, k :: 0 <= i < k < |broken| ==> broken[i] != broken[k]
    ensures Fair(job, banned, now) && MendedAll(sec, was, broken, now)
  {
    hide P.Justified, P.TakenFrom, FairOne, P.NoProof, P.Found, SameProof, P.Finds, MendedOne;
    now := was;
    assert forall i :: 0 <= i < |broken| ==> broken[i] in broken;
    for k := 0 to |broken|
      invariant Fair(job, banned, now) && MendedAll(sec, was, broken[..k], now)
    {
      var j := broken[k];
      ghost var before := now;
      NotYet(sec, was, broken, k, now);
      var r, paths := P.SwitchTargets(sec, j);
      if r.Some? && !SameProof(r.value, now[j]) {
        P.FoundIs(sec, j, r.value, paths);
        FairTargets(job, sec, j, r.value, paths);
        now := now[j := r.value];
      } else {
        if r.Some? { P.FoundIs(sec, j, r.value, paths); } else { NoneFound(sec, j, paths); }
        now := now - {j};
      }
      MendedIs(sec, j, was[j], now, r);
      OneMended(sec, was, broken, k, before, now);
    }
    assert broken[..|broken|] == broken;
  }

  lemma NotYet(sec: P.Section, was: Proofs, broken: seq<int>, k: nat, now: Proofs)
    requires k < |broken| && broken[k] in was && MendedAll(sec, was, broken[..k], now)
    requires forall i, l :: 0 <= i < l < |broken| ==> broken[i] != broken[l]
    ensures broken[k] in now && now[broken[k]] == was[broken[k]]
  {
    hide MendedOne;
    var j, front := broken[k], broken[..k];
    assert j !in front;
    assert MendedHere(sec, was, front, now, j);
  }

  lemma NoneFound(sec: P.Section, j: int, paths: seq<seq<int>>)
    requires P.NoProof(sec, j, paths)
    ensures P.FindsNone(sec, j)
  {
    hide P.NoProof;
  }

  lemma MendedIs(sec: P.Section, j: int, p: P.Proof, now: Proofs, r: Option<P.Proof>)
    requires if r.Some? then P.Finds(sec, j, r.value) else P.FindsNone(sec, j)
    requires if r.Some? && !SameProof(r.value, p) then j in now && now[j] == r.value else j !in now
    ensures MendedOne(sec, j, p, now)
  {
    hide P.Finds, P.FindsNone, SameProof;
  }

  lemma OneMended(sec: P.Section, was: Proofs, broken: seq<int>, k: nat, before: Proofs, now: Proofs)
    requires k < |broken| && broken[k] in was && MendedAll(sec, was, broken[..k], before)
    requires MendedOne(sec, broken[k], was[broken[k]], now)
    requires forall j :: j != broken[k] ==> (j in now <==> j in before) && (j in now ==> now[j] == before[j])
    ensures MendedAll(sec, was, broken[..k + 1], now)
  {
    hide P.Finds, P.FindsNone, SameProof;
    assert broken[..k + 1] == broken[..k] + [broken[k]];
    forall j | j in was
      ensures MendedHere(sec, was, broken[..k + 1], now, j)
    {
      assert MendedHere(sec, was, broken[..k], before, j);
    }
  }

  // Broken proofs are made again over the edges proven so far, or dropped.
  method Mend(job: Job, entries: set<int>, banned: set<int>, was: Proofs) returns (proofs: Proofs, ghost trail: seq<Proofs>)
    requires Fair(job, banned, was)
    ensures Fair(job, banned, proofs) && MendsTo(job, entries, trail, proofs) && trail[0] == was
    ensures AllWell(job, was, entries) ==> proofs == was
  {
    hide SectionOf, FairOne, EdgesOf, Broken, AllWell, MendedAll, NoneBroken, Passes, Fair;
    proofs, trail := was, [was];
    FirstPass(job, entries, was);
    var rounds := 0;
    while rounds < 4 * |job.indirect| + 1
      invariant 0 <= rounds <= 4 * |job.indirect| + 1
      invariant Fair(job, banned, proofs) && |trail| == rounds + 1 && trail[0] == was && trail[rounds] == proofs
      invariant Passes(job, entries, trail)
      invariant AllWell(job, was, entries) ==> rounds == 0 && proofs == was
    {
      var full := WithEdges(job, proofs, true);
      var broken := Listing(set j | j in proofs && Broken(proofs[j], full, entries));
      if broken == [] {
        NotBroken(proofs, full, entries, broken);
        return;
      }
      assert broken[0] in broken;
      NotWell(job, proofs, full, entries, broken[0]);
      var known := WithEdges(job, proofs, false);
      var sec := SectionOf(job, known, entries, Offsets(job.size));
      SizeOf(job, known, entries, Offsets(job.size));
      var now := MendAll(job, banned, sec, proofs, broken);
      assert Mended(job, entries, proofs, now);
      OneMorePass(job, entries, trail, now);
      proofs, trail := now, trail + [now];
      rounds := rounds + 1;
    }
    NoneFair(job, banned);
    return map[], trail;
  }

  lemma FirstPass(job: Job, entries: set<int>, was: Proofs)
    ensures Passes(job, entries, [was])
  {
  }

  lemma NoneFair(job: Job, banned: set<int>)
    ensures Fair(job, banned, map[])
  {
  }

  // ---- what a round asks of its proofs ----

  // A word of the table that shows to be code: entered from code, labelled, or named by any
  // relocation but those the proof read its table address from.
  predicate Shows(job: Job, out: map<int, seq<int>>, data: set<int>, p: P.Proof, n: int) {
    (exists q :: q in At(out, n) && q !in data) || n in job.labels || !(job.Named(n) <= p.refs)
  }

  predicate Evidence(job: Job, out: map<int, seq<int>>, data: set<int>, p: P.Proof) {
    exists n :: p.at <= n < p.at + 4 * p.count && InTable(p, n) && Shows(job, out, data, p, n)
  }

  // The same targets, proved over this section's own edges and what it knows of r2.
  ghost predicate Again(sec: P.Section, j: int, p: P.Proof, again: P.Proof, paths: seq<seq<int>>) {
    P.Justified(sec, j, again, paths) && P.TakenFrom(sec, again.relied) && again.targets == p.targets
  }

  // No proof over this section, or one with other targets.
  ghost predicate Fails(sec: P.Section, j: int, p: P.Proof) {
    P.FindsNone(sec, j) || exists q :: P.Finds(sec, j, q) && q.targets != p.targets
  }

  // What stands, over the section it leaves.
  ghost predicate Standing(job: Job, proofs: Proofs, seeded: set<int>, out: map<int, seq<int>>, known: set<int>,
                           agains: Proofs, ways: map<int, seq<seq<int>>>) {
    var data, entries := DataOf(job.size, proofs), job.base + seeded;
    var fl := CodeGraph(job, out, data, entries);
    && Fair(job, {}, proofs) && EdgesOf(job, proofs, false, job.indirect, out)
    && (forall n :: n in known <==> Offset(job.size, n) && !AfterWrite(fl, job.size, n))
    && forall j :: j in proofs ==>
         && !Reached(fl, entries - job.fnRoots, j) && !Evidence(job, out, data, proofs[j])
         && j in agains && j in ways && Again(SectionOf(job, out, entries, known), j, proofs[j], agains[j], ways[j])
  }

  // Every instruction is an entry or is reached from one.
  ghost predicate AllReached(job: Job, proofs: Proofs, seeded: set<int>, out: map<int, seq<int>>) {
    var data, entries := DataOf(job.size, proofs), job.base + seeded;
    forall n :: Offset(job.size, n) && n !in data ==> Reached(CodeGraph(job, out, data, entries), entries, n)
  }

  lemma GraphInside(job: Job, proofs: Proofs, out: map<int, seq<int>>, entries: set<int>)
    requires job.WellFormed() && Fair(job, {}, proofs) && EdgesOf(job, proofs, false, job.indirect, out)
    ensures Inside(CodeGraph(job, out, DataOf(job.size, proofs), entries), job.size)
  {
    hide EdgesOf, DataOf, CodeGraph, H.Section.Edge;
    var data := DataOf(job.size, proofs);
    CodeEdge(job, out, data, entries);
    forall p, n | CodeGraph(job, out, data, entries).Edge(p, n)
      ensures Offset(job.size, p) && Offset(job.size, n)
    {
      EdgeIs(job, proofs, false, out, p, n);
    }
  }

  // The graph does not bear the proof out; it does, by this other proof.
  ghost predicate Faulty(job: Job, sec: P.Section, data: set<int>, reached: set<int>, j: int, p: P.Proof) {
    j in reached || Evidence(job, sec.preds, data, p) || Fails(sec, j, p)
  }

  ghost predicate Upheld(job: Job, sec: P.Section, data: set<int>, reached: set<int>, j: int, p: P.Proof, again: P.Proof, ways: seq<seq<int>>) {
    j !in reached && !Evidence(job, sec.preds, data, p) && Again(sec, j, p, again, ways)
  }

  method BearsOut(job: Job, sec: P.Section, data: set<int>, reached: set<int>, j: int, p: P.Proof)
    returns (ok: bool, ghost again: P.Proof, ghost ways: seq<seq<int>>)
    ensures if ok then Upheld(job, sec, data, reached, j, p, again, ways) else Faulty(job, sec, data, reached, j, p)
    ensures ok ==> !Faulty(job, sec, data, reached, j, p)
  {
    hide Evidence, P.Justified, P.TakenFrom, P.NoProof, P.Found;
    var r;
    r, ways := P.SwitchTargets(sec, j);
    if r.Some? {
      P.FoundIs(sec, j, r.value, ways);
      if r.value.targets == p.targets { NotFailing(sec, j, r.value, p); }
    }
    again := if r.Some? then r.value else p;
    ok := j !in reached && !Evidence(job, sec.preds, data, p) && r.Some? && r.value.targets == p.targets;
  }

  // Which proofs the graph does not bear out.
  method Unsupported(job: Job, proofs: Proofs, sec: P.Section, data: set<int>, reached: set<int>)
    returns (drop: set<int>, ghost agains: Proofs, ghost ways: map<int, seq<seq<int>>>)
    ensures forall j :: j in drop <==> j in proofs && Faulty(job, sec, data, reached, j, proofs[j])
    ensures forall j :: j in proofs && j !in drop ==>
      j in agains && j in ways && Upheld(job, sec, data, reached, j, proofs[j], agains[j], ways[j])
  {
    hide Faulty, Upheld;
    drop, agains, ways := {}, map[], map[];
    var js := Listing(proofs.Keys);
    for k := 0 to |js|
      invariant forall j :: j in drop <==> j in js[..k] && Faulty(job, sec, data, reached, j, proofs[j])
      invariant forall j :: j in js[..k] && j !in drop ==>
        j in agains && j in ways && Upheld(job, sec, data, reached, j, proofs[j], agains[j], ways[j])
    {
      var j := js[k];
      assert j in js && js[..k + 1] == js[..k] + [j];
      assert forall i :: 0 <= i < k ==> js[i] != j;
      var ok;
      ghost var again, way;
      ok, again, way := BearsOut(job, sec, data, reached, j, proofs[j]);
      if ok {
        agains, ways := agains[j := again], ways[j := way];
      } else {
        drop := drop + {j};
      }
    }
    assert js[..|js|] == js;
  }

  // ---- proofs that settle ----

  // The same jumps with the same tables.
  ghost predicate Like(proofs: Proofs, all: Proofs) {
    (forall j :: j in proofs <==> j in all) && forall j :: j in all ==> P.Alike(proofs[j], all[j])
  }

  // No case label lies inside a way into a dispatch.
  ghost predicate Undisturbed(job: Job, all: Proofs, entries: set<int>) {
    forall j, path, c :: j in all && P.Way(Optimistic(job, entries), j, path) && path != [] && c in path[1..]
      ==> JumpsTo(job, all, false, job.indirect, c) == []
  }

  ghost predicate KnownIs(job: Job, all: Proofs, out: map<int, seq<int>>, entries: set<int>, known: set<int>) {
    forall n :: n in known <==> Offset(job.size, n) && !AfterWrite(CodeGraph(job, out, DataOf(job.size, all), entries), job.size, n)
  }

  // Over the graph with all these proofs, the jump is out of reach of unknown entries, its table
  // shows no sign of code, and what is known of r2 proves the same targets.
  ghost predicate Borne(job: Job, all: Proofs, entries: set<int>, out: map<int, seq<int>>, known: set<int>, j: int)
    requires j in all
  {
    && !Reached(CodeGraph(job, out, DataOf(job.size, all), entries), entries - job.fnRoots, j)
    && !Evidence(job, out, DataOf(job.size, all), all[j])
    && exists p :: P.Finds(SectionOf(job, out, entries, known), j, p) && p.targets == all[j].targets
  }

  // Every computed jump has its proof, before and after the others are known.
  ghost predicate Consistent(job: Job, all: Proofs, entries: set<int>) {
    && (forall j :: j in job.indirect <==> j in all)
    && (forall j :: j in all ==> P.Finds(Optimistic(job, entries), j, all[j]))
    && Undisturbed(job, all, entries)
    && forall out, known :: EdgesOf(job, all, false, job.indirect, out) && KnownIs(job, all, out, entries, known)
         ==> forall j :: j in all ==> Borne(job, all, entries, out, known, j)
  }

  // Instructions that nothing leads to, or nothing reaches even from those.
  ghost predicate Missing(job: Job, proofs: Proofs, out: map<int, seq<int>>, entries: set<int>, n: int) {
    var data := DataOf(job.size, proofs);
    var fl := CodeGraph(job, out, data, entries);
    Offset(job.size, n) && n !in data && (!HasPred(fl, n) || !Reached(fl, entries + (NoPred(fl, job.size) - data), n))
  }

  ghost predicate StrangersAre(job: Job, all: Proofs, strangers: set<int>) {
    exists out :: EdgesOf(job, all, false, job.indirect, out) && forall n :: n in strangers <==> Missing(job, all, out, job.base, n)
  }

  // Consistent at first, and with the entries that the graph brings.
  ghost predicate Sturdy(job: Job, all: Proofs) {
    Consistent(job, all, job.base) && forall strangers :: StrangersAre(job, all, strangers) ==> Consistent(job, all, job.base + strangers)
  }

  lemma {:induction false} LikeJumps(job: Job, proofs: Proofs, all: Proofs, wild: bool, js: seq<int>, d: int)
    requires Like(proofs, all) && forall j :: j in js ==> j in all
    ensures JumpsTo(job, proofs, wild, js, d) == JumpsTo(job, all, false, js, d)
  {
    if js != [] {
      var n := |js| - 1;
      assert js[n] in js && forall j :: j in js[..n] ==> j in js;
      LikeJumps(job, proofs, all, wild, js[..n], d);
    }
  }

  lemma LikeEdges(job: Job, proofs: Proofs, all: Proofs, wild: bool, out: map<int, seq<int>>)
    requires Like(proofs, all) && forall j :: j in job.indirect ==> j in all
    ensures EdgesOf(job, proofs, wild, job.indirect, out) <==> EdgesOf(job, all, false, job.indirect, out)
  {
    hide At, JumpsTo;
    forall d
      ensures JumpsTo(job, proofs, wild, job.indirect, d) == JumpsTo(job, all, false, job.indirect, d)
    {
      LikeJumps(job, proofs, all, wild, job.indirect, d);
    }
  }

  lemma LikeData(job: Job, proofs: Proofs, all: Proofs)
    requires Like(proofs, all)
    ensures DataOf(job.size, proofs) == DataOf(job.size, all)
  {
    forall n
      ensures IsData(proofs, n) <==> IsData(all, n)
    {
      if j :| j in proofs && InTable(proofs[j], n) { assert InTable(all[j], n); }
      if j :| j in all && InTable(all[j], n) { assert InTable(proofs[j], n); }
    }
    SameData(job.size, proofs, all);
  }

  lemma SameData(size: int, proofs: Proofs, all: Proofs)
    requires forall n :: IsData(proofs, n) <==> IsData(all, n)
    ensures DataOf(size, proofs) == DataOf(size, all)
  {
    hide IsData;
    Within(DataOf(size, proofs), DataOf(size, all));
    Within(DataOf(size, all), DataOf(size, proofs));
  }

  lemma LikeEvidence(job: Job, out: map<int, seq<int>>, data: set<int>, p: P.Proof, q: P.Proof)
    requires P.Alike(p, q)
    ensures Evidence(job, out, data, p) <==> Evidence(job, out, data, q)
  {
    forall n
      ensures InTable(p, n) == InTable(q, n) && Shows(job, out, data, p, n) == Shows(job, out, data, q, n)
    {
    }
  }

  lemma FirstAreLike(job: Job, all: Proofs, entries: set<int>, proofs: Proofs)
    requires Consistent(job, all, entries) && Fair(job, {}, proofs) && Tried(job, entries, {}, proofs, job.indirect)
    ensures Like(proofs, all)
  {
    hide P.Finds, P.FindsNone, Optimistic, Undisturbed, EdgesOf, FairOne;
    forall j | j in all
      ensures j in proofs && P.Alike(proofs[j], all[j])
    {
      P.FindsSome(Optimistic(job, entries), j, all[j]);
      P.FindsOne(Optimistic(job, entries), j, proofs[j], all[j]);
    }
  }

  // Nothing is broken while no case label lies inside a way.
  lemma FirstAreWell(job: Job, all: Proofs, entries: set<int>, proofs: Proofs)
    requires Consistent(job, all, entries) && Like(proofs, all) && Tried(job, entries, {}, proofs, job.indirect)
    ensures AllWell(job, proofs, entries)
  {
    hide P.Finds, P.FindsNone, Optimistic, Broken, JumpsTo, At;
    forall full | EdgesOf(job, proofs, true, job.indirect, full)
      ensures NoneBroken(proofs, full, entries)
    {
      LikeEdges(job, proofs, all, true, full);
      forall j | j in proofs
        ensures !Broken(proofs[j], full, entries)
      {
        WellOne(job, all, entries, full, j, proofs[j]);
      }
    }
  }

  lemma WellOne(job: Job, all: Proofs, entries: set<int>, full: map<int, seq<int>>, j: int, p: P.Proof)
    requires Undisturbed(job, all, entries) && j in all && P.Finds(Optimistic(job, entries), j, p)
    requires EdgesOf(job, all, false, job.indirect, full)
    ensures !Broken(p, full, entries)
  {
    hide P.Justified, P.Agreed, P.GivesUp, P.Way, JumpsTo;
    var sec := Optimistic(job, entries);
    var paths :| P.Found(sec, j, p, paths);
    forall c | c in p.relied
      ensures c !in entries && multiset(At(full, c)) == multiset(p.relied[c])
    {
      var i :| 0 <= i < |paths| && paths[i] != [] && c in paths[i][1..];
      assert P.Way(sec, j, paths[i]);
      assert JumpsTo(job, all, false, job.indirect, c) == [];
      assert At(full, c) == At(job.preds, c) + [];
      assert sec.Preds(c) == At(job.preds, c);
    }
  }

  // What a round with no jump given up finds.
  lemma RoundAgrees(job: Job, all: Proofs, entries: set<int>, first: Proofs, proofs: Proofs, out: map<int, seq<int>>,
                    reached: set<int>, known: set<int>, drop: set<int>)
    requires job.WellFormed() && Consistent(job, all, entries)
    requires Fair(job, {}, first) && Tried(job, entries, {}, first, job.indirect) && (AllWell(job, first, entries) ==> proofs == first)
    requires EdgesOf(job, proofs, false, job.indirect, out) && KnownIs(job, proofs, out, entries, known)
    requires forall n :: n in reached <==>
      InRange(job.size, n) && Reached(CodeGraph(job, out, DataOf(job.size, proofs), entries), entries - job.fnRoots, n)
    requires drop <= proofs.Keys && forall j :: j in drop ==>
      j in reached || Evidence(job, out, DataOf(job.size, proofs), proofs[j]) || Fails(SectionOf(job, out, entries, known), j, proofs[j])
    ensures Like(proofs, all) && drop == {}
  {
    hide P.Finds, P.FindsNone, Optimistic, SectionOf, Evidence, Reached, CodeGraph, AllWell, EdgesOf, DataOf, Undisturbed, AfterWrite;
    FirstAreLike(job, all, entries, first);
    FirstAreWell(job, all, entries, first);
    LikeData(job, proofs, all);
    LikeEdges(job, proofs, all, false, out);
    assert KnownIs(job, all, out, entries, known);
    forall j | j in drop
      ensures false
    {
      assert j in proofs.Keys;
      assert Borne(job, all, entries, out, known, j);
      LikeEvidence(job, out, DataOf(job.size, all), proofs[j], all[j]);
      var p :| P.Finds(SectionOf(job, out, entries, known), j, p) && p.targets == all[j].targets;
      NotFailing(SectionOf(job, out, entries, known), j, p, proofs[j]);
    }
    NoMember(drop);
  }

  lemma NoMember<T>(s: set<T>)
    requires forall x :: x !in s
    ensures s == {}
  {
  }

  lemma NotFailing(sec: P.Section, j: int, p: P.Proof, q: P.Proof)
    requires P.Finds(sec, j, p) && p.targets == q.targets
    ensures !Fails(sec, j, q)
  {
    hide P.Finds, P.FindsNone;
    P.FindsSome(sec, j, p);
    forall r | P.Finds(sec, j, r)
      ensures r.targets == q.targets
    {
      P.FindsOne(sec, j, p, r);
    }
  }

  // ---- the second round brings nothing new ----

  lemma SameReach(fl: H.Section, gl: H.Section, starts: set<int>, n: int)
    requires (forall p, d :: fl.Edge(p, d) <==> gl.Edge(p, d)) && Reached(fl, starts, n)
    ensures Reached(gl, starts, n)
  {
    var o :| H.Walk(fl.(entries := starts), n, o);
    forall k | 0 <= k < |o| - 1
      ensures H.EdgeOn(gl.(entries := starts), o, k)
    {
      assert H.EdgeOn(fl.(entries := starts), o, k);
      assert fl.Edge(o[k], o[k + 1]);
    }
    assert H.Walk(gl.(entries := starts), n, o);
  }

  lemma PredIsEdge(fl: H.Section, n: int)
    ensures HasPred(fl, n) <==> exists p :: fl.Edge(p, n)
  {
    if HasPred(fl, n) { assert fl.Edge(fl.Preds(n)[0], n); }
  }

  lemma SameNoPred(fl: H.Section, gl: H.Section, size: int)
    requires forall p, d :: fl.Edge(p, d) <==> gl.Edge(p, d)
    ensures NoPred(fl, size) == NoPred(gl, size) && forall n :: HasPred(fl, n) <==> HasPred(gl, n)
  {
    hide H.Section.Edge, HasPred;
    forall n
      ensures HasPred(fl, n) <==> HasPred(gl, n)
    {
      PredIsEdge(fl, n);
      PredIsEdge(gl, n);
    }
  }

  // The edges of the code do not depend on the entries, nor on how the lists are kept.
  lemma SameCode(job: Job, all: Proofs, out: map<int, seq<int>>, out': map<int, seq<int>>, e: set<int>, e': set<int>)
    requires EdgesOf(job, all, false, job.indirect, out) && EdgesOf(job, all, false, job.indirect, out')
    ensures var data := DataOf(job.size, all);
      forall p, d :: CodeGraph(job, out, data, e).Edge(p, d) <==> CodeGraph(job, out', data, e').Edge(p, d)
  {
    hide EdgesOf, DataOf, CodeGraph, H.Section.Edge;
    var data := DataOf(job.size, all);
    CodeEdge(job, out, data, e);
    CodeEdge(job, out', data, e');
    forall p, d
      ensures Lists(out, d, p) <==> Lists(out', d, p)
    {
      EdgeIs(job, all, false, out, p, d);
      EdgeIs(job, all, false, out', p, d);
    }
  }

  lemma NothingNew(job: Job, all: Proofs, proofs: Proofs, strangers: set<int>, out: map<int, seq<int>>, added: set<int>)
    requires Like(proofs, all) && StrangersAre(job, all, strangers) && (forall j :: j in job.indirect ==> j in all)
    requires EdgesOf(job, proofs, false, job.indirect, out)
    requires forall n :: n in added <==> Missing(job, proofs, out, job.base + strangers, n)
    ensures added <= strangers
  {
    hide EdgesOf, DataOf, CodeGraph, HasPred, Reached, Missing, Like;
    LikeData(job, proofs, all);
    LikeEdges(job, proofs, all, false, out);
    var was :| EdgesOf(job, all, false, job.indirect, was) && forall n :: n in strangers <==> Missing(job, all, was, job.base, n);
    forall n | n in added
      ensures n in strangers
    {
      MissingSame(job, proofs, all, out, job.base + strangers, n);
      MissingBefore(job, all, was, out, strangers, n);
    }
    Within(added, strangers);
  }

  lemma MissingSame(job: Job, proofs: Proofs, all: Proofs, out: map<int, seq<int>>, entries: set<int>, n: int)
    requires DataOf(job.size, proofs) == DataOf(job.size, all)
    ensures Missing(job, proofs, out, entries, n) == Missing(job, all, out, entries, n)
  {
    hide DataOf, CodeGraph, HasPred, Reached;
  }

  lemma MissingBefore(job: Job, all: Proofs, was: map<int, seq<int>>, out: map<int, seq<int>>, strangers: set<int>, n: int)
    requires EdgesOf(job, all, false, job.indirect, was) && EdgesOf(job, all, false, job.indirect, out)
    requires Missing(job, all, out, job.base + strangers, n)
    ensures Missing(job, all, was, job.base, n)
  {
    hide EdgesOf, DataOf, CodeGraph, HasPred, Reached, H.Section.Edge, NoPred;
    var data := DataOf(job.size, all);
    var fl, gl := CodeGraph(job, was, data, job.base), CodeGraph(job, out, data, job.base + strangers);
    SameCode(job, all, was, out, job.base, job.base + strangers);
    SameNoPred(fl, gl, job.size);
    var starts := job.base + (NoPred(fl, job.size) - data);
    if Reached(fl, starts, n) {
      SameReach(fl, gl, starts, n);
      MoreReach(gl, starts, job.base + strangers + (NoPred(gl, job.size) - data), n);
    }
  }

  // ---- the rounds, as they have to go ----

  // Given up are the proofs that the graph does not bear out: reached by an entry that is no function,
  // with a word that shows to be code, or not proved alike by what is known of r2.
  ghost predicate DropIs(job: Job, proofs: Proofs, out: map<int, seq<int>>, known: set<int>, entries: set<int>, drop: set<int>) {
    var data := DataOf(job.size, proofs);
    forall j :: j in drop <==>
      (&& j in proofs
       && (Reached(CodeGraph(job, out, data, entries), entries - job.fnRoots, j) || Evidence(job, out, data, proofs[j])
           || Fails(SectionOf(job, out, entries, known), j, proofs[j])))
  }

  // A round over the jumps not given up and the entries so far: proofs for all that have one, mended
  // until none is broken; what is given up, and what nothing reaches.
  ghost predicate RoundIs(job: Job, turn: Turn, proofs: Proofs, drop: set<int>, added: set<int>) {
    var entries := job.base + turn.seeded;
    exists trail, out, known ::
      && MendsTo(job, entries, trail, proofs) && FirstsAre(job, entries, turn.banned, trail[0])
      && EdgesOf(job, proofs, false, job.indirect, out) && KnownIs(job, proofs, out, entries, known)
      && DropIs(job, proofs, out, known, entries, drop)
      && forall n :: n in added <==> Missing(job, proofs, out, entries, n)
  }

  ghost predicate FirstsAre(job: Job, entries: set<int>, banned: set<int>, proofs: Proofs) {
    (forall j :: j in proofs ==> j in job.indirect && j !in banned) && Tried(job, entries, banned, proofs, job.indirect)
  }

  datatype Turn = Turn(banned: set<int>, seeded: set<int>)

  // A round that settles nothing gives up the proofs it does not bear out, or, with none of those, has
  // what it misses for entries.
  ghost predicate TurnsInto(job: Job, turn: Turn, next: Turn) {
    exists proofs, drop, added :: RoundIs(job, turn, proofs, drop, added) && NextIs(turn, drop, added, next)
  }

  predicate NextIs(turn: Turn, drop: set<int>, added: set<int>, next: Turn) {
    if drop != {} then next == Turn(turn.banned + drop, turn.seeded)
    else !(added <= turn.seeded) && next == Turn(turn.banned, turn.seeded + added)
  }

  ghost predicate TurnAt(job: Job, turns: seq<Turn>, i: int)
    requires 0 <= i < |turns| - 1
  {
    TurnsInto(job, turns[i], turns[i + 1])
  }

  ghost predicate Turning(job: Job, turns: seq<Turn>) {
    && turns != [] && turns[0] == Turn({}, {})
    && forall i {:trigger TurnAt(job, turns, i)} :: 0 <= i < |turns| - 1 ==> TurnAt(job, turns, i)
  }

  // The rounds from nothing given up and no entries to the first in agreement with itself.
  ghost predicate Settles(job: Job, turns: seq<Turn>, proofs: Proofs, seeded: set<int>) {
    && Turning(job, turns) && turns[|turns| - 1].seeded == seeded
    && exists added :: RoundIs(job, turns[|turns| - 1], proofs, {}, added) && added <= seeded
  }

  lemma OneMoreTurn(job: Job, turns: seq<Turn>, next: Turn, proofs: Proofs, drop: set<int>, added: set<int>)
    requires Turning(job, turns) && RoundIs(job, turns[|turns| - 1], proofs, drop, added)
    requires NextIs(turns[|turns| - 1], drop, added, next)
    ensures Turning(job, turns + [next])
  {
    hide RoundIs, NextIs;
    var more := turns + [next];
    forall i | 0 <= i < |more| - 1
      ensures TurnAt(job, more, i)
    {
      if i < |turns| - 1 { assert TurnAt(job, turns, i); } else { assert TurnsInto(job, more[i], more[i + 1]); }
    }
  }

  lemma RoundIsOne(job: Job, turn: Turn, trail: seq<Proofs>, proofs: Proofs, out: map<int, seq<int>>, known: set<int>,
                   reached: set<int>, drop: set<int>, added: set<int>)
    requires var entries := job.base + turn.seeded; var data := DataOf(job.size, proofs);
      && MendsTo(job, entries, trail, proofs) && FirstsAre(job, entries, turn.banned, trail[0])
      && EdgesOf(job, proofs, false, job.indirect, out) && KnownIs(job, proofs, out, entries, known)
      && (forall n :: n in added <==> Missing(job, proofs, out, entries, n))
      && (forall j :: j in proofs ==>
            (j in reached <==> Reached(CodeGraph(job, out, data, entries), entries - job.fnRoots, j)))
      && forall j :: j in drop <==> j in proofs && Faulty(job, SectionOf(job, out, entries, known), data, reached, j, proofs[j])
    ensures RoundIs(job, turn, proofs, drop, added)
  {
    hide MendsTo, FirstsAre, EdgesOf, KnownIs, Missing, DataOf, CodeGraph, Reached, Evidence, Fails;
    var entries := job.base + turn.seeded;
    assert SectionOf(job, out, entries, known).preds == out;
    assert DropIs(job, proofs, out, known, entries, drop);
  }

  method Round(job: Job, banned: set<int>, seeded: set<int>)
    returns (proofs: Proofs, out: map<int, seq<int>>, known: set<int>, drop: set<int>, added: set<int>,
             ghost agains: Proofs, ghost ways: map<int, seq<seq<int>>>)
    requires job.WellFormed()
    ensures forall j :: j in drop ==> j in job.indirect && j !in banned
    ensures forall n :: n in added ==> Offset(job.size, n)
    ensures drop == {} ==> Standing(job, proofs, seeded, out, known, agains, ways)
    ensures drop == {} && added <= seeded ==> AllReached(job, proofs, seeded, out)
    ensures EdgesOf(job, proofs, false, job.indirect, out)
    ensures forall n :: n in added <==> Missing(job, proofs, out, job.base + seeded, n)
    ensures banned == {} ==> forall all :: Consistent(job, all, job.base + seeded) ==> Like(proofs, all) && drop == {}
    ensures RoundIs(job, Turn(banned, seeded), proofs, drop, added)
  {
    hide Fair, EdgesOf, DataOf, CodeGraph, Reached, Inside, AfterWrite, Evidence, Again, NoPred, Tried, AllWell, Missing, Consistent,
         Like, Fails, MendsTo, RoundIs;
    var entries := job.base + seeded;
    var first := FirstProofs(job, entries, banned);
    ghost var trail;
    proofs, trail := Mend(job, entries, banned, first);
    FairAnyway(job, banned, first);
    out := WithEdges(job, proofs, false);
    var data := DataOf(job.size, proofs);
    var fl := CodeGraph(job, out, data, entries);
    FairAnyway(job, banned, proofs);
    GraphInside(job, proofs, out, entries);
    var succ := Successors(fl.preds);
    EdgesListed(fl, succ);
    var reached := Reach(fl, job.size, succ, entries - job.fnRoots);
    known := R2Known(fl, job.size);
    drop, agains, ways := Unsupported(job, proofs, SectionOf(job, out, entries, known), data, reached);
    var noPred := NoPred(fl, job.size) - data;
    var seen := Reach(fl, job.size, succ, entries + noPred);
    added := noPred + (Offsets(job.size) - seen) - data;
    RoundReaches(job, fl, data, entries, seeded, noPred, seen, added);
    RoundStands(job, banned, proofs, reached, fl, entries);
    MissingAre(job, proofs, out, entries, noPred, seen, added);
    RoundIsOne(job, Turn(banned, seeded), trail, proofs, out, known, reached, drop, added);
    if banned == {} {
      forall all | Consistent(job, all, entries)
        ensures Like(proofs, all) && drop == {}
      {
        RoundAgrees(job, all, entries, first, proofs, out, reached, known, drop);
      }
    }
  }

  lemma MissingAre(job: Job, proofs: Proofs, out: map<int, seq<int>>, entries: set<int>, noPred: set<int>, seen: set<int>, added: set<int>)
    requires var data := DataOf(job.size, proofs); var fl := CodeGraph(job, out, data, entries);
      && noPred == NoPred(fl, job.size) - data && added == noPred + (Offsets(job.size) - seen) - data
      && forall n :: n in seen <==> InRange(job.size, n) && Reached(fl, entries + noPred, n)
    ensures forall n :: n in added <==> Missing(job, proofs, out, entries, n)
  {
    hide DataOf, CodeGraph, HasPred, Reached;
  }

  lemma FairAnyway(job: Job, banned: set<int>, proofs: Proofs)
    requires Fair(job, banned, proofs)
    ensures Fair(job, {}, proofs) && forall j :: j in proofs ==> j in job.indirect && j !in banned
  {
  }

  lemma RoundStands(job: Job, banned: set<int>, proofs: Proofs, reached: set<int>, fl: H.Section, entries: set<int>)
    requires job.WellFormed() && forall j :: j in proofs ==> j in job.indirect
    requires forall n :: n in reached <==> InRange(job.size, n) && Reached(fl, entries - job.fnRoots, n)
    ensures forall j :: j in proofs ==> (j in reached <==> Reached(fl, entries - job.fnRoots, j))
  {
    hide Reached;
    forall j | j in proofs
      ensures InRange(job.size, j)
    {
      var k :| 0 <= k < |job.indirect| && job.indirect[k] == j;
      assert Offset(job.size, job.indirect[k]);
    }
  }

  lemma RoundReaches(job: Job, fl: H.Section, data: set<int>, entries: set<int>, seeded: set<int>, noPred: set<int>, seen: set<int>,
                     added: set<int>)
    requires seeded <= entries && noPred == NoPred(fl, job.size) - data
    requires forall n :: n in seen <==> InRange(job.size, n) && Reached(fl, entries + noPred, n)
    requires added == noPred + (Offsets(job.size) - seen) - data
    ensures forall n :: n in added ==> Offset(job.size, n)
    ensures added <= seeded ==> forall n :: Offset(job.size, n) && n !in data ==> Reached(fl, entries, n)
  {
    hide Reached, HasPred;
    if added <= seeded {
      forall n | Offset(job.size, n) && n !in data
        ensures Reached(fl, entries, n)
      {
        if n in added {
          ReachedStart(fl, entries, n);
        } else {
          MoreReach(fl, entries + noPred, entries, n);
        }
      }
    }
  }

  function Jumps(job: Job): set<int> { set j | j in job.indirect }

  function Left(job: Job, banned: set<int>, seeded: set<int>): nat { |Jumps(job) - banned| + |Offsets(job.size) - seeded| }

  lemma LeftAtFirst(job: Job)
    requires job.WellFormed()
    ensures Left(job, {}, {}) <= 2 * (job.size / 4)
  {
    forall j | j in Jumps(job)
      ensures Offset(job.size, j)
    {
      var k :| 0 <= k < |job.indirect| && job.indirect[k] == j;
    }
    FewWords(Jumps(job) - {}, job.size / 4);
    FewWords(Offsets(job.size) - {}, job.size / 4);
  }

  // The rounds end before their limit with everything in agreement, so the fallback that gives up
  // all proofs is never taken.
  method SettleFlow(job: Job)
    returns (proofs: Proofs, seeded: set<int>, out: map<int, seq<int>>, known: set<int>,
             ghost agains: Proofs, ghost ways: map<int, seq<seq<int>>>, ghost turns: seq<Turn>)
    requires job.WellFormed()
    ensures Standing(job, proofs, seeded, out, known, agains, ways) && AllReached(job, proofs, seeded, out)
    ensures Settles(job, turns, proofs, seeded) && |turns| <= 2 * (job.size / 4) + 1
    ensures forall all :: Sturdy(job, all) ==> Like(proofs, all)
  {
    hide Standing, AllReached, Left, Offsets, Like, Sturdy, StrangersAre, EdgesOf, Consistent, Missing, RoundIs;
    seeded, proofs, out, known := {}, map[], map[], {};
    agains, ways, turns := map[], map[], [Turn({}, {})];
    var banned: set<int> := {};
    var settled := false;
    LeftAtFirst(job);
    var i := 0;
    while i < 2 * (job.size / 4) + 4
      invariant 0 <= i == |turns| - 1 && !settled && Left(job, banned, seeded) + i <= 2 * (job.size / 4)
      invariant Turning(job, turns) && turns[i] == Turn(banned, seeded)
      invariant forall all :: Sturdy(job, all) ==> banned == {} && OnTheWay(job, all, i, seeded)
    {
      ghost var before := seeded;
      var drop, more;
      proofs, out, known, drop, more, agains, ways := Round(job, banned, seeded);
      SturdyRound(job, banned, before, i, proofs, out, drop, more);
      if drop != {} {
        FewerJumps(job, banned, drop, seeded);
        banned := banned + drop;
        OneMoreTurn(job, turns, Turn(banned, seeded), proofs, drop, more);
        turns := turns + [Turn(banned, seeded)];
        i := i + 1;
        continue;
      }
      if more <= seeded {
        settled := true;
        break;
      }
      FewerSeeds(job, banned, seeded, more);
      seeded := seeded + more;
      OneMoreTurn(job, turns, Turn(banned, seeded), proofs, drop, more);
      turns := turns + [Turn(banned, seeded)];
      i := i + 1;
    }
    if !settled {
      proofs, seeded := map[], Offsets(job.size);
    }
  }

  // With sturdy proofs: nothing found yet, or the strangers found.
  ghost predicate OnTheWay(job: Job, all: Proofs, i: int, seeded: set<int>) {
    (i == 0 && seeded == {}) || (i == 1 && StrangersAre(job, all, seeded))
  }

  lemma SturdyRound(job: Job, banned: set<int>, seeded: set<int>, i: int, proofs: Proofs, out: map<int, seq<int>>, drop: set<int>,
                    added: set<int>)
    requires forall all :: Sturdy(job, all) ==> banned == {} && OnTheWay(job, all, i, seeded)
    requires EdgesOf(job, proofs, false, job.indirect, out)
    requires forall n :: n in added <==> Missing(job, proofs, out, job.base + seeded, n)
    requires banned == {} ==> forall all :: Consistent(job, all, job.base + seeded) ==> Like(proofs, all) && drop == {}
    ensures forall all :: Sturdy(job, all) ==>
      Like(proofs, all) && drop == {} && (added <= seeded || (i == 0 && StrangersAre(job, all, seeded + added)))
  {
    hide Like, EdgesOf, Missing, StrangersAre;
    forall all | Sturdy(job, all)
      ensures Like(proofs, all) && drop == {} && (added <= seeded || (i == 0 && StrangersAre(job, all, seeded + added)))
    {
      if i == 0 {
        assert job.base + seeded == job.base && seeded + added == added;
        AllInside(job, all, job.base);
        FirstStrangers(job, all, proofs, out, added);
      } else {
        AllInside(job, all, job.base);
        NothingNew(job, all, proofs, seeded, out, added);
      }
    }
  }

  lemma AllInside(job: Job, all: Proofs, entries: set<int>)
    requires Consistent(job, all, entries)
    ensures forall j :: j in job.indirect ==> j in all
  {
  }

  lemma FirstStrangers(job: Job, all: Proofs, proofs: Proofs, out: map<int, seq<int>>, added: set<int>)
    requires Like(proofs, all) && (forall j :: j in job.indirect ==> j in all) && EdgesOf(job, proofs, false, job.indirect, out)
    requires forall n :: n in added <==> Missing(job, proofs, out, job.base, n)
    ensures StrangersAre(job, all, added)
  {
    hide Like, EdgesOf, Missing;
    LikeData(job, proofs, all);
    LikeEdges(job, proofs, all, false, out);
    forall n
      ensures n in added <==> Missing(job, all, out, job.base, n)
    {
      MissingSame(job, proofs, all, out, job.base, n);
    }
  }

  lemma FewerJumps(job: Job, banned: set<int>, drop: set<int>, seeded: set<int>)
    requires drop != {} && forall j :: j in drop ==> j in job.indirect && j !in banned
    ensures Left(job, banned + drop, seeded) < Left(job, banned, seeded)
  {
    var j := Member(drop);
    forall k | k in drop
      ensures k in Jumps(job)
    {
    }
    Within(drop, Jumps(job));
    LessLeft(Jumps(job), banned, drop);
  }

  lemma FewerSeeds(job: Job, banned: set<int>, seeded: set<int>, more: set<int>)
    requires !(more <= seeded) && forall n :: n in more ==> Offset(job.size, n)
    ensures Left(job, banned, seeded + more) < Left(job, banned, seeded)
  {
    LessLeft(Offsets(job.size), seeded, more);
  }
}
