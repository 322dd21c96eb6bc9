// switch_targets: every way into a computed jump, run symbolically; its list of targets
// holds every destination an execution can take.
module SwitchProof {
  import opened Collections
  import opened BitMath
  import opened Relocations
  import opened SwitchModel
  import opened SwitchSound

  // code: the instructions as the run decodes them, each with the relocations that begin in its word.
  datatype Section = Section(size: nat, code: map<int, Insn>, preds: map<int, seq<int>>, entries: set<int>,
                             tables: Tables, relocs: set<Reloc>, words: map<int, int>)
  {
    function At(off: int): Insn { if off in code then code[off] else Havoc }
    function Preds(off: int): seq<int> { if off in preds then preds[off] else [] }
    function Word(off: int): int { if off in words then words[off] else 0 }

    // Relocations the decoding takes into account.
    predicate Expects(off: int, r: Reloc) {
      match At(off)
      case Havoc => true
      case Bc(_, _, _, _) => r == Reloc(off, Branch14)
      case AddisHa(_, _) => r == Reloc(off + 2, Half)
      case LoadToc(_, _, width, _, _, _) => r.offset == off + 2 && (width == 4 || r.part == HalfDs)
      case _ => false
    }

    // Some other relocation writes into the word.
    predicate Altered(off: int) {
      exists r :: r in relocs && r.Reaches(off, off + 4) && !Expects(off, r)
    }

    predicate Untouched(off: int) { forall r :: r in relocs ==> !r.Reaches(off, off + 4) }

    ghost predicate WellFormed() {
      && (forall off :: off in code ==> Encodable(code[off]))
      && (forall off :: off in words ==> 0 <= words[off] < P32)
    }
  }

  lemma AlteredExactly(sec: Section, off: int)
    requires forall r :: r in sec.relocs ==> r.Width() > 0
    ensures sec.Altered(off) <==> exists r, b :: r in sec.relocs && !sec.Expects(off, r) && off <= b < off + 4 && r.Writes(b)
  {
    forall r | r in sec.relocs
      ensures r.Reaches(off, off + 4) <==> exists b :: off <= b < off + 4 && r.Writes(b)
    {
      ReachesExactly(r, off, off + 4);
    }
  }

  datatype Case = Case(at: int, top: int, refs: set<Ref>)

  // ---- one path ----

  // The symbolic state after the first n steps of the path.
  function SymRun(sec: Section, path: seq<int>, n: nat): Option<Sym>
    requires n < |path|
  {
    if n == 0 then Some(START)
    else
      match SymRun(sec, path, n - 1)
      case None => None
      case Some(s) => SymStep(sec.At(path[n - 1]), path[n - 1], path[n], sec.tables, s)
  }

  function CaseOf(sec: Section, path: seq<int>): Option<Case>
    requires path != []
  {
    match SymRun(sec, path, |path| - 1)
    case None => None
    case Some(s) =>
      if s.ctr.Some? && s.ctr.value.Target? then Some(Case(s.ctr.value.at, s.ctr.value.top, s.ctr.value.refs)) else None
  }

  method RunSwitchPath(sec: Section, path: seq<int>) returns (c: Option<Case>)
    requires path != []
    ensures c == CaseOf(sec, path)
  {
    var s := START;
    for i := 0 to |path| - 1
      invariant SymRun(sec, path, i) == Some(s)
    {
      var next := SymStep(sec.At(path[i]), path[i], path[i + 1], sec.tables, s);
      if next == None {
        NoneStays(sec, path, i + 1, |path| - 1);
        return None;
      }
      s := next.value;
    }
    if s.ctr.Some? && s.ctr.value.Target? {
      return Some(Case(s.ctr.value.at, s.ctr.value.top, s.ctr.value.refs));
    }
    return None;
  }

  lemma {:induction false} NoneStays(sec: Section, path: seq<int>, k: nat, n: nat)
    requires k <= n < |path| && SymRun(sec, path, k) == None
    ensures SymRun(sec, path, n) == None
  {
    if k < n { NoneStays(sec, path, k, n - 1); }
  }

  // Machine states along a path: run[i] before the instruction at path[i].
  ghost predicate Along(sec: Section, env: Env, path: seq<int>, run: seq<Machine>) {
    && |run| == |path| > 0
    && (forall i :: 0 <= i < |run| ==> Sane(env, run[i]))
    && (forall i {:trigger StepAlong(sec, env, path, run, i)} :: 0 <= i < |path| - 1 ==> StepAlong(sec, env, path, run, i))
  }

  ghost predicate StepAlong(sec: Section, env: Env, path: seq<int>, run: seq<Machine>, i: int)
    requires |run| == |path| && 0 <= i < |path| - 1
  {
    Does(sec.At(path[i]), sec.Altered(path[i]), path[i], path[i + 1], env, run[i], run[i + 1])
  }

  // The step the run takes at path[n] is misjudged at the state it has reached there.
  ghost predicate Unsure(sec: Section, path: seq<int>, n: nat)
    requires n < |path| - 1
  {
    && SymRun(sec, path, n).Some?
    && Misjudged(sec.At(path[n]), sec.Altered(path[n]), path[n], path[n + 1], sec.tables, SymRun(sec, path, n).value)
  }

  // No step of the path is misjudged.
  ghost predicate Judged(sec: Section, path: seq<int>) {
    forall n :: 0 <= n < |path| - 1 ==> !Unsure(sec, path, n)
  }

  // r2 holds the TOC pointer wherever the run relies on that.
  ghost predicate TocHeld(sec: Section, env: Env, path: seq<int>, run: seq<Machine>)
    requires |run| == |path|
  {
    forall i :: 0 <= i < |path| - 1 ==> TocThere(sec.At(path[i]), env, run[i])
  }

  // The run with careful steps, and the case it ends in.
  ghost function CarefulRun(sec: Section, path: seq<int>, n: nat): Option<Sym>
    requires n < |path|
  {
    if n == 0 then Some(START)
    else
      match CarefulRun(sec, path, n - 1)
      case None => None
      case Some(s) => CarefulStep(sec.At(path[n - 1]), sec.Altered(path[n - 1]), path[n - 1], path[n], sec.tables, s)
  }

  ghost function CarefulCase(sec: Section, path: seq<int>): Option<Case>
    requires path != []
  {
    match CarefulRun(sec, path, |path| - 1)
    case None => None
    case Some(s) => if HoldsTarget(s) then Some(Case(s.ctr.value.at, s.ctr.value.top, s.ctr.value.refs)) else None
  }

  // What the path is said to give does not rest on a misjudged step.
  ghost predicate Confirmed(sec: Section, path: seq<int>) {
    path != [] && CaseOf(sec, path).Some? && CarefulCase(sec, path).Some?
    && CarefulCase(sec, path).value.at == CaseOf(sec, path).value.at && CarefulCase(sec, path).value.top <= CaseOf(sec, path).value.top
  }

  lemma {:induction false} SameRun(sec: Section, path: seq<int>, n: nat)
    requires Judged(sec, path) && n < |path|
    ensures CarefulRun(sec, path, n) == SymRun(sec, path, n)
  {
    hide SymStep, Misjudged, Section.Altered;
    if n > 0 {
      SameRun(sec, path, n - 1);
      assert !Unsure(sec, path, n - 1);
    }
  }

  lemma JudgedIsConfirmed(sec: Section, path: seq<int>)
    requires path != [] && Judged(sec, path) && CaseOf(sec, path).Some?
    ensures Confirmed(sec, path)
  {
    hide SymRun, CarefulRun, Judged;
    SameRun(sec, path, |path| - 1);
  }

  lemma {:induction false} RunSound(sec: Section, env: Env, path: seq<int>, run: seq<Machine>, n: nat) returns (val: int -> int)
    requires sec.WellFormed() && Linked(env, sec.tables) && Along(sec, env, path, run) && TocHeld(sec, env, path, run)
    requires n < |path| && CarefulRun(sec, path, n).Some?
    ensures Sat(CarefulRun(sec, path, n).value, env, val, run[n])
  {
    hide Sat, Exec, Sane, Linked, Does, TocThere, CarefulStep, Section.Altered;
    if n == 0 {
      val := i => 0;
      StartSat(env, val, run[0]);
    } else {
      val := RunSound(sec, env, path, run, n - 1);
      assert StepAlong(sec, env, path, run, n - 1);
      var off := path[n - 1];
      val := CarefulSound(sec.At(off), sec.Altered(off), off, path[n], sec.tables, CarefulRun(sec, path, n - 1).value,
                          CarefulRun(sec, path, n).value, env, val, run[n - 1], run[n]);
    }
  }

  lemma StartSat(env: Env, val: int -> int, m: Machine)
    requires Sane(env, m)
    ensures Sat(START, env, val, m)
  {
  }

  lemma CtrOf(s: Sym, env: Env, val: int -> int, m: Machine, top: int)
    requires Sat(s, env, val, m) && HoldsTarget(s) && s.ctr.value.top <= top
    ensures IsTarget(env, s.ctr.value.at, top, m.ctr)
  {
  }

  // Whatever the machine does along the path, it reaches the jump with CTR at one of the
  // table's entries 0 .. top.
  lemma PathSound(sec: Section, env: Env, path: seq<int>, run: seq<Machine>)
    requires sec.WellFormed() && Linked(env, sec.tables) && Along(sec, env, path, run) && TocHeld(sec, env, path, run)
    requires Confirmed(sec, path)
    ensures var c := CaseOf(sec, path).value;
      IsTarget(env, c.at, c.top, run[|run| - 1].ctr)
  {
    hide SymRun, CarefulRun, Sat, Linked, Sane, Exec;
    var n := |path| - 1;
    var val := RunSound(sec, env, path, run, n);
    CtrOf(CarefulRun(sec, path, n).value, env, val, run[n], CaseOf(sec, path).value.top);
  }

  // ---- every way in ----

  datatype Flow = Flow(preds: map<int, seq<int>>, entries: set<int>) {
    predicate Edge(p: int, c: int) { c in preds && p in preds[c] }
  }

  // A walk from an entry point along edges.
  ghost predicate Walk(f: Flow, o: seq<int>) {
    && o != [] && o[0] in f.entries
    && forall k {:trigger EdgeAt(f, o, k)} :: 0 <= k < |o| - 1 ==> EdgeAt(f, o, k)
  }

  ghost predicate EdgeAt(f: Flow, o: seq<int>, k: int)
    requires 0 <= k < |o| - 1
  {
    f.Edge(o[k], o[k + 1])
  }

  // The flow still has only the edges a proof relies on, and enters nowhere in between.
  ghost predicate Agrees(f: Flow, relied: map<int, seq<int>>) {
    && (forall c :: c in relied ==> c !in f.entries)
    && (forall c, p :: c in relied && f.Edge(p, c) ==> p in relied[c])
  }

  ghost predicate Suffix(q: seq<int>, o: seq<int>) {
    |q| <= |o| && o[|o| - |q|..] == q
  }

  // Straight-line code: each instruction is entered only from the one before it.
  ghost predicate StraightLine(relied: map<int, seq<int>>, q: seq<int>) {
    && q != []
    && forall i :: 1 <= i < |q| ==> q[i - 1] == q[i] - 4 && q[i] in relied && relied[q[i]] == [q[i] - 4]
  }

  lemma {:induction false} WalksThrough(f: Flow, relied: map<int, seq<int>>, q: seq<int>, o: seq<int>, m: nat)
    requires Walk(f, o) && Agrees(f, relied) && StraightLine(relied, q)
    requires 0 < m <= |o| && o[m - 1] == q[|q| - 1]
    ensures |q| <= m && o[m - |q|..m] == q
  {
    if |q| > 1 {
      var c := q[|q| - 1];
      assert c in relied && relied[c] == [c - 4];
      assert m > 1;
      assert EdgeAt(f, o, m - 2);
      assert f.Edge(o[m - 2], c);
      var q' := q[..|q| - 1];
      WalksThrough(f, relied, q', o, m - 1);
      assert q == q' + [c];
      assert o[m - |q|..m] == o[m - |q|..m - 1] + [c];
    }
  }

  ghost predicate Covers(relied: map<int, seq<int>>, j: int, paths: seq<seq<int>>) {
    forall f, o :: Walk(f, o) && Agrees(f, relied) && o[|o| - 1] == j
      ==> exists i :: 0 <= i < |paths| && Suffix(paths[i], o)
  }

  lemma OnePathCovers(relied: map<int, seq<int>>, j: int, chain: seq<int>)
    requires StraightLine(relied, chain) && chain[|chain| - 1] == j
    ensures Covers(relied, j, [chain])
  {
    forall f, o | Walk(f, o) && Agrees(f, relied) && o[|o| - 1] == j
      ensures Suffix([chain][0], o)
    {
      WalksThrough(f, relied, chain, o, |o|);
      assert o[|o| - |chain|..|o|] == o[|o| - |chain|..];
    }
  }

  lemma ManyPathsCover(relied: map<int, seq<int>>, j: int, chain: seq<int>, ps: seq<int>, segs: seq<seq<int>>, paths: seq<seq<int>>)
    requires StraightLine(relied, chain) && chain[|chain| - 1] == j
    requires chain[0] in relied && (forall p :: p in relied[chain[0]] ==> p in ps)
    requires |segs| == |ps| == |paths|
    requires forall i :: 0 <= i < |ps| ==> StraightLine(relied, segs[i]) && segs[i][|segs[i]| - 1] == ps[i] && paths[i] == segs[i] + chain
    ensures Covers(relied, j, paths)
  {
    forall f, o | Walk(f, o) && Agrees(f, relied) && o[|o| - 1] == j
      ensures exists i :: 0 <= i < |paths| && Suffix(paths[i], o)
    {
      WalksThrough(f, relied, chain, o, |o|);
      var m := |o| - |chain|;
      assert o[m] == chain[0];
      assert m > 0;
      assert EdgeAt(f, o, m - 1);
      var i :| 0 <= i < |ps| && ps[i] == o[m - 1];
      WalksThrough(f, relied, segs[i], o, m);
      assert o[m - |segs[i]|..] == o[m - |segs[i]|..m] + o[m..];
      assert Suffix(paths[i], o);
    }
  }

  // ---- the targets ----

  datatype Proof = Proof(relied: map<int, seq<int>>, targets: set<int>, at: int, count: int, refs: set<Ref>)

  function TargetOf(sec: Section, at: int, i: int): int { at + SignExtend32(sec.Word(at + 4 * i)) }

  // The table lies in the section, aligned, no relocation begins in it, and there is an
  // instruction behind every word.
  ghost predicate TableOk(sec: Section, p: Proof) {
    && 0 <= p.at && p.at % 4 == 0 && p.at + 4 * p.count <= sec.size
    && (forall r :: r in sec.relocs ==> !(p.at <= r.offset < p.at + 4 * p.count))
    && (forall i :: 0 <= i < p.count ==> 0 <= TargetOf(sec, p.at, i) < sec.size && TargetOf(sec, p.at, i) in p.targets)
  }

  // What a proof rests on: paths that cover every way in, all ending in the same table.
  ghost predicate Justified(sec: Section, j: int, p: Proof, paths: seq<seq<int>>) {
    && Covers(p.relied, j, paths)
    && (forall i :: 0 <= i < |paths| ==>
          && paths[i] != [] && CaseOf(sec, paths[i]).Some?
          && CaseOf(sec, paths[i]).value.at == p.at && CaseOf(sec, paths[i]).value.top < p.count)
    && TableOk(sec, p)
    && (forall d :: d in p.targets ==> d % 4 == 0 && exists i :: 0 <= i < p.count && d == TargetOf(sec, p.at, i))
  }

  // Memory holds the section's words where nothing relocates them.
  ghost predicate Loaded(sec: Section, env: Env) {
    && 0 <= env.base && env.base + sec.size <= P64
    && Linked(env, sec.tables)
    && (forall a :: 0 <= env.word(a) < P32)
    && forall off {:trigger sec.Untouched(off)} :: 0 <= off < sec.size && off % 4 == 0 && sec.Untouched(off)
         ==> env.word(env.base + off) == sec.Word(off)
  }

  // Nothing that begins before the table reaches into it: the one thing the search does not ask.
  predicate TableKept(sec: Section, at: int) {
    forall r :: r in sec.relocs && r.offset < at ==> r.offset + r.Width() <= at
  }

  lemma CaseIsTarget(sec: Section, env: Env, p: Proof, i: int)
    requires Loaded(sec, env) && 0 <= i < p.count && TableOk(sec, p) && TableKept(sec, p.at)
    ensures CaseAddress(env, p.at, i) == env.base + TargetOf(sec, p.at, i)
  {
    hide Wrap, SignExtend32;
    var off := p.at + 4 * i;
    assert sec.Untouched(off);
    WrapNone(env.base + p.at + 4 * i);
    assert env.word(env.base + off) == sec.Word(off);
    WrapNone(env.base + TargetOf(sec, p.at, i));
  }

  // The cases are the listed ones in every loaded image if and only if the table is kept.
  lemma CasesHoldExactly(sec: Section, p: Proof)
    requires sec.WellFormed() && sec.size <= P64 && p.count > 0 && TableOk(sec, p)
    ensures (forall env, i :: Loaded(sec, env) && 0 <= i < p.count ==> CaseAddress(env, p.at, i) == env.base + TargetOf(sec, p.at, i))
       <==> TableKept(sec, p.at)
  {
    hide Loaded, CaseAddress, TargetOf;
    if TableKept(sec, p.at) {
      forall env, i | Loaded(sec, env) && 0 <= i < p.count
        ensures CaseAddress(env, p.at, i) == env.base + TargetOf(sec, p.at, i)
      {
        CaseIsTarget(sec, env, p, i);
      }
    } else {
      var env := Rewritten(sec, p);
    }
  }

  // An image in which the relocation has put another word at the head of the table.
  lemma Rewritten(sec: Section, p: Proof) returns (env: Env)
    requires sec.WellFormed() && sec.size <= P64 && p.count > 0 && TableOk(sec, p) && !TableKept(sec, p.at)
    ensures Loaded(sec, env) && CaseAddress(env, p.at, 0) != env.base + TargetOf(sec, p.at, 0)
  {
    var w := if sec.Word(p.at) == 0 then 1 else 0;
    env := Env(0, a => if a == p.at then w else sec.Word(a), 0,
               (key: Key, width: int) => if (key, width) in sec.tables then Wrap(sec.tables[(key, width)].0) else 0,
               (key: Key) => 0, (key: Key) => false);
    assert !sec.Untouched(p.at);
    WrapNone(p.at);
    WrapNone(p.at + w);
  }

  // The list is complete: on any execution that comes to the jump, by whatever edges the
  // flow has had since, CTR holds the address of a listed target.
  lemma TargetsComplete(sec: Section, env: Env, j: int, p: Proof, paths: seq<seq<int>>,
                        f: Flow, o: seq<int>, run: seq<Machine>)
    requires sec.WellFormed() && Loaded(sec, env) && Justified(sec, j, p, paths)
    requires TableKept(sec, p.at) && forall i :: 0 <= i < |paths| ==> Confirmed(sec, paths[i])
    requires Walk(f, o) && Agrees(f, p.relied) && o[|o| - 1] == j
    requires Along(sec, env, o, run) && TocHeld(sec, env, o, run)
    ensures exists d :: d in p.targets && run[|run| - 1].ctr == env.base + d
  {
    hide Wrap, SignExtend32, Exec, Sane, Linked, CaseOf, CaseAddress, CarefulCase, TocHeld, TableKept;
    var i :| 0 <= i < |paths| && Suffix(paths[i], o);
    var path := paths[i];
    var n := |o| - |path|;
    var tail := run[n..];
    SuffixRuns(sec, env, o, run, path);
    LoadedLinks(sec, env);
    PathSound(sec, env, path, tail);
    var c := CaseOf(sec, path).value;
    var k :| 0 <= k <= c.top && tail[|tail| - 1].ctr == CaseAddress(env, c.at, k);
    CaseIsTarget(sec, env, p, k);
  }

  lemma LoadedLinks(sec: Section, env: Env)
    requires Loaded(sec, env)
    ensures Linked(env, sec.tables)
  {
  }

  lemma SuffixAt(o: seq<int>, path: seq<int>, i: int)
    requires Suffix(path, o) && 0 <= i < |path|
    ensures path[i] == o[|o| - |path| + i]
  {
    assert path[i] == o[|o| - |path|..][i];
  }

  lemma SuffixRuns(sec: Section, env: Env, o: seq<int>, run: seq<Machine>, path: seq<int>)
    requires Along(sec, env, o, run) && TocHeld(sec, env, o, run) && Suffix(path, o) && path != []
    ensures Along(sec, env, path, run[|o| - |path|..]) && TocHeld(sec, env, path, run[|o| - |path|..])
  {
    hide Does, TocThere, Sane, Section.At, Section.Altered, Suffix;
    SuffixLength(o, path);
    var n := |o| - |path|;
    var tail := run[n..];
    forall i | 0 <= i < |path| - 1
      ensures StepAlong(sec, env, path, tail, i) && TocThere(sec.At(path[i]), env, tail[i])
    {
      SuffixAt(o, path, i);
      SuffixAt(o, path, i + 1);
      assert StepAlong(sec, env, o, run, n + i);
      assert TocThere(sec.At(o[n + i]), env, run[n + i]);
    }
  }

  lemma SuffixLength(o: seq<int>, path: seq<int>)
    requires Suffix(path, o)
    ensures |path| <= |o|
  {
  }

  // ---- finding the proof ----

  // The longest run of at most 64 instructions up to end, each entered only from the one before.
  ghost predicate StraightUp(sec: Section, q: seq<int>, end: int) {
    && q != [] && q[|q| - 1] == end && |q| <= 64
    && (forall i :: 1 <= i < |q| ==> q[i - 1] == q[i] - 4 && q[i] !in sec.entries && sec.Preds(q[i]) == [q[i] - 4])
    && (|q| == 64 || q[0] in sec.entries || sec.Preds(q[0]) != [q[0] - 4])
  }

  // A way into the jump: the run up to it, or that with the run up to one of its predecessors.
  ghost predicate Way(sec: Section, j: int, path: seq<int>) {
    exists chain :: StraightUp(sec, chain, j) && WayOver(sec, chain, path)
  }

  ghost predicate WayOver(sec: Section, chain: seq<int>, path: seq<int>)
    requires chain != []
  {
    if chain[0] in sec.entries || sec.Preds(chain[0]) == [] then path == chain
    else exists p, seg :: p in sec.Preds(chain[0]) && StraightUp(sec, seg, p) && path == seg + chain
  }

  // Too many predecessors of the run, or one inside it.
  ghost predicate GivesUp(sec: Section, j: int) {
    exists chain :: StraightUp(sec, chain, j) && Crowded(sec, chain)
  }

  predicate Crowded(sec: Section, chain: seq<int>)
    requires chain != []
  {
    && chain[0] !in sec.entries
    && (|sec.Preds(chain[0])| > 8 || exists i :: 0 <= i < |sec.Preds(chain[0])| && sec.Preds(chain[0])[i] in chain)
  }

  method StraightTo(sec: Section, end: int) returns (q: seq<int>)
    ensures StraightUp(sec, q, end)
  {
    q := [end];
    var cur := end;
    while cur !in sec.entries && sec.Preds(cur) == [cur - 4] && |q| < 64
      invariant q != [] && q[|q| - 1] == end && |q| <= 64 && cur == q[0]
      invariant forall i :: 1 <= i < |q| ==> q[i - 1] == q[i] - 4 && q[i] !in sec.entries && sec.Preds(q[i]) == [q[i] - 4]
      decreases 64 - |q|
    {
      cur := cur - 4;
      q := [cur] + q;
    }
  }

  // The exact predecessors the section has now.
  ghost predicate TakenFrom(sec: Section, relied: map<int, seq<int>>) {
    forall c :: c in relied ==> relied[c] == sec.Preds(c) && c !in sec.entries
  }

  function Links(q: seq<int>): map<int, seq<int>>
    requires q != []
  {
    map c | c in q[1..] :: [c - 4]
  }

  lemma LinksTaken(sec: Section, relied: map<int, seq<int>>, q: seq<int>)
    requires TakenFrom(sec, relied) && q != []
    requires forall i :: 1 <= i < |q| ==> q[i - 1] == q[i] - 4 && q[i] !in sec.entries && sec.Preds(q[i]) == [q[i] - 4]
    ensures TakenFrom(sec, relied + Links(q)) && StraightLine(relied + Links(q), q)
  {
    forall c | c in Links(q)
      ensures Links(q)[c] == sec.Preds(c) && c !in sec.entries
    {
      var i :| 0 <= i < |q[1..]| && q[1..][i] == c;
      assert q[i + 1] == c;
    }
    forall i | 1 <= i < |q|
      ensures q[i] in Links(q)
    {
      assert q[1..][i - 1] == q[i];
    }
  }

  lemma MoreRelied(sec: Section, relied: map<int, seq<int>>, more: map<int, seq<int>>, q: seq<int>)
    requires TakenFrom(sec, relied) && TakenFrom(sec, more) && StraightLine(relied, q)
    requires forall c :: c in relied ==> c in more
    ensures StraightLine(more, q)
  {
  }

  lemma NothingTaken(sec: Section)
    ensures TakenFrom(sec, map[])
  {
  }

  lemma RelyOnHead(sec: Section, relied: map<int, seq<int>>, head: int, q: seq<int>)
    requires TakenFrom(sec, relied) && StraightLine(relied, q) && head !in sec.entries
    ensures TakenFrom(sec, relied[head := sec.Preds(head)]) && StraightLine(relied[head := sec.Preds(head)], q)
  {
    MoreRelied(sec, relied, relied[head := sec.Preds(head)], q);
  }

  lemma RelyOnLinks(sec: Section, relied: map<int, seq<int>>, q: seq<int>)
    requires q != [] && TakenFrom(sec, relied) && TakenFrom(sec, relied + Links(q))
    ensures forall o :: StraightLine(relied, o) ==> StraightLine(relied + Links(q), o)
    ensures forall c :: c in relied ==> c in relied + Links(q)
  {
    forall o | StraightLine(relied, o)
      ensures StraightLine(relied + Links(q), o)
    {
      MoreRelied(sec, relied, relied + Links(q), o);
    }
  }

  lemma HeadTaken(sec: Section, relied: map<int, seq<int>>, head: int)
    requires TakenFrom(sec, relied) && head in relied
    ensures relied[head] == sec.Preds(head)
  {
  }

  // c lies on one of the paths, behind its start.
  ghost predicate OnSome(paths: seq<seq<int>>, c: int) { exists i :: 0 <= i < |paths| && paths[i] != [] && c in paths[i][1..] }

  lemma LinksInside(q: seq<int>)
    requires q != []
    ensures forall c :: c in Links(q) ==> c in q[1..]
  {
  }

  lemma OneWay(sec: Section, j: int, chain: seq<int>, relied: map<int, seq<int>>)
    requires StraightUp(sec, chain, j) && (chain[0] in sec.entries || sec.Preds(chain[0]) == [])
    requires forall c :: c in relied ==> c in chain[1..]
    ensures Way(sec, j, chain) && (forall c :: c in relied ==> OnSome([chain], c))
    ensures forall path :: Way(sec, j, path) ==> path == chain
  {
    assert WayOver(sec, chain, chain);
    forall c | c in relied
      ensures OnSome([chain], c)
    {
      assert c in [chain][0][1..];
    }
    forall path | Way(sec, j, path)
      ensures path == chain
    {
      var other :| StraightUp(sec, other, j) && WayOver(sec, other, path);
      OneStraight(sec, chain, other, j);
    }
  }

  // The longest run up to an instruction is one run.
  lemma {:induction false} SameBack(sec: Section, p: seq<int>, q: seq<int>, end: int, k: nat)
    requires StraightUp(sec, p, end) && StraightUp(sec, q, end) && k < |p| && k < |q|
    ensures p[|p| - 1 - k] == q[|q| - 1 - k]
  {
    if k > 0 { SameBack(sec, p, q, end, k - 1); }
  }

  lemma NoShorter(sec: Section, p: seq<int>, q: seq<int>, end: int)
    requires StraightUp(sec, p, end) && StraightUp(sec, q, end)
    ensures |q| <= |p|
  {
    if |p| < |q| {
      SameBack(sec, p, q, end, |p| - 1);
    }
  }

  lemma OneStraight(sec: Section, p: seq<int>, q: seq<int>, end: int)
    requires StraightUp(sec, p, end) && StraightUp(sec, q, end)
    ensures p == q
  {
    NoShorter(sec, p, q, end);
    NoShorter(sec, q, p, end);
    forall i | 0 <= i < |p|
      ensures p[i] == q[i]
    {
      SameBack(sec, p, q, end, |p| - 1 - i);
    }
  }

  lemma NotGivingUp(sec: Section, j: int, chain: seq<int>)
    requires StraightUp(sec, chain, j) && !Crowded(sec, chain)
    ensures !GivesUp(sec, j)
  {
    forall other | StraightUp(sec, other, j)
      ensures other == chain
    {
      OneStraight(sec, chain, other, j);
    }
  }

  lemma SomeWay(sec: Section, j: int, chain: seq<int>, p: int, seg: seq<int>)
    requires StraightUp(sec, chain, j) && chain[0] !in sec.entries && p in sec.Preds(chain[0]) && StraightUp(sec, seg, p)
    ensures Way(sec, j, seg + chain)
  {
    assert WayOver(sec, chain, seg + chain);
  }

  // Every way is over the predecessor it comes from.
  lemma OtherWay(sec: Section, j: int, chain: seq<int>, path: seq<int>, segs: seq<seq<int>>)
    requires StraightUp(sec, chain, j) && chain[0] !in sec.entries && Way(sec, j, path) && sec.Preds(chain[0]) != []
    requires |segs| == |sec.Preds(chain[0])| && forall i :: 0 <= i < |segs| ==> StraightUp(sec, segs[i], sec.Preds(chain[0])[i])
    ensures exists i :: 0 <= i < |segs| && path == segs[i] + chain
  {
    var other :| StraightUp(sec, other, j) && WayOver(sec, other, path);
    OneStraight(sec, chain, other, j);
    var p, seg :| p in sec.Preds(chain[0]) && StraightUp(sec, seg, p) && path == seg + chain;
    var i :| 0 <= i < |segs| && sec.Preds(chain[0])[i] == p;
    OneStraight(sec, segs[i], seg, p);
  }

  lemma MoreOnSome(paths: seq<seq<int>>, path: seq<int>)
    requires path != []
    ensures forall c :: OnSome(paths, c) || c in path[1..] ==> OnSome(paths + [path], c)
  {
    forall c | OnSome(paths, c) || c in path[1..]
      ensures OnSome(paths + [path], c)
    {
      if c in path[1..] {
        assert c in (paths + [path])[|paths|][1..];
      } else {
        var i :| 0 <= i < |paths| && paths[i] != [] && c in paths[i][1..];
        assert c in (paths + [path])[i][1..];
      }
    }
  }

  // The ways into the jump at j.
  method WaysIn(sec: Section, j: int) returns (ok: bool, relied: map<int, seq<int>>, paths: seq<seq<int>>)
    ensures ok ==> paths != [] && Covers(relied, j, paths) && TakenFrom(sec, relied)
    ensures ok ==> forall i :: 0 <= i < |paths| ==> paths[i] != [] && paths[i][|paths[i]| - 1] == j && Way(sec, j, paths[i])
    ensures ok ==> (forall c :: c in relied ==> OnSome(paths, c)) && forall path :: Way(sec, j, path) ==> path in paths
    ensures ok <==> !GivesUp(sec, j)
  {
    hide TakenFrom, StraightLine, Covers, Links, Way, OnSome;
    var chain := StraightTo(sec, j);
    var head := chain[0];
    relied := map[];
    NothingTaken(sec);
    LinksTaken(sec, relied, chain);
    relied := relied + Links(chain);
    var hp := sec.Preds(head);
    LinksInside(chain);
    if head in sec.entries || hp == [] {
      OnePathCovers(relied, j, chain);
      OneWay(sec, j, chain, relied);
      NotGivingUp(sec, j, chain);
      return true, relied, [chain];
    }
    paths := [];
    if |hp| > 8 || exists i :: 0 <= i < |hp| && hp[i] in chain {
      return false, relied, paths;
    }
    NotGivingUp(sec, j, chain);
    ghost var segs: seq<seq<int>> := [];
    NothingGathered(sec, j, chain, relied);
    relied := relied[head := hp];
    for n := 0 to |hp|
      invariant Gathered(sec, j, chain, relied, segs, paths, n)
    {
      var seg := StraightTo(sec, hp[n]);
      GatherOne(sec, j, chain, relied, segs, paths, n, seg);
      relied := relied + Links(seg);
      segs := segs + [seg];
      paths := paths + [seg + chain];
    }
    AllGathered(sec, j, chain, relied, segs, paths);
    ok := true;
  }

  // The paths over the first n predecessors of the run.
  ghost predicate Gathered(sec: Section, j: int, chain: seq<int>, relied: map<int, seq<int>>, segs: seq<seq<int>>,
                           paths: seq<seq<int>>, n: nat)
  {
    && StraightUp(sec, chain, j) && TakenFrom(sec, relied) && StraightLine(relied, chain) && chain[0] in relied
    && |segs| == |paths| == n <= |sec.Preds(chain[0])|
    && (forall i :: 0 <= i < n ==> Way(sec, j, paths[i]) && StraightLine(relied, segs[i]) && segs[i] != [])
    && (forall i :: 0 <= i < n ==> segs[i][|segs[i]| - 1] == sec.Preds(chain[0])[i] && paths[i] == segs[i] + chain)
    && (forall c :: c in relied ==> c in chain || OnSome(paths, c))
    && (forall i :: 0 <= i < n ==> StraightUp(sec, segs[i], sec.Preds(chain[0])[i]))
  }

  lemma NothingGathered(sec: Section, j: int, chain: seq<int>, relied: map<int, seq<int>>)
    requires StraightUp(sec, chain, j) && TakenFrom(sec, relied) && StraightLine(relied, chain)
    requires chain[0] !in sec.entries && forall c :: c in relied ==> c in chain[1..]
    ensures Gathered(sec, j, chain, relied[chain[0] := sec.Preds(chain[0])], [], [], 0)
  {
    hide TakenFrom, StraightLine;
    RelyOnHead(sec, relied, chain[0], chain);
  }

  lemma GatherOne(sec: Section, j: int, chain: seq<int>, relied: map<int, seq<int>>, segs: seq<seq<int>>, paths: seq<seq<int>>,
                  n: nat, seg: seq<int>)
    requires chain != [] && Gathered(sec, j, chain, relied, segs, paths, n) && n < |sec.Preds(chain[0])| && chain[0] !in sec.entries
    requires StraightUp(sec, seg, sec.Preds(chain[0])[n])
    ensures Gathered(sec, j, chain, relied + Links(seg), segs + [seg], paths + [seg + chain], n + 1)
  {
    hide TakenFrom, StraightLine, Links, OnSome, Way;
    LinksTaken(sec, relied, seg);
    RelyOnLinks(sec, relied, seg);
    LinksInside(seg);
    LinksOnPath(seg, chain);
    SomeWay(sec, j, chain, sec.Preds(chain[0])[n], seg);
    MoreOnSome(paths, seg + chain);
  }

  lemma AllGathered(sec: Section, j: int, chain: seq<int>, relied: map<int, seq<int>>, segs: seq<seq<int>>, paths: seq<seq<int>>)
    requires chain != [] && Gathered(sec, j, chain, relied, segs, paths, |sec.Preds(chain[0])|) && sec.Preds(chain[0]) != []
    requires chain[0] !in sec.entries
    ensures forall path :: Way(sec, j, path) ==> path in paths
    ensures Covers(relied, j, paths) && forall c :: c in relied ==> OnSome(paths, c)
    ensures forall i :: 0 <= i < |paths| ==> paths[i] != [] && paths[i][|paths[i]| - 1] == j
  {
    hide StraightLine, Covers, Way;
    HeadTaken(sec, relied, chain[0]);
    ManyPathsCover(relied, j, chain, sec.Preds(chain[0]), segs, paths);
    forall c | c in relied
      ensures OnSome(paths, c)
    {
      if c in chain { InTail(segs[0], chain, c); assert c in paths[0][1..]; }
    }
    forall path | Way(sec, j, path)
      ensures path in paths
    {
      OtherWay(sec, j, chain, path, segs);
    }
  }

  lemma LinksOnPath(seg: seq<int>, chain: seq<int>)
    requires seg != []
    ensures forall c :: c in seg[1..] ==> c in (seg + chain)[1..]
  {
    assert (seg + chain)[1..] == seg[1..] + chain;
  }

  lemma InTail(seg: seq<int>, chain: seq<int>, c: int)
    requires seg != [] && c in chain
    ensures c in (seg + chain)[1..]
  {
    assert (seg + chain)[1..] == seg[1..] + chain;
  }

  // Every path proves a bounded read of the table at `at`.
  ghost predicate AllReach(sec: Section, paths: seq<seq<int>>, at: int)
    requires forall i :: 0 <= i < |paths| ==> paths[i] != []
  {
    forall i :: 0 <= i < |paths| ==> CaseOf(sec, paths[i]).Some? && CaseOf(sec, paths[i]).value.at == at
  }

  // Some path comes with this bound; some path read its table address there.
  ghost predicate Attains(sec: Section, paths: seq<seq<int>>, top: int)
    requires forall i :: 0 <= i < |paths| ==> paths[i] != []
  {
    exists i :: 0 <= i < |paths| && CaseOf(sec, paths[i]).Some? && CaseOf(sec, paths[i]).value.top == top
  }

  ghost predicate Read(sec: Section, paths: seq<seq<int>>, r: Ref)
    requires forall i :: 0 <= i < |paths| ==> paths[i] != []
  {
    exists i :: 0 <= i < |paths| && CaseOf(sec, paths[i]).Some? && r in CaseOf(sec, paths[i]).value.refs
  }

  // Runs every path: all must end in one table, and the largest of their bounds counts.
  method RunPaths(sec: Section, paths: seq<seq<int>>) returns (c: Option<Case>)
    requires paths != [] && forall i :: 0 <= i < |paths| ==> paths[i] != []
    ensures c.Some? ==> forall i :: 0 <= i < |paths| ==>
      var got := CaseOf(sec, paths[i]);
      got.Some? && got.value.at == c.value.at && got.value.top <= c.value.top && got.value.refs <= c.value.refs
    ensures c.Some? ==> Attains(sec, paths, c.value.top) && forall r :: r in c.value.refs ==> Read(sec, paths, r)
    ensures c.None? ==> forall at :: !AllReach(sec, paths, at)
  {
    hide CaseOf;
    c := None;
    for n := 0 to |paths|
      invariant n == 0 <==> c.None?
      invariant n > 0 ==> CaseOf(sec, paths[0]).Some? && CaseOf(sec, paths[0]).value.at == c.value.at
      invariant forall i :: 0 <= i < n ==>
        var got := CaseOf(sec, paths[i]);
        got.Some? && got.value.at == c.value.at && got.value.top <= c.value.top && got.value.refs <= c.value.refs
      invariant n > 0 ==> Attains(sec, paths, c.value.top) && forall r :: r in c.value.refs ==> Read(sec, paths, r)
    {
      var got := RunSwitchPath(sec, paths[n]);
      if got == None || (c.Some? && got.value.at != c.value.at) {
        return None;
      }
      if c.None? {
        c := got;
      } else {
        c := Some(Case(got.value.at, if got.value.top >= c.value.top then got.value.top else c.value.top,
                       c.value.refs + got.value.refs));
      }
    }
  }

  predicate IsInsn(sec: Section, d: int) { 0 <= d < sec.size && d % 4 == 0 }

  // What is wrong with a table of so many words: where it lies, a relocation that begins in it,
  // or a word that leads to no instruction.
  ghost predicate BadTable(sec: Section, at: int, count: int) {
    || at % 4 != 0 || at < 0 || at + 4 * count > sec.size
    || (exists r :: r in sec.relocs && at <= r.offset < at + 4 * count)
    || exists i :: 0 <= i < count && !IsInsn(sec, TargetOf(sec, at, i))
  }

  // The ways agree on a table and the largest of their bounds is top.
  ghost predicate Agreed(sec: Section, paths: seq<seq<int>>, at: int, top: int) {
    && (forall i :: 0 <= i < |paths| ==> paths[i] != []) && AllReach(sec, paths, at) && Attains(sec, paths, top)
    && forall i :: 0 <= i < |paths| ==> CaseOf(sec, paths[i]).value.top <= top
  }

  // All the ways in, and nothing else.
  ghost predicate AllWays(sec: Section, j: int, relied: map<int, seq<int>>, paths: seq<seq<int>>) {
    && paths != [] && Covers(relied, j, paths) && TakenFrom(sec, relied) && (forall c :: c in relied ==> OnSome(paths, c))
    && (forall path :: Way(sec, j, path) ==> path in paths)
    && forall i :: 0 <= i < |paths| ==> paths[i] != [] && Way(sec, j, paths[i])
  }

  // Why there is no proof: the ways are too many, they do not agree, or their table is bad.
  ghost predicate NoProof(sec: Section, j: int, paths: seq<seq<int>>) {
    || GivesUp(sec, j)
    || ((exists relied :: AllWays(sec, j, relied, paths))
        && ((forall at, top :: !Agreed(sec, paths, at, top)) || exists at, top :: Agreed(sec, paths, at, top) && BadTable(sec, at, top + 1)))
  }

  // The instructions the table's words lead to, if every one of them leads to one.
  method CaseTargets(sec: Section, at: int, count: nat) returns (ok: bool, targets: set<int>)
    ensures ok ==> forall i :: 0 <= i < count ==> 0 <= TargetOf(sec, at, i) < sec.size && TargetOf(sec, at, i) in targets
    ensures ok ==> forall d :: d in targets ==> d % 4 == 0 && exists i :: 0 <= i < count && d == TargetOf(sec, at, i)
    ensures !ok ==> exists i :: 0 <= i < count && !IsInsn(sec, TargetOf(sec, at, i))
  {
    hide SignExtend32;
    targets := {};
    var n := 0;
    while n < count
      invariant 0 <= n <= count
      invariant forall i :: 0 <= i < n ==> 0 <= TargetOf(sec, at, i) < sec.size && TargetOf(sec, at, i) in targets
      invariant forall d :: d in targets ==> d % 4 == 0 && exists i :: 0 <= i < n && d == TargetOf(sec, at, i)
    {
      var d := at + SignExtend32(sec.Word(at + 4 * n));
      assert d == TargetOf(sec, at, n);
      if !(0 <= d < sec.size && d % 4 == 0) {
        return false, targets;
      }
      targets := targets + {d};
      n := n + 1;
    }
    ok := true;
  }

  // A proof over all the ways in, with as many words as the largest bound asks for.
  ghost predicate Found(sec: Section, j: int, p: Proof, paths: seq<seq<int>>) {
    && !GivesUp(sec, j) && Justified(sec, j, p, paths) && TakenFrom(sec, p.relied) && AllWays(sec, j, p.relied, paths)
    && Agreed(sec, paths, p.at, p.count - 1) && forall x :: x in p.refs <==> Read(sec, paths, x)
  }

  // The proof is over all the ways in, with as many words as the largest bound asks for; there is
  // none only where there is a reason.
  method SwitchTargets(sec: Section, j: int) returns (r: Option<Proof>, ghost paths: seq<seq<int>>)
    ensures if r.Some? then Found(sec, j, r.value, paths) else NoProof(sec, j, paths)
    ensures if r.Some? then Finds(sec, j, r.value) else FindsNone(sec, j)
  {
    hide Covers, TakenFrom, CaseOf, TargetOf, GivesUp, Way, OnSome, AllReach, Attains, Read;
    var ok, relied, ways := WaysIn(sec, j);
    paths := ways;
    if !ok {
      return None, ways;
    }
    assert AllWays(sec, j, relied, ways) && !GivesUp(sec, j);
    var c := RunPaths(sec, ways);
    if c == None {
      return None, ways;
    }
    var at, count := c.value.at, c.value.top + 1;
    var end := at + 4 * count;
    AgreedIs(sec, ways, c.value);
    if at % 4 != 0 || at < 0 || end > sec.size || exists r :: r in sec.relocs && at <= r.offset < end {
      assert BadTable(sec, at, c.value.top + 1);
      return None, ways;
    }
    var targets;
    ok, targets := CaseTargets(sec, at, if count < 0 then 0 else count);
    if !ok {
      assert BadTable(sec, at, c.value.top + 1);
      return None, ways;
    }
    r := Some(Proof(relied, targets, at, count, c.value.refs));
  }

  // What the search finds, and that it finds nothing, are one answer.
  ghost predicate Finds(sec: Section, j: int, p: Proof) { exists paths :: Found(sec, j, p, paths) }

  lemma FoundIs(sec: Section, j: int, p: Proof, paths: seq<seq<int>>)
    requires Found(sec, j, p, paths)
    ensures Justified(sec, j, p, paths) && TakenFrom(sec, p.relied) && Finds(sec, j, p)
  {
  }

  ghost predicate FindsNone(sec: Section, j: int) { exists paths :: NoProof(sec, j, paths) }

  lemma SamePaths(sec: Section, j: int, r1: map<int, seq<int>>, r2: map<int, seq<int>>, p: seq<seq<int>>, q: seq<seq<int>>)
    requires AllWays(sec, j, r1, p) && AllWays(sec, j, r2, q)
    ensures forall i :: 0 <= i < |p| ==> p[i] in q
    ensures forall i :: 0 <= i < |q| ==> q[i] in p
  {
    hide Way, Covers, TakenFrom, OnSome;
  }

  lemma SameAgreed(sec: Section, p: seq<seq<int>>, q: seq<seq<int>>, at1: int, top1: int, at2: int, top2: int)
    requires p != [] && q != [] && (forall i :: 0 <= i < |p| ==> p[i] in q) && (forall i :: 0 <= i < |q| ==> q[i] in p)
    requires Agreed(sec, p, at1, top1) && Agreed(sec, q, at2, top2)
    ensures at1 == at2 && top1 == top2
    ensures forall x :: Read(sec, p, x) <==> Read(sec, q, x)
  {
    hide CaseOf;
    assert p[0] in q && q[0] in p;
    forall x | Read(sec, p, x)
      ensures Read(sec, q, x)
    {
      var i :| 0 <= i < |p| && CaseOf(sec, p[i]).Some? && x in CaseOf(sec, p[i]).value.refs;
      assert p[i] in q;
    }
    forall x | Read(sec, q, x)
      ensures Read(sec, p, x)
    {
      var i :| 0 <= i < |q| && CaseOf(sec, q[i]).Some? && x in CaseOf(sec, q[i]).value.refs;
      assert q[i] in p;
    }
  }

  // Alike in all but how it is written down what they rely on.
  predicate Alike(p: Proof, q: Proof) { p.targets == q.targets && p.at == q.at && p.count == q.count && p.refs == q.refs }

  lemma FindsOne(sec: Section, j: int, p: Proof, q: Proof)
    requires Finds(sec, j, p) && Finds(sec, j, q)
    ensures Alike(p, q)
  {
    hide AllWays, Agreed, TakenFrom, TargetOf, Covers, CaseOf, GivesUp;
    var ps :| Found(sec, j, p, ps);
    var qs :| Found(sec, j, q, qs);
    SamePaths(sec, j, p.relied, q.relied, ps, qs);
    SomePath(sec, j, p.relied, ps);
    SomePath(sec, j, q.relied, qs);
    SameAgreed(sec, ps, qs, p.at, p.count - 1, q.at, q.count - 1);
    assert forall d :: d in p.targets <==> d in q.targets;
    Within(p.targets, q.targets);
    Within(q.targets, p.targets);
    Within(p.refs, q.refs);
    Within(q.refs, p.refs);
  }

  lemma SomePath(sec: Section, j: int, relied: map<int, seq<int>>, paths: seq<seq<int>>)
    requires AllWays(sec, j, relied, paths)
    ensures paths != []
  {
  }

  lemma AgreedMoves(sec: Section, p: seq<seq<int>>, q: seq<seq<int>>, at: int, top: int)
    requires (forall i :: 0 <= i < |p| ==> p[i] in q) && (forall i :: 0 <= i < |q| ==> q[i] in p)
    requires Agreed(sec, p, at, top)
    ensures Agreed(sec, q, at, top)
  {
    hide CaseOf;
    var i :| 0 <= i < |p| && CaseOf(sec, p[i]).Some? && CaseOf(sec, p[i]).value.top == top;
    assert p[i] in q;
  }

  lemma TableNotBad(sec: Section, j: int, p: Proof, paths: seq<seq<int>>)
    requires Justified(sec, j, p, paths)
    ensures !BadTable(sec, p.at, p.count)
  {
    hide Covers, CaseOf;
  }

  // Where there is a proof the search finds one.
  lemma FindsSome(sec: Section, j: int, p: Proof)
    requires Finds(sec, j, p)
    ensures !FindsNone(sec, j)
  {
    hide AllWays, Agreed, TakenFrom, TargetOf, Covers, CaseOf, GivesUp, BadTable, Justified;
    var ps :| Found(sec, j, p, ps);
    SomePath(sec, j, p.relied, ps);
    TableNotBad(sec, j, p, ps);
    forall qs | NoProof(sec, j, qs)
      ensures false
    {
      var relied :| AllWays(sec, j, relied, qs);
      SamePaths(sec, j, p.relied, relied, ps, qs);
      SomePath(sec, j, relied, qs);
      AgreedMoves(sec, ps, qs, p.at, p.count - 1);
      var at, top :| Agreed(sec, qs, at, top) && BadTable(sec, at, top + 1);
      SameAgreed(sec, ps, qs, p.at, p.count - 1, at, top);
    }
  }

  lemma AgreedIs(sec: Section, paths: seq<seq<int>>, c: Case)
    requires forall i :: 0 <= i < |paths| ==> paths[i] != [] && CaseOf(sec, paths[i]).Some?
    requires forall i :: 0 <= i < |paths| ==>
      var got := CaseOf(sec, paths[i]).value; got.at == c.at && got.top <= c.top && got.refs <= c.refs
    requires Attains(sec, paths, c.top)
    ensures Agreed(sec, paths, c.at, c.top) && forall x :: Read(sec, paths, x) ==> x in c.refs
  {
    hide CaseOf;
  }
}
