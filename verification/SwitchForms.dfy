// The dispatches a compiler writes are recognised: whatever the registers, the range check, the
// scaling and the way the table address is loaded, the symbolic run ends with the table and the
// bound that was checked for.
module SwitchForms {
  import opened Collections
  import opened BitMath
  import opened SwitchModel
  import P = SwitchProof

  // One instruction of a path, where it lies and where the path goes on.
  datatype At = At(insn: Insn, off: int, nxt: int)

  function Play(path: seq<At>, tables: Tables, s: Sym): Option<Sym> {
    if path == [] then Some(s)
    else
      match SymStep(path[0].insn, path[0].off, path[0].nxt, tables, s)
      case None => None
      case Some(next) => Play(path[1..], tables, next)
  }

  lemma {:induction false} PlayJoin(x: seq<At>, y: seq<At>, tables: Tables, s: Sym, r: Sym)
    requires Play(x, tables, s) == Some(r)
    ensures Play(x + y, tables, s) == Play(y, tables, r)
  {
    hide SymStep;
    if x == [] {
      assert x + y == y;
    } else {
      assert (x + y)[1..] == x[1..] + y && (x + y)[0] == x[0];
      PlayJoin(x[1..], y, tables, SymStep(x[0].insn, x[0].off, x[0].nxt, tables, s).value, r);
    }
  }

  lemma PlayOne(a: At, tables: Tables, s: Sym)
    ensures Play([a], tables, s) == SymStep(a.insn, a.off, a.nxt, tables, s)
  {
    hide SymStep;
  }

  lemma PlayTwo(a: At, b: At, tables: Tables, s: Sym, r: Sym)
    requires SymStep(a.insn, a.off, a.nxt, tables, s) == Some(r)
    ensures Play([a, b], tables, s) == SymStep(b.insn, b.off, b.nxt, tables, r)
  {
    hide SymStep;
    assert [a, b][1..] == [b];
    PlayOne(b, tables, r);
  }

  // ---- the forms ----

  // addis rH,r2 ; lwz/ld rB from rH, or one load from r2.
  datatype Load = Paired(rh: int) | Alone

  // cmplwi/cmpldi and bgt not taken, or ble taken; twi/tdi lgt.
  datatype Check = BgtPassed(crf: int, target: int) | BleTaken(crf: int, target: int) | Trapped

  datatype Scale = Sldi | Rldic(mb: nat) | Slwi(mb: nat)

  datatype Narrow = Whole | Clrlwi(mb: nat) | Clrldi(mb: nat)

  // rB holds the table, rX the index, rS 4 times the index, rE the table word, rT the case address;
  // flip says in which order lwax and add name their operands.
  datatype Dispatch = Dispatch(rb: int, rx: int, rs: int, re: int, rt: int, load: Load, narrow: Narrow, check: Check,
                               scale: Scale, wide: nat, k: int, key: Key, width: int, flip: bool)

  // The bits of the index that are left, that the check sees, and that are scaled.
  function Kept(n: Narrow): nat {
    match n
    case Whole => 64
    case Clrlwi(mb) => if mb <= 32 then 32 - mb else 0
    case Clrldi(mb) => if mb <= 64 then 64 - mb else 0
  }

  function Seen(d: Dispatch): nat { Min(Kept(d.narrow), d.wide) }

  function Used(d: Dispatch): nat {
    var n := match d.scale
      case Sldi => 62
      case Rldic(mb) => if mb <= 62 then 62 - mb else 0
      case Slwi(mb) => if mb <= 30 then 30 - mb else 0;
    Min(Kept(d.narrow), n)
  }

  // A dispatch as compilers write it.  The check sees at least the bits that are scaled.
  predicate Usual(d: Dispatch, tables: Tables) {
    && d.rb != d.rx && d.rb != d.rs && d.rb != d.re && d.rb != 0 && d.rs != 0 && d.re != 0
    && (d.wide == 32 || d.wide == 64) && d.k >= 0 && (d.load.Paired? ==> d.load.rh != 0 && d.load.rh != d.rx)
    && (d.narrow.Clrlwi? ==> d.narrow.mb < 32) && (d.narrow.Clrldi? ==> d.narrow.mb < 64)
    && (d.scale.Rldic? ==> d.scale.mb <= 61) && (d.scale.Slwi? ==> d.scale.mb <= 29)
    && (d.key, d.width) in tables && Used(d) <= Seen(d)
  }

  function LoadOf(d: Dispatch): seq<Insn> {
    match d.load
    case Paired(rh) => [AddisHa(rh, d.key), LoadToc(d.rb, rh, d.width, d.key, Lo, true)]
    case Alone => [LoadToc(d.rb, 2, d.width, d.key, Direct, true)]
  }

  function NarrowOf(d: Dispatch): seq<Insn> {
    match d.narrow
    case Whole => []
    case Clrlwi(mb) => [Rlwinm(d.rx, d.rx, 0, mb, 31)]
    case Clrldi(mb) => [Rld(0, d.rx, d.rx, 0, mb)]
  }

  function ScaleOf(d: Dispatch): Insn {
    match d.scale
    case Sldi => Rld(1, d.rs, d.rx, 2, 61)
    case Rldic(mb) => Rld(2, d.rs, d.rx, 2, mb)
    case Slwi(mb) => Rlwinm(d.rs, d.rx, 2, mb, 29)
  }

  function JumpOf(d: Dispatch): seq<Insn> {
    [if d.flip then Lwax(d.re, d.rs, d.rb) else Lwax(d.re, d.rb, d.rs),
     if d.flip then Add(d.rt, d.re, d.rb) else Add(d.rt, d.rb, d.re), Mtctr(d.rt)]
  }

  // Code that runs straight on.
  function Straight(code: seq<Insn>, off: int): seq<At> {
    if code == [] then [] else [At(code[0], off, off + 4)] + Straight(code[1..], off + 4)
  }

  function CheckOf(d: Dispatch, off: int): seq<At> {
    match d.check
    case BgtPassed(crf, target) =>
      [At(Cmpl(crf, d.wide, d.rx, d.k), off, off + 4), At(Bc(12, 4 * crf + 1, target, Some(target)), off + 4, off + 8)]
    case BleTaken(crf, target) =>
      [At(Cmpl(crf, d.wide, d.rx, d.k), off, off + 4), At(Bc(4, 4 * crf + 1, target, Some(target)), off + 4, target)]
    case Trapped => [At(Trap(d.wide, d.rx, d.k), off, off + 4)]
  }

  // No branch goes to the very next instruction.
  predicate Branches(d: Dispatch, off: int) { d.check.Trapped? || d.check.target != off + 8 }

  // ---- what each part leaves ----

  function TableOf(d: Dispatch, tables: Tables): Val
    requires (d.key, d.width) in tables
  {
    Table(tables[(d.key, d.width)].0, {tables[(d.key, d.width)].1})
  }

  // The table is loaded, and the index has the value id, if any is known.
  predicate Loaded(d: Dispatch, tables: Tables, s: Sym)
    requires (d.key, d.width) in tables
  {
    d.rb in s.regs && s.regs[d.rb] == TableOf(d, tables)
  }

  lemma LoadPlays(d: Dispatch, tables: Tables, off: int) returns (s: Sym)
    requires Usual(d, tables)
    ensures Play(Straight(LoadOf(d), off), tables, START) == Some(s)
    ensures Loaded(d, tables, s) && d.rx !in s.regs && s.bounds == [] && s.ids == 0
  {
    match d.load
    case Paired(rh) =>
      var r := SymStep(AddisHa(rh, d.key), off, off + 4, tables, START).value;
      s := SymStep(LoadToc(d.rb, rh, d.width, d.key, Lo, true), off + 4, off + 8, tables, r).value;
      StraightTwo(AddisHa(rh, d.key), LoadToc(d.rb, rh, d.width, d.key, Lo, true), off);
      PlayTwo(At(AddisHa(rh, d.key), off, off + 4), At(LoadToc(d.rb, rh, d.width, d.key, Lo, true), off + 4, off + 8), tables, START, r);
    case Alone =>
      s := SymStep(LoadToc(d.rb, 2, d.width, d.key, Direct, true), off, off + 4, tables, START).value;
      PlayOne(At(LoadToc(d.rb, 2, d.width, d.key, Direct, true), off, off + 4), tables, START);
  }

  // The index is value 1, or not looked at yet.
  predicate Fresh(d: Dispatch, s: Sym) {
    if d.narrow.Whole? then d.rx !in s.regs && s.ids == 0
    else d.rx in s.regs && s.regs[d.rx] == V(1, Kept(d.narrow)) && s.ids == 1
  }

  lemma NarrowPlays(d: Dispatch, tables: Tables, off: int, s: Sym) returns (t: Sym)
    requires Usual(d, tables) && Loaded(d, tables, s) && d.rx !in s.regs && s.bounds == [] && s.ids == 0
    ensures Play(Straight(NarrowOf(d), off), tables, s) == Some(t)
    ensures Loaded(d, tables, t) && Fresh(d, t) && t.bounds == []
  {
    match d.narrow
    case Whole => t := s;
    case Clrlwi(mb) =>
      t := SymStep(Rlwinm(d.rx, d.rx, 0, mb, 31), off, off + 4, tables, s).value;
      PlayOne(At(Rlwinm(d.rx, d.rx, 0, mb, 31), off, off + 4), tables, s);
    case Clrldi(mb) =>
      t := SymStep(Rld(0, d.rx, d.rx, 0, mb), off, off + 4, tables, s).value;
      PlayOne(At(Rld(0, d.rx, d.rx, 0, mb), off, off + 4), tables, s);
  }

  // The index is value 1, with the bound of the check.
  predicate Checked(d: Dispatch, s: Sym) {
    d.rx in s.regs && s.regs[d.rx] == V(1, Kept(d.narrow)) && s.bounds == [Bound(1, Seen(d), d.k)]
  }

  lemma CheckPlays(d: Dispatch, tables: Tables, off: int, s: Sym) returns (t: Sym)
    requires Usual(d, tables) && Branches(d, off) && Loaded(d, tables, s) && Fresh(d, s) && s.bounds == []
    ensures Play(CheckOf(d, off), tables, s) == Some(t)
    ensures Loaded(d, tables, t) && Checked(d, t)
  {
    if d.check.Trapped? {
      t := SymStep(Trap(d.wide, d.rx, d.k), off, off + 4, tables, s).value;
      PlayOne(At(Trap(d.wide, d.rx, d.k), off, off + 4), tables, s);
    } else {
      var a := At(Cmpl(d.check.crf, d.wide, d.rx, d.k), off, off + 4);
      var r := SymStep(a.insn, off, off + 4, tables, s).value;
      var b := CheckOf(d, off)[1];
      t := SymStep(b.insn, b.off, b.nxt, tables, r).value;
      PlayTwo(a, b, tables, s, r);
    }
  }

  lemma ScalePlays(d: Dispatch, tables: Tables, off: int, s: Sym) returns (t: Sym)
    requires Usual(d, tables) && Loaded(d, tables, s) && Checked(d, s)
    ensures SymStep(ScaleOf(d), off, off + 4, tables, s) == Some(t)
    ensures Loaded(d, tables, t) && d.rs in t.regs && t.regs[d.rs] == Scaled(1, Used(d)) && t.bounds == s.bounds
  {
    t := SymStep(ScaleOf(d), off, off + 4, tables, s).value;
  }

  // The bound that comes out: what was checked for, or less where fewer bits are left.
  function Top(d: Dispatch): int { if d.k <= Pow2(Used(d)) - 1 then d.k else Pow2(Used(d)) - 1 }

  lemma BoundIs(d: Dispatch, tables: Tables)
    requires Usual(d, tables)
    ensures BoundOf([Bound(1, Seen(d), d.k)], 1, Used(d)) == Some(Top(d))
  {
    assert [Bound(1, Seen(d), d.k)][1..] == [];
  }

  function Reached(d: Dispatch, tables: Tables): Val
    requires (d.key, d.width) in tables
  {
    var (at, ref) := tables[(d.key, d.width)];
    Target(at, Top(d), {ref})
  }

  lemma JumpPlays(d: Dispatch, tables: Tables, off: int, s: Sym) returns (t: Sym)
    requires Usual(d, tables) && Loaded(d, tables, s) && d.rs in s.regs && s.regs[d.rs] == Scaled(1, Used(d))
    requires s.bounds == [Bound(1, Seen(d), d.k)]
    ensures Play(Straight(JumpOf(d), off), tables, s) == Some(t) && t.ctr == Some(Reached(d, tables))
  {
    hide BoundOf, Pow2, Used, Seen;
    var i, j, k := JumpOf(d)[0], JumpOf(d)[1], JumpOf(d)[2];
    var (at, ref) := tables[(d.key, d.width)];
    BoundIs(d, tables);
    var s1 := SymStep(i, off, off + 4, tables, s).value;
    assert s1.regs[d.re] == Entry(at, Top(d), {ref}) && Loaded(d, tables, s1);
    var s2 := SymStep(j, off + 4, off + 8, tables, s1).value;
    SelfUnion({ref}, ref);
    assert s2.regs[d.rt] == Reached(d, tables);
    t := SymStep(k, off + 8, off + 12, tables, s2).value;
    StraightThree(i, j, k, off);
    assert Straight(JumpOf(d), off)[1..] == [At(j, off + 4, off + 8), At(k, off + 8, off + 12)];
    PlayTwo(At(j, off + 4, off + 8), At(k, off + 8, off + 12), tables, s1, s2);
  }

  lemma StraightTwo(i: Insn, j: Insn, off: int)
    ensures Straight([i, j], off) == [At(i, off, off + 4), At(j, off + 4, off + 8)]
  {
    assert [i, j][1..] == [j] && [j][1..] == [];
    assert Straight([j], off + 4) == [At(j, off + 4, off + 8)] + Straight([], off + 8);
    assert Straight([i, j], off) == [At(i, off, off + 4)] + Straight([j], off + 4);
  }

  lemma StraightThree(i: Insn, j: Insn, k: Insn, off: int)
    ensures Straight([i, j, k], off) == [At(i, off, off + 4), At(j, off + 4, off + 8), At(k, off + 8, off + 12)]
  {
    assert [i, j, k][1..] == [j, k];
    StraightTwo(j, k, off + 4);
    assert Straight([i, j, k], off) == [At(i, off, off + 4)] + Straight([j, k], off + 4);
  }

  // The dispatch: the table address, the index narrowed and checked, and from wherever the check
  // leads on, scaled, looked up and jumped through.
  function Written(d: Dispatch, off: int, check: int, after: int): seq<At> {
    Straight(LoadOf(d), off) + Straight(NarrowOf(d), off + 4 * |LoadOf(d)|) + CheckOf(d, check)
    + [At(ScaleOf(d), after, after + 4)] + Straight(JumpOf(d), after + 4)
  }

  // Every such dispatch is recognised, with the bound it checks for.
  lemma Recognised(d: Dispatch, tables: Tables, off: int, check: int, after: int)
    requires Usual(d, tables) && Branches(d, check)
    ensures exists s :: Play(Written(d, off, check, after), tables, START) == Some(s) && s.ctr == Some(Reached(d, tables))
  {
    hide Play, SymStep, Straight, LoadOf, NarrowOf, CheckOf, ScaleOf, JumpOf, Usual, Used, Seen, Kept;
    var load, narrow := Straight(LoadOf(d), off), Straight(NarrowOf(d), off + 4 * |LoadOf(d)|);
    var s1 := LoadPlays(d, tables, off);
    var s2 := NarrowPlays(d, tables, off + 4 * |LoadOf(d)|, s1);
    var s3 := CheckPlays(d, tables, check, s2);
    var s4 := ScalePlays(d, tables, after, s3);
    var s5 := JumpPlays(d, tables, after + 4, s4);
    PlayJoin(load, narrow, tables, START, s1);
    PlayJoin(load + narrow, CheckOf(d, check), tables, START, s2);
    PlayJoin(load + narrow + CheckOf(d, check), [At(ScaleOf(d), after, after + 4)], tables, START, s3);
    PlayOne(At(ScaleOf(d), after, after + 4), tables, s3);
    PlayJoin(load + narrow + CheckOf(d, check) + [At(ScaleOf(d), after, after + 4)], Straight(JumpOf(d), after + 4), tables, START, s4);
  }

  // ---- in a section ----

  // The path goes over these instructions.
  ghost predicate Lies(sec: P.Section, path: seq<int>, code: seq<At>) {
    && |path| == |code| + 1
    && forall i :: 0 <= i < |code| ==> sec.At(path[i]) == code[i].insn && path[i] == code[i].off && path[i + 1] == code[i].nxt
  }

  lemma {:induction false} RunIsPlay(sec: P.Section, path: seq<int>, code: seq<At>, n: nat)
    requires Lies(sec, path, code) && n <= |code|
    ensures P.SymRun(sec, path, n) == Play(code[..n], sec.tables, START)
  {
    hide SymStep, P.Section.At;
    if n > 0 {
      RunIsPlay(sec, path, code, n - 1);
      assert code[..n] == code[..n - 1] + [code[n - 1]];
      var before := Play(code[..n - 1], sec.tables, START);
      if before.Some? {
        PlayJoin(code[..n - 1], [code[n - 1]], sec.tables, START, before.value);
        PlayOne(code[n - 1], sec.tables, before.value);
      } else {
        PlayNone(code[..n - 1], [code[n - 1]], sec.tables, START);
      }
    }
  }

  lemma {:induction false} PlayNone(x: seq<At>, y: seq<At>, tables: Tables, s: Sym)
    requires Play(x, tables, s) == None
    ensures Play(x + y, tables, s) == None
  {
    hide SymStep;
    assert (x + y)[1..] == x[1..] + y && (x + y)[0] == x[0];
    var next := SymStep(x[0].insn, x[0].off, x[0].nxt, tables, s);
    if next.Some? { PlayNone(x[1..], y, tables, next.value); }
  }

  // On a path over such a dispatch to its jump the answer is the table it loads and the bound it
  // checks for.
  lemma PathRecognised(sec: P.Section, path: seq<int>, d: Dispatch, off: int, check: int, after: int)
    requires Usual(d, sec.tables) && Branches(d, check) && Lies(sec, path, Written(d, off, check, after))
    ensures var (at, ref) := sec.tables[(d.key, d.width)];
      P.CaseOf(sec, path) == Some(P.Case(at, Top(d), {ref}))
  {
    hide Play, Usual, Written, Lies, P.SymRun, Top;
    var code := Written(d, off, check, after);
    Recognised(d, sec.tables, off, check, after);
    LiesLength(sec, path, code);
    RunIsPlay(sec, path, code, |code|);
    assert code[..|code|] == code;
  }

  lemma LiesLength(sec: P.Section, path: seq<int>, code: seq<At>)
    requires Lies(sec, path, code)
    ensures |path| == |code| + 1
  {
  }

  // A check of fewer bits than the index keeps proves nothing.
  lemma TooFewBits(bounds: seq<Bound>, id: nat, n: nat)
    requires forall j :: 0 <= j < |bounds| && bounds[j].id == id ==> bounds[j].bits < n
    ensures BoundOf(bounds, id, n) == None
  {
  }
}
