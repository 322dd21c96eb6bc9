// The machine a jump-table dispatch runs on, and the symbolic values the switch proof keeps.
module SwitchModel {
  import opened Collections
  import opened BitMath

  type Key = (int, int)     // symbol and addend a TOC relocation names
  type Ref = (int, int)     // section and offset of the .toc relocation behind a table address

  datatype TocBase = Lo | Direct | OtherBase

  datatype Insn =
    | Cmpl(crf: int, wide: nat, ra: int, k: int)                  // cmplwi, cmpldi
    | Trap(wide: nat, ra: int, k: int)                            // twi, tdi with TO = lgt
    | Bc(bo: int, bi: int, target: int, judged: Option<int>)      // conditional branch, no link; its target and
                                                                  // what the run takes for it, if it is not relocated
    | BranchReg(bo: int)                                          // bclr, bcctr, no link, passed over
    | AddisHa(rt: int, key: Key)                                  // addis rt,r2,key@ha where r2 is known
    | LoadToc(rt: int, ra: int, width: int, key: Key, base: TocBase, r2: bool)   // r2: where r2 is known
    | Rlwinm(ra: int, rs: int, sh: nat, mb: nat, me: nat)
    | Rld(form: int, ra: int, rs: int, sh: nat, mb: nat)
    | Mtctr(rs: int)
    | MtctrRc(rs: int)                                            // with its reserved last bit set: an invalid form
    | MtOther
    | Or(ra: int, rs: int, rb: int)
    | Lwax(rt: int, ra: int, rb: int)
    | Add(rt: int, ra: int, rb: int)
    | Syscall
    | Havoc                                                        // a call, an unlisted form, or another relocated one
    | Plain(writes: set<int>, cr: bool)                            // the rest: registers written, CR maybe written

  predicate Encodable(i: Insn) {
    match i
    case Cmpl(_, wide, _, k) => (wide == 32 || wide == 64) && k >= 0
    case Trap(wide, _, k) => (wide == 32 || wide == 64) && -0x8000 <= k < 0x8000
    case Rlwinm(_, _, sh, mb, me) => sh < 32 && mb < 32 && me < 32
    case Rld(form, _, _, sh, mb) => 0 <= form <= 2 && sh < 64 && mb < 64
    case _ => true
  }

  // ---- the machine ----

  // Where the section lies, its words, the TOC pointer and what the linker put behind it.
  // Where the high half of a displacement is 0 the linker makes the addis a nop and bases the
  // paired load on r2.
  datatype Env = Env(base: int, word: int -> int, got: int, toc: (Key, int) -> int, ha: Key -> int, rebased: Key -> bool)

  const VOLATILE: set<int> := {0, 3, 4, 5, 6, 7, 8, 9, 10, 11, 12}

  // gt(f) is the GT bit of condition field f.
  datatype Machine = Machine(reg: int -> int, gt: int -> bool, ctr: int)

  // Where bctr goes: the low two bits of CTR are left out.
  function Lands(m: Machine): int { m.ctr - m.ctr % 4 }

  lemma LandsIs(m: Machine)
    ensures Lands(m) % 4 == 0 && Lands(m) <= m.ctr < Lands(m) + 4
  {
  }

  ghost predicate Sane(env: Env, m: Machine) {
    && (forall r :: 0 <= m.reg(r) < P64)
    && (forall a :: 0 <= env.word(a) < P32)
  }

  function SignExtend32(w: int): int { if w < P32 / 2 then w else w - P32 }

  // As a signed word, the same 32 bits.
  lemma SignExtendIs(w: int)
    requires 0 <= w < 0x1_0000_0000
    ensures -0x8000_0000 <= SignExtend32(w) < 0x8000_0000 && SignExtend32(w) % 0x1_0000_0000 == w
  {
  }

  // A system call keeps r1, r2 and r13 on.
  lemma VolatileAre(r: int)
    ensures r in VOLATILE <==> r == 0 || 3 <= r <= 12
  {
  }

  function Rotl32(x: int, sh: nat): int
    requires sh < 32
  {
    (x * Pow2(sh)) % P32 + x / Pow2(32 - sh)
  }

  function Rotl64(x: int, sh: nat): int
    requires sh < 64
  {
    (x * Pow2(sh)) % P64 + x / Pow2(64 - sh)
  }

  // Bits lo .. lo+n-1 of y, in place.
  function Field(y: int, lo: nat, n: nat): int {
    (y / Pow2(lo)) % Pow2(n) * Pow2(lo)
  }

  ghost predicate RegsKept(m: Machine, t: Machine, written: set<int>) {
    forall r :: r !in written ==> t.reg(r) == m.reg(r)
  }

  ghost predicate CrKept(m: Machine, t: Machine) { forall f :: t.gt(f) == m.gt(f) }

  // Whether a branch whose BO does not decrement CTR is taken, for a GT condition bit.
  ghost predicate TakenOnGt(bo: int, gt: bool) {
    bo / 16 % 2 == 1 || (gt <==> bo / 8 % 2 == 1)
  }

  // One instruction at off, after which control is at nxt.
  ghost predicate Exec(i: Insn, off: int, nxt: int, env: Env, m: Machine, t: Machine) {
    match i
    case Cmpl(crf, wide, ra, k) =>
      && RegsKept(m, t, {}) && t.ctr == m.ctr
      && (forall f :: f != crf ==> t.gt(f) == m.gt(f))
      && t.gt(crf) == (Low(m.reg(ra), wide) > k)
    case Trap(wide, ra, k) =>
      && RegsKept(m, t, {}) && t.ctr == m.ctr && CrKept(m, t)
      && Low(m.reg(ra), wide) <= Low(k, wide)
    case Bc(bo, bi, target, _) =>
      && RegsKept(m, t, {}) && CrKept(m, t)
      && (bo / 4 % 2 == 1 ==> t.ctr == m.ctr)
      && (nxt == target || nxt == off + 4)
      && (bo / 4 % 2 == 1 && bi % 4 == 1 ==> nxt == if TakenOnGt(bo, m.gt(bi / 4)) then target else off + 4)
    // A branch to LR or CTR may go anywhere; without BO's 4 bit it decrements CTR first.
    case BranchReg(bo) =>
      RegsKept(m, t, {}) && CrKept(m, t) && t.ctr == if bo / 4 % 2 == 1 then m.ctr else Wrap(m.ctr - 1)
    case AddisHa(rt, key) =>
      && RegsKept(m, t, {rt}) && t.ctr == m.ctr && CrKept(m, t)
      && (if env.rebased(key) then t.reg(rt) == m.reg(rt) else m.reg(2) == env.got ==> t.reg(rt) == env.ha(key))
    case LoadToc(rt, ra, width, key, base, r2) =>
      && RegsKept(m, t, {rt}) && t.ctr == m.ctr && CrKept(m, t)
      && (base.Lo? && ra != 0 && (if env.rebased(key) then m.reg(2) == env.got else m.reg(ra) == env.ha(key))
          ==> t.reg(rt) == env.toc(key, width))
      && (base.Direct? && ra == 2 && m.reg(2) == env.got ==> t.reg(rt) == env.toc(key, width))
    case Rlwinm(ra, rs, sh, mb, me) =>
      && RegsKept(m, t, {ra}) && t.ctr == m.ctr && CrKept(m, t)
      && (mb <= me < 32 && sh < 32 ==> t.reg(ra) == Field(Rotl32(Low(m.reg(rs), 32), sh), 31 - me, me - mb + 1))
    case Rld(form, ra, rs, sh, mb) =>
      && RegsKept(m, t, {ra}) && t.ctr == m.ctr && CrKept(m, t)
      && (sh < 64 && mb < 64 ==>
            var y := Rotl64(m.reg(rs), sh);
            && (form == 0 ==> t.reg(ra) == Field(y, 0, 64 - mb))
            && (form == 1 ==> t.reg(ra) == Field(y, 63 - mb, mb + 1))
            && (form == 2 && mb <= 63 - sh ==> t.reg(ra) == Field(y, sh, 64 - sh - mb)))
    case Mtctr(rs) => RegsKept(m, t, {}) && CrKept(m, t) && t.ctr == m.reg(rs)
    case MtctrRc(_) => RegsKept(m, t, {})         // what it leaves in CTR is not defined
    case MtOther => RegsKept(m, t, {}) && CrKept(m, t) && t.ctr == m.ctr
    case Or(ra, rs, rb) =>
      RegsKept(m, t, {ra}) && t.ctr == m.ctr && CrKept(m, t) && (rs == rb ==> t.reg(ra) == m.reg(rs))
    case Lwax(rt, ra, rb) =>
      && RegsKept(m, t, {rt}) && t.ctr == m.ctr && CrKept(m, t)
      && (ra != 0 ==> t.reg(rt) == Wrap(SignExtend32(env.word(Wrap(m.reg(ra) + m.reg(rb))))))
    case Add(rt, ra, rb) =>
      RegsKept(m, t, {rt}) && t.ctr == m.ctr && CrKept(m, t) && t.reg(rt) == Wrap(m.reg(ra) + m.reg(rb))
    case Syscall => RegsKept(m, t, VOLATILE)      // the kernel does not give CTR back
    case Havoc => true
    case Plain(writes, cr) => RegsKept(m, t, writes) && t.ctr == m.ctr && (cr || CrKept(m, t))
  }

  // What happens at a word decoded as i: if a relocation makes another instruction of it, anything.
  ghost predicate Does(i: Insn, altered: bool, off: int, nxt: int, env: Env, m: Machine, t: Machine) {
    altered || Exec(i, off, nxt, env, m, t)
  }

  // Instructions decoded only where r2 is known to hold the TOC pointer.
  predicate NeedsToc(i: Insn) { i.AddisHa? || (i.LoadToc? && i.r2) }

  ghost predicate TocThere(i: Insn, env: Env, m: Machine) { NeedsToc(i) ==> m.reg(2) == env.got }

  // ---- symbolic values ----

  datatype Val =
    | V(id: nat, bits: nat)                       // the low bits of value id
    | Scaled(id: nat, bits: nat)                  // 4 times those
    | Ha(key: Key)
    | Table(at: int, refs: set<Ref>)
    | Entry(at: int, top: int, refs: set<Ref>)    // some word 0 .. top of the table, sign-extended
    | Target(at: int, top: int, refs: set<Ref>)   // the table address plus such a word

  datatype Cmp = Cmp(id: nat, bits: nat, wide: nat, k: int)
  datatype Bound = Bound(id: nat, bits: nat, k: int)     // the low bits of value id are at most k

  datatype Sym = Sym(regs: map<int, Val>, crs: map<int, Cmp>, bounds: seq<Bound>, ctr: Option<Val>, ids: nat)

  const START := Sym(map[], map[], [], None, 0)

  // What word i of the table at `at` makes of the table address.
  function CaseAddress(env: Env, at: int, i: int): int {
    Wrap(env.base + at + SignExtend32(env.word(Wrap(env.base + at + 4 * i))))
  }

  ghost predicate IsEntry(env: Env, at: int, top: int, x: int) {
    exists i :: 0 <= i <= top && x == Wrap(SignExtend32(env.word(Wrap(env.base + at + 4 * i))))
  }

  ghost predicate IsTarget(env: Env, at: int, top: int, x: int) {
    exists i :: 0 <= i <= top && x == CaseAddress(env, at, i)
  }

  // Register content x is what v says, under the valuation of value ids.
  ghost predicate Means(v: Val, env: Env, val: int -> int, x: int) {
    match v
    case V(id, bits) => bits <= 64 && x == Low(val(id), bits)
    case Scaled(id, bits) => bits <= 62 && x == 4 * Low(val(id), bits)
    case Ha(key) => env.rebased(key) || x == env.ha(key)
    case Table(at, _) => x == Wrap(env.base + at)
    case Entry(at, top, _) => IsEntry(env, at, top, x)
    case Target(at, top, _) => IsTarget(env, at, top, x)
  }

  // ---- the symbolic run ----

  type Tables = map<(Key, int), (int, Ref)>     // .toc entries that hold an address in this section

  function Get(s: Sym, g: int): (Val, Sym) {
    if g in s.regs then (s.regs[g], s)
    else
      var v := V(s.ids + 1, 64);
      (v, s.(regs := s.regs[g := v], ids := s.ids + 1))
  }

  function Kill(s: Sym, g: int): Sym { s.(regs := s.regs - {g}) }

  // Value id is at most k in its low bits; a second bound on the same bits keeps the smaller.
  function AddBound(bounds: seq<Bound>, id: nat, bits: nat, k: int): seq<Bound> {
    if bounds == [] then [Bound(id, bits, k)]
    else if bounds[0].id == id && bounds[0].bits == bits
    then [Bound(id, bits, if k <= bounds[0].k then k else bounds[0].k)] + bounds[1..]
    else [bounds[0]] + AddBound(bounds[1..], id, bits, k)
  }

  // The best bound on the low n bits, out of bounds on at least as many.
  function BoundOf(bounds: seq<Bound>, id: nat, n: nat): Option<int> {
    if bounds == [] then None
    else
      var rest := BoundOf(bounds[1..], id, n);
      var b := bounds[0];
      if b.id != id || b.bits < n then rest
      else
        var k := if b.k <= Pow2(n) - 1 then b.k else Pow2(n) - 1;
        match rest
        case None => Some(k)
        case Some(best) => Some(if k <= best then k else best)
  }

  function Lookup(s: Sym, g: int): Option<Val> {
    if g in s.regs then Some(s.regs[g]) else None
  }

  function TableOf(va: Option<Val>, vb: Option<Val>): Option<Val> {
    if va.Some? && va.value.Table? then va else if vb.Some? && vb.value.Table? then vb else None
  }

  function SymLwax(s: Sym, rt: int, ra: int, rb: int): Sym {
    var va, vb := Lookup(s, ra), Lookup(s, rb);
    var t := Kill(s, rt);
    var table := TableOf(va, vb);
    if ra == 0 || table.None? then t
    else
      var other := if va == table then vb else va;
      if other.None? || !other.value.Scaled? then t
      else
        match BoundOf(s.bounds, other.value.id, other.value.bits)
        case None => t
        case Some(k) => t.(regs := t.regs[rt := Entry(table.value.at, k, table.value.refs)])
  }

  function SymAdd(s: Sym, rt: int, ra: int, rb: int): Sym {
    var va, vb := Lookup(s, ra), Lookup(s, rb);
    var t := Kill(s, rt);
    var table := TableOf(va, vb);
    if ra == 0 || table.None? then t
    else
      var other := if va == table then vb else va;
      if other.None? || !other.value.Entry? || other.value.at != table.value.at then t
      else t.(regs := t.regs[rt := Target(other.value.at, other.value.top, other.value.refs + table.value.refs)])
  }

  function SymRlwinm(s: Sym, ra: int, rs: int, sh: nat, mb: nat, me: nat): Sym {
    var (v, s1) := Get(s, rs);
    var t := Kill(s1, ra);
    if !v.V? || mb > me then t
    else if sh == 0 && me == 31 && mb <= 32 then t.(regs := t.regs[ra := V(v.id, Min(v.bits, 32 - mb))])
    else if sh == 2 && me == 29 && mb <= 30 then t.(regs := t.regs[ra := Scaled(v.id, Min(v.bits, 30 - mb))])
    else t
  }

  function SymRld(s: Sym, form: int, ra: int, rs: int, sh: nat, mb: nat): Sym {
    var (v, s1) := Get(s, rs);
    var t := Kill(s1, ra);
    if !v.V? then t
    else if form == 0 && sh == 0 && mb <= 64 then t.(regs := t.regs[ra := V(v.id, Min(v.bits, 64 - mb))])
    else if form == 1 && sh == 2 && mb == 61 then t.(regs := t.regs[ra := Scaled(v.id, Min(v.bits, 62))])
    else if form == 2 && sh == 2 && mb <= 61 then t.(regs := t.regs[ra := Scaled(v.id, Min(v.bits, 62 - mb))])
    else t
  }

  function SymStep(i: Insn, off: int, nxt: int, tables: Tables, s: Sym): Option<Sym> {
    match i
    case Cmpl(crf, wide, ra, k) =>
      var (v, t) := Get(s, ra);
      Some(if v.V? then t.(crs := t.crs[crf := Cmp(v.id, v.bits, wide, k)]) else t.(crs := t.crs - {crf}))
    case Trap(wide, ra, k) =>
      var (v, t) := Get(s, ra);
      Some(if v.V? && k >= 0 then t.(bounds := AddBound(t.bounds, v.id, Min(v.bits, wide), k)) else t)
    case Bc(bo, bi, _, judged) =>
      if bo / 4 % 2 == 0 then None
      else
        var fall := nxt == off + 4 && judged != Some(off + 4);
        var taken := judged == Some(nxt) && nxt != off + 4;
        if bi / 4 in s.crs && bi % 4 == 1 && ((bo == 12 && fall) || (bo == 4 && taken)) then
          var c := s.crs[bi / 4];
          Some(s.(bounds := AddBound(s.bounds, c.id, Min(c.bits, c.wide), c.k)))
        else Some(s)
    case AddisHa(rt, key) => var t := Kill(s, rt); Some(t.(regs := t.regs[rt := Ha(key)]))
    case LoadToc(rt, ra, width, key, base, r2) =>
      var t := Kill(s, rt);
      var known := (base.Lo? && ra != 0 && Lookup(s, ra) == Some(Ha(key))) || (base.Direct? && ra == 2 && r2);
      Some(if known && (key, width) in tables
           then var (at, ref) := tables[(key, width)]; t.(regs := t.regs[rt := Table(at, {ref})])
           else t)
    case Rlwinm(ra, rs, sh, mb, me) => Some(SymRlwinm(s, ra, rs, sh, mb, me))
    case Rld(form, ra, rs, sh, mb) => Some(SymRld(s, form, ra, rs, sh, mb))
    case Mtctr(rs) => Some(s.(ctr := Lookup(s, rs)))
    case BranchReg(_) => Some(s)
    case MtctrRc(_) => Some(s.(crs := map[]))
    case Syscall => Some(s.(regs := s.regs - VOLATILE, crs := map[]))
    case MtOther => Some(s)
    case Or(ra, rs, rb) =>
      if rs == rb then var (v, t) := Get(s, rs); Some(t.(regs := t.regs[ra := v]))
      else Some(Kill(s, ra))
    case Lwax(rt, ra, rb) => Some(SymLwax(s, rt, ra, rb))
    case Add(rt, ra, rb) => Some(SymAdd(s, rt, ra, rb))
    case Havoc => Some(s.(regs := map[], crs := map[], ctr := None))
    case Plain(writes, cr) => Some(s.(regs := s.regs - writes, crs := if cr then map[] else s.crs))
  }

  // ---- symbolic and machine states ----

  ghost predicate Sat(s: Sym, env: Env, val: int -> int, m: Machine) {
    && Sane(env, m)
    && (forall r :: r in s.regs ==> Means(s.regs[r], env, val, m.reg(r)) && Older(s.regs[r], s.ids))
    && (forall f :: f in s.crs ==> s.crs[f].id <= s.ids && s.crs[f].bits <= 64 && m.gt(f) == Above(s.crs[f], val(s.crs[f].id)))
    && (forall j :: 0 <= j < |s.bounds| ==> BoundHolds(s.bounds[j], s.ids, val))
    && (HoldsTarget(s) ==> IsTarget(env, s.ctr.value.at, s.ctr.value.top, m.ctr))
  }

  // CTR counts only once it holds a case address.
  predicate HoldsTarget(s: Sym) { s.ctr.Some? && s.ctr.value.Target? }

  ghost predicate Described(s: Sym, env: Env, m: Machine) { exists val :: Sat(s, env, val, m) }

  predicate Above(c: Cmp, x: int) { Low(x, Min(c.bits, c.wide)) > c.k }

  predicate Older(v: Val, ids: nat) {
    (v.V? || v.Scaled? ==> v.id <= ids)
  }

  ghost predicate BoundHolds(b: Bound, ids: nat, val: int -> int) {
    b.id <= ids && b.bits <= 64 && Low(val(b.id), b.bits) <= b.k
  }

  // The linker's side of the bargain.
  ghost predicate Linked(env: Env, tables: Tables) {
    && (forall key, width :: (key, width) in tables ==> env.toc(key, width) == Wrap(env.base + tables[(key, width)].0))
    && forall key :: 0 <= env.ha(key) < P64
  }

  // ---- where a step is not sound ----

  // x meets the bounds known of value id.
  ghost predicate Meets(bounds: seq<Bound>, id: nat, x: int) {
    forall j :: 0 <= j < |bounds| && bounds[j].id == id ==> Low(x, bounds[j].bits) <= bounds[j].k
  }

  // By the bounds so far the compare may still come out "greater".
  ghost predicate MayExceed(s: Sym, c: Cmp) {
    exists x :: Meets(s.bounds, c.id, x) && Above(c, x)
  }

  // Some register holds value id.
  ghost predicate Pinned(s: Sym, id: nat) { exists r :: r in s.regs && s.regs[r] == V(id, 64) }

  // x gives the compares of value id the outcomes g.
  ghost predicate Answers(s: Sym, id: nat, g: int -> bool, x: int) {
    Meets(s.bounds, id, x) && forall f :: f in s.crs && s.crs[f].id == id ==> Above(s.crs[f], x) == g(f)
  }

  ghost predicate CanAnswer(s: Sym, id: nat, g: int -> bool) { exists x :: Answers(s, id, g, x) }

  // No bound and no compare of value id says anything of the register that holds it.
  ghost predicate Unbounded(s: Sym, id: nat) {
    && (forall j :: 0 <= j < |s.bounds| && s.bounds[j].id == id ==>
          forall x :: 0 <= x < P64 ==> Low(x, s.bounds[j].bits) <= s.bounds[j].k)
    && forall f :: f in s.crs ==> s.crs[f].id != id
  }

  // The state says nothing: no case address in CTR, registers hold whole values, each its own and
  // none of them compared or bounded, and the compares of the other values may come out anyhow.
  ghost predicate Vague(s: Sym) {
    && !HoldsTarget(s)
    && (forall r :: r in s.regs ==> s.regs[r].V? && s.regs[r].bits == 64 && Unbounded(s, s.regs[r].id))
    && (forall r, q :: r in s.regs && q in s.regs && r != q ==> s.regs[r] != s.regs[q])
    && (forall id: nat, g {:trigger CanAnswer(s, id, g)} :: Pinned(s, id) || CanAnswer(s, id, g))
  }

  // The steps from s after which the symbolic state may say what is not so:
  // - a bgt that goes to the very next instruction by a target the run does not see: whatever
  //   the condition, control arrives there, and the run takes that as "not taken";
  // - with a case address in CTR, a branch through LR or CTR that decrements it, an mtctr with its
  //   reserved bit set, a system call: CTR changes and what was known of it stays;
  // - a low-half load behind its addis where r2 is not known, which the linker may have based on r2;
  // - a word that a relocation turns into another instruction, if the state says anything after it.
  ghost predicate Misjudged(i: Insn, altered: bool, off: int, nxt: int, tables: Tables, s: Sym) {
    if altered then
      var next := SymStep(i, off, nxt, tables, s);
      next.Some? && !Vague(next.value)
    else
      match i
      case Bc(bo, bi, target, judged) =>
        && bo == 12 && bi % 4 == 1 && target == off + 4 && nxt == off + 4 && judged != Some(target)
        && bi / 4 in s.crs && MayExceed(s, s.crs[bi / 4])
      case BranchReg(bo) => bo / 4 % 2 == 0 && HoldsTarget(s)
      case MtctrRc(_) => HoldsTarget(s)
      case Syscall => HoldsTarget(s)
      case LoadToc(_, ra, width, key, base, r2) =>
        base.Lo? && ra != 0 && !r2 && Lookup(s, ra) == Some(Ha(key)) && (key, width) in tables
      case _ => false
  }
}
