// What a symbolic step forgets: no more than the instruction may change.
module SwitchKeeps {
  import opened Collections
  import opened BitMath
  import opened SwitchModel

  // The registers an instruction may write; a call, or what is not listed, may write any.
  function Writes(i: Insn): set<int> {
    match i
    case AddisHa(rt, _) => {rt}
    case LoadToc(rt, _, _, _, _, _) => {rt}
    case Rlwinm(ra, _, _, _, _) => {ra}
    case Rld(_, ra, _, _, _) => {ra}
    case Or(ra, _, _) => {ra}
    case Lwax(rt, _, _) => {rt}
    case Add(rt, _, _) => {rt}
    case Syscall => VOLATILE
    case Plain(writes, _) => writes
    case _ => {}
  }

  predicate KeepsField(i: Insn, f: int) {
    match i
    case Cmpl(crf, _, _, _) => f != crf
    case Plain(_, cr) => !cr
    case Syscall => false
    case MtctrRc(_) => false
    case Havoc => false
    case _ => true
  }

  // It may write these and no others ...
  lemma WritesAre(i: Insn, off: int, nxt: int, env: Env, m: Machine, t: Machine, r: int)
    requires Exec(i, off, nxt, env, m, t) && !i.Havoc?
    ensures r !in Writes(i) ==> t.reg(r) == m.reg(r)
  {
  }

  lemma FieldsAre(i: Insn, off: int, nxt: int, env: Env, m: Machine, t: Machine, f: int)
    requires Exec(i, off, nxt, env, m, t) && KeepsField(i, f)
    ensures t.gt(f) == m.gt(f)
  {
  }

  // ... and what is known of the others stays known: registers, condition fields, CTR.
  lemma NothingLost(i: Insn, off: int, nxt: int, tables: Tables, s: Sym, r: int, f: int)
    requires !i.Havoc? && SymStep(i, off, nxt, tables, s).Some?
    ensures var t := SymStep(i, off, nxt, tables, s).value;
      && (r in s.regs && r !in Writes(i) ==> r in t.regs && t.regs[r] == s.regs[r])
      && (f in s.crs && KeepsField(i, f) ==> f in t.crs && t.crs[f] == s.crs[f])
      && (!i.Mtctr? ==> t.ctr == s.ctr)
  {
    hide BoundOf, AddBound;
  }

  // The run goes on over everything but a branch that counts CTR down.
  lemma GoesOn(i: Insn, off: int, nxt: int, tables: Tables, s: Sym)
    ensures SymStep(i, off, nxt, tables, s).None? <==> i.Bc? && i.bo / 4 % 2 == 0
  {
  }

  // A copied register is the same value.
  lemma CopyIs(ra: int, rs: int, off: int, nxt: int, tables: Tables, s: Sym)
    ensures var t := SymStep(Or(ra, rs, rs), off, nxt, tables, s).value;
      && ra in t.regs && rs in t.regs && t.regs[ra] == t.regs[rs]
      && t.regs[rs] == if rs in s.regs then s.regs[rs] else V(s.ids + 1, 64)
  {
  }

  // ---- bounds ----

  // The lower of two bounds, as far as there are any.
  function Lower(a: Option<int>, b: Option<int>): Option<int> {
    if a.None? then b else if b.None? then a else if a.value <= b.value then a else b
  }

  // What a bound on the low bits of a value says of its low n.
  function Says(b: Bound, id: nat, n: nat): Option<int> {
    if b.id == id && n <= b.bits then Some(if b.k <= Pow2(n) - 1 then b.k else Pow2(n) - 1) else None
  }

  // No bound is lost by another, and each counts.
  lemma {:induction false} BoundAdded(bounds: seq<Bound>, id: nat, bits: nat, k: int, of: nat, n: nat)
    ensures BoundOf(AddBound(bounds, id, bits, k), of, n) == Lower(BoundOf(bounds, of, n), Says(Bound(id, bits, k), of, n))
  {
    hide Pow2;
    if bounds != [] {
      BoundFirst(bounds, of, n);
      var more := AddBound(bounds, id, bits, k);
      BoundFirst(more, of, n);
      if bounds[0].id == id && bounds[0].bits == bits {
        assert more[1..] == bounds[1..];
      } else {
        BoundAdded(bounds[1..], id, bits, k, of, n);
        assert more[1..] == AddBound(bounds[1..], id, bits, k);
      }
    } else {
      BoundFirst([Bound(id, bits, k)], of, n);
    }
  }

  lemma BoundFirst(bounds: seq<Bound>, of: nat, n: nat)
    requires bounds != []
    ensures BoundOf(bounds, of, n) == Lower(Says(bounds[0], of, n), BoundOf(bounds[1..], of, n))
  {
    hide Pow2;
  }

  // The bound given is the lowest that any says.
  lemma {:induction false} BoundExactly(bounds: seq<Bound>, id: nat, n: nat, k: int)
    ensures BoundOf(bounds, id, n) == Some(k) <==>
      && (exists b :: b in bounds && Says(b, id, n) == Some(k))
      && forall b :: b in bounds && Says(b, id, n).Some? ==> k <= Says(b, id, n).value
    ensures BoundOf(bounds, id, n).None? <==> forall b :: b in bounds ==> Says(b, id, n).None?
  {
    hide Says;
    if bounds != [] {
      var rest := bounds[1..];
      BoundFirst(bounds, id, n);
      BoundExactly(rest, id, n, k);
      if BoundOf(rest, id, n).Some? { BoundExactly(rest, id, n, BoundOf(rest, id, n).value); }
      assert forall b :: b in bounds <==> b == bounds[0] || b in rest;
    }
  }

  // A bound once known is never given up, across calls neither.
  lemma BoundsStay(i: Insn, off: int, nxt: int, tables: Tables, s: Sym, of: nat, n: nat)
    requires SymStep(i, off, nxt, tables, s).Some? && BoundOf(s.bounds, of, n).Some?
    ensures var now := BoundOf(SymStep(i, off, nxt, tables, s).value.bounds, of, n);
      now.Some? && now.value <= BoundOf(s.bounds, of, n).value
  {
    hide BoundOf, AddBound, Says, Lower;
    var t := SymStep(i, off, nxt, tables, s).value;
    if i.Trap? && t.bounds != s.bounds {
      var v := Get(s, i.ra).0;
      LowerIs(s.bounds, v.id, Min(v.bits, i.wide), i.k, of, n);
    } else if i.Bc? && t.bounds != s.bounds {
      var c := s.crs[i.bi / 4];
      LowerIs(s.bounds, c.id, Min(c.bits, c.wide), c.k, of, n);
    }
  }

  lemma LowerIs(bounds: seq<Bound>, id: nat, bits: nat, k: int, of: nat, n: nat)
    requires BoundOf(bounds, of, n).Some?
    ensures var now := BoundOf(AddBound(bounds, id, bits, k), of, n); now.Some? && now.value <= BoundOf(bounds, of, n).value
  {
    BoundAdded(bounds, id, bits, k, of, n);
  }
}
