// The symbolic run of one path is sound: whatever the machine does along the path, the
// symbolic state describes it.
module SwitchSound {
  import opened Collections
  import opened BitMath
  import opened SwitchModel
  import opened SwitchVague

  // ---- masks ----

  lemma FieldLow(y: int, n: nat)
    ensures Field(y, 0, n) == y % Pow2(n)
  {
    assert Pow2(0) == 1;
  }

  // clrlwi: the low 32 - mb bits.
  lemma Clrlwi(x: int, mb: nat)
    requires mb <= 31
    ensures Field(Rotl32(Low(x, 32), 0), 0, 32 - mb) == Low(x, Min(32, 32 - mb))
  {
    Powers();
    assert Pow2(0) == 1;
    var y := Low(x, 32);
    RemainderIs(y, P32, 0, y);
    FieldLow(y, 32 - mb);
    LowLow(x, 32, 32 - mb);
  }

  lemma Rotate2(x: int, top: int)
    requires top > 0 && 0 <= x < 4 * top
    ensures ((x * 4) % (4 * top) + x / top) / 4 == x % top
  {
    ModTimes4(x, top);
    assert x * 4 == 4 * x;
    DivBelow(x, top, 4);
    Div4(x % top, x / top);
  }

  // slwi by 2 with the low bits cleared away: 4 times the low 30 - mb bits.
  lemma Slwi2(x: int, mb: nat)
    requires mb <= 29
    ensures Field(Rotl32(Low(x, 32), 2), 2, 30 - mb) == 4 * Low(x, 30 - mb)
  {
    Powers();
    var y := Low(x, 32);
    Rotate2(y, Pow2(30));
    ModMod(y, 30, 30 - mb);
    LowLow(x, 32, 30 - mb);
  }

  lemma Sldi2(x: int, n: nat)
    requires 0 <= x < P64 && n <= 62
    ensures Field(Rotl64(x, 2), 2, n) == 4 * Low(x, n)
  {
    Powers();
    Rotate2(x, Pow2(62));
    ModMod(x, 62, n);
  }

  lemma RotateNone(x: int, mb: nat)
    requires 0 <= x < P64 && mb < 64
    ensures Field(Rotl64(x, 0), 0, 64 - mb) == Low(x, 64 - mb)
  {
    Powers();
    assert Pow2(0) == 1;
    RemainderIs(x, P64, 0, x);
    FieldLow(x, 64 - mb);
  }

  // ---- pieces of the step ----

  lemma GetSound(s: Sym, g: int, env: Env, val: int -> int, m: Machine) returns (val': int -> int)
    requires Sat(s, env, val, m)
    ensures var (v, t) := Get(s, g);
      Sat(t, env, val', m) && Means(v, env, val', m.reg(g)) && Older(v, t.ids)
  {
    if g in s.regs {
      val' := val;
    } else {
      var id := s.ids + 1;
      val' := i => if i == id then m.reg(g) else val(i);
      Low64(m.reg(g));
      var (v, t) := Get(s, g);
      forall r | r in t.regs
        ensures Means(t.regs[r], env, val', m.reg(r)) && Older(t.regs[r], t.ids)
      {
        if r != g { assert r in s.regs; }
      }
      forall j | 0 <= j < |t.bounds|
        ensures BoundHolds(t.bounds[j], t.ids, val')
      {
        assert BoundHolds(s.bounds[j], s.ids, val);
      }
    }
  }

  // Forgetting what was written keeps the rest.
  lemma KeepSound(s: Sym, env: Env, val: int -> int, m: Machine, t: Machine, written: set<int>)
    requires Sat(s, env, val, m) && Sane(env, t)
    requires RegsKept(m, t, written) && CrKept(m, t) && t.ctr == m.ctr
    ensures Sat(s.(regs := s.regs - written), env, val, t)
  {
  }

  lemma SetSound(s: Sym, env: Env, val: int -> int, m: Machine, g: int, v: Val)
    requires Sat(s, env, val, m) && Means(v, env, val, m.reg(g)) && Older(v, s.ids)
    ensures Sat(s.(regs := s.regs[g := v]), env, val, m)
  {
  }

  ghost predicate AllHold(bounds: seq<Bound>, ids: nat, val: int -> int) {
    forall j :: 0 <= j < |bounds| ==> BoundHolds(bounds[j], ids, val)
  }

  lemma {:induction false} AddBoundSound(bounds: seq<Bound>, ids: nat, val: int -> int, id: nat, bits: nat, k: int)
    requires AllHold(bounds, ids, val)
    requires id <= ids && bits <= 64 && Low(val(id), bits) <= k
    ensures AllHold(AddBound(bounds, id, bits, k), ids, val)
  {
    hide Low;
    if bounds != [] {
      assert BoundHolds(bounds[0], ids, val);
      if !(bounds[0].id == id && bounds[0].bits == bits) {
        AddBoundSound(bounds[1..], ids, val, id, bits, k);
        assert AddBound(bounds, id, bits, k) == [bounds[0]] + AddBound(bounds[1..], id, bits, k);
      }
    }
  }

  lemma {:induction false} BoundOfSound(bounds: seq<Bound>, ids: nat, val: int -> int, id: nat, n: nat)
    requires forall j :: 0 <= j < |bounds| ==> BoundHolds(bounds[j], ids, val)
    requires BoundOf(bounds, id, n).Some?
    ensures Low(val(id), n) <= BoundOf(bounds, id, n).value
  {
    var b := bounds[0];
    if b.id == id && b.bits >= n {
      assert BoundHolds(b, ids, val);
      LowShrinks(val(id), n, b.bits);
      LowBelow(val(id), n);
    }
    if BoundOf(bounds[1..], id, n).Some? {
      BoundOfSound(bounds[1..], ids, val, id, n);
    }
  }

  // ---- the instructions ----

  lemma CmplSound(i: Insn, tables: Tables, s: Sym, env: Env, val: int -> int, m: Machine, t: Machine)
    returns (val': int -> int)
    requires i.Cmpl? && Sat(s, env, val, m) && Sane(env, t) && Exec(i, 0, 0, env, m, t)
    ensures Sat(SymStep(i, 0, 0, tables, s).value, env, val', t)
  {
    hide Low, Wrap, Pow2, Field, Rotl32, Rotl64, SignExtend32, TakenOnGt, IsTarget, IsEntry, Sat, Sane;
    val' := GetSound(s, i.ra, env, val, m);
    var (v, s1) := Get(s, i.ra);
    KeepRegs(s1, env, val', m, t);
    if v.V? {
      LowLow(val'(v.id), v.bits, i.wide);
      WithCrs(s1, s1.crs[i.crf := Cmp(v.id, v.bits, i.wide, i.k)], env, val', t);
    } else {
      WithCrs(s1, s1.crs - {i.crf}, env, val', t);
    }
  }

  lemma WithCrs(s: Sym, crs: map<int, Cmp>, env: Env, val: int -> int, m: Machine)
    requires Sat(s.(crs := map[]), env, val, m)
    requires forall f :: f in crs ==> crs[f].id <= s.ids && crs[f].bits <= 64 && m.gt(f) == Above(crs[f], val(crs[f].id))
    ensures Sat(s.(crs := crs), env, val, m)
  {
    hide Low, Means;
  }

  // Compares change nothing but one condition field.
  lemma KeepRegs(s: Sym, env: Env, val: int -> int, m: Machine, t: Machine)
    requires Sat(s, env, val, m) && Sane(env, t) && RegsKept(m, t, {}) && t.ctr == m.ctr
    ensures Sat(s.(crs := map[]), env, val, t)
    ensures forall f :: f in s.crs && t.gt(f) == m.gt(f) ==> CrHolds(s, f, val, t)
  {
    hide Low, Wrap, Pow2, Field, Rotl32, Rotl64, SignExtend32, TakenOnGt;
  }

  ghost predicate CrHolds(s: Sym, f: int, val: int -> int, m: Machine)
    requires f in s.crs
  {
    var c := s.crs[f];
    c.id <= s.ids && c.bits <= 64 && m.gt(f) == Above(c, val(c.id))
  }

  lemma TrapSound(i: Insn, tables: Tables, s: Sym, env: Env, val: int -> int, m: Machine, t: Machine)
    returns (val': int -> int)
    requires i.Trap? && Encodable(i) && Sat(s, env, val, m) && Sane(env, t) && Exec(i, 0, 0, env, m, t)
    ensures Sat(SymStep(i, 0, 0, tables, s).value, env, val', t)
  {
    hide Low, Wrap, Pow2, Field, Rotl32, Rotl64, SignExtend32, TakenOnGt, Sat;
    val' := GetSound(s, i.ra, env, val, m);
    var (v, s1) := Get(s, i.ra);
    KeepAll(s1, env, val', m, t);
    if v.V? && i.k >= 0 {
      LowSmall(i.k, i.wide);
      LowLow(val'(v.id), v.bits, i.wide);
      MoreBounds(s1, env, val', t, v.id, Min(v.bits, i.wide), i.k);
    }
  }

  lemma KeepAll(s: Sym, env: Env, val: int -> int, m: Machine, t: Machine)
    requires Sat(s, env, val, m) && Sane(env, t) && RegsKept(m, t, {}) && CrKept(m, t) && t.ctr == m.ctr
    ensures Sat(s, env, val, t)
  {
    hide Low, Wrap, Pow2, Field, Rotl32, Rotl64, SignExtend32, TakenOnGt;
  }

  // A dispatch branch: the bound taken over holds.
  lemma BcSound(i: Insn, off: int, nxt: int, tables: Tables, s: Sym, s': Sym, env: Env, val: int -> int, m: Machine, t: Machine)
    requires i.Bc? && Sat(s, env, val, m) && Sane(env, t) && Exec(i, off, nxt, env, m, t)
    requires SymStep(i, off, nxt, tables, s) == Some(s') && !Misjudged(i, false, off, nxt, tables, s)
    ensures Sat(s', env, val, t)
  {
    hide Low, Wrap, Pow2, Field, Rotl32, Rotl64, SignExtend32, Sat, MayExceed;
    KeepAll(s, env, val, m, t);
    if s' != s {
      BoundTaken(i, off, nxt, tables, s, s', env, m, t);
      var c := s.crs[i.bi / 4];
      if m.gt(i.bi / 4) {
        NotAbove(s, env, val, m, i.bi / 4);
      } else {
        BoundFromCompare(s, env, val, m, i.bi / 4);
      }
      MoreBounds(s, env, val, t, c.id, Min(c.bits, c.wide), c.k);
    }
  }

  // GT is clear on the edge, or the branch goes to the next instruction unseen.
  lemma BoundTaken(i: Insn, off: int, nxt: int, tables: Tables, s: Sym, s': Sym, env: Env, m: Machine, t: Machine)
    requires i.Bc? && Exec(i, off, nxt, env, m, t) && SymStep(i, off, nxt, tables, s) == Some(s') && s' != s
    requires !Misjudged(i, false, off, nxt, tables, s)
    ensures i.bi / 4 in s.crs && (m.gt(i.bi / 4) ==> !MayExceed(s, s.crs[i.bi / 4]))
    ensures var c := s.crs[i.bi / 4]; s' == s.(bounds := AddBound(s.bounds, c.id, Min(c.bits, c.wide), c.k))
  {
    hide MayExceed;
  }

  // The bounds so far imply the new one.
  lemma NotAbove(s: Sym, env: Env, val: int -> int, m: Machine, f: int)
    requires Sat(s, env, val, m) && f in s.crs && !MayExceed(s, s.crs[f])
    ensures var c := s.crs[f]; c.id <= s.ids && c.bits <= 64 && Low(val(c.id), Min(c.bits, c.wide)) <= c.k
  {
    hide Low, Wrap, Pow2, Field, Rotl32, Rotl64, SignExtend32, Means;
    var c := s.crs[f];
    forall j | 0 <= j < |s.bounds| && s.bounds[j].id == c.id
      ensures Low(val(c.id), s.bounds[j].bits) <= s.bounds[j].k
    {
      assert BoundHolds(s.bounds[j], s.ids, val);
    }
    assert Meets(s.bounds, c.id, val(c.id));
  }

  lemma BoundFromCompare(s: Sym, env: Env, val: int -> int, m: Machine, f: int)
    requires Sat(s, env, val, m) && f in s.crs && !m.gt(f)
    ensures var c := s.crs[f]; c.id <= s.ids && c.bits <= 64 && Low(val(c.id), Min(c.bits, c.wide)) <= c.k
  {
    hide Low, Wrap, Pow2, Field, Rotl32, Rotl64, SignExtend32, TakenOnGt;
  }

  lemma MoreBounds(s: Sym, env: Env, val: int -> int, m: Machine, id: nat, bits: nat, k: int)
    requires Sat(s, env, val, m) && id <= s.ids && bits <= 64 && Low(val(id), bits) <= k
    ensures Sat(s.(bounds := AddBound(s.bounds, id, bits, k)), env, val, m)
  {
    hide Low, Wrap, Pow2, Field, Rotl32, Rotl64, SignExtend32, TakenOnGt;
    AddBoundSound(s.bounds, s.ids, val, id, bits, k);
  }

  // The arithmetic steps by name.
  lemma StepIs(i: Insn, tables: Tables, s: Sym)
    ensures match i
      case Rlwinm(ra, rs, sh, mb, me) => SymStep(i, 0, 0, tables, s) == Some(SymRlwinm(s, ra, rs, sh, mb, me))
      case Rld(form, ra, rs, sh, mb) => SymStep(i, 0, 0, tables, s) == Some(SymRld(s, form, ra, rs, sh, mb))
      case Lwax(rt, ra, rb) => SymStep(i, 0, 0, tables, s) == Some(SymLwax(s, rt, ra, rb))
      case Add(rt, ra, rb) => SymStep(i, 0, 0, tables, s) == Some(SymAdd(s, rt, ra, rb))
      case _ => true
  {
  }

  lemma RlwinmExec(i: Insn, env: Env, m: Machine, t: Machine)
    requires i.Rlwinm? && Exec(i, 0, 0, env, m, t)
    ensures RegsKept(m, t, {i.ra}) && CrKept(m, t) && t.ctr == m.ctr
    ensures i.mb <= i.me < 32 && i.sh < 32 ==> t.reg(i.ra) == Field(Rotl32(Low(m.reg(i.rs), 32), i.sh), 31 - i.me, i.me - i.mb + 1)
  {
    hide Low, Pow2, Field, Rotl32;
  }

  lemma RlwinmSound(i: Insn, tables: Tables, s: Sym, env: Env, val: int -> int, m: Machine, t: Machine)
    returns (val': int -> int)
    requires i.Rlwinm? && Encodable(i) && Sat(s, env, val, m) && Sane(env, t) && Exec(i, 0, 0, env, m, t)
    ensures Sat(SymStep(i, 0, 0, tables, s).value, env, val', t)
  {
    hide Low, Wrap, Pow2, Field, Rotl32, Rotl64, SignExtend32, Sat, SymStep, Exec, RegsKept, CrKept, Sane, IsTarget, IsEntry;
    RlwinmExec(i, env, m, t);
    StepIs(i, tables, s);
    var ra, mb := i.ra, i.mb;
    val' := GetSound(s, i.rs, env, val, m);
    var (v, s1) := Get(s, i.rs);
    KeepSound(s1, env, val', m, t, {ra});
    if v.V? && mb <= i.me {
      var x := val'(v.id);
      LowLow(x, v.bits, 32);
      if i.sh == 0 && i.me == 31 {
        Clrlwi(m.reg(i.rs), mb);
        LowLow(x, v.bits, Min(32, 32 - mb));
        SetSound(Kill(s1, ra), env, val', t, ra, V(v.id, Min(v.bits, 32 - mb)));
      } else if i.sh == 2 && i.me == 29 {
        Slwi2(m.reg(i.rs), mb);
        LowLow(x, v.bits, 30 - mb);
        SetSound(Kill(s1, ra), env, val', t, ra, Scaled(v.id, Min(v.bits, 30 - mb)));
      }
    }
  }

  // What clrldi, sldi 2 and rldic 2 leave in the target register.
  function RldVal(i: Insn, v: Val): Option<Val>
    requires i.Rld? && v.V? && i.mb < 64
  {
    if i.form == 0 && i.sh == 0 then Some(V(v.id, Min(v.bits, 64 - i.mb)))
    else if i.form == 1 && i.sh == 2 && i.mb == 61 then Some(Scaled(v.id, Min(v.bits, 62)))
    else if i.form == 2 && i.sh == 2 && i.mb <= 61 then Some(Scaled(v.id, Min(v.bits, 62 - i.mb)))
    else None
  }

  lemma RldExec(i: Insn, env: Env, m: Machine, t: Machine)
    requires i.Rld? && Exec(i, 0, 0, env, m, t)
    ensures RegsKept(m, t, {i.ra}) && CrKept(m, t) && t.ctr == m.ctr
  {
    hide Low, Pow2, Field, Rotl64;
  }

  lemma SatSane(s: Sym, env: Env, val: int -> int, m: Machine)
    requires Sat(s, env, val, m)
    ensures Sane(env, m) && forall r :: 0 <= m.reg(r) < P64
  {
    hide Means, BoundHolds, Older, Low;
  }

  lemma RldSound(i: Insn, tables: Tables, s: Sym, env: Env, val: int -> int, m: Machine, t: Machine)
    returns (val': int -> int)
    requires i.Rld? && Encodable(i) && Sat(s, env, val, m) && Sane(env, t) && Exec(i, 0, 0, env, m, t)
    ensures Sat(SymStep(i, 0, 0, tables, s).value, env, val', t)
  {
    hide Low, Wrap, Pow2, Field, Rotl32, Rotl64, SignExtend32, Sat, Means, Exec, Sane, RegsKept, CrKept, SymStep;
    RldExec(i, env, m, t);
    SatSane(s, env, val, m);
    StepIs(i, tables, s);
    val' := GetSound(s, i.rs, env, val, m);
    var (v, s1) := Get(s, i.rs);
    KeepSound(s1, env, val', m, t, {i.ra});
    if v.V? {
      RldMeans(i, v, env, val', m, t);
      var w := RldVal(i, v);
      if w.Some? {
        SetSound(Kill(s1, i.ra), env, val', t, i.ra, w.value);
      }
    }
  }

  // clrldi, sldi 2 and rldic 2 of the low bits of a value.
  lemma RldMeans(i: Insn, v: Val, env: Env, val: int -> int, m: Machine, t: Machine)
    requires i.Rld? && Encodable(i) && v.V? && Means(v, env, val, m.reg(i.rs)) && 0 <= m.reg(i.rs) < P64
    requires Exec(i, 0, 0, env, m, t)
    ensures RldVal(i, v).Some? ==> Means(RldVal(i, v).value, env, val, t.reg(i.ra))
  {
    hide Low, Wrap, Pow2, Field, Rotl32, Rotl64, SignExtend32;
    var x, y := m.reg(i.rs), val(v.id);
    if i.form == 0 && i.sh == 0 {
      RotateNone(x, i.mb);
      LowLow(y, v.bits, 64 - i.mb);
    } else if i.form == 1 && i.sh == 2 && i.mb == 61 {
      Sldi2(x, 62);
      LowLow(y, v.bits, 62);
    } else if i.form == 2 && i.sh == 2 && i.mb <= 61 {
      Sldi2(x, 62 - i.mb);
      LowLow(y, v.bits, 62 - i.mb);
    }
  }

  lemma MeaningOf(s: Sym, env: Env, val: int -> int, m: Machine, r: int)
    requires Sat(s, env, val, m) && r in s.regs
    ensures Means(s.regs[r], env, val, m.reg(r)) && Older(s.regs[r], s.ids)
  {
  }

  lemma LwaxExec(i: Insn, env: Env, m: Machine, t: Machine)
    requires (i.Lwax? || i.Add?) && Exec(i, 0, 0, env, m, t)
    ensures RegsKept(m, t, {i.rt}) && CrKept(m, t) && t.ctr == m.ctr
    ensures i.Lwax? && i.ra != 0 ==> t.reg(i.rt) == Wrap(SignExtend32(env.word(Wrap(m.reg(i.ra) + m.reg(i.rb)))))
    ensures i.Add? ==> t.reg(i.rt) == Wrap(m.reg(i.ra) + m.reg(i.rb))
  {
    hide Wrap, SignExtend32;
  }

  lemma LwaxSound(i: Insn, tables: Tables, s: Sym, env: Env, val: int -> int, m: Machine, t: Machine)
    requires i.Lwax? && Sat(s, env, val, m) && Sane(env, t) && Exec(i, 0, 0, env, m, t)
    ensures Sat(SymStep(i, 0, 0, tables, s).value, env, val, t)
  {
    hide Low, Wrap, Pow2, SignExtend32, Sat, BoundOf, SymStep, Exec, RegsKept, CrKept;
    StepIs(i, tables, s);
    LwaxExec(i, env, m, t);
    KeepSound(s, env, val, m, t, {i.rt});
    var va, vb := Lookup(s, i.ra), Lookup(s, i.rb);
    var table := TableOf(va, vb);
    if i.ra != 0 && table.Some? {
      var other := if va == table then vb else va;
      if other.Some? && other.value.Scaled? {
        var id, bits := other.value.id, other.value.bits;
        var k := BoundOf(s.bounds, id, bits);
        if k.Some? {
          MeaningOf(s, env, val, m, i.ra);
          MeaningOf(s, env, val, m, i.rb);
          IndexInRange(s, env, val, m, id, bits);
          var at, n := table.value.at, Low(val(id), bits);
          WrapAdd(env.base + at, 4 * n);
          assert Wrap(m.reg(i.ra) + m.reg(i.rb)) == Wrap(env.base + at + 4 * n);
          assert IsEntry(env, at, k.value, t.reg(i.rt));
          SetSound(Kill(s, i.rt), env, val, t, i.rt, Entry(at, k.value, table.value.refs));
        }
      }
    }
  }

  lemma IndexInRange(s: Sym, env: Env, val: int -> int, m: Machine, id: nat, bits: nat)
    requires Sat(s, env, val, m) && BoundOf(s.bounds, id, bits).Some?
    ensures 0 <= Low(val(id), bits) <= BoundOf(s.bounds, id, bits).value
  {
    BoundOfSound(s.bounds, s.ids, val, id, bits);
  }

  lemma AddSound(i: Insn, tables: Tables, s: Sym, env: Env, val: int -> int, m: Machine, t: Machine)
    requires i.Add? && Sat(s, env, val, m) && Sane(env, t) && Exec(i, 0, 0, env, m, t)
    ensures Sat(SymStep(i, 0, 0, tables, s).value, env, val, t)
  {
    hide Low, Wrap, Pow2, SignExtend32, Sat, BoundOf, SymStep, Exec, RegsKept, CrKept;
    StepIs(i, tables, s);
    LwaxExec(i, env, m, t);
    KeepSound(s, env, val, m, t, {i.rt});
    var va, vb := Lookup(s, i.ra), Lookup(s, i.rb);
    var table := TableOf(va, vb);
    if i.ra != 0 && table.Some? {
      var other := if va == table then vb else va;
      if other.Some? && other.value.Entry? && other.value.at == table.value.at {
        MeaningOf(s, env, val, m, i.ra);
        MeaningOf(s, env, val, m, i.rb);
        var at, top := other.value.at, other.value.top;
        var x := if va == table then m.reg(i.rb) else m.reg(i.ra);
        EntryPlusTable(env, at, top, x);
        WrapAdd(env.base + at, x);
        assert IsTarget(env, at, top, t.reg(i.rt));
        SetSound(Kill(s, i.rt), env, val, t, i.rt, Target(at, top, other.value.refs + table.value.refs));
      }
    }
  }

  lemma EntryPlusTable(env: Env, at: int, top: int, x: int)
    requires IsEntry(env, at, top, x)
    ensures IsTarget(env, at, top, Wrap(env.base + at + x))
  {
    hide Wrap, SignExtend32;
    var n :| 0 <= n <= top && x == Wrap(SignExtend32(env.word(Wrap(env.base + at + 4 * n))));
    WrapAdd(SignExtend32(env.word(Wrap(env.base + at + 4 * n))), env.base + at);
    assert Wrap(env.base + at + x) == CaseAddress(env, at, n);
  }

  lemma OrSound(i: Insn, tables: Tables, s: Sym, env: Env, val: int -> int, m: Machine, t: Machine)
    returns (val': int -> int)
    requires i.Or? && Sat(s, env, val, m) && Sane(env, t) && Exec(i, 0, 0, env, m, t)
    ensures Sat(SymStep(i, 0, 0, tables, s).value, env, val', t)
  {
    hide Sat, Means;
    if i.rs == i.rb {
      val' := GetSound(s, i.rs, env, val, m);
      var (v, s1) := Get(s, i.rs);
      KeepSound(s1, env, val', m, t, {i.ra});
      SetSound(Kill(s1, i.ra), env, val', t, i.ra, v);
      assert Kill(s1, i.ra).regs[i.ra := v] == s1.regs[i.ra := v];
    } else {
      val' := val;
      KeepSound(s, env, val, m, t, {i.ra});
    }
  }

  lemma LoadSound(i: Insn, tables: Tables, s: Sym, env: Env, val: int -> int, m: Machine, t: Machine)
    requires i.LoadToc? || i.AddisHa?
    requires Sat(s, env, val, m) && Sane(env, t) && Exec(i, 0, 0, env, m, t) && Linked(env, tables)
    requires TocThere(i, env, m) && !Misjudged(i, false, 0, 0, tables, s)
    ensures Sat(SymStep(i, 0, 0, tables, s).value, env, val, t)
  {
    hide Sat, Wrap;
    KeepSound(s, env, val, m, t, {i.rt});
    if i.AddisHa? {
      SetSound(Kill(s, i.rt), env, val, t, i.rt, Ha(i.key));
    } else if (i.key, i.width) in tables {
      var (at, ref) := tables[(i.key, i.width)];
      assert env.toc(i.key, i.width) == Wrap(env.base + at);
      if i.base.Lo? && i.ra != 0 && Lookup(s, i.ra) == Some(Ha(i.key)) {
        MeaningOf(s, env, val, m, i.ra);
        SetSound(Kill(s, i.rt), env, val, t, i.rt, Table(at, {ref}));
      } else if i.base.Direct? && i.ra == 2 && i.r2 {
        SetSound(Kill(s, i.rt), env, val, t, i.rt, Table(at, {ref}));
      }
    }
  }

  lemma PlainSound(i: Insn, tables: Tables, s: Sym, env: Env, val: int -> int, m: Machine, t: Machine)
    requires i.Mtctr? || i.MtctrRc? || i.MtOther? || i.Havoc? || i.Plain? || i.BranchReg? || i.Syscall?
    requires !Misjudged(i, false, 0, 0, tables, s)
    requires Sat(s, env, val, m) && Sane(env, t) && Exec(i, 0, 0, env, m, t)
    ensures Sat(SymStep(i, 0, 0, tables, s).value, env, val, t)
  {
    hide Low, Wrap, Pow2, SignExtend32, Means, IsTarget;
    if i.Mtctr? && HoldsTarget(SymStep(i, 0, 0, tables, s).value) {
      TargetIn(s, env, val, m, i.rs);
    }
  }

  lemma TargetIn(s: Sym, env: Env, val: int -> int, m: Machine, r: int)
    requires Sat(s, env, val, m) && r in s.regs && s.regs[r].Target?
    ensures IsTarget(env, s.regs[r].at, s.regs[r].top, m.reg(r))
  {
    MeaningOf(s, env, val, m, r);
  }

  // The branch aside, neither the address nor the successor matters to a step.
  lemma StepElsewhere(i: Insn, off: int, nxt: int, tables: Tables, s: Sym, env: Env, m: Machine, t: Machine)
    requires !i.Bc? && Exec(i, off, nxt, env, m, t)
    ensures Exec(i, 0, 0, env, m, t)
    ensures SymStep(i, off, nxt, tables, s) == SymStep(i, 0, 0, tables, s) && SymStep(i, 0, 0, tables, s).Some?
    ensures Misjudged(i, false, off, nxt, tables, s) == Misjudged(i, false, 0, 0, tables, s)
  {
    hide Low, Wrap, Pow2, Field, Rotl32, Rotl64, SignExtend32;
  }

  // One step.
  lemma StepSound(i: Insn, altered: bool, off: int, nxt: int, tables: Tables, s: Sym, s': Sym,
                  env: Env, val: int -> int, m: Machine, t: Machine) returns (val': int -> int)
    requires Encodable(i) && Linked(env, tables) && !Misjudged(i, altered, off, nxt, tables, s) && TocThere(i, env, m)
    requires Sat(s, env, val, m) && Sane(env, t) && Does(i, altered, off, nxt, env, m, t)
    requires SymStep(i, off, nxt, tables, s) == Some(s')
    ensures Sat(s', env, val', t)
  {
    hide *;
    val' := val;
    if altered {
      val' := AlteredSound(i, off, nxt, tables, s, s', env, val, m, t);
      return;
    }
    DoesExec(i, off, nxt, env, m, t);
    if i.Bc? {
      BcSound(i, off, nxt, tables, s, s', env, val, m, t);
    } else {
      StepElsewhere(i, off, nxt, tables, s, env, m, t);
      match i
      case Cmpl(_, _, _, _) => val' := CmplSound(i, tables, s, env, val, m, t);
      case Trap(_, _, _) => val' := TrapSound(i, tables, s, env, val, m, t);
      case Rlwinm(_, _, _, _, _) => val' := RlwinmSound(i, tables, s, env, val, m, t);
      case Rld(_, _, _, _, _) => val' := RldSound(i, tables, s, env, val, m, t);
      case Or(_, _, _) => val' := OrSound(i, tables, s, env, val, m, t);
      case Lwax(_, _, _) => LwaxSound(i, tables, s, env, val, m, t);
      case Add(_, _, _) => AddSound(i, tables, s, env, val, m, t);
      case AddisHa(_, _) => LoadSound(i, tables, s, env, val, m, t);
      case LoadToc(_, _, _, _, _, _) => LoadSound(i, tables, s, env, val, m, t);
      case _ => PlainSound(i, tables, s, env, val, m, t);
    }
  }

  lemma DoesExec(i: Insn, off: int, nxt: int, env: Env, m: Machine, t: Machine)
    requires Does(i, false, off, nxt, env, m, t)
    ensures Exec(i, off, nxt, env, m, t)
  {
  }

  // ---- the run that errs nowhere ----

  // The source's step where that is sound; elsewhere one that takes over nothing doubtful.
  ghost function CarefulStep(i: Insn, altered: bool, off: int, nxt: int, tables: Tables, s: Sym): Option<Sym> {
    var next := SymStep(i, off, nxt, tables, s);
    if !Misjudged(i, altered, off, nxt, tables, s) then next
    else if altered then Some(s.(regs := map[], crs := map[], ctr := None))
    else if i.Bc? then Some(s)
    else if i.LoadToc? then Some(Kill(s, i.rt))
    else if next.Some? then Some(next.value.(ctr := None))
    else None
  }

  lemma CarefulSound(i: Insn, altered: bool, off: int, nxt: int, tables: Tables, s: Sym, s': Sym,
                     env: Env, val: int -> int, m: Machine, t: Machine) returns (val': int -> int)
    requires Encodable(i) && Linked(env, tables) && TocThere(i, env, m)
    requires Sat(s, env, val, m) && Sane(env, t) && Does(i, altered, off, nxt, env, m, t)
    requires CarefulStep(i, altered, off, nxt, tables, s) == Some(s')
    ensures Sat(s', env, val', t)
  {
    hide Sat, Sane, Does, SymStep, Misjudged, Linked, TocThere, Encodable;
    val' := val;
    if !Misjudged(i, altered, off, nxt, tables, s) {
      val' := StepSound(i, altered, off, nxt, tables, s, s', env, val, m, t);
    } else if altered {
      ForgetSound(s, env, val, m, t);
    } else {
      DoesExec(i, off, nxt, env, m, t);
      DoubtfulSound(i, off, nxt, tables, s, s', env, val, m, t);
    }
  }

  lemma ForgetSound(s: Sym, env: Env, val: int -> int, m: Machine, t: Machine)
    requires Sat(s, env, val, m) && Sane(env, t)
    ensures Sat(s.(regs := map[], crs := map[], ctr := None), env, val, t)
  {
    hide Low, Means;
  }

  lemma DoubtfulSound(i: Insn, off: int, nxt: int, tables: Tables, s: Sym, s': Sym, env: Env, val: int -> int, m: Machine, t: Machine)
    requires Misjudged(i, false, off, nxt, tables, s) && CarefulStep(i, false, off, nxt, tables, s) == Some(s')
    requires Sat(s, env, val, m) && Sane(env, t) && Exec(i, off, nxt, env, m, t)
    ensures Sat(s', env, val, t)
  {
    hide Low, Means, Sat, MayExceed, IsTarget, Wrap;
    if i.Bc? {
      KeepAll(s, env, val, m, t);
    } else if i.LoadToc? {
      KeepSound(s, env, val, m, t, {i.rt});
    } else {
      DropCtr(s, s'.regs, s'.crs, env, val, m, t);
    }
  }

  lemma DropCtr(s: Sym, regs: map<int, Val>, crs: map<int, Cmp>, env: Env, val: int -> int, m: Machine, t: Machine)
    requires Sat(s, env, val, m) && Sane(env, t)
    requires forall r :: r in regs ==> r in s.regs && regs[r] == s.regs[r] && t.reg(r) == m.reg(r)
    requires forall f :: f in crs ==> f in s.crs && crs[f] == s.crs[f] && t.gt(f) == m.gt(f)
    ensures Sat(s.(regs := regs, crs := crs, ctr := None), env, val, t)
  {
    hide Low, Means;
  }
}
