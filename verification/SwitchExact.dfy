// Exactly which steps of the symbolic run are sound, state by state.
module SwitchExact {
  import opened Collections
  import opened BitMath
  import opened SwitchModel
  import opened SwitchVague
  import opened SwitchSound

  ghost predicate Stepped(i: Insn, altered: bool, off: int, nxt: int, tables: Tables, s: Sym, s': Sym,
                          env: Env, val: int -> int, m: Machine, t: Machine) {
    && Linked(env, tables) && Sat(s, env, val, m) && TocThere(i, env, m)
    && Sane(env, t) && Does(i, altered, off, nxt, env, m, t) && SymStep(i, off, nxt, tables, s) == Some(s')
  }

  // The step over i from s is sound: whatever s describes goes on to what the next state describes.
  ghost predicate SoundAt(i: Insn, altered: bool, off: int, nxt: int, tables: Tables, s: Sym) {
    forall s': Sym, env: Env, val: int -> int, m: Machine, t: Machine ::
      Stepped(i, altered, off, nxt, tables, s, s', env, val, m, t) ==> Described(s', env, t)
  }

  // The misjudged steps are the only exceptions, and every one of them is one.
  lemma SoundExactly(i: Insn, altered: bool, off: int, nxt: int, tables: Tables, s: Sym)
    requires Encodable(i) && exists env, val, m :: Sat(s, env, val, m)
    ensures SoundAt(i, altered, off, nxt, tables, s) <==> !Misjudged(i, altered, off, nxt, tables, s)
  {
    hide Sat, Does, SymStep, Sane, Linked, Encodable, TocThere, Misjudged, Possible;
    if Misjudged(i, altered, off, nxt, tables, s) {
      var env, val, m :| Sat(s, env, val, m);
      SatPossible(s, env, val, m);
      var s', env', val', m', t := MisjudgedBreaks(i, altered, off, nxt, tables, s, val);
    } else {
      forall s': Sym, env: Env, val: int -> int, m: Machine, t: Machine
        | Stepped(i, altered, off, nxt, tables, s, s', env, val, m, t)
        ensures Described(s', env, t)
      {
        var val' := StepSound(i, altered, off, nxt, tables, s, s', env, val, m, t);
      }
    }
  }

  lemma MisjudgedBreaks(i: Insn, altered: bool, off: int, nxt: int, tables: Tables, s: Sym, val: int -> int)
    returns (s': Sym, env: Env, val': int -> int, m: Machine, t: Machine)
    requires Misjudged(i, altered, off, nxt, tables, s) && Possible(s, val)
    ensures Stepped(i, altered, off, nxt, tables, s, s', env, val', m, t) && !Described(s', env, t)
  {
    hide *;
    if altered {
      s', env, m, t := AlteredBreaks(i, off, nxt, tables, s, val);
      val' := val;
    } else {
      var k := Kinds(i, off, nxt, tables, s);
      if k == 0 {
        s', env, val', m := BranchBreaks(i, off, nxt, tables, s, val);
        t := m;
      } else if k == 1 {
        s', env, m, t := CtrBreaks(i, off, nxt, tables, s, val);
        val' := val;
      } else {
        s', env, m, t := LoadBreaks(i, off, nxt, tables, s, val);
        val' := val;
      }
    }
  }

  lemma Kinds(i: Insn, off: int, nxt: int, tables: Tables, s: Sym) returns (k: int)
    requires Misjudged(i, false, off, nxt, tables, s)
    ensures k == 0 ==> i.Bc?
    ensures k == 1 ==> i.BranchReg? || i.MtctrRc? || i.Syscall?
    ensures k != 0 && k != 1 ==> i.LoadToc?
  {
    k := if i.Bc? then 0 else if i.LoadToc? then 2 else 1;
  }

  // ---- a branch to the next instruction ----

  lemma {:induction false} AddedBound(bounds: seq<Bound>, id: nat, bits: nat, k: int) returns (j: nat)
    ensures var more := AddBound(bounds, id, bits, k);
      j < |more| && more[j].id == id && more[j].bits == bits && more[j].k <= k
  {
    if bounds == [] || (bounds[0].id == id && bounds[0].bits == bits) {
      j := 0;
    } else {
      j := AddedBound(bounds[1..], id, bits, k);
      j := j + 1;
    }
  }

  lemma OtherValue(s: Sym, val: int -> int, id: nat, x: int)
    requires Possible(s, val) && Meets(s.bounds, id, x)
    ensures Possible(s, y => if y == id then x else val(y))
  {
    hide Low;
    var val' := y => if y == id then x else val(y);
    forall j | 0 <= j < |s.bounds|
      ensures BoundHolds(s.bounds[j], s.ids, val')
    {
      assert BoundHolds(s.bounds[j], s.ids, val);
    }
  }

  lemma BranchBreaks(i: Insn, off: int, nxt: int, tables: Tables, s: Sym, val: int -> int)
    returns (s': Sym, env: Env, val': int -> int, m: Machine)
    requires i.Bc? && Misjudged(i, false, off, nxt, tables, s) && Possible(s, val)
    ensures Stepped(i, false, off, nxt, tables, s, s', env, val', m, m) && !Described(s', env, m)
  {
    hide Low, Sat, Linked, Possible, AddBound, Sane;
    var f := i.bi / 4;
    var c := s.crs[f];
    var x :| Meets(s.bounds, c.id, x) && Above(c, x);
    val' := y => if y == c.id then x else val(y);
    OtherValue(s, val, c.id, x);
    env := Blank(tables, 0, false);
    BlankLinked(tables, 0, false);
    ShownSat(s, env, val');
    m := Shown(s, env, val');
    SatSane(s, env, val', m);
    s' := s.(bounds := AddBound(s.bounds, c.id, Min(c.bits, c.wide), c.k));
    var j := AddedBound(s.bounds, c.id, Min(c.bits, c.wide), c.k);
    forall v | Sat(s', env, v, m)
      ensures false
    {
      CompareSaid(s', env, v, m, f);
      BoundSaid(s', env, v, m, j);
    }
  }

  lemma BoundSaid(s: Sym, env: Env, val: int -> int, m: Machine, j: nat)
    requires Sat(s, env, val, m) && j < |s.bounds|
    ensures Low(val(s.bounds[j].id), s.bounds[j].bits) <= s.bounds[j].k
  {
    assert BoundHolds(s.bounds[j], s.ids, val);
  }

  // ---- CTR ----

  lemma CtrBreaks(i: Insn, off: int, nxt: int, tables: Tables, s: Sym, val: int -> int)
    returns (s': Sym, env: Env, m: Machine, t: Machine)
    requires (i.BranchReg? || i.MtctrRc? || i.Syscall?) && Misjudged(i, false, off, nxt, tables, s) && Possible(s, val)
    ensures Stepped(i, false, off, nxt, tables, s, s', env, val, m, t) && !Described(s', env, t)
  {
    hide Low, Sat, Linked, Possible, IsTarget, Words, Exec, SymStep, TocThere, Misjudged;
    env := Blank(tables, 0, false);
    BlankLinked(tables, 0, false);
    ShownSat(s, env, val);
    m := Shown(s, env, val);
    SatSane(s, env, val, m);
    t := m.(ctr := Wrap(m.ctr - 1));
    s' := CtrTaken(i, off, nxt, tables, s, env, m);
    TargetSaid(s, env, val, m);
    BlankWords(tables, s.ctr.value.at, s.ctr.value.top, m.ctr);
    BlankWords(tables, s.ctr.value.at, s.ctr.value.top, t.ctr);
    forall v | Sat(s', env, v, t)
      ensures false
    {
      TargetSaid(s', env, v, t);
    }
  }

  lemma CtrTaken(i: Insn, off: int, nxt: int, tables: Tables, s: Sym, env: Env, m: Machine) returns (s': Sym)
    requires (i.BranchReg? || i.MtctrRc? || i.Syscall?) && Misjudged(i, false, off, nxt, tables, s)
    ensures SymStep(i, off, nxt, tables, s) == Some(s') && s'.ctr == s.ctr && HoldsTarget(s)
    ensures Exec(i, off, nxt, env, m, m.(ctr := Wrap(m.ctr - 1))) && TocThere(i, env, m)
  {
    s' := SymStep(i, off, nxt, tables, s).value;
  }

  // ---- a low-half load the linker has based on r2 ----

  lemma LoadBreaks(i: Insn, off: int, nxt: int, tables: Tables, s: Sym, val: int -> int)
    returns (s': Sym, env: Env, m: Machine, t: Machine)
    requires i.LoadToc? && Misjudged(i, false, off, nxt, tables, s) && Possible(s, val)
    ensures Stepped(i, false, off, nxt, tables, s, s', env, val, m, t) && !Described(s', env, t)
  {
    hide Sat, Linked, Possible, Described, Exec, SymStep, TocThere, Sane, Misjudged, RegsKept, CrKept;
    env, m := RebasedState(tables, s, val);
    TableThere(i, off, nxt, tables, s);
    var at := tables[(i.key, i.width)].0;
    t := Otherwise(env, m, i.rt, Another(Wrap(at)));
    LoadTaken(i, off, nxt, tables, s, env, m, t);
    s' := s.(regs := (s.regs - {i.rt})[i.rt := Table(at, {tables[(i.key, i.width)].1})]);
    NotTable(s', env, t, i.rt);
  }

  // The linked image is based on r2 and r2 does not hold the TOC pointer.
  lemma RebasedState(tables: Tables, s: Sym, val: int -> int) returns (env: Env, m: Machine)
    requires Possible(s, val)
    ensures Linked(env, tables) && Sat(s, env, val, m) && Sane(env, m)
    ensures env.base == 0 && m.reg(2) != env.got && forall key :: env.rebased(key)
  {
    hide Sat, Linked, Possible, Words, Content, Sane;
    var got := Shown(s, Blank(tables, 0, true), val).reg(2) + 1;
    env := Blank(tables, got, true);
    BlankLinked(tables, got, true);
    ShownSat(s, env, val);
    m := Shown(s, env, val);
    SatSane(s, env, val, m);
    SameShown(s, tables, 0, got, val);
  }

  lemma TableThere(i: Insn, off: int, nxt: int, tables: Tables, s: Sym)
    requires i.LoadToc? && Misjudged(i, false, off, nxt, tables, s)
    ensures (i.key, i.width) in tables
  {
  }

  lemma Otherwise(env: Env, m: Machine, r: int, x: int) returns (t: Machine)
    requires Sane(env, m) && 0 <= x < P64
    ensures Sane(env, t) && RegsKept(m, t, {r}) && CrKept(m, t) && t.ctr == m.ctr && t.reg(r) == x
  {
    t := m.(reg := q => if q == r then x else m.reg(q));
  }

  lemma NotTable(s: Sym, env: Env, t: Machine, r: int)
    requires r in s.regs && s.regs[r].Table? && env.base == 0 && t.reg(r) == Another(Wrap(s.regs[r].at))
    ensures !Described(s, env, t)
  {
    hide Sat;
    forall val | Sat(s, env, val, t)
      ensures false
    {
      MeansAt(s, env, val, t, r);
    }
  }

  // What is shown does not depend on the TOC pointer.
  lemma SameShown(s: Sym, tables: Tables, a: int, b: int, val: int -> int)
    ensures Shown(s, Blank(tables, a, true), val).reg(2) == Shown(s, Blank(tables, b, true), val).reg(2)
  {
  }

  lemma LoadTaken(i: Insn, off: int, nxt: int, tables: Tables, s: Sym, env: Env, m: Machine, t: Machine)
    requires i.LoadToc? && Misjudged(i, false, off, nxt, tables, s)
    requires env.rebased(i.key) && m.reg(2) != env.got && RegsKept(m, t, {i.rt}) && CrKept(m, t) && t.ctr == m.ctr
    ensures Exec(i, off, nxt, env, m, t) && TocThere(i, env, m)
    ensures var (at, ref) := tables[(i.key, i.width)];
      SymStep(i, off, nxt, tables, s) == Some(s.(regs := (s.regs - {i.rt})[i.rt := Table(at, {ref})]))
  {
  }

  // ---- a rewritten word ----

  lemma AlteredBreaks(i: Insn, off: int, nxt: int, tables: Tables, s: Sym, val: int -> int)
    returns (s': Sym, env: Env, m: Machine, t: Machine)
    requires Misjudged(i, true, off, nxt, tables, s) && Possible(s, val)
    ensures Stepped(i, true, off, nxt, tables, s, s', env, val, m, t) && !Described(s', env, t)
  {
    hide Sat, Possible, SymStep, Vague, Words, InUse, Shown;
    PossibleInUse(s, val);
    s' := SymStep(i, off, nxt, tables, s).value;
    StaysInUse(i, off, nxt, tables, s, s');
    var env0, t0 := NotVagueSays(s', tables);
    t := t0;
    var m0 := Shown(s, env0, val);
    env := env0.(got := m0.reg(2));
    LinkedWords(env0, t, tables);
    m := Shown(s, env, val);
    ShownSat(s, env, val);
    SamePlace(s, env0, env.got, val);
    SameTruth(s', env0, env.got, t);
  }

  lemma PossibleInUse(s: Sym, val: int -> int)
    requires Possible(s, val)
    ensures InUse(s)
  {
  }

  lemma LinkedWords(env: Env, t: Machine, tables: Tables)
    requires Linked(env, tables) && Sane(env, t)
    ensures Words(env)
    ensures forall got :: Words(env.(got := got)) && Linked(env.(got := got), tables) && Sane(env.(got := got), t)
  {
  }

  lemma SamePlace(s: Sym, env: Env, got: int, val: int -> int)
    ensures Shown(s, env, val).reg(2) == Shown(s, env.(got := got), val).reg(2)
  {
  }

  lemma SameTruth(s: Sym, env: Env, got: int, m: Machine)
    ensures Described(s, env.(got := got), m) ==> Described(s, env, m)
  {
    hide Sat;
    forall val | Sat(s, env.(got := got), val, m)
      ensures Sat(s, env, val, m)
    {
      SameSat(s, env, got, val, m);
    }
  }

  lemma SameSat(s: Sym, env: Env, got: int, val: int -> int, m: Machine)
    requires Sat(s, env.(got := got), val, m)
    ensures Sat(s, env, val, m)
  {
    hide Low, Wrap, SignExtend32, IsEntry, IsTarget, Means;
    forall r | r in s.regs
      ensures Means(s.regs[r], env, val, m.reg(r))
    {
      SameMeaning(s.regs[r], env, got, val, m.reg(r));
    }
    if HoldsTarget(s) { SameCases(env, got, s.ctr.value.at, s.ctr.value.top, m.ctr); }
  }

  lemma SameMeaning(v: Val, env: Env, got: int, val: int -> int, x: int)
    requires Means(v, env.(got := got), val, x)
    ensures Means(v, env, val, x)
  {
    hide Low, Wrap, SignExtend32;
    if v.Entry? { SameCases(env, got, v.at, v.top, x); }
    if v.Target? { SameCases(env, got, v.at, v.top, x); }
  }

  lemma SameCases(env: Env, got: int, at: int, top: int, x: int)
    ensures IsEntry(env.(got := got), at, top, x) ==> IsEntry(env, at, top, x)
    ensures IsTarget(env.(got := got), at, top, x) ==> IsTarget(env, at, top, x)
  {
    hide Wrap, SignExtend32;
    var env' := env.(got := got);
    if IsEntry(env', at, top, x) {
      var i :| 0 <= i <= top && x == Wrap(SignExtend32(env'.word(Wrap(env'.base + at + 4 * i))));
      assert x == Wrap(SignExtend32(env.word(Wrap(env.base + at + 4 * i))));
    }
    if IsTarget(env', at, top, x) {
      var i :| 0 <= i <= top && x == CaseAddress(env', at, i);
      assert x == CaseAddress(env, at, i);
    }
  }
}
