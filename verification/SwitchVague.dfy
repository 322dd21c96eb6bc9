// What a symbolic state says: a machine it describes, and when it describes every machine.
module SwitchVague {
  import opened Collections
  import opened BitMath
  import opened SwitchModel

  // The ids in use are the ones given out, and nothing is wider than a register.
  ghost predicate InUse(s: Sym) {
    && (forall r :: r in s.regs ==> ValInUse(s.regs[r], s.ids))
    && (forall f :: f in s.crs ==> s.crs[f].id <= s.ids && s.crs[f].bits <= 64)
    && BoundsInUse(s.bounds, s.ids)
  }

  predicate ValInUse(v: Val, ids: nat) { Older(v, ids) && (v.V? || v.Scaled? ==> v.bits <= 64) }

  ghost predicate BoundsInUse(bounds: seq<Bound>, ids: nat) {
    forall j :: 0 <= j < |bounds| ==> bounds[j].id <= ids && bounds[j].bits <= 64
  }

  lemma SatInUse(s: Sym, env: Env, val: int -> int, m: Machine)
    requires Sat(s, env, val, m)
    ensures InUse(s)
  {
    hide Low, IsTarget, IsEntry, Wrap;
    forall j | 0 <= j < |s.bounds|
      ensures s.bounds[j].id <= s.ids && s.bounds[j].bits <= 64
    {
      assert BoundHolds(s.bounds[j], s.ids, val);
    }
  }

  lemma {:induction false} AddInUse(bounds: seq<Bound>, ids: nat, id: nat, bits: nat, k: int)
    requires BoundsInUse(bounds, ids) && id <= ids && bits <= 64
    ensures BoundsInUse(AddBound(bounds, id, bits, k), ids)
  {
    if bounds != [] && !(bounds[0].id == id && bounds[0].bits == bits) {
      AddInUse(bounds[1..], ids, id, bits, k);
      assert AddBound(bounds, id, bits, k) == [bounds[0]] + AddBound(bounds[1..], id, bits, k);
    }
  }

  lemma GetInUse(s: Sym, g: int)
    requires InUse(s)
    ensures var (v, t) := Get(s, g);
      InUse(t) && ValInUse(v, t.ids) && t.crs == s.crs && t.ids >= s.ids
  {
    hide Older;
    var (v, t) := Get(s, g);
    WiderUse(s, t.ids);
    LastOlder(t.ids);
  }

  lemma WiderUse(s: Sym, ids: nat)
    requires InUse(s) && s.ids <= ids
    ensures InUse(s.(ids := ids))
  {
  }

  lemma LastOlder(ids: nat)
    ensures ids > 0 ==> ValInUse(V(ids, 64), ids)
  {
  }

  lemma SetInUse(s: Sym, g: int, v: Val)
    requires InUse(s)
    ensures InUse(Kill(s, g))
    ensures ValInUse(v, s.ids) ==> InUse(s.(regs := s.regs[g := v])) && InUse(Kill(s, g).(regs := Kill(s, g).regs[g := v]))
  {
    hide Older;
  }

  lemma StaysInUse(i: Insn, off: int, nxt: int, tables: Tables, s: Sym, s': Sym)
    requires InUse(s) && SymStep(i, off, nxt, tables, s) == Some(s')
    ensures InUse(s')
  {
    hide *;
    match i
    case Cmpl(_, _, _, _) => CompareInUse(i, off, nxt, tables, s, s');
    case Trap(_, _, _) => CompareInUse(i, off, nxt, tables, s, s');
    case Bc(_, _, _, _) => CompareInUse(i, off, nxt, tables, s, s');
    case Rlwinm(_, _, _, _, _) => MaskInUse(i, off, nxt, tables, s, s');
    case Rld(_, _, _, _, _) => MaskInUse(i, off, nxt, tables, s, s');
    case Or(_, _, _) => MaskInUse(i, off, nxt, tables, s, s');
    case Lwax(_, _, _) => TableInUse(i, off, nxt, tables, s, s');
    case Add(_, _, _) => TableInUse(i, off, nxt, tables, s, s');
    case AddisHa(_, _) => TableInUse(i, off, nxt, tables, s, s');
    case LoadToc(_, _, _, _, _, _) => TableInUse(i, off, nxt, tables, s, s');
    case _ => DropInUse(i, off, nxt, tables, s, s');
  }

  lemma CompareInUse(i: Insn, off: int, nxt: int, tables: Tables, s: Sym, s': Sym)
    requires i.Cmpl? || i.Trap? || i.Bc?
    requires InUse(s) && SymStep(i, off, nxt, tables, s) == Some(s')
    ensures InUse(s')
  {
    hide AddBound, Get, BoundsInUse;
    if i.Bc? {
      if i.bi / 4 in s.crs {
        var c := s.crs[i.bi / 4];
        AddInUse(s.bounds, s.ids, c.id, Min(c.bits, c.wide), c.k);
      }
    } else {
      GetInUse(s, i.ra);
      var (v, t) := Get(s, i.ra);
      if i.Trap? && v.V? { AddInUse(t.bounds, t.ids, v.id, Min(v.bits, i.wide), i.k); }
    }
  }

  lemma MaskInUse(i: Insn, off: int, nxt: int, tables: Tables, s: Sym, s': Sym)
    requires i.Rlwinm? || i.Rld? || i.Or?
    requires InUse(s) && SymStep(i, off, nxt, tables, s) == Some(s')
    ensures InUse(s')
  {
    hide InUse, Get, BoundsInUse;
    GetInUse(s, i.rs);
    var (v, t) := Get(s, i.rs);
    SetInUse(s, i.ra, v);
    SetInUse(t, i.ra, v);
    if i.ra in s'.regs { SetInUse(t, i.ra, s'.regs[i.ra]); }
  }

  lemma TableInUse(i: Insn, off: int, nxt: int, tables: Tables, s: Sym, s': Sym)
    requires i.Lwax? || i.Add? || i.AddisHa? || i.LoadToc?
    requires InUse(s) && SymStep(i, off, nxt, tables, s) == Some(s')
    ensures InUse(s')
  {
    hide InUse, BoundsInUse, BoundOf;
    SetInUse(s, i.rt, Ha((0, 0)));
    if i.rt in s'.regs { SetInUse(s, i.rt, s'.regs[i.rt]); }
  }

  lemma DropInUse(i: Insn, off: int, nxt: int, tables: Tables, s: Sym, s': Sym)
    requires i.Mtctr? || i.MtctrRc? || i.MtOther? || i.Havoc? || i.Plain? || i.BranchReg? || i.Syscall?
    requires InUse(s) && SymStep(i, off, nxt, tables, s) == Some(s')
    ensures InUse(s')
  {
    hide BoundsInUse, Older;
  }

  // ---- a state that says nothing ----

  // The value that explains what a machine has in the one register that holds it, or how it
  // compared.
  ghost function Explained(s: Sym, m: Machine, id: int): int {
    if id >= 0 && Pinned(s, id) then var r :| r in s.regs && s.regs[r] == V(id, 64); m.reg(r)
    else if id >= 0 && CanAnswer(s, id, m.gt) then var x :| Answers(s, id, m.gt, x); x
    else 0
  }

  // A state that says nothing describes every machine.
  lemma VagueDescribes(s: Sym, env: Env, m: Machine)
    requires Vague(s) && InUse(s) && Sane(env, m)
    ensures Described(s, env, m)
  {
    hide Low;
    var val := id => Explained(s, m, id);
    forall r | r in s.regs
      ensures Means(s.regs[r], env, val, m.reg(r))
    {
      OneRegister(s, m, r);
      Low64(m.reg(r));
    }
    forall f | f in s.crs
      ensures m.gt(f) == Above(s.crs[f], val(s.crs[f].id))
    {
      NotPinned(s, f);
      assert CanAnswer(s, s.crs[f].id, m.gt);
    }
    forall j | 0 <= j < |s.bounds|
      ensures BoundHolds(s.bounds[j], s.ids, val)
    {
      BoundExplained(s, env, m, j);
    }
    assert Sat(s, env, val, m);
  }

  lemma OneRegister(s: Sym, m: Machine, r: int)
    requires Vague(s) && r in s.regs
    ensures Explained(s, m, s.regs[r].id) == m.reg(r)
  {
    hide Low, Unbounded;
  }

  lemma NotPinned(s: Sym, f: int)
    requires Vague(s) && f in s.crs
    ensures !Pinned(s, s.crs[f].id)
  {
  }

  lemma BoundExplained(s: Sym, env: Env, m: Machine, j: int)
    requires Vague(s) && Sane(env, m) && 0 <= j < |s.bounds|
    ensures Low(Explained(s, m, s.bounds[j].id), s.bounds[j].bits) <= s.bounds[j].k
  {
    hide Low;
    var id := s.bounds[j].id;
    if Pinned(s, id) {
      var r :| r in s.regs && s.regs[r] == V(id, 64);
      OneRegister(s, m, r);
    } else {
      assert CanAnswer(s, id, m.gt);
    }
  }

  // Behind a rewritten word only a state that says nothing is right.
  lemma AlteredSound(i: Insn, off: int, nxt: int, tables: Tables, s: Sym, s': Sym, env: Env, val: int -> int, m: Machine, t: Machine)
    returns (val': int -> int)
    requires !Misjudged(i, true, off, nxt, tables, s) && SymStep(i, off, nxt, tables, s) == Some(s')
    requires Sat(s, env, val, m) && Sane(env, t)
    ensures Sat(s', env, val', t)
  {
    hide Sat, SymStep, Sane, Vague, InUse;
    SatInUse(s, env, val, m);
    StaysInUse(i, off, nxt, tables, s, s');
    VagueDescribes(s', env, t);
    val' :| Sat(s', env, val', t);
  }

  // ---- a machine the state describes ----

  // Symbolic states that describe a machine under these values.
  ghost predicate Possible(s: Sym, val: int -> int) {
    && InUse(s) && (forall r :: r in s.regs ==> Fits(s.regs[r]))
    && (forall j :: 0 <= j < |s.bounds| ==> BoundHolds(s.bounds[j], s.ids, val))
    && (HoldsTarget(s) ==> Fits(s.ctr.value))
  }

  predicate Fits(v: Val) {
    match v
    case V(_, bits) => bits <= 64
    case Scaled(_, bits) => bits <= 62
    case Entry(_, top, _) => top >= 0
    case Target(_, top, _) => top >= 0
    case _ => true
  }

  // A content with that meaning; of a table, its first word.
  ghost function Content(v: Val, env: Env, val: int -> int): int {
    match v
    case V(id, bits) => Low(val(id), bits)
    case Scaled(id, bits) => 4 * Low(val(id), bits)
    case Ha(key) => env.ha(key)
    case Table(at, _) => Wrap(env.base + at)
    case Entry(at, _, _) => Wrap(SignExtend32(env.word(Wrap(env.base + at + 4 * 0))))
    case Target(at, _, _) => CaseAddress(env, at, 0)
  }

  ghost function Shown(s: Sym, env: Env, val: int -> int): Machine {
    Machine(r => if r in s.regs then Content(s.regs[r], env, val) else 0,
            f => f in s.crs && Above(s.crs[f], val(s.crs[f].id)),
            if HoldsTarget(s) then Content(s.ctr.value, env, val) else 0)
  }

  ghost predicate Words(env: Env) {
    (forall a :: 0 <= env.word(a) < P32) && forall key :: 0 <= env.ha(key) < P64
  }

  lemma ContentMeans(v: Val, env: Env, val: int -> int)
    requires Fits(v) && Words(env)
    ensures Means(v, env, val, Content(v, env, val)) && 0 <= Content(v, env, val) < P64
  {
    hide Low, SignExtend32;
    match v
    case V(id, bits) => ContentLow(val(id), bits, 64);
    case Scaled(id, bits) => ContentLow(val(id), bits, 62);
    case _ =>
  }

  lemma ContentLow(x: int, n: nat, m: nat)
    requires n <= m && (m == 62 || m == 64)
    ensures 0 <= Low(x, n) && (m == 64 ==> Low(x, n) < P64) && (m == 62 ==> 4 * Low(x, n) < P64)
  {
    hide Low, Pow2;
    Powers();
    LowShrinks(x, n, m);
    LowBelow(x, m);
  }

  lemma ShownSat(s: Sym, env: Env, val: int -> int)
    requires Possible(s, val) && Words(env)
    ensures Sat(s, env, val, Shown(s, env, val))
  {
    hide Low, Content, Means, Fits;
    var m := Shown(s, env, val);
    forall r
      ensures 0 <= m.reg(r) < P64 && (r in s.regs ==> Means(s.regs[r], env, val, m.reg(r)))
    {
      if r in s.regs { ContentMeans(s.regs[r], env, val); }
    }
    if HoldsTarget(s) { TargetShown(s.ctr.value, env, val); }
  }

  lemma TargetShown(v: Val, env: Env, val: int -> int)
    requires v.Target? && Fits(v) && Words(env)
    ensures IsTarget(env, v.at, v.top, Content(v, env, val))
  {
    ContentMeans(v, env, val);
  }

  lemma SatPossible(s: Sym, env: Env, val: int -> int, m: Machine)
    requires Sat(s, env, val, m)
    ensures Possible(s, val)
  {
    hide Low, Wrap, SignExtend32;
    SatInUse(s, env, val, m);
  }

  // ---- the state says something ----

  // An image of zeroes at address 0, with its tables linked.
  ghost function Blank(tables: Tables, got: int, rebased: bool): Env {
    Env(0, (a: int) => 0, got,
        (key: Key, width: int) => if (key, width) in tables then Wrap(tables[(key, width)].0) else 0,
        (key: Key) => 0, (key: Key) => rebased)
  }

  lemma BlankLinked(tables: Tables, got: int, rebased: bool)
    ensures Linked(Blank(tables, got, rebased), tables) && Words(Blank(tables, got, rebased))
  {
  }

  function Only(r: int, x: int): Machine { Machine(q => if q == r then x else 0, f => false, 0) }

  function Another(x: int): int { if x == 0 then 1 else 0 }

  // All cases and table words of the blank image are the same.
  lemma BlankWords(tables: Tables, at: int, top: int, x: int)
    ensures IsTarget(Blank(tables, 0, false), at, top, x) ==> x == Wrap(at)
    ensures IsEntry(Blank(tables, 0, false), at, top, x) ==> x == 0
  {
  }

  // A register that holds less than a whole value says something.
  lemma RegisterSays(s: Sym, tables: Tables, r: int) returns (env: Env, t: Machine)
    requires r in s.regs && !(s.regs[r].V? && s.regs[r].bits == 64)
    ensures Linked(env, tables) && Sane(env, t) && !Described(s, env, t)
  {
    hide Low;
    env := Blank(tables, 0, false);
    BlankLinked(tables, 0, false);
    var v := s.regs[r];
    var x := match v
      case V(_, _) => P64 - 1
      case Table(at, _) => Another(Wrap(at))
      case Target(at, _, _) => Another(Wrap(at))
      case _ => 1;
    t := Only(r, x);
    forall val | Sat(s, env, val, t)
      ensures false
    {
      MeansAt(s, env, val, t, r);
      match v
      case V(id, bits) => Narrow(val(id), bits);
      case Entry(at, top, _) => BlankWords(tables, at, top, x);
      case Target(at, top, _) => BlankWords(tables, at, top, x);
      case _ =>
    }
  }

  lemma Narrow(x: int, bits: nat)
    ensures bits < 64 ==> Low(x, bits) < P64 - 1
  {
    hide Low, Pow2;
    if bits < 64 {
      Powers();
      PowAdd(1, 63);
      SmallPowers();
      LowShrinks(x, bits, 63);
      LowBelow(x, 63);
    }
  }

  lemma MeansAt(s: Sym, env: Env, val: int -> int, m: Machine, r: int)
    requires Sat(s, env, val, m) && r in s.regs
    ensures Means(s.regs[r], env, val, m.reg(r))
  {
  }

  lemma CtrSays(s: Sym, tables: Tables) returns (env: Env, t: Machine)
    requires HoldsTarget(s)
    ensures Linked(env, tables) && Sane(env, t) && !Described(s, env, t)
  {
    hide Low;
    env := Blank(tables, 0, false);
    BlankLinked(tables, 0, false);
    var at, top := s.ctr.value.at, s.ctr.value.top;
    t := Only(0, 0).(ctr := Another(Wrap(at)));
    BlankWords(tables, at, top, t.ctr);
    forall val | Sat(s, env, val, t)
      ensures false
    {
      TargetSaid(s, env, val, t);
    }
  }

  lemma TargetSaid(s: Sym, env: Env, val: int -> int, m: Machine)
    requires Sat(s, env, val, m) && HoldsTarget(s)
    ensures IsTarget(env, s.ctr.value.at, s.ctr.value.top, m.ctr)
  {
  }

  // Two registers with one value, a bound on it, or a compare of it.
  lemma PairSays(s: Sym, tables: Tables, r: int, q: int) returns (env: Env, t: Machine)
    requires r in s.regs && q in s.regs && r != q && s.regs[r] == s.regs[q] && s.regs[r].V? && s.regs[r].bits == 64
    ensures Linked(env, tables) && Sane(env, t) && !Described(s, env, t)
  {
    hide Low;
    env, t := Blank(tables, 0, false), Only(r, 1);
    BlankLinked(tables, 0, false);
    forall val | Sat(s, env, val, t)
      ensures false
    {
      MeansAt(s, env, val, t, r);
      MeansAt(s, env, val, t, q);
    }
  }

  lemma BoundSays(s: Sym, tables: Tables, r: int, j: int, x: int) returns (env: Env, t: Machine)
    requires InUse(s) && r in s.regs && s.regs[r].V? && s.regs[r].bits == 64
    requires 0 <= j < |s.bounds| && s.bounds[j].id == s.regs[r].id && 0 <= x < P64 && Low(x, s.bounds[j].bits) > s.bounds[j].k
    ensures Linked(env, tables) && Sane(env, t) && !Described(s, env, t)
  {
    hide Low;
    env, t := Blank(tables, 0, false), Only(r, x);
    BlankLinked(tables, 0, false);
    forall val | Sat(s, env, val, t)
      ensures false
    {
      MeansAt(s, env, val, t, r);
      assert BoundHolds(s.bounds[j], s.ids, val);
      LowLow(val(s.regs[r].id), 64, s.bounds[j].bits);
    }
  }

  lemma CompareSays(s: Sym, tables: Tables, r: int, f: int) returns (env: Env, t: Machine)
    requires InUse(s) && r in s.regs && s.regs[r].V? && s.regs[r].bits == 64 && f in s.crs && s.crs[f].id == s.regs[r].id
    ensures Linked(env, tables) && Sane(env, t) && !Described(s, env, t)
  {
    hide Low;
    var c := s.crs[f];
    env, t := Blank(tables, 0, false), Only(r, 0).(gt := g => g == f && !Above(c, 0));
    BlankLinked(tables, 0, false);
    forall val | Sat(s, env, val, t)
      ensures false
    {
      MeansAt(s, env, val, t, r);
      CompareSaid(s, env, val, t, f);
      LowLow(val(c.id), 64, Min(c.bits, c.wide));
    }
  }

  lemma CompareSaid(s: Sym, env: Env, val: int -> int, m: Machine, f: int)
    requires Sat(s, env, val, m) && f in s.crs
    ensures m.gt(f) == Above(s.crs[f], val(s.crs[f].id))
  {
  }

  lemma SatAnswers(s: Sym, env: Env, val: int -> int, m: Machine, id: nat)
    requires Sat(s, env, val, m)
    ensures CanAnswer(s, id, m.gt)
  {
    hide Low, Means;
    forall j | 0 <= j < |s.bounds| && s.bounds[j].id == id
      ensures Low(val(id), s.bounds[j].bits) <= s.bounds[j].k
    {
      assert BoundHolds(s.bounds[j], s.ids, val);
    }
    assert Answers(s, id, m.gt, val(id));
  }

  // Outcomes of the compares that no value gives.
  lemma OutcomesSay(s: Sym, tables: Tables, id: nat, g: int -> bool) returns (env: Env, t: Machine)
    requires !CanAnswer(s, id, g)
    ensures Linked(env, tables) && Sane(env, t) && !Described(s, env, t)
  {
    hide Low, Means, CanAnswer, Sat;
    env, t := Blank(tables, 0, false), Only(0, 0).(gt := g);
    BlankLinked(tables, 0, false);
    forall val | Sat(s, env, val, t)
      ensures false
    {
      SatAnswers(s, env, val, t, id);
    }
  }

  lemma NotVagueSays(s: Sym, tables: Tables) returns (env: Env, t: Machine)
    requires InUse(s) && !Vague(s)
    ensures Linked(env, tables) && Sane(env, t) && !Described(s, env, t)
  {
    hide Described, Sane, Linked, InUse, CanAnswer, Low;
    if HoldsTarget(s) {
      env, t := CtrSays(s, tables);
    } else if r :| r in s.regs && !(s.regs[r].V? && s.regs[r].bits == 64) {
      env, t := RegisterSays(s, tables, r);
    } else if r :| r in s.regs && !Unbounded(s, s.regs[r].id) {
      if f :| f in s.crs && s.crs[f].id == s.regs[r].id {
        env, t := CompareSays(s, tables, r, f);
      } else {
        var j, x :| 0 <= j < |s.bounds| && s.bounds[j].id == s.regs[r].id && 0 <= x < P64 && Low(x, s.bounds[j].bits) > s.bounds[j].k;
        env, t := BoundSays(s, tables, r, j, x);
      }
    } else if r, q :| r in s.regs && q in s.regs && r != q && s.regs[r] == s.regs[q] {
      env, t := PairSays(s, tables, r, q);
    } else {
      var id: nat, g :| !Pinned(s, id) && !CanAnswer(s, id, g);
      env, t := OutcomesSay(s, tables, id, g);
    }
  }

  // A state describes every machine of every linked image if and only if it is vague.
  lemma VagueExactly(s: Sym, tables: Tables)
    requires InUse(s)
    ensures (forall env, t :: Linked(env, tables) && Sane(env, t) ==> Described(s, env, t)) <==> Vague(s)
  {
    hide Described, Sane, Linked, InUse, Vague;
    if Vague(s) {
      forall env, t | Linked(env, tables) && Sane(env, t)
        ensures Described(s, env, t)
      {
        VagueDescribes(s, env, t);
      }
    } else {
      var env, t := NotVagueSays(s, tables);
    }
  }
}
