// What the return proof works on: instructions seen through their effect on the general
// registers, LR and the stack, the machine they run on, and the facts the proof keeps.
module ReturnModel {
  import opened Collections

  // The LR save slot, from the stack pointer at entry.
  const SLOT_OFF := 16
  const SLOT_WIDTH := 8

  const VOLATILE: set<int> := {0, 3, 4, 5, 6, 7, 8, 9, 10, 11, 12}

  // A store whose base is r1: at a constant offset, with r1 moved there, or anywhere.
  datatype Target = At(disp: int, width: nat) | Update(disp: int, width: nat) | Anywhere

  datatype Insn =
    | Mflr(rt: int)
    | Mtlr(rt: int)
    | Branch(link: bool)
    | Store(target: Target, dword: bool, rs: int, writes: set<int>)
    | AddiR1(n: int)
    | LdR1(rt: int, disp: int)       // rt is not r1
    | Other(writes: set<int>)        // writes no memory through r1
    | Syscall
    | Unmodelled

  // ---- the machine ----

  datatype Machine = Machine(reg: int -> int, lr: int, mem: int -> int)

  // The eight bytes at a, most significant first.
  function Load64(mem: int -> int, a: int): int {
    mem(a) * 0x100_0000_0000_0000 + mem(a + 1) * 0x1_0000_0000_0000 + mem(a + 2) * 0x100_0000_0000
    + mem(a + 3) * 0x1_0000_0000 + mem(a + 4) * 0x100_0000 + mem(a + 5) * 0x1_0000 + mem(a + 6) * 0x100 + mem(a + 7)
  }

  // Who called: the stack pointer and the return address at entry.
  datatype Entry = Entry(sp: int, lr: int)

  ghost predicate SlotKept(e: Entry, s: Machine, t: Machine) {
    forall a :: e.sp + SLOT_OFF <= a < e.sp + SLOT_OFF + SLOT_WIDTH ==> t.mem(a) == s.mem(a)
  }

  ghost predicate RegsKept(s: Machine, t: Machine, written: set<int>) {
    forall r :: r !in written ==> t.reg(r) == s.reg(r)
  }

  ghost predicate MemKeptOutside(s: Machine, t: Machine, lo: int, hi: int) {
    forall a :: a < lo || hi <= a ==> t.mem(a) == s.mem(a)
  }

  // ld r1 is decoded as Other({1}); std and stdu write eight bytes.
  predicate Decoded(i: Insn) {
    match i
    case LdR1(rt, _) => rt != 1
    case Store(At(_, width), dword, _, _) => dword ==> width == SLOT_WIDTH
    case Store(Update(_, width), dword, _, _) => dword ==> width == SLOT_WIDTH
    case _ => true
  }

  // One instruction.  The ABI's slot contract shows in Branch and Other: a callee gives back
  // the non-volatile registers, and nothing but a store through r1 reaches the slot.
  ghost predicate Exec(i: Insn, e: Entry, s: Machine, t: Machine) {
    match i
    case Mflr(rt) => RegsKept(s, t, {rt}) && t.reg(rt) == s.lr && t.lr == s.lr && t.mem == s.mem
    case Mtlr(rt) => RegsKept(s, t, {}) && t.lr == s.reg(rt) && t.mem == s.mem
    case Branch(link) =>
      if link then RegsKept(s, t, VOLATILE) && SlotKept(e, s, t) else t == s
    case Store(target, dword, rs, writes) =>
      && t.lr == s.lr
      && (match target
          case At(disp, width) =>
            && RegsKept(s, t, writes)
            && MemKeptOutside(s, t, s.reg(1) + disp, s.reg(1) + disp + width)
            && (dword ==> Load64(t.mem, s.reg(1) + disp) == s.reg(rs))
          case Update(disp, width) =>
            && RegsKept(s, t, writes + {1}) && t.reg(1) == s.reg(1) + disp
            && MemKeptOutside(s, t, s.reg(1) + disp, s.reg(1) + disp + width)
            && (dword ==> Load64(t.mem, s.reg(1) + disp) == s.reg(rs))
          case Anywhere => RegsKept(s, t, writes))
    case AddiR1(n) => RegsKept(s, t, {1}) && t.reg(1) == s.reg(1) + n && t.lr == s.lr && t.mem == s.mem
    case LdR1(rt, disp) =>
      RegsKept(s, t, {rt}) && t.reg(rt) == Load64(s.mem, s.reg(1) + disp) && t.lr == s.lr && t.mem == s.mem
    case Other(writes) => RegsKept(s, t, writes) && t.lr == s.lr && SlotKept(e, s, t)
    case Syscall => RegsKept(s, t, VOLATILE) && SlotKept(e, s, t)     // the kernel does not give LR back
    case Unmodelled => true
  }

  // What happens at a word decoded as i: if a relocation makes another instruction of it, anything.
  ghost predicate Does(i: Insn, altered: bool, e: Entry, s: Machine, t: Machine) {
    altered || Exec(i, e, s, t)
  }

  // ---- the facts ----

  datatype Sp = Known(off: int) | SpUnknown
  datatype Lr = AtEntry | LrUnknown
  datatype Slot = NotSaved | Saved | Late | SlotUnknown

  // Stack pointer, LR, registers holding an mflr copy, registers reloaded from the slot, slot.
  datatype Facts = Facts(sp: Sp, lr: Lr, copies: set<int>, reloads: set<int>, slot: Slot)

  const UNKNOWN := Facts(SpUnknown, LrUnknown, {}, {}, SlotUnknown)
  const ROOT := Facts(Known(0), AtEntry, {}, {}, NotSaved)

  function Merge(a: Option<Facts>, b: Facts): Facts {
    match a
    case None => b
    case Some(f) => Facts(if f.sp == b.sp then f.sp else UNKNOWN.sp,
                          if f.lr == b.lr then f.lr else UNKNOWN.lr,
                          if f.copies == b.copies then f.copies else UNKNOWN.copies,
                          if f.reloads == b.reloads then f.reloads else UNKNOWN.reloads,
                          if f.slot == b.slot then f.slot else UNKNOWN.slot)
  }

  // The one write effect.
  function Wrote(f: Facts, regs: set<int>): Facts {
    f.(sp := if 1 in regs then SpUnknown else f.sp, copies := f.copies - regs, reloads := f.reloads - regs)
  }

  predicate IsSlot(lo: int, hi: int) {
    lo == SLOT_OFF && hi == SLOT_OFF + SLOT_WIDTH
  }

  function Step(i: Insn, f: Facts): Facts {
    match i
    case Mflr(rt) =>
      var g := Wrote(f, {rt});
      if f.lr == AtEntry && f.slot == NotSaved && rt != 1 then g.(copies := g.copies + {rt}) else g
    case Mtlr(rt) => f.(lr := if rt in f.reloads then AtEntry else LrUnknown)
    case Branch(link) =>
      if link then Wrote(f, VOLATILE).(lr := LrUnknown, slot := if f.slot == NotSaved then Late else f.slot)
      else f
    case Unmodelled => UNKNOWN
    case Store(target, dword, rs, writes) =>
      if target.Anywhere? || f.sp == SpUnknown then
        Wrote(f, writes).(slot := if f.slot != NotSaved then SlotUnknown else Late)
      else
        var lo := f.sp.off + target.disp;
        var slot := if IsSlot(lo, lo + target.width) && dword && rs in f.copies && f.slot == NotSaved
                    then Saved else f.slot;
        if target.Update? then Wrote(f, writes - {1}).(sp := Known(lo), slot := slot)
        else Wrote(f, writes).(slot := slot)
    case AddiR1(n) => f.(sp := if f.sp.Known? then Known(f.sp.off + n) else SpUnknown)
    case LdR1(rt, disp) =>
      var g := Wrote(f, {rt});
      if f.sp.Known? && f.slot == Saved && IsSlot(f.sp.off + disp, f.sp.off + disp + 8)
      then g.(reloads := g.reloads + {rt}) else g
    case Other(writes) => Wrote(f, writes)
    case Syscall => Wrote(f, VOLATILE)
  }

  // The original save.
  predicate Saves(i: Insn, f: Facts) { f.slot == NotSaved && Step(i, f).slot == Saved }

  // What the final sweep asks of a store through r1: it misses the slot, or is the save itself.
  predicate StoreAllowed(i: Insn, f: Facts) {
    i.Store? ==>
      && !i.target.Anywhere? && f.sp.Known?
      && var lo := f.sp.off + i.target.disp;
         (lo < SLOT_OFF + SLOT_WIDTH && SLOT_OFF < lo + i.target.width ==> Saves(i, f))
  }

  // ---- in numbers ----

  // The slot is the doubleword 16 above the stack pointer at entry; a doubleword is read most
  // significant byte first; a call keeps r1, r2 and r13 on.
  lemma SlotIs(lo: int, hi: int)
    ensures IsSlot(lo, hi) <==> lo == 16 && hi == 24
  {
  }

  lemma DoublewordIs(mem: int -> int, a: int)
    ensures Load64(mem, a) == ((((((mem(a) * 256 + mem(a + 1)) * 256 + mem(a + 2)) * 256 + mem(a + 3)) * 256 + mem(a + 4)) * 256
                                + mem(a + 5)) * 256 + mem(a + 6)) * 256 + mem(a + 7)
  {
  }

  lemma VolatileAre(r: int)
    ensures r in VOLATILE <==> r == 0 || 3 <= r <= 12
  {
  }

  // A store is let through if it is the save, or no byte it writes is the slot's.
  lemma AllowedExactly(i: Insn, f: Facts)
    requires i.Store? && !i.target.Anywhere? && f.sp.Known? && i.target.width > 0
    ensures var lo := f.sp.off + i.target.disp;
      StoreAllowed(i, f) <==> Saves(i, f) || forall b :: lo <= b < lo + i.target.width ==> !InSlot(b)
  {
    var lo := f.sp.off + i.target.disp;
    var b := if lo <= 16 then 16 else lo;
    assert lo < 24 && 16 < lo + i.target.width ==> lo <= b < lo + i.target.width && InSlot(b);
  }

  predicate InSlot(b: int) { 16 <= b < 24 }

  // ---- what a step forgets ----

  // The registers an instruction may write.
  function Writes(i: Insn): set<int> {
    match i
    case Mflr(rt) => {rt}
    case LdR1(rt, _) => {rt}
    case AddiR1(_) => {1}
    case Store(target, _, _, writes) => if target.Update? then writes + {1} else writes
    case Other(writes) => writes
    case Branch(link) => if link then VOLATILE else {}
    case Syscall => VOLATILE
    case _ => {}
  }

  lemma WritesAre(i: Insn, e: Entry, s: Machine, t: Machine, r: int)
    requires Exec(i, e, s, t) && i != Unmodelled && r !in Writes(i)
    ensures t.reg(r) == s.reg(r)
  {
  }

  // What is known of registers it does not write, of r1 through constants, of LR and of the save
  // stays known, unless a store may go anywhere.
  lemma NothingLost(i: Insn, f: Facts, r: int)
    requires i != Unmodelled
    ensures var g := Step(i, f);
      && (r !in Writes(i) ==> (r in f.copies ==> r in g.copies) && (r in f.reloads ==> r in g.reloads))
      && (f.lr == AtEntry && !i.Mtlr? && i != Branch(true) ==> g.lr == AtEntry)
      && (f.sp.Known? && 1 !in Writes(i) ==> g.sp == f.sp)
      && (f.slot == Saved && !(i.Store? && (i.target.Anywhere? || f.sp.SpUnknown?)) ==> g.slot == Saved)
      && (f.slot == NotSaved && i != Branch(true) && !i.Store? ==> g.slot == NotSaved)
  {
  }

  // What is learnt: a copy of LR while it is the caller's, the save of a copy, a reload of the save,
  // LR from a reload, and where r1 goes.
  lemma Learns(i: Insn, f: Facts)
    ensures i.Mflr? && i.rt != 1 && f.lr == AtEntry && f.slot == NotSaved ==> i.rt in Step(i, f).copies
    ensures (i.Store? && i.dword && !i.target.Anywhere? && i.target.width == 8 && f.sp.Known? && f.sp.off + i.target.disp == 16
             && i.rs in f.copies && f.slot == NotSaved) ==> Step(i, f).slot == Saved
    ensures i.LdR1? && f.sp.Known? && f.sp.off + i.disp == 16 && f.slot == Saved ==> i.rt in Step(i, f).reloads
    ensures i.Mtlr? && i.rt in f.reloads ==> Step(i, f).lr == AtEntry
    ensures f.sp.Known? && i.AddiR1? ==> Step(i, f).sp == Known(f.sp.off + i.n)
    ensures f.sp.Known? && i.Store? && i.target.Update? && i.writes <= {1} ==> Step(i, f).sp == Known(f.sp.off + i.target.disp)
  {
  }

  // ---- facts and machine states ----

  // A system call takes LR, and an altered word anything: which of the facts may be wrong for
  // that on the way come.  Copies, the save and reloads carry it; after a lost word nothing holds.
  datatype Taint = Lost | Taint(lr: bool, regs: set<int>, slot: bool)

  const CLEAN := Taint(false, {}, false)

  function Spread(i: Insn, altered: bool, f: Facts, u: Taint): Taint {
    if altered || u.Lost? then Lost
    else
      match i
      case Mflr(rt) => u.(regs := if u.lr then u.regs + {rt} else u.regs - {rt})
      case Mtlr(rt) => u.(lr := rt in u.regs)
      case Branch(link) => if link then u.(lr := false, regs := u.regs - VOLATILE) else u
      case Store(_, _, rs, writes) =>
        u.(regs := u.regs - writes - {1}, slot := if Saves(i, f) then rs in u.regs else u.slot)
      case AddiR1(_) => u.(regs := u.regs - {1})
      case LdR1(rt, _) => u.(regs := if rt in Step(i, f).reloads && u.slot then u.regs + {rt} else u.regs - {rt})
      case Other(writes) => u.(regs := u.regs - writes)
      case Syscall => u.(lr := true, regs := u.regs - VOLATILE)
      case Unmodelled => CLEAN
  }

  // LR need not be the caller's.
  predicate Spoiled(u: Taint) { u.Lost? || u.lr }

  // The facts hold but for what is tainted.
  ghost predicate HoldsBut(f: Facts, u: Taint, e: Entry, s: Machine) {
    && 1 !in f.copies && 1 !in f.reloads
    && (!u.Lost? ==>
          && (f.sp.Known? ==> s.reg(1) == e.sp + f.sp.off)
          && (f.lr == AtEntry && !u.lr ==> s.lr == e.lr)
          && (forall r :: (r in f.copies || r in f.reloads) && r !in u.regs ==> s.reg(r) == e.lr)
          && (f.slot == Saved && !u.slot ==> Load64(s.mem, e.sp + SLOT_OFF) == e.lr))
  }

  ghost predicate Holds(f: Facts, e: Entry, s: Machine) { HoldsBut(f, CLEAN, e, s) }

  // f says no more than g does.
  predicate Weaker(f: Facts, g: Facts) {
    && (f.sp == g.sp || f.sp == UNKNOWN.sp) && (f.lr == g.lr || f.lr == UNKNOWN.lr)
    && (f.copies == g.copies || f.copies == UNKNOWN.copies)
    && (f.reloads == g.reloads || f.reloads == UNKNOWN.reloads)
    && (f.slot == g.slot || f.slot == UNKNOWN.slot)
  }

  lemma WeakerHolds(f: Facts, g: Facts, u: Taint, e: Entry, s: Machine)
    requires Weaker(f, g) && HoldsBut(g, u, e, s)
    ensures HoldsBut(f, u, e, s)
  {
  }

  // A merge that changes nothing says no more than either side.
  lemma MergeSettled(f: Facts, g: Facts)
    ensures Merge(Some(f), g) == f <==> Weaker(f, g)
  {
  }

  lemma SameBytes(m: int -> int, m': int -> int, a: int)
    requires forall b :: a <= b < a + 8 ==> m(b) == m'(b)
    ensures Load64(m, a) == Load64(m', a)
  {
  }

  // The transfer function is sound for every instruction the sweep lets through, but for the taint.
  lemma StepSound(i: Insn, altered: bool, f: Facts, u: Taint, e: Entry, s: Machine, t: Machine)
    requires Decoded(i) && HoldsBut(f, u, e, s) && Does(i, altered, e, s, t) && StoreAllowed(i, f)
    ensures HoldsBut(Step(i, f), Spread(i, altered, f, u), e, t)
  {
    hide Load64;
    if !altered {
      match i
      case Store(_, _, _, _) => StoreSound(i, f, u, e, s, t);
      case Branch(link) => if link { SameBytes(s.mem, t.mem, e.sp + SLOT_OFF); }
      case Other(_) => SameBytes(s.mem, t.mem, e.sp + SLOT_OFF);
      case Syscall => SameBytes(s.mem, t.mem, e.sp + SLOT_OFF);
      case _ =>
    }
  }

  lemma StoreSound(i: Insn, f: Facts, u: Taint, e: Entry, s: Machine, t: Machine)
    requires i.Store? && HoldsBut(f, u, e, s) && Exec(i, e, s, t) && StoreAllowed(i, f)
    ensures HoldsBut(Step(i, f), Spread(i, false, f, u), e, t)
  {
    hide Load64;
    if !u.Lost? {
      var lo := f.sp.off + i.target.disp;
      if lo < SLOT_OFF + SLOT_WIDTH && SLOT_OFF < lo + i.target.width {
        assert Load64(t.mem, e.sp + SLOT_OFF) == s.reg(i.rs);
      } else if f.slot == Saved {
        assert SlotKept(e, s, t);
        SameBytes(s.mem, t.mem, e.sp + SLOT_OFF);
      }
    }
  }

  // ---- one step, exactly ----

  // Whether the facts say anything at all.
  predicate Says(f: Facts) {
    f.sp.Known? || f.lr == AtEntry || f.copies != {} || f.reloads != {} || f.slot == Saved
  }

  // No system call while LR counts as the caller's, and no altered word that facts survive.
  predicate Heeded(i: Insn, altered: bool, f: Facts) {
    if altered then !Says(Step(i, f)) else i.Syscall? ==> f.lr != AtEntry
  }

  ghost predicate SoundAt(i: Insn, altered: bool, f: Facts) {
    forall e, s, t :: Holds(f, e, s) && Does(i, altered, e, s, t) ==> Holds(Step(i, f), e, t)
  }

  // Those two are the only exceptions, and each of them is one.
  lemma SoundExactly(i: Insn, altered: bool, f: Facts)
    requires Decoded(i) && StoreAllowed(i, f) && 1 !in f.copies && 1 !in f.reloads
    ensures SoundAt(i, altered, f) <==> Heeded(i, altered, f)
  {
    hide Does, Holds, Step, StoreAllowed, Decoded, Heeded;
    if Heeded(i, altered, f) {
      forall e, s, t | Holds(f, e, s) && Does(i, altered, e, s, t)
        ensures Holds(Step(i, f), e, t)
      {
        HeededSound(i, altered, f, e, s, t);
      }
    } else {
      var e, s := SomeState(f);
      var t := Unheeded(i, altered, f, e, s);
    }
  }

  lemma HeededSound(i: Insn, altered: bool, f: Facts, e: Entry, s: Machine, t: Machine)
    requires Decoded(i) && Holds(f, e, s) && Does(i, altered, e, s, t) && StoreAllowed(i, f) && Heeded(i, altered, f)
    ensures Holds(Step(i, f), e, t)
  {
    hide Load64, Does, StoreAllowed, Decoded;
    StepSound(i, altered, f, CLEAN, e, s, t);
  }

  // Every consistent set of facts describes some machine.
  lemma SomeState(f: Facts) returns (e: Entry, s: Machine)
    requires 1 !in f.copies && 1 !in f.reloads
    ensures Holds(f, e, s) && e == Entry(0, 0) && s.mem == (a => 0)
  {
    e := Entry(0, 0);
    s := Machine(r => if r == 1 && f.sp.Known? then f.sp.off else 0, 0, a => 0);
  }

  lemma Unheeded(i: Insn, altered: bool, f: Facts, e: Entry, s: Machine) returns (t: Machine)
    requires Decoded(i) && Holds(f, e, s) && e == Entry(0, 0) && !Heeded(i, altered, f)
    ensures Does(i, altered, e, s, t) && !Holds(Step(i, f), e, t)
  {
    hide Load64;
    if altered {
      t := Contradicts(Step(i, f), e);
    } else {
      t := s.(lr := 1);
    }
  }

  lemma Contradicts(f: Facts, e: Entry) returns (t: Machine)
    requires Says(f) && e == Entry(0, 0)
    ensures !Holds(f, e, t)
  {
    hide Load64;
    t := Machine(r => if f.sp.Known? then f.sp.off + 1 else 1, 1, a => 1);
    Ones(t.mem, e.sp + SLOT_OFF);
    if f.copies != {} {
      var r := Member(f.copies);
    } else if f.reloads != {} {
      var r := Member(f.reloads);
    }
  }

  lemma Ones(mem: int -> int, a: int)
    requires forall b :: mem(b) == 1
    ensures Load64(mem, a) != 0
  {
  }

  // ---- a machine that does what the taint warns of ----

  function Put(reg: int -> int, r: int, v: int): int -> int { x => if x == r then v else reg(x) }

  function PutDword(mem: int -> int, a: int, v: int): int -> int {
    b => if b == a + 7 then v else if a <= b < a + 7 then 0 else mem(b)
  }

  function StoreAt(dword: bool, mem: int -> int, a: int, v: int): int -> int {
    if dword then PutDword(mem, a, v) else mem
  }

  // One way the instruction may go: callees and the kernel keep all they can, but the kernel
  // leaves x in LR.
  function Next(i: Insn, x: int, s: Machine): Machine {
    match i
    case Mflr(rt) => s.(reg := Put(s.reg, rt, s.lr))
    case Mtlr(rt) => s.(lr := s.reg(rt))
    case Store(At(disp, _), dword, rs, _) => s.(mem := StoreAt(dword, s.mem, s.reg(1) + disp, s.reg(rs)))
    case Store(Update(disp, _), dword, rs, _) =>
      s.(mem := StoreAt(dword, s.mem, s.reg(1) + disp, s.reg(rs)), reg := Put(s.reg, 1, s.reg(1) + disp))
    case AddiR1(n) => s.(reg := Put(s.reg, 1, s.reg(1) + n))
    case LdR1(rt, disp) => s.(reg := Put(s.reg, rt, Load64(s.mem, s.reg(1) + disp)))
    case Syscall => s.(lr := x)
    case _ => s
  }

  lemma NextExec(i: Insn, x: int, e: Entry, s: Machine)
    requires Decoded(i)
    ensures Exec(i, e, s, Next(i, x, s))
  {
  }

  // What is tainted holds x.
  ghost predicate Carries(u: Taint, x: int, e: Entry, s: Machine) {
    && !u.Lost? && (u.lr ==> s.lr == x) && (forall r :: r in u.regs ==> s.reg(r) == x)
    && (u.slot ==> Load64(s.mem, e.sp + SLOT_OFF) == x)
  }

  lemma NextCarries(i: Insn, f: Facts, u: Taint, x: int, e: Entry, s: Machine)
    requires Decoded(i) && HoldsBut(f, u, e, s) && StoreAllowed(i, f) && Carries(u, x, e, s)
    ensures Carries(Spread(i, false, f, u), x, e, Next(i, x, s))
  {
    hide Load64;
    if i.Store? {
      StoreCarries(i, f, u, x, e, s);
    }
  }

  lemma StoreCarries(i: Insn, f: Facts, u: Taint, x: int, e: Entry, s: Machine)
    requires i.Store? && Decoded(i) && HoldsBut(f, u, e, s) && StoreAllowed(i, f) && Carries(u, x, e, s)
    ensures Carries(Spread(i, false, f, u), x, e, Next(i, x, s))
  {
    hide Load64;
    var t := Next(i, x, s);
    NextExec(i, x, e, s);
    var lo := f.sp.off + i.target.disp;
    if lo < SLOT_OFF + SLOT_WIDTH && SLOT_OFF < lo + i.target.width {
      assert Load64(t.mem, e.sp + SLOT_OFF) == s.reg(i.rs);
    } else {
      assert SlotKept(e, s, t);
      SameBytes(s.mem, t.mem, e.sp + SLOT_OFF);
    }
  }

  // ---- what the facts are good for: the ABI's own frames are recognised ----

  function StepAll(code: seq<Insn>, f: Facts): Facts {
    if code == [] then f else StepAll(code[1..], Step(code[0], f))
  }

  lemma {:induction false} StepAllJoin(x: seq<Insn>, y: seq<Insn>, f: Facts)
    ensures StepAll(x + y, f) == StepAll(y, StepAll(x, f))
  {
    if x == [] {
      assert x + y == y;
    } else {
      assert (x + y)[1..] == x[1..] + y && (x + y)[0] == x[0];
      StepAllJoin(x[1..], y, Step(x[0], f));
    }
  }

  function SpreadAll(code: seq<Insn>, f: Facts, u: Taint): Taint {
    if code == [] then u else SpreadAll(code[1..], Step(code[0], f), Spread(code[0], false, f, u))
  }

  lemma {:induction false} SpreadAllJoin(x: seq<Insn>, y: seq<Insn>, f: Facts, u: Taint)
    ensures SpreadAll(x + y, f, u) == SpreadAll(y, StepAll(x, f), SpreadAll(x, f, u))
  {
    if x == [] {
      assert x + y == y;
    } else {
      assert (x + y)[1..] == x[1..] + y && (x + y)[0] == x[0];
      SpreadAllJoin(x[1..], y, Step(x[0], f), Spread(x[0], false, f, u));
    }
  }

  // Code between prologue and epilogue: calls, system calls, arithmetic that leaves r1 alone, and
  // stores into the frame below the caller's.
  predicate InFrame(i: Insn, frame: int) {
    match i
    case Branch(_) => true
    case Syscall => true
    case Other(writes) => 1 !in writes
    case LdR1(rt, _) => rt != 1
    case Store(At(disp, width), _, _, writes) => 1 !in writes && disp + width <= frame
    case _ => false
  }

  lemma {:induction false} FrameKeeps(body: seq<Insn>, frame: int, f: Facts, u: Taint)
    requires f.sp == Known(-frame) && f.slot == Saved && u.Taint? && !u.slot
    requires forall k :: 0 <= k < |body| ==> InFrame(body[k], frame)
    ensures StepAll(body, f).sp == Known(-frame) && StepAll(body, f).slot == Saved
    ensures SpreadAll(body, f, u).Taint? && !SpreadAll(body, f, u).slot
    ensures forall k :: 0 <= k < |body| ==> StoreAllowed(body[k], StepAll(body[..k], f))
  {
    if body != [] {
      var g := Step(body[0], f);
      FrameKeeps(body[1..], frame, g, Spread(body[0], false, f, u));
      forall k | 0 <= k < |body|
        ensures StoreAllowed(body[k], StepAll(body[..k], f))
      {
        if k > 0 {
          assert body[k] == body[1..][k - 1];
          assert body[..k][0] == body[0] && body[..k][1..] == body[1..][..k - 1];
        }
      }
    }
  }

  function Prologue(rx: int, frame: int): seq<Insn> {
    [Mflr(rx), Store(At(SLOT_OFF, SLOT_WIDTH), true, rx, {}), Store(Update(-frame, 8), true, 1, {1})]
  }

  function Epilogue(ry: int, frame: int): seq<Insn> {
    [AddiR1(frame), LdR1(ry, SLOT_OFF), Mtlr(ry)]
  }

  lemma PrologueSaves(rx: int, frame: int)
    requires rx != 1
    ensures StepAll(Prologue(rx, frame), ROOT).sp == Known(-frame) && StepAll(Prologue(rx, frame), ROOT).slot == Saved
    ensures SpreadAll(Prologue(rx, frame), ROOT, CLEAN).Taint? && !SpreadAll(Prologue(rx, frame), ROOT, CLEAN).slot
  {
    Unroll3(Prologue(rx, frame), ROOT, CLEAN);
    var f1 := Step(Mflr(rx), ROOT);
    assert f1.sp == Known(0) && f1.slot == NotSaved && rx in f1.copies;
    var f2 := Step(Store(At(SLOT_OFF, SLOT_WIDTH), true, rx, {}), f1);
    assert f2.sp == Known(0) && f2.slot == Saved;
  }

  lemma EpilogueRestores(ry: int, frame: int, f: Facts, u: Taint)
    requires ry != 1 && f.sp == Known(-frame) && f.slot == Saved && u.Taint? && !u.slot
    ensures StepAll(Epilogue(ry, frame), f).lr == AtEntry && !Spoiled(SpreadAll(Epilogue(ry, frame), f, u))
  {
    Unroll3(Epilogue(ry, frame), f, u);
    var f1 := Step(AddiR1(frame), f);
    assert f1.sp == Known(0) && f1.slot == Saved;
    assert ry in Step(LdR1(ry, SLOT_OFF), f1).reloads;
  }

  // Save LR, open a frame, do anything inside it, system calls too, close it, reload, return.
  lemma AbiFrameReturns(rx: int, ry: int, frame: int, body: seq<Insn>)
    requires rx != 1 && ry != 1
    requires forall k :: 0 <= k < |body| ==> InFrame(body[k], frame)
    ensures StepAll(Prologue(rx, frame) + body + Epilogue(ry, frame), ROOT).lr == AtEntry
    ensures !Spoiled(SpreadAll(Prologue(rx, frame) + body + Epilogue(ry, frame), ROOT, CLEAN))
  {
    hide Step, Spread, Prologue, Epilogue;
    var pro, epi := Prologue(rx, frame), Epilogue(ry, frame);
    PrologueSaves(rx, frame);
    FrameKeeps(body, frame, StepAll(pro, ROOT), SpreadAll(pro, ROOT, CLEAN));
    StepAllJoin(pro, body, ROOT);
    StepAllJoin(pro + body, epi, ROOT);
    SpreadAllJoin(pro, body, ROOT, CLEAN);
    SpreadAllJoin(pro + body, epi, ROOT, CLEAN);
    EpilogueRestores(ry, frame, StepAll(pro + body, ROOT), SpreadAll(pro + body, ROOT, CLEAN));
  }

  // Code of a function that calls nobody and leaves LR and r1 alone; it may store below r1.
  predicate InLeaf(i: Insn) {
    match i
    case Branch(link) => !link
    case Other(writes) => 1 !in writes
    case LdR1(rt, _) => rt != 1
    case Mflr(rt) => rt != 1
    case Store(At(disp, width), _, _, writes) => 1 !in writes && disp + width <= SLOT_OFF
    case _ => false
  }

  // The facts go on knowing LR and the stack pointer.
  lemma {:induction false} LeafKeeps(code: seq<Insn>, f: Facts)
    requires f.sp == Known(0) && f.lr == AtEntry && forall k :: 0 <= k < |code| ==> InLeaf(code[k])
    ensures StepAll(code, f).sp == Known(0) && StepAll(code, f).lr == AtEntry
    ensures forall k :: 0 <= k < |code| ==> StoreAllowed(code[k], StepAll(code[..k], f))
  {
    if code != [] {
      var g := Step(code[0], f);
      LeafKeeps(code[1..], g);
      forall k | 0 <= k < |code|
        ensures StoreAllowed(code[k], StepAll(code[..k], f))
      {
        if k > 0 {
          assert code[k] == code[1..][k - 1];
          assert code[..k][0] == code[0] && code[..k][1..] == code[1..][..k - 1];
        }
      }
    }
  }

  lemma StepFirst(code: seq<Insn>, f: Facts, u: Taint)
    requires code != []
    ensures StepAll(code, f) == StepAll(code[1..], Step(code[0], f))
    ensures SpreadAll(code, f, u) == SpreadAll(code[1..], Step(code[0], f), Spread(code[0], false, f, u))
  {
  }

  lemma Unroll3(code: seq<Insn>, f: Facts, u: Taint)
    requires |code| == 3
    ensures var f1 := Step(code[0], f);
      var f2 := Step(code[1], f1);
      && StepAll(code, f) == Step(code[2], f2)
      && SpreadAll(code, f, u) == Spread(code[2], false, f2, Spread(code[1], false, f1, Spread(code[0], false, f, u)))
  {
    hide Step, Spread;
    var f1, u1 := Step(code[0], f), Spread(code[0], false, f, u);
    var f2, u2 := Step(code[1], f1), Spread(code[1], false, f1, u1);
    StepFirst(code, f, u);
    StepFirst(code[1..], f1, u1);
    StepFirst(code[1..][1..], f2, u2);
    assert code[1..][1..][1..] == [];
  }
}
