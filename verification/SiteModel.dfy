// One TOC access: its instruction forms, and the check of what the linker made of it.
module SiteModel {
  import opened Collections

  const WORD64: int := 0x1_0000_0000_0000_0000

  // An instruction word by its D-form fields.
  type Half = h: int | 0 <= h < 0x10000
  datatype Word = Word(op: nat, rt: nat, ra: nat, low: Half)
  const NOP: Word := Word(24, 0, 0, 0)

  function Sext16(h: Half): int { if h < 0x8000 then h else h - 0x10000 }

  datatype Kind = Load | Store | Addr
  datatype Form = Form(kind: Kind, width: nat)

  function Classify(w: Word, ds: bool): Option<Form> {
    if ds then
      if w.op == 58 && w.low % 4 == 0 then Some(Form(Load, 8))
      else if w.op == 58 && w.low % 4 == 2 then Some(Form(Load, 4))
      else if w.op == 62 && w.low % 4 == 0 then Some(Form(Store, 8))
      else None
    else
      match w.op
      case 14 => Some(Form(Addr, 0))
      case 32 => Some(Form(Load, 4))
      case 34 => Some(Form(Load, 1))
      case 40 => Some(Form(Load, 2))
      case 42 => Some(Form(Load, 2))
      case 48 => Some(Form(Load, 4))
      case 50 => Some(Form(Load, 8))
      case 36 => Some(Form(Store, 4))
      case 38 => Some(Form(Store, 1))
      case 44 => Some(Form(Store, 2))
      case 52 => Some(Form(Store, 4))
      case 54 => Some(Form(Store, 8))
      case _ => None
  }

  // The word itself.
  function Encoded(w: Word): nat { w.op * 0x400_0000 + w.rt * 0x20_0000 + w.ra * 0x1_0000 + w.low }

  lemma NopIs()
    ensures Encoded(NOP) == 0x60000000
  {
  }

  // Six bits, five, five and sixteen.
  lemma EncodedFields(w: Word)
    ensures Encoded(w) == ((w.op * 32 + w.rt) * 32 + w.ra) * 65536 + w.low
  {
  }

  // The D-form opcodes by their bits: 32 to 55 are the loads and stores, odd ones update their base,
  // 46 and 47 move several registers; bit 4 tells stores, and the width goes with the eight.
  lemma ClassifyForms(w: Word)
    ensures Classify(w, false).Some? <==> w.op == 14 || (32 <= w.op < 56 && w.op % 2 == 0 && w.op != 46)
    ensures Classify(w, false).Some? && w.op != 14 ==>
      var form := Classify(w, false).value;
      && (form.kind == Store <==> w.op / 4 % 2 == 1) && (form.kind == Load <==> w.op / 4 % 2 == 0)
      && form.width == if 40 <= w.op < 48 then 2 else if w.op % 4 == 0 then 4 else if w.op < 40 then 1 else 8
    ensures w.op == 14 ==> Classify(w, false) == Some(Form(Addr, 0))
  {
  }

  function Disp(w: Word, ds: bool): int { if ds then Sext16(w.low - w.low % 4) else Sext16(w.low) }

  // A displacement is the field's value as a signed halfword; a DS form's leaves the low two bits out.
  lemma DispIs(w: Word)
    ensures -0x8000 <= Disp(w, false) < 0x8000 && Disp(w, false) % 0x1_0000 == w.low
    ensures -0x8000 <= Disp(w, true) < 0x8000 && Disp(w, true) % 4 == 0 && Disp(w, true) <= Disp(w, false) < Disp(w, true) + 4
  {
  }

  datatype Judgement = Verified | Failed | Refused

  // What a relocation's symbol and addend resolve to.
  datatype Target = Unresolved | Toc(off: int) | Content(id: int) | Address(value: int)

  // What the image holds at an address, asked in one of four ways.
  datatype Question = TocAddi(off: int) | TocRead(off: int, width: nat) | ContentLoad(id: int, width: nat) | Value(target: Target)
  type Image = (Question, int) -> Judgement

  // The access alone, or with one of its addis as the image has it (None: not in the file).
  datatype Pair = Alone | With(linked: Option<Word>)

  // The high half the image adds and the register it adds it in.
  function BaseOf(pair: Pair, ra: nat): Option<(int, nat)> {
    match pair
    case Alone => Some((0, 2))
    case With(Some(hw)) =>
      if hw == NOP then Some((0, 2))
      else if hw.op == 15 && hw.ra == 2 && hw.rt == ra then Some((Sext16(hw.low), ra))
      else None
    case With(None) => None
  }

  function Evaluate(image: Image, toc: int, w: Word, ow: Word, ds: bool, form: Form, target: Target, pair: Pair): Judgement {
    match BaseOf(pair, w.ra)
    case None => Refused
    case Some((hi, expected)) =>
      var same := ow.op == w.op && ow.rt == w.rt && (!ds || ow.low % 4 == w.low % 4);
      var rewritten := !same && ds && form == Form(Load, 8) && ow.op == 14 && ow.rt == w.rt;
      if !same && !rewritten then Refused
      else if ow.ra != expected then
        if pair.With? && expected == 2 && ow.ra == w.ra then Failed else Refused
      else
        var ea := (toc + hi * 0x10000 + (if rewritten then Sext16(ow.low) else Disp(ow, ds))) % WORD64;
        if target.Toc? then
          if rewritten then image(TocAddi(target.off), ea)
          else if form.kind == Load then image(TocRead(target.off, form.width), ea)
          else Refused
        else if rewritten then Refused
        else if target.Content? && form.kind == Load then image(ContentLoad(target.id, form.width), ea)
        else image(Value(target), ea)
  }

  // ---- what the processor computes ----

  type Regs = int -> int

  function Base(w: Word, regs: Regs): int { if w.ra == 0 then 0 else regs(w.ra) }

  // What addis leaves in its destination.
  function Shifted(hw: Word, regs: Regs): int { (Base(hw, regs) + Sext16(hw.low) * 0x10000) % WORD64 }

  // The address of a load or store, the result of an addi.
  function EffectiveAddress(w: Word, regs: Regs): int {
    (Base(w, regs) + Disp(w, w.op == 58 || w.op == 62)) % WORD64
  }

  // In 64 bits: addis adds its field shifted, a load or store its displacement, to the register, or to
  // nothing for register 0.
  lemma AddressIs(w: Word, regs: Regs)
    ensures var base := if w.ra == 0 then 0 else regs(w.ra);
      && 0 <= Shifted(w, regs) < 0x1_0000_0000_0000_0000 && (Shifted(w, regs) - base - Disp(w, false) * 0x1_0000) % 0x1_0000_0000_0000_0000 == 0
      && 0 <= EffectiveAddress(w, regs) < 0x1_0000_0000_0000_0000
      && (EffectiveAddress(w, regs) - base - Disp(w, w.op in {58, 62})) % 0x1_0000_0000_0000_0000 == 0
  {
    hide Disp;
    Left(Base(w, regs) + Sext16(w.low) * 0x1_0000);
    Left(Base(w, regs) + Disp(w, w.op in {58, 62}));
    assert Disp(w, false) == Sext16(w.low) by { PlainDisp(w); }
  }

  lemma PlainDisp(w: Word)
    ensures Disp(w, false) == Sext16(w.low)
  {
  }

  lemma Left(x: int)
    ensures (x % WORD64 - x) % WORD64 == 0
  {
  }

  // The linker left the instruction's form alone, or made an addi of an 8-byte load.
  predicate SameForm(w: Word, ow: Word) {
    ow.op == w.op && ow.rt == w.rt && (w.op == 58 || w.op == 62 ==> ow.low % 4 == w.low % 4)
  }

  predicate TurnedAddi(w: Word, ow: Word) { w.op == 58 && w.low % 4 == 0 && ow.op == 14 && ow.rt == w.rt }

  // The question the linked instruction answers to, given the form and target of the source.
  predicate Suits(q: Question, w: Word, ow: Word, form: Form, target: Target) {
    match q
    case TocAddi(off) => target == Toc(off) && TurnedAddi(w, ow)
    case TocRead(off, width) => target == Toc(off) && form == Form(Load, width) && SameForm(w, ow)
    case ContentLoad(id, width) => target == Content(id) && form == Form(Load, width) && SameForm(w, ow)
    case Value(t) => target == t && !t.Toc? && !(t.Content? && form.kind == Load) && SameForm(w, ow)
  }

  // The addis of the pair is still the same instruction into the access's register; it is gone.
  predicate AddisKept(pair: Pair, ra: nat) {
    pair.With? && pair.linked.Some? && pair.linked.value.op == 15 && pair.linked.value.ra == 2 && pair.linked.value.rt == ra
  }

  predicate AddisGone(pair: Pair) { pair.With? && pair.linked == Some(NOP) }

  // The register the linked access has to be based on.
  function BaseDue(pair: Pair, ra: nat): nat { if AddisKept(pair, ra) then ra else 2 }

  // Before the addis r2 holds the TOC; at the access it still does, and the addis's register
  // holds what the addis left there, unless the link took the addis away.
  predicate Carried(toc: int, pair: Pair, ra: nat, before: Regs, at: Regs) {
    && before(2) == toc && at(2) == toc
    && (pair.With? && pair.linked.Some? && pair.linked.value != NOP
        ==> at(ra) == Shifted(pair.linked.value, before))
  }

  // The image answers for the very address the linked instructions compute.
  ghost predicate Right(image: Image, toc: int, w: Word, ow: Word, form: Form, target: Target, pair: Pair) {
    forall before: Regs, at: Regs :: Carried(toc, pair, w.ra, before, at) ==>
      exists q :: Suits(q, w, ow, form, target) && image(q, EffectiveAddress(ow, at)) == Verified
  }

  lemma AddMod(a: int, b: int)
    ensures (a % WORD64 + b) % WORD64 == (a + b) % WORD64
  {
  }

  lemma VerifiedIsRight(image: Image, toc: int, w: Word, ow: Word, ds: bool, form: Form, target: Target, pair: Pair)
    requires Classify(w, ds) == Some(form) && (pair.With? ==> w.ra != 0)
    requires Evaluate(image, toc, w, ow, ds, form, target, pair) == Verified
    ensures Right(image, toc, w, ow, form, target, pair)
  {
    forall before: Regs, at: Regs | Carried(toc, pair, w.ra, before, at)
      ensures exists q :: Suits(q, w, ow, form, target) && image(q, EffectiveAddress(ow, at)) == Verified
    {
      var (hi, expected) := BaseOf(pair, w.ra).value;
      var same := ow.op == w.op && ow.rt == w.rt && (!ds || ow.low % 4 == w.low % 4);
      var disp := if same then Disp(ow, ds) else Sext16(ow.low);
      assert disp == Disp(ow, ow.op == 58 || ow.op == 62);
      AddMod(toc + hi * 0x10000, disp);
      var ea := EffectiveAddress(ow, at);
      assert ea == (toc + hi * 0x10000 + disp) % WORD64;
      var q := if target.Toc? then (if same then TocRead(target.off, form.width) else TocAddi(target.off))
               else if target.Content? && form.kind == Load then ContentLoad(target.id, form.width) else Value(target);
      assert Suits(q, w, ow, form, target);
    }
  }

  // The effective address is the one the check works out.
  lemma SameAddress(toc: int, w: Word, ow: Word, ds: bool, form: Form, pair: Pair, before: Regs, at: Regs)
    requires Classify(w, ds) == Some(form) && (pair.With? ==> w.ra != 0) && Carried(toc, pair, w.ra, before, at)
    requires BaseOf(pair, w.ra).Some? && ow.ra == BaseOf(pair, w.ra).value.1 && (SameForm(w, ow) || TurnedAddi(w, ow))
    ensures var disp := if SameForm(w, ow) then Disp(ow, ds) else Sext16(ow.low);
      EffectiveAddress(ow, at) == (toc + BaseOf(pair, w.ra).value.0 * 0x10000 + disp) % WORD64
  {
    var hi := BaseOf(pair, w.ra).value.0;
    var disp := if SameForm(w, ow) then Disp(ow, ds) else Sext16(ow.low);
    assert disp == Disp(ow, ow.op == 58 || ow.op == 62);
    AddMod(toc + hi * 0x10000, disp);
  }

  // A judgement that is due: the image's own answer to the question the linked access suits, at the
  // address it computes.
  ghost predicate ImageSays(image: Image, w: Word, ow: Word, form: Form, target: Target, at: Regs, j: Judgement) {
    exists q :: Suits(q, w, ow, form, target) && image(q, EffectiveAddress(ow, at)) == j
  }

  // A rewriting that is modelled: of the addis, of the form, of the base register.
  predicate Modelled(w: Word, ow: Word, pair: Pair) {
    && (pair.Alone? || AddisKept(pair, w.ra) || AddisGone(pair)) && (SameForm(w, ow) || TurnedAddi(w, ow))
  }

  lemma SuitsOne(w: Word, ow: Word, form: Form, target: Target, q: Question, r: Question)
    requires Suits(q, w, ow, form, target) && Suits(r, w, ow, form, target)
    ensures q == r
  {
  }

  // The judgement, exactly: whatever the image says where the rewriting is modelled and the base
  // register is the one due; failed where the addis is gone and the access still uses its register;
  // refused otherwise.
  lemma JudgedExactly(image: Image, toc: int, w: Word, ow: Word, ds: bool, form: Form, target: Target, pair: Pair,
                      before: Regs, at: Regs, j: Judgement)
    requires Classify(w, ds) == Some(form) && (pair.With? ==> w.ra != 0) && Carried(toc, pair, w.ra, before, at)
    ensures Evaluate(image, toc, w, ow, ds, form, target, pair) == j <==>
      if Modelled(w, ow, pair) && ow.ra == BaseDue(pair, w.ra) && exists q :: Suits(q, w, ow, form, target)
      then ImageSays(image, w, ow, form, target, at, j)
      else if Modelled(w, ow, pair) && ow.ra != BaseDue(pair, w.ra) && AddisGone(pair) && ow.ra == w.ra then j == Failed
      else j == Refused
  {
    FormsAre(w, ow, ds, form);
    BaseIs(pair, w.ra);
    if Modelled(w, ow, pair) && ow.ra == BaseDue(pair, w.ra) {
      SameAddress(toc, w, ow, ds, form, pair, before, at);
      var q := if target.Toc? then (if SameForm(w, ow) then TocRead(target.off, form.width) else TocAddi(target.off))
               else if target.Content? && form.kind == Load then ContentLoad(target.id, form.width) else Value(target);
      if r :| Suits(r, w, ow, form, target) {
        assert Suits(q, w, ow, form, target);
        forall r | Suits(r, w, ow, form, target)
          ensures r == q
        {
          SuitsOne(w, ow, form, target, q, r);
        }
      } else {
        assert !Suits(q, w, ow, form, target);
      }
    }
  }

  // The check's own tests, in these terms.
  lemma FormsAre(w: Word, ow: Word, ds: bool, form: Form)
    requires Classify(w, ds) == Some(form)
    ensures var same := ow.op == w.op && ow.rt == w.rt && (!ds || ow.low % 4 == w.low % 4);
      && (same <==> SameForm(w, ow))
      && (!same && ds && form == Form(Load, 8) && ow.op == 14 && ow.rt == w.rt <==> TurnedAddi(w, ow))
  {
  }

  lemma BaseIs(pair: Pair, ra: nat)
    ensures BaseOf(pair, ra).Some? <==> pair.Alone? || AddisKept(pair, ra) || AddisGone(pair)
    ensures BaseOf(pair, ra).Some? ==> BaseOf(pair, ra).value.1 == BaseDue(pair, ra)
    ensures AddisGone(pair) ==> !AddisKept(pair, ra)
  {
  }
}
