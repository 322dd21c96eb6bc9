// Relocations by the bytes they write.
module Relocations {

  // What a relocation writes: a 16-bit displacement, one that leaves the low two bits (DS), the
  // target of a conditional branch or of a branch, or so many whole bytes.
  datatype Part = Half | HalfDs | Branch14 | Branch24 | Bytes(n: nat)

  datatype Reloc = Reloc(offset: int, part: Part) {
    function Width(): nat {
      match part
      case Bytes(n) => n
      case Branch14 => 4
      case Branch24 => 4
      case _ => 2
    }

    predicate Writes(b: int) { offset <= b < offset + Width() }

    predicate Reaches(lo: int, hi: int) { offset < hi && lo < offset + Width() }
  }

  // It reaches what it writes a byte of: two for a displacement, four for a branch.
  lemma ReachesExactly(r: Reloc, lo: int, hi: int)
    requires lo < hi && r.Width() > 0
    ensures r.Reaches(lo, hi) <==> exists b :: lo <= b < hi && r.Writes(b)
    ensures r.Width() == if r.part.Bytes? then r.part.n else if r.part.Half? || r.part.HalfDs? then 2 else 4
  {
    var b := if r.offset < lo then lo else r.offset;
    assert r.Reaches(lo, hi) ==> lo <= b < hi && r.Writes(b);
  }
}
