/** `SoloudFlag` and its `|`. Each flag is one bit of a `u32`; an OR of
    flags is a bit-set over those four bits, modelled here as `FlagSet`,
    which is in one-to-one correspondence with the sets of flags. */
module Flags {
  import opened Wrappers

  datatype SoloudFlag = ClipRoundoff | EnableVisualization | LeftHanded3D | NoFpuRegisterChange

  /** The four declared bits, 1 | 2 | 4 | 8. */
  const AllFlags: bv32 := 15

  /** `flag as u32`: a single bit inside `AllFlags`. */
  function Bit(f: SoloudFlag): (b: bv32)
    ensures b != 0 && b & (b - 1) == 0
    ensures b & AllFlags == b
  {
    match f
    case ClipRoundoff => 1
    case EnableVisualization => 2
    case LeftHanded3D => 4
    case NoFpuRegisterChange => 8
  }

  /** Distinct flags own disjoint bits. */
  lemma BitsDisjoint(f: SoloudFlag, g: SoloudFlag)
    requires f != g
    ensures Bit(f) & Bit(g) == 0
  {
  }

  /** The OR of two distinct flags is the bit of no flag. */
  lemma OrOfDistinctIsNoBit(f: SoloudFlag, g: SoloudFlag)
    ensures f != g ==> forall h :: Bit(f) | Bit(g) != Bit(h)
  {
    if f != g {
      forall h ensures Bit(f) | Bit(g) != Bit(h) {
        BitsDisjoint(f, g);
        if h != f { BitsDisjoint(f, h); }
        if h != g { BitsDisjoint(g, h); }
      }
    }
  }

  /** The `u32` values that are discriminants of `SoloudFlag`, i.e. the only
      values `transmute` may turn into a flag. */
  function FlagOfCode(c: bv32): (r: Option<SoloudFlag>)
    ensures r.Some? ==> Bit(r.value) == c
    ensures r.None? ==> forall f :: Bit(f) != c
  {
    if c == 1 then Some(ClipRoundoff)
    else if c == 2 then Some(EnableVisualization)
    else if c == 4 then Some(LeftHanded3D)
    else if c == 8 then Some(NoFpuRegisterChange)
    else None
  }

  /** `BitOr for SoloudFlag` as written: the OR of the two bits is
      transmuted back into a `SoloudFlag`. `None` stands for a value that is
      no discriminant, which the transmute turns into undefined behaviour.
      That happens exactly when the two flags differ. */
  function BitOrAsWritten(f: SoloudFlag, g: SoloudFlag): (r: Option<SoloudFlag>)
    ensures r.Some? <==> f == g
    ensures r.Some? ==> r.value == f
  {
    OrOfDistinctIsNoBit(f, g);
    FlagOfCode(Bit(f) | Bit(g))
  }

  /** The smallest combination the library's own flags allow already falls
      outside the enum: 1 | 2 == 3 is no discriminant. */
  lemma ClipRoundoffOrEnableVisualizationIsNoFlag()
    ensures Bit(ClipRoundoff) | Bit(EnableVisualization) == 3
    ensures BitOrAsWritten(ClipRoundoff, EnableVisualization) == None
  {
  }

  /** A combination of flags: a `u32` restricted to the declared bits. */
  type FlagSet = s: bv32 | s & AllFlags == s

  const NoFlags: FlagSet := 0

  predicate Has(s: FlagSet, f: SoloudFlag) {
    s & Bit(f) != 0
  }

  /** A single flag as a set. */
  function Single(f: SoloudFlag): (s: FlagSet)
    ensures forall g :: Has(s, g) <==> g == f
  {
    forall g | g != f ensures !Has(Bit(f), g) { BitsDisjoint(f, g); }
    Bit(f)
  }

  /** `|` on flag sets: the bitwise OR, which never leaves `AllFlags` and
      holds exactly the flags of either side. */
  function Union(a: FlagSet, b: FlagSet): (r: FlagSet)
    ensures forall f :: Has(r, f) <==> Has(a, f) || Has(b, f)
  {
    a | b
  }

  /** `f | g` with the result kept as a flag set: both flags and nothing else. */
  function Or(f: SoloudFlag, g: SoloudFlag): (s: FlagSet)
    ensures forall h :: Has(s, h) <==> h == f || h == g
  {
    Union(Single(f), Single(g))
  }

  /** A flag set is determined by the flags it has. */
  lemma {:induction false} Extensionality(a: FlagSet, b: FlagSet)
    requires forall f :: Has(a, f) == Has(b, f)
    ensures a == b
  {
    assert Has(a, ClipRoundoff) == Has(b, ClipRoundoff);
    assert Has(a, EnableVisualization) == Has(b, EnableVisualization);
    assert Has(a, LeftHanded3D) == Has(b, LeftHanded3D);
    assert Has(a, NoFpuRegisterChange) == Has(b, NoFpuRegisterChange);
  }

  /** The flags a set holds. */
  function Members(s: FlagSet): (fs: set<SoloudFlag>)
    ensures forall f :: f in fs <==> Has(s, f)
  {
    (if Has(s, ClipRoundoff) then {ClipRoundoff} else {})
    + (if Has(s, EnableVisualization) then {EnableVisualization} else {})
    + (if Has(s, LeftHanded3D) then {LeftHanded3D} else {})
    + (if Has(s, NoFpuRegisterChange) then {NoFpuRegisterChange} else {})
  }

  /** The flag set holding exactly the given flags. */
  function FromMembers(fs: set<SoloudFlag>): (s: FlagSet)
    ensures Members(s) == fs
  {
    var s: FlagSet :=
      (if ClipRoundoff in fs then Bit(ClipRoundoff) else 0)
      | (if EnableVisualization in fs then Bit(EnableVisualization) else 0)
      | (if LeftHanded3D in fs then Bit(LeftHanded3D) else 0)
      | (if NoFpuRegisterChange in fs then Bit(NoFpuRegisterChange) else 0);
    assert forall f :: f in fs <==> Has(s, f);
    s
  }

  /** Every flag set is the image of its members: the two views agree. */
  lemma FromMembersOfMembers(s: FlagSet)
    ensures FromMembers(Members(s)) == s
  {
    Extensionality(FromMembers(Members(s)), s);
  }

  /** `Union` is set union of the members. */
  lemma MembersOfUnion(a: FlagSet, b: FlagSet)
    ensures Members(Union(a, b)) == Members(a) + Members(b)
  {
  }

  lemma UnionCommutative(a: FlagSet, b: FlagSet)
    ensures Union(a, b) == Union(b, a)
  {
    Extensionality(Union(a, b), Union(b, a));
  }

  lemma UnionAssociative(a: FlagSet, b: FlagSet, c: FlagSet)
    ensures Union(Union(a, b), c) == Union(a, Union(b, c))
  {
    Extensionality(Union(Union(a, b), c), Union(a, Union(b, c)));
  }

  lemma UnionIdempotent(a: FlagSet)
    ensures Union(a, a) == a
  {
    Extensionality(Union(a, a), a);
  }

  lemma UnionIdentity(a: FlagSet)
    ensures Union(a, NoFlags) == a
  {
    Extensionality(Union(a, NoFlags), a);
  }

  /** Where the source's `|` is defined (equal flags), the bit-set agrees with it. */
  lemma OrAgreesWithAsWritten(f: SoloudFlag, g: SoloudFlag)
    requires BitOrAsWritten(f, g).Some?
    ensures Or(f, g) == Bit(BitOrAsWritten(f, g).value)
  {
    Extensionality(Or(f, g), Single(f));
  }
}
