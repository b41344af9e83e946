/** A 16-bit tag and a pointer packed in one 64-bit word.

    `Pack`, `Ptr` and `Tag` are the accessors of the tagged stack, which sign-extends bit 47;
    `RawPtr` is the accessor of the puzzle, which does not. */
module TaggedPtr {

  const PTR_MASK: bv64 := 0x0000_FFFF_FFFF_FFFF
  const SIGN_BIT: bv64 := 0x0000_8000_0000_0000
  const HIGH_BITS: bv64 := 0xFFFF_0000_0000_0000

  /** uint16_t, in a wider register. */
  type Tag16 = t: bv64 | t <= 0xFFFF

  function Truncate(t: bv64): Tag16
  {
    t & 0xFFFF
  }

  function Pack(ptr: bv64, tag: Tag16): bv64
  {
    (tag << 48) | (ptr & PTR_MASK)
  }

  function Ptr(value: bv64): bv64
  {
    var raw := value & PTR_MASK;
    if raw & SIGN_BIT != 0 then raw | HIGH_BITS else raw
  }

  function RawPtr(value: bv64): bv64
  {
    value & PTR_MASK
  }

  function Tag(value: bv64): Tag16
  {
    Truncate(value >> 48)
  }

  /** Bits 63..47 all equal, as every x86-64 address has with 48-bit virtual addresses. */
  predicate Canonical(ptr: bv64)
  {
    ptr & (HIGH_BITS | SIGN_BIT) == 0 || ptr & (HIGH_BITS | SIGN_BIT) == HIGH_BITS | SIGN_BIT
  }

  lemma PackedTag(ptr: bv64, tag: Tag16)
    ensures Tag(Pack(ptr, tag)) == tag
  {
  }

  lemma PackedLow(ptr: bv64, tag: Tag16)
    ensures Pack(ptr, tag) & PTR_MASK == ptr & PTR_MASK
  {
  }

  lemma LowerHalf(ptr: bv64)
    ensures ptr & PTR_MASK & SIGN_BIT == ptr & SIGN_BIT
    ensures ptr & SIGN_BIT == 0 ==> (ptr & PTR_MASK == ptr <==> Canonical(ptr))
  {
  }

  lemma UpperHalf(ptr: bv64)
    ensures ptr & SIGN_BIT != 0 ==> ((ptr & PTR_MASK) | HIGH_BITS == ptr <==> Canonical(ptr))
  {
  }

  /** The sign-extended low 48 bits are the pointer exactly when it is canonical. */
  lemma SignExtended(ptr: bv64, value: bv64)
    requires value & PTR_MASK == ptr & PTR_MASK
    ensures Ptr(value) == ptr <==> Canonical(ptr)
  {
    hide Canonical;
    LowerHalf(ptr);
    UpperHalf(ptr);
  }

  /** The pointer comes back exactly when it is canonical, the tag always. */
  lemma PackRoundTrip(ptr: bv64, tag: Tag16)
    ensures Ptr(Pack(ptr, tag)) == ptr <==> Canonical(ptr)
    ensures Tag(Pack(ptr, tag)) == tag
  {
    hide Ptr, Pack, Tag, Canonical;
    PackedTag(ptr, tag);
    PackedLow(ptr, tag);
    SignExtended(ptr, Pack(ptr, tag));
  }

  /** Without sign extension the pointer comes back only from the lower half. */
  lemma RawRoundTrip(ptr: bv64, tag: Tag16)
    ensures RawPtr(Pack(ptr, tag)) == ptr <==> ptr & HIGH_BITS == 0
  {
  }

  lemma PtrOfLowerHalf(value: bv64)
    requires value & PTR_MASK & SIGN_BIT == 0
    ensures Canonical(Ptr(value)) && Ptr(value) & PTR_MASK == value & PTR_MASK
  {
  }

  lemma PtrOfUpperHalf(value: bv64)
    requires value & PTR_MASK & SIGN_BIT != 0
    ensures Canonical(Ptr(value)) && Ptr(value) & PTR_MASK == value & PTR_MASK
  {
  }

  lemma WordFromParts(value: bv64, ptr: bv64)
    requires ptr & PTR_MASK == value & PTR_MASK
    ensures Pack(ptr, Tag(value)) == value
  {
  }

  /** Every word is the packing of its parts, so comparing words compares pointer and tag. */
  lemma UnpackRoundTrip(value: bv64)
    ensures Canonical(Ptr(value)) && Pack(Ptr(value), Tag(value)) == value
  {
    hide Ptr, Pack, Tag, Canonical;
    if value & PTR_MASK & SIGN_BIT == 0 { PtrOfLowerHalf(value); } else { PtrOfUpperHalf(value); }
    WordFromParts(value, Ptr(value));
  }

  lemma EqualWords(p: bv64, t: Tag16, q: bv64, u: Tag16)
    requires Canonical(p) && Canonical(q)
    ensures Pack(p, t) == Pack(q, u) <==> p == q && t == u
  {
    PackRoundTrip(p, t);
    PackRoundTrip(q, u);
  }

  /** The increment every CAS installs: the next tag, and after the last one 0 again. */
  lemma NextTag(value: bv64, ptr: bv64)
    ensures Tag(Pack(ptr, Truncate(Tag(value) + 1))) == if Tag(value) == 0xFFFF then 0 else Tag(value) + 1
  {
    PackRoundTrip(ptr, Truncate(Tag(value) + 1));
  }
}
