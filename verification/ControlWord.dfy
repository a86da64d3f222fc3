/**
  The control word of a record: | invalid (1 bit) | tombstone (1 bit) | version (62 bits) |.
 */
module ControlWord {
  type Word = bv64

  const INVALID: Word := 1 << 63
  const TOMBSTONE: Word := 1 << 62
  const VERSION_MASK: Word := (1 << 62) - 1

  /** The word set_control stores. */
  function SetControl(version: Word, tomb: bool): Word {
    if !tomb then version else TOMBSTONE | version
  }

  predicate IsInvalid(w: Word) {
    w & INVALID != 0
  }

  predicate IsTombstone(w: Word) {
    w & TOMBSTONE != 0
  }

  function LoadVersion(w: Word): Word {
    w & VERSION_MASK
  }

  /** The three readings of a stored word return what was stored exactly while the version fits its 62 bits. */
  lemma ControlRoundTrip(version: Word, tomb: bool)
    ensures var w := SetControl(version, tomb);
            !IsInvalid(w) && IsTombstone(w) == tomb && LoadVersion(w) == version <==> version <= VERSION_MASK
  {
    if tomb {
      assert LoadVersion(TOMBSTONE | version) == LoadVersion(version);
    }
  }

  /** An invalidated record is told apart from every record a fitting version can mark. */
  lemma InvalidIsDistinct(version: Word, tomb: bool)
    requires version <= VERSION_MASK
    ensures IsInvalid(INVALID) && SetControl(version, tomb) != INVALID
  {
    ControlRoundTrip(version, tomb);
    assert INVALID & INVALID == INVALID;
  }
}
