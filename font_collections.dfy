/** `FontCollection.__getitem__`: lookup by family name or by integer index. */
module FontCollections {
  import opened Wrappers
  import opened Handles
  import opened Errors
  import opened Text

  const INDEX_OUT_OF_RANGE := PyErr(IndexError, "list index out of range")

  function UnknownFamily(name: string): PyErr
  {
    PyErr(KeyError, "unknown font family " + PyRepr(name))
  }

  /** Rust's `as u32` on an integer: its value modulo 2^32. */
  function AsU32(i: int): (r: nat)
    ensures r < 0x1_0000_0000
    ensures 0 <= i < 0x1_0000_0000 ==> r == i
    ensures (i - r) % 0x1_0000_0000 == 0
  {
    i % 0x1_0000_0000
  }

  /**
    `FontCollection.__getitem__` as written: a name goes through
    `FindFamilyName` (a failure becomes `OSError`, "not found" a `KeyError`);
    an integer is truncated `as u32`; the resolved index must be below the
    family count.
  */
  function GetItem(c: FontCollection, key: IntOrStr): (r: Result<FontFamily, Failure>)
    ensures key.Str? && FindIn(c.find, key.s).FindFailed? ==> r == Err(NativeToPy(FindIn(c.find, key.s).error))
    ensures key.Str? && FindIn(c.find, key.s).NotFound? ==> r == Err(Raised(UnknownFamily(key.s)))
    ensures key.Str? && FindIn(c.find, key.s).Found? ==>
      var i := FindIn(c.find, key.s).index;
      r == if i < |c.families| then Ok(c.families[i]) else Err(Raised(INDEX_OUT_OF_RANGE))
    ensures key.Int? ==> (r.Ok? <==> AsU32(key.i) < |c.families|)
    ensures key.Int? && r.Ok? ==> r.value == c.families[AsU32(key.i)]
    ensures key.Int? && r.Err? ==> r.error == Raised(INDEX_OUT_OF_RANGE)
  {
    var index: Result<nat, Failure> :=
      match key
      case Str(name) => (
        match FindIn(c.find, name)
        case FindFailed(e) => Err(NativeToPy(e))
        case NotFound => Err(Raised(UnknownFamily(name)))
        case Found(i) => Ok(i))
      case Int(i) => Ok(AsU32(i));
    if index.Err? then Err(index.error)
    else if index.value >= |c.families| then Err(Raised(INDEX_OUT_OF_RANGE))
    else Ok(c.families[index.value])
  }

  /**
    Integer keys are not counted from the end: a negative key down to
    count - 2^32 wraps to an index at or past the count and raises
    `IndexError` (the family count is a `u32`), while every valid index
    selects its family.
  */
  lemma NegativeKeyIsOutOfRange(c: FontCollection, k: int, i: int)
    requires |c.families| < 0x1_0000_0000
    ensures |c.families| - 0x1_0000_0000 <= k < 0 ==> GetItem(c, Int(k)) == Err(Raised(INDEX_OUT_OF_RANGE))
    ensures 0 <= i < |c.families| ==> GetItem(c, Int(i)) == Ok(c.families[i])
  {
    if |c.families| - 0x1_0000_0000 <= k < 0 {
      assert AsU32(k) == k + 0x1_0000_0000;
    }
  }

  /**
    The truncation lets an index beyond the end through: 2^32 selects the
    first family of any non-empty collection instead of raising `IndexError`,
    and so does -2^32.
  */
  lemma WrappedKeyReturnsFirstFamily(c: FontCollection)
    requires 0 < |c.families| < 0x1_0000_0000
    ensures GetItem(c, Int(0x1_0000_0000)) == Ok(c.families[0])
    ensures GetItem(c, Int(-0x1_0000_0000)) == Ok(c.families[0])
    ensures GetItem(c, Int(0x1_0000_0000 + |c.families| - 1)) == Ok(c.families[|c.families| - 1])
  {
  }

  /**
    The lookup with the evidently intended bounds check: an integer key is
    accepted exactly when it is a valid index, before any truncation.
  */
  function GetItemChecked(c: FontCollection, key: IntOrStr): (r: Result<FontFamily, Failure>)
    ensures key.Int? ==> (r.Ok? <==> 0 <= key.i < |c.families|)
    ensures key.Int? && r.Ok? ==> r.value == c.families[key.i]
    ensures key.Int? && r.Err? ==> r.error == Raised(INDEX_OUT_OF_RANGE)
    ensures key.Str? ==> r == GetItem(c, key)
  {
    match key
    case Str(_) => GetItem(c, key)
    case Int(i) =>
      if 0 <= i < |c.families| then Ok(c.families[i]) else Err(Raised(INDEX_OUT_OF_RANGE))
  }

  /** The checked lookup agrees with the source on every valid index and raises `IndexError` on every other integer. */
  lemma CheckedAgreesOnValidIndices(c: FontCollection, i: int)
    requires |c.families| < 0x1_0000_0000
    ensures 0 <= i < |c.families| ==> GetItemChecked(c, Int(i)) == GetItem(c, Int(i))
    ensures !(0 <= i < |c.families|) ==> GetItemChecked(c, Int(i)) == Err(Raised(INDEX_OUT_OF_RANGE))
  {
  }
}
