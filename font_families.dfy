/** `FontFamily`: its name, indexing, and name-based equality. */
module FontFamilies {
  import opened Wrappers
  import opened Handles
  import opened Errors
  import opened Text
  import Locale

  /** The `name` getter: the best-locale entry of the family's name table. */
  function FamilyName(f: FontFamily, userLocale: WideString): (r: Result<WideString, Failure>)
    ensures f.names.Err? ==> r == Err(Native(f.names.error))
    ensures f.names.Ok? ==> r == Locale.BestName(f.names.value, userLocale)
    ensures r.Ok? ==> f.names.Ok? && r.value in f.names.value.strings
  {
    if f.names.Err? then Err(Native(f.names.error)) else Locale.BestName(f.names.value, userLocale)
  }

  /** The message of the `IndexError` raised for an index that is out of range after adjustment. */
  function OutOfRange(index: int): PyErr
  {
    PyErr(IndexError, "key " + IntText(index) + " out of range")
  }

  /**
    `FontFamily.__getitem__`: a negative index has the font count added once;
    the result, taken `as u32`, must be below the count (`GetFont` fails
    otherwise, and the failure is raised as `IndexError`).
  */
  method GetItem(family: FontFamily, index: i32) returns (r: Result<FontVariant, Failure>)
    requires |family.fonts| < 0x8000_0000
    ensures 0 <= index < |family.fonts| ==> r == Ok(FontVariant(family.fonts[index], family))
    ensures -|family.fonts| <= index < 0 ==>
      r == Ok(FontVariant(family.fonts[index + |family.fonts|], family))
    ensures index >= |family.fonts| ==> r == Err(Raised(OutOfRange(index)))
    ensures index < -|family.fonts| ==> r == Err(Raised(OutOfRange(index + |family.fonts|)))
  {
    var count := |family.fonts|;
    var idx: int := index;
    if idx < 0 {
      idx := idx + count;
    }
    var asU32 := idx % 0x1_0000_0000;
    if asU32 < count {
      r := Ok(FontVariant(family.fonts[asU32], family));
    } else {
      r := Err(Raised(OutOfRange(idx)));
    }
  }

  /**
    `PartialEq for FontFamily`: equal when both names resolve and are the
    same; a failure to resolve either name makes them unequal.
  */
  function FamilyEq(a: FontFamily, b: FontFamily, userLocale: WideString): (r: bool)
    ensures r <==> FamilyName(a, userLocale).Ok? && FamilyName(b, userLocale).Ok? &&
                   FamilyName(a, userLocale).value == FamilyName(b, userLocale).value
  {
    var name := FamilyName(a, userLocale);
    if name.Err? then false
    else
      var otherName := FamilyName(b, userLocale);
      if otherName.Err? then false
      else name.value == otherName.value
  }

  lemma FamilyEqSymmetric(a: FontFamily, b: FontFamily, userLocale: WideString)
    ensures FamilyEq(a, b, userLocale) == FamilyEq(b, a, userLocale)
  {
  }

  lemma FamilyEqTransitive(a: FontFamily, b: FontFamily, c: FontFamily, userLocale: WideString)
    requires FamilyEq(a, b, userLocale) && FamilyEq(b, c, userLocale)
    ensures FamilyEq(a, c, userLocale)
  {
  }

  /**
    A family equals itself exactly when its name resolves: one whose name
    table fails is unequal even to itself.
  */
  lemma FamilyEqReflexiveIffNamed(a: FontFamily, userLocale: WideString)
    ensures FamilyEq(a, a, userLocale) <==> FamilyName(a, userLocale).Ok?
  {
  }

  /** Equality looks only at names: two families with the same names table are equal whatever their fonts. */
  lemma FamilyEqIgnoresHandles(a: FontFamily, b: FontFamily, userLocale: WideString)
    requires a.names == b.names && a.names.Ok?
    requires Locale.ChosenIndex(a.names.value, userLocale) < |a.names.value.strings|
    ensures FamilyEq(a, b, userLocale)
  {
  }
}
