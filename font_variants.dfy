/** `FontVariant`: the `filename` accessor and variant equality. */
module FontVariants {
  import opened Wrappers
  import opened Handles
  import opened Errors
  import FontFamilies

  const NOT_ONE_FILE_MESSAGE := "FontVariant had more than one name, please use .files()"

  /**
    The `filename` getter over the outcome of `files()`: the only file when
    there is exactly one, otherwise a `RuntimeError`; a failure of `files()`
    is passed on.
  */
  function Filename(files: Result<seq<string>, Failure>): (r: Result<string, Failure>)
    ensures files.Err? ==> r == Err(files.error)
    ensures files.Ok? && |files.value| != 1 ==> r == Err(Raised(PyErr(RuntimeError, NOT_ONE_FILE_MESSAGE)))
  {
    if files.Err? then Err(files.error)
    else if |files.value| != 1 then Err(Raised(PyErr(RuntimeError, NOT_ONE_FILE_MESSAGE)))
    else Ok(files.value[0])
  }

  /** `filename` yields a path exactly when `files()` yields that path alone. */
  lemma FilenameIsSoleFile(files: Result<seq<string>, Failure>, path: string)
    ensures Filename(files) == Ok(path) <==> files == Ok([path])
  {
    if files == Ok([path]) {
      assert Filename(files) == Ok(path);
    }
    if Filename(files) == Ok(path) {
      assert files.value == [files.value[0]];
    }
  }

  /**
    `PartialEq for FontVariant` as written: unequal when the weights differ or
    the styles are the SAME; otherwise family equality decides.
  */
  function VariantEq(v: FontVariant, w: FontVariant, userLocale: WideString): (r: bool)
    ensures r <==> v.font.weight == w.font.weight && v.font.style != w.font.style &&
                   FontFamilies.FamilyEq(v.family, w.family, userLocale)
  {
    if v.font.weight != w.font.weight || v.font.style == w.font.style then false
    else FontFamilies.FamilyEq(v.family, w.family, userLocale)
  }

  /** As written, a variant is never equal to itself (nor to a copy of itself). */
  lemma VariantNeverEqualsItself(v: FontVariant, userLocale: WideString)
    ensures !VariantEq(v, v, userLocale)
  {
  }

  /** Two variants of equally named families with the same weight and different styles compare equal. */
  lemma VariantEqAcrossStyles(v: FontVariant, w: FontVariant, userLocale: WideString)
    requires FontFamilies.FamilyEq(v.family, w.family, userLocale)
    requires v.font.weight == w.font.weight && v.font.style != w.font.style
    ensures VariantEq(v, w, userLocale)
  {
  }

  lemma VariantEqSymmetric(v: FontVariant, w: FontVariant, userLocale: WideString)
    ensures VariantEq(v, w, userLocale) == VariantEq(w, v, userLocale)
  {
    FontFamilies.FamilyEqSymmetric(v.family, w.family, userLocale);
  }

  /**
    The equality the early-exit check evidently intends: unequal when the
    weights or the styles differ; otherwise family equality decides.
  */
  function VariantEqIntended(v: FontVariant, w: FontVariant, userLocale: WideString): (r: bool)
    ensures r <==> v.font.weight == w.font.weight && v.font.style == w.font.style &&
                   FontFamilies.FamilyEq(v.family, w.family, userLocale)
  {
    if v.font.weight != w.font.weight || v.font.style != w.font.style then false
    else FontFamilies.FamilyEq(v.family, w.family, userLocale)
  }

  /**
    The intended equality is an equivalence on variants whose family name
    resolves: reflexive there, symmetric and transitive everywhere.
  */
  lemma VariantEqIntendedIsEquivalence(u: FontVariant, v: FontVariant, w: FontVariant, userLocale: WideString)
    ensures FontFamilies.FamilyName(u.family, userLocale).Ok? ==> VariantEqIntended(u, u, userLocale)
    ensures VariantEqIntended(u, v, userLocale) == VariantEqIntended(v, u, userLocale)
    ensures VariantEqIntended(u, v, userLocale) && VariantEqIntended(v, w, userLocale) ==>
            VariantEqIntended(u, w, userLocale)
  {
    FontFamilies.FamilyEqReflexiveIffNamed(u.family, userLocale);
    FontFamilies.FamilyEqSymmetric(u.family, v.family, userLocale);
    if VariantEqIntended(u, v, userLocale) && VariantEqIntended(v, w, userLocale) {
      FontFamilies.FamilyEqTransitive(u.family, v.family, w.family, userLocale);
    }
  }
}
