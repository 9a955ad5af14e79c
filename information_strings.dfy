/**
  The static table of informational-string names, its two uses: turning the
  keyword arguments of the module-level `get_matching_variants` into font
  property filters, and the dict-like `InformationDict` over one font.
*/
module InformationStrings {
  import opened Wrappers
  import opened Handles
  import opened Errors
  import opened Text
  import Locale
  import StringOrder

  /**
    DWRITE_FONT_PROPERTY_ID values the table uses. In DirectWrite's headers
    PREFERRED_FAMILY_NAME is another name for TYPOGRAPHIC_FAMILY_NAME and
    FAMILY_NAME another name for WEIGHT_STRETCH_STYLE_FAMILY_NAME, so the
    table entries written with those names carry the same value here.
  */
  datatype PropertyId =
    | PropertyNone
    | WeightStretchStyleFamilyName
    | TypographicFamilyName
    | FullName
    | Win32FamilyName
    | PostscriptName
    | DesignScriptLanguageTag
    | SupportedScriptLanguageTag

  /** A table entry: the DWRITE_INFORMATIONAL_STRING_ID and the filterable property, if any. */
  datatype InfoEntry = InfoEntry(id: int, property: PropertyId)

  /**
    `INFO_STRING_NAMES`. Informational-string ids are DirectWrite's numbers
    (COPYRIGHT_NOTICE = 1 ... SUPPORTED_SCRIPT_LANGUAGE_TAG = 21; the
    TYPOGRAPHIC_* and WWS names are aliases of 13, 14 and 19).
  */
  const INFO_STRING_NAMES: map<string, InfoEntry> := map[
    "copyright" := InfoEntry(1, PropertyNone),
    "versions" := InfoEntry(2, PropertyNone),
    "trademark" := InfoEntry(3, PropertyNone),
    "manufacturer" := InfoEntry(4, PropertyNone),
    "designer" := InfoEntry(5, PropertyNone),
    "designer_url" := InfoEntry(6, PropertyNone),
    "description" := InfoEntry(7, PropertyNone),
    "vendor_url" := InfoEntry(8, PropertyNone),
    "license_description" := InfoEntry(9, PropertyNone),
    "license_info_url" := InfoEntry(10, PropertyNone),
    "win32_family_names" := InfoEntry(11, Win32FamilyName),
    "win32_subfamily_names" := InfoEntry(12, PropertyNone),
    "typographic_family_names" := InfoEntry(13, TypographicFamilyName),
    "typographic_subfamily_names" := InfoEntry(14, PropertyNone),
    "sample_text" := InfoEntry(15, PropertyNone),
    "full_name" := InfoEntry(16, FullName),
    "postscript_name" := InfoEntry(17, PostscriptName),
    "postscript_cid_name" := InfoEntry(18, PropertyNone),
    "weight_stretch_style_family_name" := InfoEntry(19, WeightStretchStyleFamilyName),
    "design_script_language_tag" := InfoEntry(20, DesignScriptLanguageTag),
    "supported_script_language_tag" := InfoEntry(21, SupportedScriptLanguageTag),
    "preferred_family_names" := InfoEntry(13, TypographicFamilyName),
    "preferred_subfamily_names" := InfoEntry(14, WeightStretchStyleFamilyName),
    "wss_family_name" := InfoEntry(19, PropertyNone)
  ]

  /** A name the global search accepts: known to the table and mapped to a property. */
  predicate Filterable(name: string)
  {
    name in INFO_STRING_NAMES && INFO_STRING_NAMES[name].property != PropertyNone
  }

  /** DWRITE_FONT_PROPERTY: a property and the value it must have. */
  datatype FontProperty = FontProperty(propertyId: PropertyId, propertyValue: string)

  const NO_FILTERS_MESSAGE := "no filter conditions passed"

  /** The `TypeError` for a keyword the global search cannot filter on. */
  function FilterError(name: string): PyErr
  {
    if name in INFO_STRING_NAMES then PyErr(TypeError, RustDebug(name) + " doesn't have a mapping to font property id")
    else PyErr(TypeError, RustDebug(name) + " isn't a known font property name")
  }

  /** The filter a filterable keyword argument becomes. */
  function FilterFor(name: string, value: string): FontProperty
    requires Filterable(name)
  {
    FontProperty(INFO_STRING_NAMES[name].property, value)
  }

  /**
    The validation pass over the keyword arguments, in iteration order: the
    error of the first keyword that cannot be filtered on, or one filter per
    keyword.
  */
  function Filters(kwargs: seq<(string, string)>): (r: Result<seq<FontProperty>, PyErr>)
    ensures r.Ok? ==> |r.value| == |kwargs|
    ensures r.Err? ==> r.error.kind == TypeError && exists k :: 0 <= k < |kwargs| && r.error == FilterError(kwargs[k].0)
  {
    if kwargs == [] then Ok([])
    else
      var last := kwargs[|kwargs| - 1];
      match Filters(kwargs[..|kwargs| - 1])
      case Err(e) => Err(e)
      case Ok(fs) => if Filterable(last.0) then Ok(fs + [FilterFor(last.0, last.1)]) else Err(FilterError(last.0))
  }

  /** When some keyword cannot be filtered on, validation reports the first such keyword. */
  lemma {:induction false} FiltersRejectFirstBadKey(kwargs: seq<(string, string)>, k: nat)
    requires k < |kwargs| && !Filterable(kwargs[k].0)
    requires forall j :: 0 <= j < k ==> Filterable(kwargs[j].0)
    ensures Filters(kwargs) == Err(FilterError(kwargs[k].0))
    decreases |kwargs|
  {
    if k < |kwargs| - 1 {
      FiltersRejectFirstBadKey(kwargs[..|kwargs| - 1], k);
    } else {
      FiltersAcceptGoodKeys(kwargs[..k]);
    }
  }

  /** When every keyword can be filtered on, validation yields one filter per keyword, in order. */
  lemma {:induction false} FiltersAcceptGoodKeys(kwargs: seq<(string, string)>)
    requires forall j :: 0 <= j < |kwargs| ==> Filterable(kwargs[j].0)
    ensures Filters(kwargs).Ok?
    ensures |Filters(kwargs).value| == |kwargs|
    ensures forall i :: 0 <= i < |kwargs| ==> Filters(kwargs).value[i] == FilterFor(kwargs[i].0, kwargs[i].1)
    decreases |kwargs|
  {
    if kwargs != [] {
      FiltersAcceptGoodKeys(kwargs[..|kwargs| - 1]);
    }
  }

  /**
    The module-level `get_matching_variants(**kwargs)`. `kwargs` lists the
    keyword arguments in the dictionary's iteration order; `search` gives the
    native font-set search for a list of filters. Every keyword is validated
    before the search runs.
  */
  method GetMatchingVariants(
    kwargs: Option<seq<(string, string)>>,
    search: seq<FontProperty> -> Result<seq<FontVariant>, NativeError>)
    returns (r: Result<seq<FontVariant>, Failure>)
    ensures kwargs.None? ==> r == Err(Raised(PyErr(TypeError, NO_FILTERS_MESSAGE)))
    ensures kwargs.Some? && Filters(kwargs.value).Err? ==> r == Err(Raised(Filters(kwargs.value).error))
    ensures kwargs.Some? && Filters(kwargs.value).Ok? ==>
      var found := search(Filters(kwargs.value).value);
      r == if found.Ok? then Ok(found.value) else Err(NativeToPy(found.error))
  {
    if kwargs.None? {
      return Err(Raised(PyErr(TypeError, NO_FILTERS_MESSAGE)));
    }
    var args := kwargs.value;
    var filters: seq<FontProperty> := [];
    var n := 0;
    while n < |args|
      invariant 0 <= n <= |args|
      invariant Filters(args[..n]) == Ok(filters)
    {
      var (name, val) := args[n];
      assert args[..n + 1][..n] == args[..n];
      if !Filterable(name) {
        assert Filters(args[..n + 1]) == Err(FilterError(name));
        PrefixErrorPersists(args, n + 1);
        return Err(Raised(FilterError(name)));
      }
      filters := filters + [FilterFor(name, val)];
      n := n + 1;
    }
    assert args[..n] == args;
    var found := search(filters);
    if found.Err? {
      return Err(NativeToPy(found.error));
    }
    r := Ok(found.value);
  }

  /** Once a prefix of the keywords is rejected, the whole list is rejected with the same error. */
  lemma {:induction false} PrefixErrorPersists(kwargs: seq<(string, string)>, n: nat)
    requires n <= |kwargs| && Filters(kwargs[..n]).Err?
    ensures Filters(kwargs) == Filters(kwargs[..n])
    decreases |kwargs| - n
  {
    if n < |kwargs| {
      assert kwargs[..n + 1][..n] == kwargs[..n];
      PrefixErrorPersists(kwargs, n + 1);
    } else {
      assert kwargs[..n] == kwargs;
    }
  }

  /** Exactly nine names of the table can be used as search filters. */
  lemma FilterableNames()
    ensures (set name | name in INFO_STRING_NAMES && Filterable(name)) == {
      "win32_family_names", "typographic_family_names", "full_name", "postscript_name",
      "weight_stretch_style_family_name", "design_script_language_tag",
      "supported_script_language_tag", "preferred_family_names", "preferred_subfamily_names"}
  {
  }

  /** Aliased property names build the same native filter. */
  lemma AliasedNamesBuildSameFilter(value: string)
    ensures FilterFor("preferred_family_names", value) == FilterFor("typographic_family_names", value)
    ensures FilterFor("preferred_subfamily_names", value) == FilterFor("weight_stretch_style_family_name", value)
  {
  }

  /** A key of `__contains__`: a string, an integer, or any other Python object. */
  datatype DictKey = StrKey(s: string) | IntKey(i: int) | OtherKey

  const INFO_QUERY_CONTEXT := "GetInformationalStrings failed"

  /**
    `get_info_string`: the font's strings for an id when the field exists,
    nothing when it does not, or the failure with its context message.
  */
  function InfoQuery(font: Font, id: int): (r: Result<Option<LocalizedStrings>, Failure>)
    ensures r.Err? <==> id in font.info && font.info[id].InfoFailed?
    ensures r.Err? ==> r.error == Context(INFO_QUERY_CONTEXT, font.info[id].error)
    ensures r == Ok(None) <==> id !in font.info
    ensures id in font.info && font.info[id].InfoPresent? ==> r == Ok(Some(font.info[id].strings))
  {
    if id !in font.info then Ok(None)
    else match font.info[id]
      case InfoFailed(e) => Err(Context(INFO_QUERY_CONTEXT, e))
      case InfoPresent(s) => Ok(Some(s))
  }

  /** A table entry is visible when its query returns strings; failures and absences are hidden alike. */
  predicate Visible(font: Font, name: string)
  {
    name in INFO_STRING_NAMES && InfoQuery(font, INFO_STRING_NAMES[name].id).Ok? &&
    InfoQuery(font, INFO_STRING_NAMES[name].id).value.Some?
  }

  /** The names `_valid_information_keys` yields (in unspecified order). */
  function VisibleKeys(font: Font): (keys: set<string>)
    ensures keys <= INFO_STRING_NAMES.Keys
    ensures forall name :: name in keys <==> Visible(font, name)
  {
    set name | name in INFO_STRING_NAMES && Visible(font, name)
  }

  /** `InformationDict.__len__`: the number of visible entries, at most the table's size. */
  function Len(font: Font): (n: nat)
    ensures n == |VisibleKeys(font)|
    ensures n <= |INFO_STRING_NAMES.Keys|
  {
    var keys := VisibleKeys(font);
    SubsetCardinality(keys, INFO_STRING_NAMES.Keys);
    |keys|
  }

  lemma {:induction false} SubsetCardinality<T>(a: set<T>, b: set<T>)
    requires a <= b
    ensures |a| <= |b|
    decreases a
  {
    if a != {} {
      var x :| x in a;
      SubsetCardinality(a - {x}, b - {x});
    }
  }

  /**
    CPython's overflow message when an integer key is converted to `i32`
    through a C `long`, which is 32 bits wide on Windows.
  */
  const OVERFLOW_MESSAGE := "Python int too large to convert to C long"

  /**
    `InformationDict.__contains__`: a string matches a visible name, an
    integer (which must fit in `i32`) the id of a visible entry; any other
    key is absent.
  */
  function Contains(font: Font, key: DictKey): (r: Result<bool, Failure>)
    ensures key.StrKey? ==> r == Ok(key.s in VisibleKeys(font))
    ensures key.IntKey? && !(-0x8000_0000 <= key.i < 0x8000_0000) ==> r.Err?
    ensures key.IntKey? && -0x8000_0000 <= key.i < 0x8000_0000 ==>
      r.Ok? && (r.value <==> exists name :: name in VisibleKeys(font) && INFO_STRING_NAMES[name].id == key.i)
    ensures key.OtherKey? ==> r == Ok(false)
  {
    match key
    case StrKey(s) => Ok(exists name :: name in VisibleKeys(font) && name == s)
    case IntKey(i) =>
      if -0x8000_0000 <= i < 0x8000_0000 then
        Ok(exists name :: name in VisibleKeys(font) && INFO_STRING_NAMES[name].id == i)
      else Err(Raised(PyErr(OverflowError, OVERFLOW_MESSAGE)))
    case OtherKey => Ok(false)
  }

  /**
    `InformationDict.keys`: the visible names, collected in the table's
    (unspecified) iteration order and then sorted.
  */
  method Keys(font: Font) returns (keys: seq<string>)
    ensures StringOrder.StrictlySorted(keys)
    ensures forall name :: name in keys <==> Contains(font, StrKey(name)) == Ok(true)
    ensures |keys| == Len(font)
  {
    var list: seq<string> := [];
    var remaining := INFO_STRING_NAMES.Keys;
    while remaining != {}
      invariant remaining <= INFO_STRING_NAMES.Keys
      invariant forall name :: name in list <==> Visible(font, name) && name !in remaining
      invariant StringOrder.Distinct(list)
      decreases remaining
    {
      var name :| name in remaining;
      var entry := INFO_STRING_NAMES[name];
      var strings := InfoQuery(font, entry.id);
      if strings.Ok? && strings.value.Some? {
        list := list + [name];
      }
      remaining := remaining - {name};
    }
    keys := StringOrder.Sort(list);
    SortedKeysAreVisibleKeys(font, list, keys);
  }

  lemma SortedKeysAreVisibleKeys(font: Font, list: seq<string>, keys: seq<string>)
    requires forall name :: name in list <==> Visible(font, name)
    requires multiset(keys) == multiset(list)
    requires StringOrder.StrictlySorted(keys)
    ensures forall name :: name in keys <==> name in VisibleKeys(font)
    ensures |keys| == Len(font)
  {
    assert forall name :: name in keys <==> name in multiset(keys);
    assert forall name :: name in list <==> name in multiset(list);
    assert (set name | name in keys) == VisibleKeys(font);
    StringOrder.SortedCardinality(keys);
  }

  /** `{key:?}` of an `IntOrStr`, as the absent-field `KeyError` shows it. */
  function DebugKey(key: IntOrStr): string
  {
    match key
    case Str(s) => "Str(" + PyRepr(s) + ")"
    case Int(i) => "Int(" + IntText(i) + ")"
  }

  /** Rust's `as i32`: the value wrapped into the signed 32-bit range. */
  function AsI32(i: int): (r: i32)
    ensures -0x8000_0000 <= i < 0x8000_0000 ==> r == i
    ensures (i - r) % 0x1_0000_0000 == 0
  {
    (i + 0x8000_0000) % 0x1_0000_0000 - 0x8000_0000
  }

  /**
    `InformationDict.__getitem__`: a name must be in the table, an integer is
    used as an id directly; the field must exist, and its best-locale string
    is returned.
  */
  function GetItem(font: Font, key: IntOrStr, userLocale: WideString): (r: Result<WideString, Failure>)
    ensures key.Str? && key.s !in INFO_STRING_NAMES ==>
      r == Err(Raised(PyErr(KeyError, PyRepr(key.s) + " doesn't exist")))
    ensures KnownKey(key) && InfoQuery(font, IdOf(key)).Err? ==> r == Err(InfoQuery(font, IdOf(key)).error)
    ensures KnownKey(key) && InfoQuery(font, IdOf(key)) == Ok(None) ==>
      r == Err(Raised(PyErr(KeyError, DebugKey(key) + " doesn't exist")))
    ensures KnownKey(key) && InfoQuery(font, IdOf(key)).Ok? && InfoQuery(font, IdOf(key)).value.Some? ==>
      r == Locale.BestName(InfoQuery(font, IdOf(key)).value.value, userLocale)
    ensures r.Ok? ==>
      (InfoQuery(font, IdOf(key)).Ok? && InfoQuery(font, IdOf(key)).value.Some? &&
       r.value in InfoQuery(font, IdOf(key)).value.value.strings)
  {
    match key
    case Str(s) =>
      if s !in INFO_STRING_NAMES then Err(Raised(PyErr(KeyError, PyRepr(s) + " doesn't exist")))
      else Lookup(font, key, INFO_STRING_NAMES[s].id, userLocale)
    case Int(i) => Lookup(font, key, AsI32(i), userLocale)
  }

  /** A key `__getitem__` goes on to query: any integer, or a name in the table. */
  predicate KnownKey(key: IntOrStr)
  {
    key.Int? || key.s in INFO_STRING_NAMES
  }

  /** The id `__getitem__` queries for a key (only meaningful for a known name). */
  function IdOf(key: IntOrStr): int
  {
    match key
    case Str(s) => if s in INFO_STRING_NAMES then INFO_STRING_NAMES[s].id else 0
    case Int(i) => AsI32(i)
  }

  /**
    The second half of `__getitem__`: a failed query is passed on, an absent
    field is a `KeyError` showing the key, and a present one gives its
    best-locale string.
  */
  function Lookup(font: Font, key: IntOrStr, id: int, userLocale: WideString): (r: Result<WideString, Failure>)
    ensures InfoQuery(font, id).Err? ==> r == Err(InfoQuery(font, id).error)
    ensures id !in font.info ==> r == Err(Raised(PyErr(KeyError, DebugKey(key) + " doesn't exist")))
    ensures id in font.info && font.info[id].InfoPresent? ==> r == Locale.BestName(font.info[id].strings, userLocale)
    ensures r.Ok? ==>
      (InfoQuery(font, id).Ok? && InfoQuery(font, id).value.Some? &&
       r.value in InfoQuery(font, id).value.value.strings)
  {
    var strings := InfoQuery(font, id);
    if strings.Err? then Err(strings.error)
    else if strings.value.None? then Err(Raised(PyErr(KeyError, DebugKey(key) + " doesn't exist")))
    else Locale.BestName(strings.value.value, userLocale)
  }

  /** A raised `KeyError`. */
  predicate IsKeyError(r: Result<WideString, Failure>)
  {
    r.Err? && r.error.Raised? && r.error.py.kind == KeyError
  }

  /**
    Lookup by name agrees with membership: a visible name never raises
    `KeyError` (it yields its best-locale string, or a native failure), and a
    name that is absent without a native failure does.
  */
  lemma GetItemAgreesWithContains(font: Font, name: string, userLocale: WideString)
    ensures Contains(font, StrKey(name)) == Ok(true) ==>
      GetItem(font, Str(name), userLocale) ==
        Locale.BestName(InfoQuery(font, INFO_STRING_NAMES[name].id).value.value, userLocale)
    ensures Contains(font, StrKey(name)) == Ok(false) &&
            !(name in INFO_STRING_NAMES && InfoQuery(font, INFO_STRING_NAMES[name].id).Err?) ==>
      IsKeyError(GetItem(font, Str(name), userLocale))
    ensures GetItem(font, Str(name), userLocale).Ok? ==> Contains(font, StrKey(name)) == Ok(true)
  {
  }

  /** For a visible name, lookup by its id gives the same answer as lookup by the name. */
  lemma GetItemByIdMatchesByName(font: Font, name: string, userLocale: WideString)
    requires Visible(font, name)
    ensures GetItem(font, Int(INFO_STRING_NAMES[name].id), userLocale) == GetItem(font, Str(name), userLocale)
    ensures Contains(font, IntKey(INFO_STRING_NAMES[name].id)) == Ok(true)
  {
    var id := INFO_STRING_NAMES[name].id;
    assert 1 <= id <= 21;
  }

  /** The id 0 (DWRITE_INFORMATIONAL_STRING_NONE) of a font that reports no such field raises `KeyError`. */
  lemma NoneIdRaises(font: Font, userLocale: WideString)
    requires 0 !in font.info
    ensures GetItem(font, Int(0), userLocale) == Err(Raised(PyErr(KeyError, "Int(0) doesn't exist")))
  {
    assert AsI32(0) == 0;
    assert IntText(0) == "0";
    assert DebugKey(Int(0)) + " doesn't exist" == "Int(0) doesn't exist";
  }

  /** A name outside the table raises `KeyError` whatever the font holds. */
  lemma UnknownNameRaises(font: Font, userLocale: WideString)
    ensures GetItem(font, Str("madeup"), userLocale) == Err(Raised(PyErr(KeyError, "'madeup' doesn't exist")))
  {
    assert "madeup" !in INFO_STRING_NAMES;
    assert PyRepr("madeup") + " doesn't exist" == "'madeup' doesn't exist";
  }

  /** Any integer key whose id (taken `as i32`) the font does not have raises `KeyError` showing the key. */
  lemma AbsentIdRaises(font: Font, i: int, userLocale: WideString)
    requires AsI32(i) !in font.info
    ensures GetItem(font, Int(i), userLocale) == Err(Raised(PyErr(KeyError, DebugKey(Int(i)) + " doesn't exist")))
  {
    assert InfoQuery(font, AsI32(i)) == Ok(None);
  }
}
