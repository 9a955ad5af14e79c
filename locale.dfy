/**
  Locale-aware best-name selection: the user's locale, else "en-us", else the
  first entry; and the branch logic that produces the cached user locale.
*/
module Locale {
  import opened Wrappers
  import opened Handles
  import opened Errors
  import opened Text

  /** LOCALE_NAME_MAX_LENGTH, the capacity passed to `GetUserDefaultLocaleName`. */
  const LOCALE_NAME_MAX_LENGTH: nat := 85

  /** The locale tried when the user's locale is not in a table. */
  const EN_US_LOWER: WideString := Wide("en-us")

  /** The user locale assumed when the OS reports an empty locale name. */
  const EN_US_UPPER: WideString := Wide("en-US")

  /**
    `_get_user_locale`, after the OS call: `len` is what
    `GetUserDefaultLocaleName` returned (the name's length counting its
    terminator, or 0 on failure), `buff` the buffer it wrote into, and
    `lastError` the error the OS reports for the failure.
  */
  function UserLocale(len: int, buff: WideString, lastError: NativeError): (r: Result<WideString, Failure>)
    requires |buff| == LOCALE_NAME_MAX_LENGTH + 1
    ensures r.Err? <==> len <= 0
    ensures r.Err? ==> r.error == Native(lastError)
    ensures len == 1 ==> r == Ok(EN_US_UPPER)
    ensures len > 1 ==> r.Ok? && |r.value| == len - 1
    ensures 1 < len <= |buff| + 1 ==> r.Ok? && r.value == buff[..len - 1]
    ensures r.Ok? ==> |r.value| > 0
  {
    if len <= 0 then Err(Native(lastError))
    else if len == 1 then Ok(EN_US_UPPER)
    else Ok(Resize(buff, len - 1))
  }

  /**
    The index whose string `get_best_name` returns: the user locale's index
    when the table has it; the "en-us" index when the first lookup succeeded
    and reported the user locale absent; index 0 otherwise.
  */
  function ChosenIndex(t: LocalizedStrings, userLocale: WideString): (r: nat)
    ensures FindIn(t.find, userLocale).Found? ==> r == FindIn(t.find, userLocale).index
    ensures FindIn(t.find, userLocale).NotFound? && FindIn(t.find, EN_US_LOWER).Found? ==>
      r == FindIn(t.find, EN_US_LOWER).index
    ensures r != 0 ==>
      (exists l :: l in LocalesQueried(t, userLocale) && FindIn(t.find, l) == Found(r))
  {
    match FindIn(t.find, userLocale)
    case Found(i) => i
    case FindFailed(_) => 0
    case NotFound =>
      match FindIn(t.find, EN_US_LOWER)
      case Found(j) => j
      case _ => 0
  }

  /** The locales `get_best_name` passes to `FindLocaleName`, in order. */
  function LocalesQueried(t: LocalizedStrings, userLocale: WideString): seq<WideString>
  {
    if FindIn(t.find, userLocale).NotFound? then [userLocale, EN_US_LOWER] else [userLocale]
  }

  /** What `get_best_name` returns: the string at the chosen index, or the native failure. */
  function BestName(t: LocalizedStrings, userLocale: WideString): (r: Result<WideString, Failure>)
    ensures r.Ok? <==> ChosenIndex(t, userLocale) < |t.strings|
    ensures r.Ok? ==> r.value == t.strings[ChosenIndex(t, userLocale)] && r.value in t.strings
    ensures r.Err? ==> r.error == Native(E_INVALIDARG)
  {
    var i := ChosenIndex(t, userLocale);
    if i < |t.strings| then Ok(t.strings[i]) else Err(Native(E_INVALIDARG))
  }

  /**
    `BestLocaleName::get_best_name`: find the index through the fallbacks,
    ask for the string's length, fetch it into a buffer one unit longer and
    return the first `len` units. `queried` records the lookups made.
  */
  method GetBestName(t: LocalizedStrings, userLocale: WideString)
    returns (r: Result<WideString, Failure>, ghost queried: seq<WideString>)
    ensures r == BestName(t, userLocale)
    ensures r.Ok? ==> |r.value| == GetStringLength(t, ChosenIndex(t, userLocale)).value
    ensures queried == LocalesQueried(t, userLocale)
  {
    var index: nat := 0;
    var found := false;
    queried := [userLocale];
    var res := FindIn(t.find, userLocale);
    if res.Found? {
      index, found := res.index, true;
    }
    if !res.FindFailed? && !found {
      // Fall back to the en-us locale; a failure of this lookup is ignored.
      queried := queried + [EN_US_LOWER];
      var fallback := FindIn(t.find, EN_US_LOWER);
      if fallback.Found? {
        index, found := fallback.index, true;
      }
    }
    if !found {
      index := 0;
    }
    assert index == ChosenIndex(t, userLocale);

    var length := GetStringLength(t, index);
    if length.Err? {
      return Err(Native(length.error)), queried;
    }
    var len := length.value;
    var buff := Resize([], len + 1);
    var written := GetString(t, index, |buff|);
    // The source propagates a failure here; with a buffer of len + 1 units it cannot occur.
    assert written.Ok?;
    buff := written.value + buff[|written.value|..];
    assert buff[..len] == t.strings[index];
    r := Ok(buff[..len]);
  }

  /** A user locale the table reports found is always the one chosen. */
  lemma UserLocaleFoundFirst(t: LocalizedStrings, userLocale: WideString)
    requires FindIn(t.find, userLocale).Found?
    ensures ChosenIndex(t, userLocale) == FindIn(t.find, userLocale).index
    ensures LocalesQueried(t, userLocale) == [userLocale]
  {
  }

  /**
    "en-us" is consulted only when the first lookup succeeded and reported the
    user locale absent: otherwise its entry in the table, whatever it says,
    does not change the choice.
  */
  lemma EnUsTriedOnlyAfterNotFound(t: LocalizedStrings, userLocale: WideString, other: FindOutcome)
    requires userLocale != EN_US_LOWER
    requires !FindIn(t.find, userLocale).NotFound?
    ensures ChosenIndex(t.(find := t.find[EN_US_LOWER := other]), userLocale) == ChosenIndex(t, userLocale)
    ensures EN_US_LOWER !in LocalesQueried(t, userLocale)
  {
    assert FindIn(t.find[EN_US_LOWER := other], userLocale) == FindIn(t.find, userLocale);
  }

  /** With neither locale found, or the first lookup failing, the first entry is used. */
  lemma FirstEntryFallback(t: LocalizedStrings, userLocale: WideString)
    requires FindIn(t.find, userLocale).FindFailed?
          || (FindIn(t.find, userLocale).NotFound? && !FindIn(t.find, EN_US_LOWER).Found?)
    ensures ChosenIndex(t, userLocale) == 0
    ensures |t.strings| > 0 ==> BestName(t, userLocale) == Ok(t.strings[0])
    ensures |t.strings| == 0 ==> BestName(t, userLocale).Err?
  {
  }

  /**
    When the user locale is reported absent and "en-us" is found, the
    "en-us" entry is chosen, after both locales were queried in that order.
  */
  lemma EnUsFallback(t: LocalizedStrings, userLocale: WideString)
    requires FindIn(t.find, userLocale).NotFound? && FindIn(t.find, EN_US_LOWER).Found?
    ensures ChosenIndex(t, userLocale) == FindIn(t.find, EN_US_LOWER).index
    ensures LocalesQueried(t, userLocale) == [userLocale, EN_US_LOWER]
    ensures ChosenIndex(t, userLocale) < |t.strings| ==>
      BestName(t, userLocale) == Ok(t.strings[FindIn(t.find, EN_US_LOWER).index])
  {
  }
}
