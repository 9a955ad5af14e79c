/**
  The native DirectWrite objects the library wraps, reduced to the answers
  their query methods give. Each COM interface becomes a datatype whose fields
  are those answers: the native layer itself is not modelled, only what the
  library's own logic sees of it.
*/
module Handles {
  import opened Wrappers

  /** A UTF-16 code unit. */
  newtype u16 = x: int | 0 <= x < 0x1_0000

  /** A wide (UTF-16) string as the native layer hands it out, without terminator. */
  type WideString = seq<u16>

  /** A Rust `i32`. */
  type i32 = x: int | -0x8000_0000 <= x < 0x8000_0000

  /** A `windows::core::Error`: an HRESULT and its message text (its `Display`). */
  datatype NativeError = NativeError(code: int, message: string)

  /** What DirectWrite reports for an index beyond the end of a list (E_INVALIDARG). */
  const E_INVALIDARG := NativeError(0x8007_0057, "The parameter is incorrect.")

  /** What DirectWrite reports when a caller's buffer is too small (E_NOT_SUFFICIENT_BUFFER). */
  const E_NOT_SUFFICIENT_BUFFER := NativeError(0x8007_007A, "The data area passed to a system call is too small.")

  /**
    The answer of a native name lookup (`FindLocaleName`, `FindFamilyName`):
    the call failed, or it succeeded and reported the name found at an index,
    or it succeeded and reported the name absent.
  */
  datatype FindOutcome = FindFailed(error: NativeError) | Found(index: nat) | NotFound

  /** A lookup table of native answers; a name the table does not mention is reported absent. */
  function FindIn<K>(answers: map<K, FindOutcome>, key: K): FindOutcome
  {
    if key in answers then answers[key] else NotFound
  }

  /**
    IDWriteLocalizedStrings: one string per locale. `find` holds the answers of
    `FindLocaleName`; `strings` holds the string at each index.
  */
  datatype LocalizedStrings = LocalizedStrings(find: map<WideString, FindOutcome>, strings: seq<WideString>)

  /** `GetStringLength(index)`: fails for an index beyond the end. */
  function GetStringLength(t: LocalizedStrings, index: nat): (r: Result<nat, NativeError>)
    ensures r.Ok? <==> index < |t.strings|
    ensures r.Ok? ==> r.value == |t.strings[index]|
  {
    if index < |t.strings| then Ok(|t.strings[index]|) else Err(E_INVALIDARG)
  }

  /**
    `GetString(index, buffer)` with a buffer of `capacity` units: on success it
    writes the string and a NUL terminator, which are returned here.
  */
  function GetString(t: LocalizedStrings, index: nat, capacity: nat): (r: Result<WideString, NativeError>)
    ensures r.Ok? <==> index < |t.strings| && |t.strings[index]| < capacity
    ensures r.Ok? ==> r.value == t.strings[index] + [0]
  {
    if index >= |t.strings| then Err(E_INVALIDARG)
    else if capacity <= |t.strings[index]| then Err(E_NOT_SUFFICIENT_BUFFER)
    else Ok(t.strings[index] + [0])
  }

  /** The answer of `GetInformationalStrings(id)`: a failure, or the strings when the field exists. */
  datatype InfoOutcome = InfoFailed(error: NativeError) | InfoPresent(strings: LocalizedStrings)

  /**
    IDWriteFont: its weight and style codes (the native numeric values) and the
    answers of `GetInformationalStrings`, by informational-string id; an id the
    map does not mention is reported as not existing.
  */
  datatype Font = Font(weight: int, style: int, info: map<int, InfoOutcome>)

  /**
    IDWriteFontFamily: the answer of `GetFamilyNames`, its fonts in native
    order (`GetFont(i)` fails beyond the end), and whether it can be cast to
    IDWriteFontFamily2, the interface that offers axis-value matching.
  */
  datatype FontFamily = FontFamily(names: Result<LocalizedStrings, NativeError>, fonts: seq<Font>, hasFamily2: bool)

  /**
    IDWriteFontCollection1: its families in native order and the answers of
    `FindFamilyName`.
  */
  datatype FontCollection = FontCollection(families: seq<FontFamily>, find: map<string, FindOutcome>)

  /**
    A key as pyo3 extracts it (`IntOrStr`): a string or an integer. pyo3
    accepts only integers that fit in `isize`; that bound is not modelled.
  */
  datatype IntOrStr = Str(s: string) | Int(i: int)

  /** The library's `FontVariant`: one font and the family it was obtained from. */
  datatype FontVariant = FontVariant(font: Font, family: FontFamily)
}
