# windows-fonts: a verified model of the decision logic

`windows_fonts` is a Python extension, written in Rust with pyo3, that exposes
the fonts installed on Windows through DirectWrite. Under its native calls
sits a small layer of decisions, and this project models that layer in
Dafny and proves what it promises:

- **Best-locale name selection.** A localized string table is searched first
  for the user's locale, then for `en-us`, and otherwise index 0 is used. The
  cached user locale has its own fallback rules.
- **The matching-variant protocol of `FontFamily`.** The arguments are
  validated, then the call goes either to the legacy weight/stretch/style
  query (`GetMatchingFonts`) or to the axis-value query (`GetMatchingFonts2`).
  The axis query needs `IDWriteFontFamily2`. The sparse axis list is built
  step by step. The ranked answer has two consumers: "first or fail"
  (`get_best_variant`) and "collect all, fail on first error"
  (`get_matching_variants`).
- **Index and key rules.** `FontCollection[...]` takes a family name or an
  integer. `FontFamily[...]` takes a possibly negative index.
  `FontVariant.filename` needs exactly one file. Families compare by name,
  and variants compare with the literal equality the source writes.
- **The informational-string table.** It maps 24 names to DirectWrite
  informational-string ids and font-property ids. The module-level
  `get_matching_variants(**kwargs)` uses it to build property filters, and
  the dict-like `InformationDict` of a font uses it for visibility, length,
  membership, sorted keys and keyed lookup.
- **The error taxonomy of `WindowsFontError`.** Covers its conversion to
  Python exceptions and the conversion from `anyhow` errors.

Every DirectWrite call is an input to the model:

- A localized string table (`Handles.LocalizedStrings`) holds the answers
  its `FindLocaleName` gives and the strings `GetStringLength`/`GetString`
  serve.
- A font collection holds its families and the answers `FindFamilyName`
  gives.
- A font holds its weight, its style and the answers
  `GetInformationalStrings` gives per id.
- The ranked answer of a matching query, and the font-set search of the
  global `get_matching_variants`, are function parameters.
- Native failures are `Handles.NativeError` values: an HRESULT code and its
  message.
- Python exceptions are `Errors.PyErr` values: an exception kind and its
  message.
- Failures that travel as `anyhow` errors are `Errors.Failure` values.

Modules, one per file:

- `Wrappers`: `Option` and `Result`.
- `Handles`: the native answers.
- `Errors`: `src/errors.rs`.
- `Text`: number formatting, `repr`/`Debug` quoting, UTF-16 literals.
- `Locale`: `_get_user_locale` and `get_best_name`.
- `Matching`: the matching-variant protocol.
- `StringOrder`: the code-point order Python sorts strings by.
- `FontFamilies`, `FontVariants` and `FontCollections`: the three Python
  classes.
- `InformationStrings`: the table, the global search and `InformationDict`.

## Model

| member | source | states |
|---|---|---|
| Errors.ToPyErr | src/errors.rs:18-26 | `WindowsErr` becomes OSError with the wrapped error's text, `Windows10Needed(msg)` becomes RuntimeError with `msg`, and `KeyNotFound(msg)` becomes KeyError with the bare `msg`. Each kind arises from exactly one variant. |
| Errors.FromAnyhow | src/errors.rs:28-35 | Defined only on failures that wrap a Windows error, since anything else panics. It gives `WindowsErr` with that same error, which surfaces as an OSError carrying the error's message. |
| Errors.PyMessageVersusDisplay | src/errors.rs:11-15 | The display text of `KeyNotFound(msg)` is `msg` followed by " doesn't exist", while its KeyError carries `msg` alone. The other two variants display exactly their exception message. |
| Errors.ToPyErrKindsDistinct | src/errors.rs:19-25 | Two errors of different variants convert to exceptions of different kinds. |
| Errors.FromAnyhowRoundTrip | src/errors.rs:28-34 | A Windows error, with or without added context, comes back unchanged from the anyhow conversion. |
| Errors.ToPyErrInjective | src/errors.rs:19-25 | Two errors that raise the same exception have the same display text. Apart from `WindowsErr`, the error itself is recovered exactly. |
| Text.Resize | src/lib.rs:49-50 | `Vec::resize` gives exactly `n` elements. It keeps the old prefix and pads with zeros. |
| Locale.UserLocale | src/lib.rs:42-67 | Fails with the last OS error if and only if the returned length is ≤ 0. A length of 1 gives `en-US`. Otherwise the result is the first length−1 code units of the buffer. The result is never empty. |
| Locale.ChosenIndex | src/lib.rs:220-237 | A found user locale gives its index. A user locale reported absent with `en-us` found gives the `en-us` index. Any index other than 0 was found for a locale that was actually queried. |
| Locale.BestName | src/lib.rs:218-246 | Succeeds if and only if the chosen index is in range. It then returns that entry of the table, which is one of its strings; otherwise it fails with E_INVALIDARG. |
| Locale.GetBestName | src/lib.rs:219-245 | The imperative lookup with its index updates and resized buffer. It equals `BestName`, its result has exactly `GetStringLength(index)` code units, and it reports which locales were queried, in order. |
| Locale.UserLocaleFoundFirst | src/lib.rs:224-227 | When the user locale is found, its index is chosen and `en-us` is never queried. |
| Locale.EnUsTriedOnlyAfterNotFound | src/lib.rs:227-230 | When the first lookup failed or found the user locale, `en-us` is not queried, and the table's `en-us` entry cannot influence the choice. |
| Locale.EnUsFallback | src/lib.rs:227-230 | A user locale reported absent with `en-us` found gives the `en-us` entry, after both locales were queried in that order. |
| Locale.FirstEntryFallback | src/lib.rs:232-235 | When neither locale is found, or the first lookup failed, index 0 is chosen. |
| Matching.BuildConditions | src/lib.rs:362-397 | One push per supplied argument. The result is the axis list, meets the independent description `IsAxisListFor`, and has at most five entries. |
| Matching.AxisConditionsCharacterized | src/lib.rs:362-397 | Every entry carries its argument's value, with italic mapped to 1.0 or 0.0. Entries follow the order weight, width, slant, optical size, italic. Every supplied argument has an entry. |
| Matching.AxisConditionsEmpty | src/lib.rs:362-397 | The axis list is empty exactly when no axis argument is given. |
| Matching.AxisListUnique | src/lib.rs:362-397 | Any list meeting the description is the list built, so the description determines it. |
| Matching.RankSortedUnique | src/lib.rs:362-397 | Two order-sorted lists with the same axes and the same value per axis are equal. |
| Matching.PlanQuery | src/lib.rs:277-308 | `style` together with width, slant, optical size or italic is a ValueError before any query. The query is legacy if and only if `style` is given. An axis query needs the family2 capability and carries the axis list. Without that capability, the axis path is the OSError "requires Windows 10 Build 20348". |
| Matching.LegacyDefaults | src/lib.rs:319-323 | The legacy query uses the given weight, or 400 by default, with stretch NORMAL and the given style. |
| Matching.StyleAbsentUsesAxisPath | src/lib.rs:287-307 | Without `style`, the axis path is taken even when only `weight`, or nothing, is given. With no arguments its list is empty. |
| Matching.MatchingVariants | src/lib.rs:277-308 | A failed plan is its error: the ValueError for `style` with an axis argument, or the OSError when the axis path lacks the family2 capability. A failed native query is that native error. Otherwise there is one item per ranked font, in native order. A fetched font is paired with the family, and a failed `GetFont` becomes `WindowsErr` of its error. |
| Matching.BestVariant | src/lib.rs:469-494 | The first ranked item, whether a variant or its error. An empty ranking fails with "No variants found". |
| Matching.GetMatchingVariants | src/lib.rs:510-541 | The collecting loop. Success means every item succeeded and the list is all of them, in order. Otherwise the result is the first item error and no list. |
| Matching.BestVariantIsFirstOfList | src/lib.rs:479-493 | When the full list succeeds and is non-empty, `get_best_variant` returns its head. |
| StringOrder.LessTransitive | src/lib.rs:877 | The code-point order that `list.sort()` uses is transitive. |
| StringOrder.LessTotal | src/lib.rs:877 | Of two distinct strings, at least one is less than the other. |
| StringOrder.LessAsymmetric | src/lib.rs:877 | No two strings are each less than the other, so with `LessTotal` exactly one order holds between distinct strings. |
| StringOrder.Sort | src/lib.rs:877 | Sorting distinct names gives a strictly increasing permutation of them. |
| FontFamilies.FamilyName | src/lib.rs:270-275 | `FontFamily.name` fails when the family names cannot be fetched. Otherwise it is `BestName` of the family-name table, one of that table's strings. |
| FontFamilies.GetItem | src/lib.rs:435-452 | A non-negative in-range index gives that font. A negative index has the count added exactly once. An index still out of range is IndexError "key N out of range", where N is the normalised index. |
| FontFamilies.FamilyEq | src/lib.rs:544-562 | Families are equal if and only if both names resolve and are equal. |
| FontFamilies.FamilyEqSymmetric | src/lib.rs:544-562 | Family equality is symmetric. |
| FontFamilies.FamilyEqTransitive | src/lib.rs:544-562 | Family equality is transitive. |
| FontFamilies.FamilyEqReflexiveIffNamed | src/lib.rs:544-562 | A family equals itself if and only if its name resolves. |
| FontFamilies.FamilyEqIgnoresHandles | src/lib.rs:546 | Two handles with the same resolvable name table are equal, whatever fonts they hold. |
| FontVariants.Filename | src/lib.rs:605-615 | A failure of `files()` propagates. One file is the result. Any other count is RuntimeError "FontVariant had more than one name…". |
| FontVariants.FilenameIsSoleFile | src/lib.rs:606-615 | `filename` returns `p` if and only if `files()` returns exactly `[p]`. |
| FontVariants.VariantEq | src/lib.rs:638-653 | As written: equal if and only if the weights are equal, the styles differ and the families are equal. |
| FontVariants.VariantNeverEqualsItself | src/lib.rs:641 | As written, no variant equals itself. |
| FontVariants.VariantEqAcrossStyles | src/lib.rs:641-651 | As written, two variants of equally named families with the same weight and different styles are equal. |
| FontVariants.VariantEqSymmetric | src/lib.rs:638-653 | The as-written equality is at least symmetric. |
| FontVariants.VariantEqIntended | src/lib.rs:641 | The corrected equality with `!=` holds if and only if the weights and styles agree and the families are equal. |
| FontVariants.VariantEqIntendedIsEquivalence | src/lib.rs:638-653 | The corrected equality is reflexive on named variants, symmetric and transitive. |
| FontCollections.AsU32 | src/lib.rs:197 | `as u32` lies below 2^32, keeps the value of a key in range, and differs from any key by a multiple of 2^32. |
| FontCollections.GetItem | src/lib.rs:180-211 | A failed name lookup propagates. A name not found is KeyError "unknown font family 'name'". An integer key is cast `as u32`. Any resolved index at or above the count is IndexError "list index out of range". |
| FontCollections.NegativeKeyIsOutOfRange | src/lib.rs:197-201 | Negative integer keys are not counted from the end. Every key k with count − 2^32 ≤ k < 0 raises IndexError, and every valid index selects its family. |
| FontCollections.WrappedKeyReturnsFirstFamily | src/lib.rs:197 | As written, the keys 2^32 and −2^32 both return family 0 of a non-empty collection. 2^32 + count − 1 returns the last family. |
| FontCollections.GetItemChecked | src/lib.rs:196-201 | The corrected lookup. An integer key is valid if and only if 0 ≤ key < count, and it then selects that family. |
| FontCollections.CheckedAgreesOnValidIndices | src/lib.rs:180-211 | The corrected and the as-written lookups agree on every key in 0 ≤ key < count. In the corrected lookup every other integer key is IndexError. |
| InformationStrings.FiltersRejectFirstBadKey | src/lib.rs:108-127 | When some keyword cannot be filtered on, validation fails with the TypeError of the first such keyword. The message says the name doesn't have a mapping to a font property id, or isn't a known font property name. |
| InformationStrings.FiltersAcceptGoodKeys | src/lib.rs:107-121 | When every keyword can be filtered on, there is exactly one filter per keyword, in order, carrying the table's property id and the given value. |
| InformationStrings.Filters | src/lib.rs:107-128 | Validation gives one filter per keyword, or the TypeError of one of the keywords. |
| InformationStrings.GetMatchingVariants | src/lib.rs:101-166 | A missing kwargs dict is TypeError "no filter conditions passed". A validation error is raised before the search runs. Otherwise the search runs on the filters, and its failure surfaces as an OSError. |
| InformationStrings.FilterableNames | src/lib.rs:757-808 | Exactly nine names of the table carry a property id other than NONE. |
| InformationStrings.AliasedNamesBuildSameFilter | src/lib.rs:771-807 | `preferred_family_names` and `typographic_family_names` build the same filter. So do `preferred_subfamily_names` and `weight_stretch_style_family_name`, since the header names their property ids as aliases. |
| InformationStrings.InfoQuery | src/lib.rs:705-722 | `get_info_string` fails with context "GetInformationalStrings failed" if and only if the native query fails. It gives nothing if and only if the field does not exist. A present field gives exactly that field's localized strings. |
| InformationStrings.VisibleKeys | src/lib.rs:837-852 | The visible names are exactly the table entries whose query gives strings. Failures and absent fields are hidden. |
| InformationStrings.Len | src/lib.rs:856-858 | `__len__` is the number of visible names, at most the table's size. |
| InformationStrings.Contains | src/lib.rs:860-870 | A string is contained if and only if it is a visible name. An integer is contained if and only if it is the id of a visible entry, and it must fit in `i32`. Any other key is not contained. |
| InformationStrings.Keys | src/lib.rs:872-879 | `keys()` is strictly sorted. It holds exactly the names `__contains__` accepts, and has `__len__` elements. |
| InformationStrings.AsI32 | src/lib.rs:909 | `as i32` lies in the `i32` range, keeps an `i32` value, and differs from any key by a multiple of 2^32. |
| InformationStrings.GetItem | src/lib.rs:903-917 | An unknown name is KeyError "'name' doesn't exist". For any other key, the queried field decides: a failed query is passed on, an absent field is KeyError with the key's debug form plus " doesn't exist", and a present field gives its best-locale string. A successful lookup returns one of the field's strings. |
| InformationStrings.Lookup | src/lib.rs:911-916 | A failed query is passed on as it is. An absent id is KeyError with the key's debug form plus " doesn't exist". A present field gives `BestName` of its strings. |
| InformationStrings.GetItemAgreesWithContains | src/lib.rs:860-917 | A contained name yields its field's best-locale string. A name neither contained nor failing natively is a KeyError. A successful lookup implies membership. |
| InformationStrings.GetItemByIdMatchesByName | src/lib.rs:903-917 | For a visible name, looking up its integer id gives the same answer as looking up the name, and the id is contained. |
| InformationStrings.NoneIdRaises | src/lib.rs:911-914 | Id 0 on a font without that field is KeyError "Int(0) doesn't exist". |
| InformationStrings.AbsentIdRaises | src/lib.rs:909-914 | Every integer key whose id, taken `as i32`, the font does not have is KeyError "Int(k) doesn't exist". |
| InformationStrings.UnknownNameRaises | src/lib.rs:905-908 | `information['madeup']` is KeyError "'madeup' doesn't exist". |

## Left out

- The DirectWrite and Win32 calls themselves are inputs of the model, and their behaviour is not modelled:
  - factory and collection creation;
  - the font-set search;
  - `GetFiles`, `GetReferenceKey` and `GetFilePathFromKey`;
  - `CreateFontFace`;
  - `GetUserDefaultLocaleName`.
- The `LOCAL_LOADER` and `USER_LOCALE` thread-local caches (src/lib.rs:25-40) are left out because they are per-thread lazy I/O. The user locale is a parameter. `Locale.UserLocale` models only the length branches of `_get_user_locale`.
- `FontVariant.files` and `_get_files` are native file enumeration. `Filename` takes their outcome as input.
- `FontVariant.name`, `style`, `weight` and `information` are accessors over native calls. The style and weight codes are plain integers, because the `enums` module is not part of this model.
- These are Python presentation, not decisions:
  - `__repr__` of families and variants;
  - `__len__` of collections and families;
  - `__richcmp__` for operators other than `==` and `!=`.
- `InformationDict.values`, `items` and `__iter__` are left out. They repeat the visibility filter of `keys` and sort Python values, and the panic of `values`/`items` on a failing best-name lookup is not modelled.
- Axis values and weights are `f32` in the source and reals here. The `as i32` truncation of the legacy weight is not modelled.
- The UTF-16 decoding of `get_best_name` is not modelled, nor its panic on invalid UTF-16. Names are kept as UTF-16 code units.
- Python `repr` is modelled as single quotes around the text. Quote selection and escaping are not modelled.
- Rust's `{:?}` of a string (`Text.RustDebug`) is modelled as double quotes around the text. Its escaping of quotes, backslashes and control characters is not modelled.
- pyo3's argument extraction is not modelled. It rejects integer keys outside `isize` with a TypeError before `__getitem__` runs, and `FontCollections.GetItem` accepts any integer.
- pyo3's conversion of `anyhow` errors into Python exceptions is not modelled. Results that propagate such an error keep it as an `Errors.Failure`.
- The pointer lifetime of the filter values is not modelled. `HSTRING::from(val)` is dropped at the end of the statement that takes its pointer (src/lib.rs:118). Filters carry plain strings.
- `Windows10Needed` is never constructed by the library. The missing-capability error is raised as a Python OSError directly (src/lib.rs:354-358), and the model follows that code.
- A failed `GetString` after a successful `GetStringLength` cannot happen in this model, because the buffer always has room for the string and its terminator.
- FontFamilies.GetItem: requires the family's font count to fit in `i32`, because the source's `as i32` cast of a larger count is not modelled.
- The table gives `preferred_subfamily_names` the property FAMILY_NAME, which the header defines as WEIGHT_STRETCH_STYLE_FAMILY_NAME. The model keeps that value as written.
- InformationStrings.Contains: gives CPython's overflow message for every integer outside `i32`. This is the Windows behaviour, where a C `long` is 32 bits.
- Where the library's documentation and its code differ, the model follows the code:
  - Without `style`, the axis query runs even when no axis argument is given. It does not fall back to the legacy query.
  - The missing-capability error is an OSError, not a dedicated error kind.
  - A string table with no entries makes best-name selection fail with E_INVALIDARG, rather than index 0 being assumed to exist.

## Findings

| source | as written | input that shows it | evidently intended | confidence | as-written member | corrected member |
|---|---|---|---|---|---|---|
| src/lib.rs:641 | `self.style() == other.style()` returns false, so equal styles make variants unequal | any variant compared with itself, e.g. `fam[0] == fam[0]` | `!=`: equal weight and style, then family equality | high, not executed | FontVariants.VariantNeverEqualsItself | FontVariants.VariantEqIntendedIsEquivalence |
| src/lib.rs:197 | `idx as u32` wraps the integer key modulo 2^32 | `collection[2**32]` on a non-empty collection returns family 0 instead of raising IndexError | keys outside 0 ≤ key < count raise IndexError | medium, not executed | FontCollections.WrappedKeyReturnsFirstFamily | FontCollections.CheckedAgreesOnValidIndices |
