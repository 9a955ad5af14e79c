/**
  The matching-variant protocol of `FontFamily`: argument validation, the
  choice between the legacy weight/style query and the axis-value query, the
  sparse axis list, and the two consumers of the ranked answer.
*/
module Matching {
  import opened Wrappers
  import opened Handles
  import opened Errors

  /** The axes of a variable font the axis query can name (DWRITE_FONT_AXIS_TAG_*). */
  datatype AxisTag = AxisWeight | AxisWidth | AxisSlant | AxisOpticalSize | AxisItalic

  /** DWRITE_FONT_AXIS_VALUE. Axis values are `f32` in the source; here they are passed through as reals. */
  datatype AxisValue = AxisValue(tag: AxisTag, value: real)

  /**
    The keyword arguments of `get_matching_variants` / `get_best_variant`.
    `weight` is already converted to a number; `style` is the style's
    numeric code.
  */
  datatype MatchArgs = MatchArgs(
    weight: Option<real>,
    style: Option<int>,
    width: Option<real>,
    slant: Option<real>,
    opticalSize: Option<real>,
    italic: Option<bool>)

  /** The native query that is finally made: `GetMatchingFonts` or `GetMatchingFonts2`. */
  datatype MatchQuery =
    | LegacyQuery(weight: real, stretch: int, style: int)
    | AxisQuery(conditions: seq<AxisValue>)

  /**
    The native answer to a query: the query fails, or it yields a ranked list
    whose `GetFont(n)` calls each succeed or fail.
  */
  type Answer = Result<seq<Result<Font, NativeError>>, NativeError>

  const DEFAULT_WEIGHT: real := 400.0

  /** DWRITE_FONT_STRETCH_NORMAL. */
  const STRETCH_NORMAL: int := 5

  const STYLE_CONFLICT_MESSAGE := "cannot pass `style` and any of `width`, `slant`, `optical_size`, `italic` at the same time"
  const NEEDS_FAMILY2_MESSAGE := "Use of this function requires Windows 10 Build 20348 or above"
  const NO_VARIANTS_MESSAGE := "No variants found"

  /** `style` together with any axis-only argument. */
  predicate StyleConflict(args: MatchArgs)
  {
    args.style.Some? &&
    (args.width.Some? || args.slant.Some? || args.opticalSize.Some? || args.italic.Some?)
  }

  /** The value the axis query gives an axis, if its argument was supplied. */
  function ParamFor(args: MatchArgs, tag: AxisTag): Option<real>
  {
    match tag
    case AxisWeight => args.weight
    case AxisWidth => args.width
    case AxisSlant => args.slant
    case AxisOpticalSize => args.opticalSize
    case AxisItalic => if args.italic.None? then None else Some(if args.italic.value then 1.0 else 0.0)
  }

  /** The fixed order in which the axis list is built. */
  function Rank(tag: AxisTag): nat
  {
    match tag
    case AxisWeight => 0
    case AxisWidth => 1
    case AxisSlant => 2
    case AxisOpticalSize => 3
    case AxisItalic => 4
  }

  predicate HasTag(cs: seq<AxisValue>, tag: AxisTag)
  {
    exists i :: 0 <= i < |cs| && cs[i].tag == tag
  }

  /** Entries ordered by the fixed axis order, each axis at most once. */
  predicate RankSorted(cs: seq<AxisValue>)
  {
    forall i, j :: 0 <= i < j < |cs| ==> Rank(cs[i].tag) < Rank(cs[j].tag)
  }

  /**
    What the axis list must be for `args`, stated independently of how it is
    built: every entry carries its argument's value, entries follow the fixed
    order, and every supplied argument has an entry.
  */
  predicate IsAxisListFor(args: MatchArgs, cs: seq<AxisValue>)
  {
    && (forall i :: 0 <= i < |cs| ==> ParamFor(args, cs[i].tag) == Some(cs[i].value))
    && RankSorted(cs)
    && (forall tag :: ParamFor(args, tag).Some? ==> HasTag(cs, tag))
  }

  function Entry(tag: AxisTag, v: Option<real>): seq<AxisValue>
  {
    if v.Some? then [AxisValue(tag, v.value)] else []
  }

  /** The axis list `_get_dwrite3_matching_variants` builds. */
  function AxisConditions(args: MatchArgs): seq<AxisValue>
  {
    Entry(AxisWeight, ParamFor(args, AxisWeight))
      + Entry(AxisWidth, ParamFor(args, AxisWidth))
      + Entry(AxisSlant, ParamFor(args, AxisSlant))
      + Entry(AxisOpticalSize, ParamFor(args, AxisOpticalSize))
      + Entry(AxisItalic, ParamFor(args, AxisItalic))
  }

  /**
    The construction of the axis list: one push per supplied argument, in the
    order weight, width, slant, optical size, italic.
  */
  method BuildConditions(args: MatchArgs) returns (conditions: seq<AxisValue>)
    ensures conditions == AxisConditions(args)
    ensures IsAxisListFor(args, conditions)
    ensures |conditions| <= 5
  {
    conditions := [];
    if args.weight.Some? {
      conditions := conditions + [AxisValue(AxisWeight, args.weight.value)];
    }
    assert conditions == Entry(AxisWeight, ParamFor(args, AxisWeight));
    ghost var upToWeight := conditions;
    if args.width.Some? {
      conditions := conditions + [AxisValue(AxisWidth, args.width.value)];
    }
    assert conditions == upToWeight + Entry(AxisWidth, ParamFor(args, AxisWidth));
    ghost var upToWidth := conditions;
    if args.slant.Some? {
      conditions := conditions + [AxisValue(AxisSlant, args.slant.value)];
    }
    assert conditions == upToWidth + Entry(AxisSlant, ParamFor(args, AxisSlant));
    ghost var upToSlant := conditions;
    if args.opticalSize.Some? {
      conditions := conditions + [AxisValue(AxisOpticalSize, args.opticalSize.value)];
    }
    assert conditions == upToSlant + Entry(AxisOpticalSize, ParamFor(args, AxisOpticalSize));
    ghost var upToOpticalSize := conditions;
    if args.italic.Some? {
      conditions := conditions + [AxisValue(AxisItalic, if args.italic.value then 1.0 else 0.0)];
    }
    assert conditions == upToOpticalSize + Entry(AxisItalic, ParamFor(args, AxisItalic));
    AxisConditionsCharacterized(args);
  }

  /**
    A list that is correct for the axes ranked below `bound`: entries carry
    their argument's value, follow the fixed order, and cover every supplied
    argument of those axes.
  */
  predicate CorrectBelow(args: MatchArgs, cs: seq<AxisValue>, bound: nat)
  {
    && (forall i :: 0 <= i < |cs| ==> ParamFor(args, cs[i].tag) == Some(cs[i].value) && Rank(cs[i].tag) < bound)
    && RankSorted(cs)
    && (forall tag :: Rank(tag) < bound && ParamFor(args, tag).Some? ==> HasTag(cs, tag))
  }

  /** Appending the entry of the next axis in the fixed order keeps the list correct one rank further. */
  lemma AppendEntry(args: MatchArgs, cs: seq<AxisValue>, tag: AxisTag)
    requires CorrectBelow(args, cs, Rank(tag))
    ensures CorrectBelow(args, cs + Entry(tag, ParamFor(args, tag)), Rank(tag) + 1)
  {
    var ext := cs + Entry(tag, ParamFor(args, tag));
    if ParamFor(args, tag).Some? {
      assert ext[|cs|] == AxisValue(tag, ParamFor(args, tag).value);
      forall t | Rank(t) < Rank(tag) + 1 && ParamFor(args, t).Some?
        ensures HasTag(ext, t)
      {
        if t == tag {
          assert ext[|cs|].tag == t;
        } else {
          var i :| 0 <= i < |cs| && cs[i].tag == t;
          assert ext[i].tag == t;
        }
      }
    } else {
      assert ext == cs;
    }
  }

  /** The list built meets the independent description. */
  lemma AxisConditionsCharacterized(args: MatchArgs)
    ensures IsAxisListFor(args, AxisConditions(args))
  {
    var e1 := Entry(AxisWeight, ParamFor(args, AxisWeight));
    var e2 := Entry(AxisWidth, ParamFor(args, AxisWidth));
    var e3 := Entry(AxisSlant, ParamFor(args, AxisSlant));
    var e4 := Entry(AxisOpticalSize, ParamFor(args, AxisOpticalSize));
    var e5 := Entry(AxisItalic, ParamFor(args, AxisItalic));
    assert CorrectBelow(args, e1 + e2 + e3 + e4 + e5, 5) by {
      AppendEntry(args, [], AxisWeight);
      assert [] + e1 == e1;
      AppendEntry(args, e1, AxisWidth);
      AppendEntry(args, e1 + e2, AxisSlant);
      AppendEntry(args, e1 + e2 + e3, AxisOpticalSize);
      AppendEntry(args, e1 + e2 + e3 + e4, AxisItalic);
    }
    CompleteList(args, e1 + e2 + e3 + e4 + e5);
  }

  /** A list correct for all five axes is an axis list for the arguments. */
  lemma CompleteList(args: MatchArgs, cs: seq<AxisValue>)
    requires CorrectBelow(args, cs, 5)
    ensures IsAxisListFor(args, cs)
  {
    assert forall tag :: Rank(tag) < 5;
  }

  /** The axis list is empty exactly when no axis argument is given. */
  lemma AxisConditionsEmpty(args: MatchArgs)
    ensures |AxisConditions(args)| == 0 <==>
      args.weight.None? && args.width.None? && args.slant.None? && args.opticalSize.None? && args.italic.None?
  {
  }

  /** The head of a rank-sorted list has the least rank of all its axes. */
  lemma HeadIsLeast(a: seq<AxisValue>, tag: AxisTag)
    requires RankSorted(a) && HasTag(a, tag)
    ensures Rank(a[0].tag) <= Rank(tag)
  {
    var i :| 0 <= i < |a| && a[i].tag == tag;
    if i > 0 {
      assert Rank(a[0].tag) < Rank(a[i].tag);
    }
  }

  /** The tail of a rank-sorted list holds every axis of the list except its head's. */
  lemma TailTags(a: seq<AxisValue>, tag: AxisTag)
    requires RankSorted(a) && a != []
    ensures HasTag(a[1..], tag) <==> HasTag(a, tag) && tag != a[0].tag
  {
    if HasTag(a[1..], tag) {
      var i :| 0 <= i < |a[1..]| && a[1..][i].tag == tag;
      assert a[i + 1].tag == tag;
      assert Rank(a[0].tag) < Rank(a[i + 1].tag);
    }
    if HasTag(a, tag) && tag != a[0].tag {
      var i :| 0 <= i < |a| && a[i].tag == tag;
      assert i != 0 && a[1..][i - 1].tag == tag;
    }
  }

  /** Two rank-sorted lists with the same axes and the same value per axis are equal. */
  lemma {:induction false} RankSortedUnique(a: seq<AxisValue>, b: seq<AxisValue>)
    requires RankSorted(a) && RankSorted(b)
    requires forall tag :: HasTag(a, tag) <==> HasTag(b, tag)
    requires forall i, j :: 0 <= i < |a| && 0 <= j < |b| && a[i].tag == b[j].tag ==> a[i].value == b[j].value
    ensures a == b
  {
    if a == [] {
      if b != [] {
        assert HasTag(b, b[0].tag);
      }
    } else if b == [] {
      assert HasTag(a, a[0].tag);
    } else {
      assert HasTag(a, a[0].tag) && HasTag(b, b[0].tag);
      HeadIsLeast(a, b[0].tag);
      HeadIsLeast(b, a[0].tag);
      assert a[0].tag == b[0].tag;
      assert a[0] == b[0];
      var a', b' := a[1..], b[1..];
      forall tag
        ensures HasTag(a', tag) <==> HasTag(b', tag)
      {
        TailTags(a, tag);
        TailTags(b, tag);
      }
      forall i, j | 0 <= i < |a'| && 0 <= j < |b'| && a'[i].tag == b'[j].tag
        ensures a'[i].value == b'[j].value
      {
        assert a[i + 1] == a'[i] && b[j + 1] == b'[j];
      }
      RankSortedUnique(a', b');
      assert a == [a[0]] + a' && b == [b[0]] + b';
    }
  }

  /** The description pins the axis list down: any list meeting it is the one built. */
  lemma AxisListUnique(args: MatchArgs, cs: seq<AxisValue>)
    requires IsAxisListFor(args, cs)
    ensures cs == AxisConditions(args)
  {
    var built := AxisConditions(args);
    AxisConditionsCharacterized(args);
    forall tag
      ensures HasTag(cs, tag) <==> HasTag(built, tag)
    {
      if HasTag(cs, tag) {
        var i :| 0 <= i < |cs| && cs[i].tag == tag;
        assert ParamFor(args, cs[i].tag).Some?;
      }
      if HasTag(built, tag) {
        var i :| 0 <= i < |built| && built[i].tag == tag;
        assert ParamFor(args, built[i].tag).Some?;
      }
    }
    RankSortedUnique(cs, built);
  }

  /**
    `_get_matcing_variants` up to the native call: reject `style` with an
    axis-only argument, take the legacy query when `style` is given and the
    axis query otherwise, which needs IDWriteFontFamily2.
  */
  function PlanQuery(args: MatchArgs, hasFamily2: bool): (r: Result<MatchQuery, Failure>)
    ensures StyleConflict(args) ==> r == Err(Raised(PyErr(ValueError, STYLE_CONFLICT_MESSAGE)))
    ensures r.Ok? ==> (r.value.LegacyQuery? <==> args.style.Some?)
    ensures r.Ok? && r.value.AxisQuery? ==> hasFamily2 && IsAxisListFor(args, r.value.conditions)
    ensures args.style.None? && !hasFamily2 ==> r == Err(Raised(PyErr(OSError, NEEDS_FAMILY2_MESSAGE)))
  {
    if args.style.Some? then
      if StyleConflict(args) then Err(Raised(PyErr(ValueError, STYLE_CONFLICT_MESSAGE)))
      else
        var weight := if args.weight.Some? then args.weight.value else DEFAULT_WEIGHT;
        Ok(LegacyQuery(weight, STRETCH_NORMAL, args.style.value))
    else if !hasFamily2 then Err(Raised(PyErr(OSError, NEEDS_FAMILY2_MESSAGE)))
    else
      AxisConditionsCharacterized(args);
      Ok(AxisQuery(AxisConditions(args)))
  }

  /** The legacy query uses weight 400 when none is given, normal stretch, and the given style. */
  lemma LegacyDefaults(args: MatchArgs, hasFamily2: bool)
    requires args.style.Some? && !StyleConflict(args)
    ensures PlanQuery(args, hasFamily2) ==
      Ok(LegacyQuery(if args.weight.None? then DEFAULT_WEIGHT else args.weight.value, STRETCH_NORMAL, args.style.value))
    ensures args.weight.None? ==> PlanQuery(args, hasFamily2).value.weight == 400.0
  {
  }

  /**
    Without `style` the axis query is always chosen, even for `weight`
    alone or no argument at all; so without IDWriteFontFamily2 such a call
    fails even though the legacy query could have served it.
  */
  lemma StyleAbsentUsesAxisPath(args: MatchArgs, hasFamily2: bool)
    requires args.style.None?
    ensures hasFamily2 ==> PlanQuery(args, hasFamily2) == Ok(AxisQuery(AxisConditions(args)))
    ensures !hasFamily2 ==> PlanQuery(args, hasFamily2).Err?
    ensures hasFamily2 && args == MatchArgs(None, None, None, None, None, None) ==>
      PlanQuery(args, hasFamily2) == Ok(AxisQuery([]))
    ensures (hasFamily2 && args.weight.Some? && args.width.None? && args.slant.None? &&
             args.opticalSize.None? && args.italic.None?) ==>
      PlanQuery(args, hasFamily2) == Ok(AxisQuery([AxisValue(AxisWeight, args.weight.value)]))
  {
    if args.width.None? && args.slant.None? && args.opticalSize.None? && args.italic.None? {
      assert AxisConditions(args) == Entry(AxisWeight, args.weight);
    }
  }

  /** One ranked item becomes a variant of `family`, or the crate's error for a failed `GetFont`. */
  function WrapItem(family: FontFamily, item: Result<Font, NativeError>): Result<FontVariant, Failure>
  {
    if item.Ok? then Ok(FontVariant(item.value, family)) else Err(FontError(WindowsErr(item.error)))
  }

  /**
    `_get_matcing_variants`: the lazily produced sequence of variants, in the
    native ranking order, or the failure that prevents producing it. `answer`
    gives the native answer to each query.
  */
  function MatchingVariants(family: FontFamily, args: MatchArgs, answer: MatchQuery -> Answer)
    : (r: Result<seq<Result<FontVariant, Failure>>, Failure>)
    ensures StyleConflict(args) ==> r == Err(Raised(PyErr(ValueError, STYLE_CONFLICT_MESSAGE)))
    ensures args.style.None? && !family.hasFamily2 ==> r == Err(Raised(PyErr(OSError, NEEDS_FAMILY2_MESSAGE)))
    ensures PlanQuery(args, family.hasFamily2).Err? ==> r == Err(PlanQuery(args, family.hasFamily2).error)
    ensures PlanQuery(args, family.hasFamily2).Ok? && answer(PlanQuery(args, family.hasFamily2).value).Err? ==>
      r == Err(Native(answer(PlanQuery(args, family.hasFamily2).value).error))
    ensures r.Ok? <==> PlanQuery(args, family.hasFamily2).Ok? && answer(PlanQuery(args, family.hasFamily2).value).Ok?
    ensures r.Ok? ==>
      var ranked := answer(PlanQuery(args, family.hasFamily2).value).value;
      |r.value| == |ranked| &&
      forall i :: 0 <= i < |ranked| ==>
        (r.value[i].Ok? <==> ranked[i].Ok?) &&
        (ranked[i].Ok? ==> r.value[i].value == FontVariant(ranked[i].value, family)) &&
        (ranked[i].Err? ==> r.value[i].error == FontError(WindowsErr(ranked[i].error)))
  {
    var plan := PlanQuery(args, family.hasFamily2);
    if plan.Err? then Err(plan.error)
    else
      var list := answer(plan.value);
      if list.Err? then Err(Native(list.error))
      else Ok(seq(|list.value|, i requires 0 <= i < |list.value| => WrapItem(family, list.value[i])))
  }

  /**
    `get_best_variant`: the first item of the sequence, whatever it holds, or
    "No variants found" when the sequence is empty.
  */
  function BestVariant(family: FontFamily, args: MatchArgs, answer: MatchQuery -> Answer)
    : (r: Result<FontVariant, Failure>)
    ensures MatchingVariants(family, args, answer).Err? ==> r == Err(MatchingVariants(family, args, answer).error)
    ensures MatchingVariants(family, args, answer) == Ok([]) ==> r == Err(Message(NO_VARIANTS_MESSAGE))
    ensures MatchingVariants(family, args, answer).Ok? && MatchingVariants(family, args, answer).value != [] ==>
      r == MatchingVariants(family, args, answer).value[0]
  {
    var items := MatchingVariants(family, args, answer);
    if items.Err? then Err(items.error)
    else if |items.value| > 0 then items.value[0]
    else Err(Message(NO_VARIANTS_MESSAGE))
  }

  /**
    `FontFamily::get_matching_variants`: every variant of the sequence in
    order; the first failed item aborts the call and no partial list is
    returned.
  */
  method GetMatchingVariants(family: FontFamily, args: MatchArgs, answer: MatchQuery -> Answer)
    returns (r: Result<seq<FontVariant>, Failure>)
    ensures MatchingVariants(family, args, answer).Err? ==> r == Err(MatchingVariants(family, args, answer).error)
    ensures MatchingVariants(family, args, answer).Ok? ==>
      var items := MatchingVariants(family, args, answer).value;
      && (r.Ok? <==> forall i :: 0 <= i < |items| ==> items[i].Ok?)
      && (r.Ok? ==> |r.value| == |items| && forall i :: 0 <= i < |items| ==> r.value[i] == items[i].value)
      && (r.Err? ==> exists k :: 0 <= k < |items| && items[k].Err? && r.error == items[k].error &&
                       forall j :: 0 <= j < k ==> items[j].Ok?)
  {
    var iter := MatchingVariants(family, args, answer);
    if iter.Err? {
      return Err(iter.error);
    }
    var items := iter.value;
    var variants: seq<FontVariant> := [];
    var n := 0;
    while n < |items|
      invariant 0 <= n <= |items|
      invariant |variants| == n
      invariant forall i :: 0 <= i < n ==> items[i].Ok? && variants[i] == items[i].value
    {
      var item := items[n];
      if item.Err? {
        return Err(item.error);
      }
      variants := variants + [item.value];
      n := n + 1;
    }
    r := Ok(variants);
  }

  /**
    The best variant is the head of the full list whenever that list is
    produced and non-empty, and it does not depend on the items after the
    first: a later failure does not affect it.
  */
  lemma BestVariantIsFirstOfList(family: FontFamily, args: MatchArgs, answer: MatchQuery -> Answer)
    requires MatchingVariants(family, args, answer).Ok?
    requires var items := MatchingVariants(family, args, answer).value;
      |items| > 0 && items[0].Ok?
    ensures BestVariant(family, args, answer) == Ok(MatchingVariants(family, args, answer).value[0].value)
  {
  }
}
