/** The answer normalizer of the finalize endpoint
    (`AttemptController.finalizeAttempt`). Each raw answer item is read in
    the preferred shape `{questionId|qId, selectedOption|option}`, else in the
    legacy shape `{optionKey|optionValue, questionId?, qIndex?}`, else it is
    an error carrying its index. */
module AnswerNormalizer {
  import opened Base
  import opened JsValues

  /** One element of the request's `answers` array. `NotAnObject` stands for
      `null`, `undefined` and primitives: none of them has the probed
      properties, so none is accepted. */
  datatype RawItem =
    | NotAnObject
    | Item(questionId: JsVal, qId: JsVal, selectedOption: JsVal, option: JsVal,
           optionKey: JsVal, optionValue: JsVal, qIndex: JsVal)

  /** A canonical answer: both fields are strings. */
  datatype Canonical = Canonical(questionId: string, selectedOption: string)

  datatype ItemError = ItemError(index: nat, reason: string)

  const MissingFieldsReason: string := "Missing questionId/selectedOption (or optionKey) fields"

  /** The fields the preferred shape reads: `a.questionId ?? a.qId` and
      `a.selectedOption ?? a.option`. */
  function PreferredQuestion(a: RawItem): JsVal
    requires a.Item?
  {
    Coalesce(a.questionId, a.qId)
  }

  function PreferredSelection(a: RawItem): JsVal
    requires a.Item?
  {
    Coalesce(a.selectedOption, a.option)
  }

  /** The fields the legacy shape reads: `a.questionId ?? a.qIndex ?? (idx + 1)`
      and `a.selectedOption ?? a.optionKey ?? a.optionValue`. */
  function LegacyQuestion(a: RawItem, idx: nat): JsVal
    requires a.Item?
  {
    Coalesce(Coalesce(a.questionId, a.qIndex), Num(idx + 1))
  }

  function LegacySelection(a: RawItem): JsVal
    requires a.Item?
  {
    Coalesce(Coalesce(a.selectedOption, a.optionKey), a.optionValue)
  }

  predicate IsPreferred(a: RawItem) {
    a.Item? && Truthy(PreferredQuestion(a)) && Truthy(PreferredSelection(a))
  }

  predicate IsLegacy(a: RawItem) {
    a.Item? && (Truthy(a.optionKey) || Truthy(a.optionValue))
  }

  /** Normalizes the item at position `idx`. Accepted answers always carry
      non-empty strings in both fields. */
  function NormalizeItem(a: RawItem, idx: nat): (r: Result<Canonical, ItemError>)
    ensures r.Err? ==> r.error == ItemError(idx, MissingFieldsReason)
    ensures r.Ok? ==> |r.value.questionId| > 0 && |r.value.selectedOption| > 0
    ensures r.Ok? <==>
      IsPreferred(a) || (IsLegacy(a) && Truthy(LegacyQuestion(a, idx)) && Truthy(LegacySelection(a)))
  {
    if IsPreferred(a) then
      Ok(Canonical(ToStr(PreferredQuestion(a)), ToStr(PreferredSelection(a))))
    else if IsLegacy(a) && Truthy(LegacyQuestion(a, idx)) && Truthy(LegacySelection(a)) then
      Ok(Canonical(ToStr(LegacyQuestion(a, idx)), ToStr(LegacySelection(a))))
    else
      Err(ItemError(idx, MissingFieldsReason))
  }

  /** The normalizer's output: accepted answers and per-item errors. */
  datatype Normalized = Normalized(answers: seq<Canonical>, errors: seq<ItemError>)

  predicate Fails(items: seq<RawItem>, i: nat)
    requires i < |items|
  {
    NormalizeItem(items[i], i).Err?
  }

  function ErrorIndices(errors: seq<ItemError>): set<nat> {
    set e | e in errors :: e.index
  }

  /** Normalizes `items[k..]`, keeping the index of each item in the whole array. */
  function NormalizeFrom(items: seq<RawItem>, k: nat): (r: Normalized)
    requires k <= |items|
    ensures |r.answers| + |r.errors| == |items| - k
    ensures forall e :: e in r.errors ==> e.reason == MissingFieldsReason
    ensures forall j :: 0 <= j < |r.answers| ==>
      |r.answers[j].questionId| > 0 && |r.answers[j].selectedOption| > 0
    decreases |items| - k
  {
    if k == |items| then Normalized([], [])
    else
      var rest := NormalizeFrom(items, k + 1);
      match NormalizeItem(items[k], k)
      case Ok(c) => Normalized([c] + rest.answers, rest.errors)
      case Err(e) => Normalized(rest.answers, [e] + rest.errors)
  }

  /** The indices of the items from `k` on that fail. */
  function FailingFrom(items: seq<RawItem>, k: nat): set<nat> {
    set i | k <= i < |items| && Fails(items, i)
  }

  lemma FailingFromStep(items: seq<RawItem>, k: nat)
    requires k < |items|
    ensures FailingFrom(items, k) == (if Fails(items, k) then {k} else {}) + FailingFrom(items, k + 1)
  {
    var lhs, rhs := FailingFrom(items, k), (if Fails(items, k) then {k} else {}) + FailingFrom(items, k + 1);
    forall x | x in lhs ensures x in rhs { }
    forall x | x in rhs ensures x in lhs { }
  }

  lemma ErrorIndicesCons(e: ItemError, errors: seq<ItemError>)
    ensures ErrorIndices([e] + errors) == {e.index} + ErrorIndices(errors)
  {
    var lhs, rhs := ErrorIndices([e] + errors), {e.index} + ErrorIndices(errors);
    forall x | x in lhs ensures x in rhs {
      var f :| f in [e] + errors && f.index == x;
      if f != e { assert f in errors; }
    }
    forall x | x in rhs ensures x in lhs {
      if x == e.index { assert e in [e] + errors; }
      else {
        var f :| f in errors && f.index == x;
        assert f in [e] + errors;
      }
    }
  }

  /** The errors name exactly the items that fail, by their index in the whole array. */
  lemma {:induction false} NormalizeFromErrors(items: seq<RawItem>, k: nat)
    requires k <= |items|
    ensures ErrorIndices(NormalizeFrom(items, k).errors) == FailingFrom(items, k)
    decreases |items| - k
  {
    if k < |items| {
      var rest := NormalizeFrom(items, k + 1);
      NormalizeFromErrors(items, k + 1);
      FailingFromStep(items, k);
      match NormalizeItem(items[k], k)
      case Ok(c) =>
        assert NormalizeFrom(items, k).errors == rest.errors;
      case Err(e) =>
        assert NormalizeFrom(items, k).errors == [e] + rest.errors;
        ErrorIndicesCons(e, rest.errors);
    }
  }

  /** Without errors, the `j`-th answer is the normalized `j`-th item. */
  lemma {:induction false} NormalizeFromInOrder(items: seq<RawItem>, k: nat)
    requires k <= |items| && |NormalizeFrom(items, k).errors| == 0
    ensures forall i :: k <= i < |items| ==> NormalizeItem(items[i], i) == Ok(NormalizeFrom(items, k).answers[i - k])
    decreases |items| - k
  {
    if k < |items| {
      var r, rest := NormalizeFrom(items, k), NormalizeFrom(items, k + 1);
      assert NormalizeItem(items[k], k).Ok?;
      NormalizeFromInOrder(items, k + 1);
      assert r.answers == [NormalizeItem(items[k], k).value] + rest.answers;
      forall i | k <= i < |items|
        ensures NormalizeItem(items[i], i) == Ok(r.answers[i - k])
      {
        if i > k {
          assert r.answers[i - k] == rest.answers[i - (k + 1)];
        }
      }
    }
  }

  /** `rawAnswers.map(...).filter(Boolean)` together with the collected errors. */
  function Normalize(items: seq<RawItem>): (r: Normalized)
    ensures |r.answers| + |r.errors| == |items|
    ensures ErrorIndices(r.errors) == FailingFrom(items, 0)
    ensures |r.errors| == 0 ==>
      |r.answers| == |items| &&
      forall i :: 0 <= i < |items| ==> NormalizeItem(items[i], i) == Ok(r.answers[i])
  {
    NormalizeFromErrors(items, 0);
    var r := NormalizeFrom(items, 0);
    if |r.errors| == 0 then
      assert forall i :: 0 <= i < |items| ==> NormalizeItem(items[i], i) == Ok(r.answers[i]) by {
        NormalizeFromInOrder(items, 0);
        forall i | 0 <= i < |items|
          ensures NormalizeItem(items[i], i) == Ok(r.answers[i])
        {
          assert NormalizeItem(items[i], i) == Ok(r.answers[i - 0]);
        }
      }
      r
    else r
  }

  // ---------------------------------------------------------------------
  // Properties of a single item
  // ---------------------------------------------------------------------

  /** The preferred shape yields the string forms of its two fields. */
  lemma PreferredShapeAccepted(a: RawItem, idx: nat)
    requires IsPreferred(a)
    ensures NormalizeItem(a, idx) ==
      Ok(Canonical(ToStr(Coalesce(a.questionId, a.qId)), ToStr(Coalesce(a.selectedOption, a.option))))
  {
  }

  /** `qId` is consulted only when `questionId` is null or undefined. */
  lemma QIdIgnoredWhenQuestionIdPresent(a: RawItem, idx: nat, other: JsVal)
    requires a.Item? && !IsNullish(a.questionId)
    ensures NormalizeItem(a.(qId := other), idx) == NormalizeItem(a, idx)
  {
  }

  /** `option` is consulted only when `selectedOption` is null or undefined. */
  lemma OptionIgnoredWhenSelectedOptionPresent(a: RawItem, idx: nat, other: JsVal)
    requires a.Item? && !IsNullish(a.selectedOption)
    ensures NormalizeItem(a.(option := other), idx) == NormalizeItem(a, idx)
  {
  }

  /** An item that is not in the preferred shape but is in the legacy one
      yields the string forms of `questionId ?? qIndex ?? (idx + 1)` and of
      `selectedOption ?? optionKey ?? optionValue`. */
  lemma LegacyShapeAccepted(a: RawItem, idx: nat)
    requires !IsPreferred(a) && IsLegacy(a) && Truthy(LegacyQuestion(a, idx)) && Truthy(LegacySelection(a))
    ensures NormalizeItem(a, idx) ==
      Ok(Canonical(ToStr(Coalesce(Coalesce(a.questionId, a.qIndex), Num(idx + 1))),
                   ToStr(Coalesce(Coalesce(a.selectedOption, a.optionKey), a.optionValue))))
  {
  }

  /** The legacy shape `{questionId: q, optionKey: k}` and the preferred
      shape `{questionId: q, selectedOption: k}` normalize to the same
      canonical answer. */
  lemma LegacyAndPreferredAgree(q: JsVal, k: JsVal, idx: nat)
    requires Truthy(q) && Truthy(k)
    ensures
      var legacy := Item(q, Undefined, Undefined, Undefined, k, Undefined, Undefined);
      var preferred := Item(q, Undefined, k, Undefined, Undefined, Undefined, Undefined);
      NormalizeItem(legacy, idx) == NormalizeItem(preferred, idx) == Ok(Canonical(ToStr(q), ToStr(k)))
  {
  }

  /** A legacy item without any question field takes its position plus one
      as the question id. */
  lemma LegacyDefaultsQuestionIdToPosition(idx: nat, key: string)
    requires |key| > 0
    ensures
      NormalizeItem(Item(Undefined, Undefined, Undefined, Undefined, Str(key), Undefined, Undefined), idx)
        == Ok(Canonical(Strings.Decimal(idx + 1), key))
  {
  }

  /** A legacy item whose `optionKey` is the empty string is rejected even
      when `optionValue` is set: `??` keeps the empty key as the selection. */
  lemma EmptyOptionKeyShadowsOptionValue(idx: nat)
    ensures
      NormalizeItem(Item(Str("1"), Undefined, Undefined, Undefined, Str(""), Str("x"), Undefined), idx)
        == Err(ItemError(idx, MissingFieldsReason))
  {
  }

  /** An item with neither a selection nor a key/value pair is an error at its index. */
  lemma NoSelectionIsError(a: RawItem, idx: nat)
    requires a.Item?
    requires IsNullish(a.selectedOption) && IsNullish(a.option)
    requires !Truthy(a.optionKey) && !Truthy(a.optionValue)
    ensures NormalizeItem(a, idx) == Err(ItemError(idx, MissingFieldsReason))
  {
  }

  // ---------------------------------------------------------------------
  // Properties of the whole batch
  // ---------------------------------------------------------------------

  /** One bad item anywhere makes the error list non-empty (so the batch is
      rejected whole), and the error names that item's index. */
  lemma {:induction false} BadItemIsReported(items: seq<RawItem>, i: nat)
    requires i < |items| && Fails(items, i)
    ensures |Normalize(items).errors| > 0
    ensures exists e :: e in Normalize(items).errors && e.index == i
  {
    var r := Normalize(items);
    assert i in set j | 0 <= j < |items| && Fails(items, j);
    assert i in ErrorIndices(r.errors);
  }

  lemma NoIndicesNoErrors(errors: seq<ItemError>)
    ensures ErrorIndices(errors) == {} ==> |errors| == 0
  {
    if |errors| > 0 {
      assert errors[0].index in ErrorIndices(errors);
    }
  }

  /** When no item fails, the output has the input's length and order. */
  lemma AllGoodKeepsOrder(items: seq<RawItem>)
    requires forall i :: 0 <= i < |items| ==> !Fails(items, i)
    ensures |Normalize(items).errors| == 0
    ensures |Normalize(items).answers| == |items|
    ensures forall i :: 0 <= i < |items| ==> NormalizeItem(items[i], i) == Ok(Normalize(items).answers[i])
  {
    var r := Normalize(items);
    NoIndicesNoErrors(r.errors);
  }
}
