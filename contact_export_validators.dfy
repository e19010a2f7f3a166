/**
 * The FluentValidation rule sets `ContactExportFilterValidator` and
 * `CreateContactExportRequestValidator`, as functions from the observable state of a
 * filter (or of a request's filter list) to the failures they report, in order.
 */
module ContactExportValidators {
  import opened Wrappers
  import opened StringEnum
  import opened EnumTables
  import opened ContactExportFilters
  import Text
  import Collections

  const MaxFiltersPerRequest: nat := 50_000
  const MinFiltersPerRequest: nat := 1

  /** The validator of a rule chain that failed. `Predicate` is a `Must`. */
  datatype Check = NotNull | NotEmpty | Predicate

  /** Where a failure is reported: a property of the validated object, or an element of
      a collection property (`Filters[2]`), or a property of such an element
      (`Filters[2].Operator`). */
  datatype Property =
    | Member(name: string)
    | Element(collection: string, index: nat, member: Option<string>)

  /** The property name FluentValidation reports. */
  function PropertyName(p: Property): string {
    match p
    case Member(name) => name
    case Element(collection, index, member) =>
      collection + "[" + Text.FormatNat(index) + "]" + (if member.Some? then "." + member.value else "")
  }

  datatype ValidationError = ValidationError(property: Property, check: Check)

  /** `ValidationResult`: the failures, in order; valid when there are none. */
  datatype ValidationResult = ValidationResult(errors: seq<ValidationError>) {
    predicate IsValid() {
      errors == []
    }
  }

  /** A `RuleFor` chain `NotNull().NotEmpty().Must(T.IsDefined)` with `CascadeMode.Stop`
      on a string-enum property: null fails `NotNull`; a non-null value is never
      "empty" (it is not a string, a collection or the default of its type); a value the
      enum does not define fails the `Must`. At most one failure. */
  function EnumRuleErrors(property: Property, t: Table, v: Option<EnumValue>): seq<ValidationError> {
    if v.None? then [ValidationError(property, NotNull)]
    else if !IsDefinedIn(t, v) then [ValidationError(property, Predicate)]
    else []
  }

  lemma EnumRuleSpec(property: Property, t: Table, v: Option<EnumValue>)
    ensures |EnumRuleErrors(property, t, v)| <= 1
    ensures EnumRuleErrors(property, t, v) == [] <==> IsDefinedIn(t, v)
    ensures forall e :: e in EnumRuleErrors(property, t, v) ==> e.property == property
  {
  }

  /** The rule on `Name`. `Name` is fixed by the variant and is always a defined filter
      name, so this rule never fails. */
  function NameErrors(f: Filter): seq<ValidationError> {
    EnumRuleErrors(Member("Name"), ContactExportFilterNameTable(), Some(f.Name()))
  }

  function OperatorErrors(f: Filter): seq<ValidationError> {
    EnumRuleErrors(Member("Operator"), ContactExportFilterOperatorTable(), f.op)
  }

  /** The `When` block of the variant. A list-id filter's `Value` is never null (it is
      get-only and set from a checked argument), so only `NotEmpty` can fail, when the
      list was emptied after construction. */
  function ValueErrors(f: Filter): seq<ValidationError> {
    match f
    case ListIdFilterValue(_, ids) => if ids == [] then [ValidationError(Member("Value"), NotEmpty)] else []
    case SubscriptionStatusFilterValue(_, status) =>
      EnumRuleErrors(Member("Value"), ContactExportFilterSubscriptionStatusTable(), status)
  }

  /** `ContactExportFilterValidator.Validate`: the rules in declaration order. */
  function FilterErrors(f: Filter): seq<ValidationError> {
    NameErrors(f) + OperatorErrors(f) + ValueErrors(f)
  }

  predicate FilterValid(f: Filter) {
    FilterErrors(f) == []
  }

  /** The failures reported for one property. */
  function ErrorsOn(errors: seq<ValidationError>, property: Property): seq<ValidationError> {
    if errors == [] then []
    else (if errors[0].property == property then [errors[0]] else []) + ErrorsOn(errors[1..], property)
  }

  lemma {:induction false} ErrorsOnAppend(a: seq<ValidationError>, b: seq<ValidationError>, property: Property)
    ensures ErrorsOn(a + b, property) == ErrorsOn(a, property) + ErrorsOn(b, property)
  {
    if a != [] {
      assert (a + b)[0] == a[0];
      assert (a + b)[1..] == a[1..] + b;
      ErrorsOnAppend(a[1..], b, property);
      var head := if a[0].property == property then [a[0]] else [];
      assert ErrorsOn(a + b, property) == head + (ErrorsOn(a[1..], property) + ErrorsOn(b, property));
      assert head + (ErrorsOn(a[1..], property) + ErrorsOn(b, property))
        == (head + ErrorsOn(a[1..], property)) + ErrorsOn(b, property);
    } else {
      assert a + b == b;
    }
  }

  lemma {:induction false} ErrorsOnSingleProperty(errors: seq<ValidationError>, property: Property, other: Property)
    requires forall e :: e in errors ==> e.property == property
    ensures ErrorsOn(errors, property) == errors
    ensures other != property ==> ErrorsOn(errors, other) == []
  {
    if errors != [] {
      assert errors == [errors[0]] + errors[1..];
      ErrorsOnSingleProperty(errors[1..], property, other);
    }
  }

  /** Failures for two different properties, one after the other, are told apart by
      their property. */
  lemma ErrorsOnTwoProperties(a: seq<ValidationError>, b: seq<ValidationError>, pa: Property, pb: Property, other: Property)
    requires pa != pb && other != pa && other != pb
    requires forall e :: e in a ==> e.property == pa
    requires forall e :: e in b ==> e.property == pb
    ensures ErrorsOn(a + b, pa) == a && ErrorsOn(a + b, pb) == b && ErrorsOn(a + b, other) == []
  {
    ErrorsOnAppend(a, b, pa);
    ErrorsOnAppend(a, b, pb);
    ErrorsOnAppend(a, b, other);
    ErrorsOnSingleProperty(a, pa, pb);
    ErrorsOnSingleProperty(a, pa, other);
    ErrorsOnSingleProperty(b, pb, pa);
    ErrorsOnSingleProperty(b, pb, other);
  }

  /** A filter is valid exactly when its operator is a defined operator and its value
      passes its variant's check: a non-empty id list, or a defined subscription status. */
  lemma FilterValidSpec(f: Filter)
    ensures FilterValid(f) <==>
      && IsDefinedIn(ContactExportFilterOperatorTable(), f.op)
      && match f
         case ListIdFilterValue(_, ids) => ids != []
         case SubscriptionStatusFilterValue(_, status) =>
           IsDefinedIn(ContactExportFilterSubscriptionStatusTable(), status)
  {
    DiscriminatorTableSpec(f);
  }

  /** Each field is reported under its own name, at most once (`CascadeMode.Stop`), and
      independently of the other field: the `Operator` failures depend only on the
      operator, the `Value` failures only on the value, and `Name` never fails. */
  lemma FieldErrorsIndependent(f: Filter)
    ensures ErrorsOn(FilterErrors(f), Member("Name")) == []
    ensures ErrorsOn(FilterErrors(f), Member("Operator")) == OperatorErrors(f)
    ensures ErrorsOn(FilterErrors(f), Member("Value")) == ValueErrors(f)
    ensures |OperatorErrors(f)| <= 1 && |ValueErrors(f)| <= 1
    ensures OperatorErrors(f) == [] <==> IsDefinedIn(ContactExportFilterOperatorTable(), f.op)
    ensures forall op :: ValueErrors(f.(op := op)) == ValueErrors(f)
  {
    DiscriminatorTableSpec(f);
    assert NameErrors(f) == [];
    EnumRuleSpec(Member("Operator"), ContactExportFilterOperatorTable(), f.op);
    var v := ValueErrors(f);
    assert forall e :: e in v ==> e.property == Member("Value") by {
      if f.SubscriptionStatusFilterValue? {
        EnumRuleSpec(Member("Value"), ContactExportFilterSubscriptionStatusTable(), f.status);
      }
    }
    ErrorsOnTwoProperties(OperatorErrors(f), v, Member("Operator"), Member("Value"), Member("Name"));
    if f.SubscriptionStatusFilterValue? {
      EnumRuleSpec(Member("Value"), ContactExportFilterSubscriptionStatusTable(), f.status);
    }
  }

  /** A filter as a public constructor leaves it, from an argument the constructor
      accepts (a non-empty list, a defined status), passes the validator. */
  lemma ConstructedFiltersPass(ids: seq<Int32>, status: EnumValue)
    requires ids != []
    requires IsDefinedIn(ContactExportFilterSubscriptionStatusTable(), Some(status))
    ensures FilterValid(ListIdFilterValue(Some(OperatorEqual), ids))
    ensures FilterValid(SubscriptionStatusFilterValue(Some(OperatorEqual), Some(status)))
  {
    OperatorConstants();
    FilterValidSpec(ListIdFilterValue(Some(OperatorEqual), ids));
    FilterValidSpec(SubscriptionStatusFilterValue(Some(OperatorEqual), Some(status)));
  }

  /** The operator-less, emptied or unset filters that the validator rejects. */
  lemma RejectedFilters(ids: seq<Int32>, op: Option<EnumValue>)
    ensures ErrorsOn(FilterErrors(ListIdFilterValue(None, ids)), Member("Operator")) == [ValidationError(Member("Operator"), NotNull)]
    ensures ErrorsOn(FilterErrors(ListIdFilterValue(Some(UnknownValue), ids)), Member("Operator"))
      == [ValidationError(Member("Operator"), Predicate)]
    ensures ErrorsOn(FilterErrors(ListIdFilterValue(op, [])), Member("Value")) == [ValidationError(Member("Value"), NotEmpty)]
    ensures ErrorsOn(FilterErrors(SubscriptionStatusFilterValue(op, None)), Member("Value"))
      == [ValidationError(Member("Value"), NotNull)]
    ensures ErrorsOn(FilterErrors(SubscriptionStatusFilterValue(op, Some(NoneValue))), Member("Value"))
      == [ValidationError(Member("Value"), Predicate)]
  {
    OperatorConstants();
    StatusConstants();
    FieldErrorsIndependent(ListIdFilterValue(None, ids));
    FieldErrorsIndependent(ListIdFilterValue(Some(UnknownValue), ids));
    FieldErrorsIndependent(ListIdFilterValue(op, []));
    FieldErrorsIndependent(SubscriptionStatusFilterValue(op, None));
    FieldErrorsIndependent(SubscriptionStatusFilterValue(op, Some(NoneValue)));
  }

  /** A list-id filter built from a non-empty array whose `Value` list is then cleared:
      the validator reports `Value` as empty and says nothing about `Operator`. */
  method EmptiedListIdFilterRejected(values: array<Int32>) returns (r: Result<ListIdFilter, Collections.ArgumentError>)
    requires values.Length > 0
    ensures r.Success? && r.value.value.items == []
    ensures ErrorsOn(FilterErrors(r.value.Snapshot()), Member("Value")) == [ValidationError(Member("Value"), NotEmpty)]
    ensures ErrorsOn(FilterErrors(r.value.Snapshot()), Member("Operator")) == []
  {
    r := ListIdFilter.FromArray(values);
    r.value.value.Clear();
    OperatorConstants();
    FieldErrorsIndependent(r.value.Snapshot());
  }

  // ---- the request validator ----

  /** A child validator's failures, reported under the `index`-th element of `Filters`. */
  function Nested(errors: seq<ValidationError>, index: nat): seq<ValidationError> {
    if errors == [] then []
    else
      var inner := if errors[0].property.Member? then Some(errors[0].property.name) else None;
      [ValidationError(Element("Filters", index, inner), errors[0].check)] + Nested(errors[1..], index)
  }

  lemma {:induction false} NestedEmpty(errors: seq<ValidationError>, index: nat)
    ensures Nested(errors, index) == [] <==> errors == []
  {
  }

  /** `RuleForEach(...).NotNull().SetValidator(...)` on one element: a null element fails
      `NotNull` and is not passed to the child validator. */
  function ItemErrors(item: Option<Filter>, index: nat): seq<ValidationError> {
    if item.None? then [ValidationError(Element("Filters", index, None), NotNull)]
    else Nested(FilterErrors(item.value), index)
  }

  /** The failures of a rule run on every element of a list, element `k` reported with
      index `offset + k`, in element order. */
  function EachErrors<T>(rule: (T, nat) -> seq<ValidationError>, items: seq<T>, offset: nat): seq<ValidationError>
    decreases |items|
  {
    if items == [] then [] else rule(items[0], offset) + EachErrors(rule, items[1..], offset + 1)
  }

  lemma {:induction false} EachErrorsEmpty<T>(rule: (T, nat) -> seq<ValidationError>, items: seq<T>, offset: nat)
    ensures EachErrors(rule, items, offset) == [] <==> forall k :: 0 <= k < |items| ==> rule(items[k], offset + k) == []
    decreases |items|
  {
    if items != [] {
      EachErrorsEmpty(rule, items[1..], offset + 1);
      assert forall k :: 1 <= k < |items| ==> items[k] == items[1..][k - 1];
    }
  }

  lemma {:induction false} EachErrorsAppend<T>(rule: (T, nat) -> seq<ValidationError>, a: seq<T>, b: seq<T>, offset: nat)
    ensures EachErrors(rule, a + b, offset) == EachErrors(rule, a, offset) + EachErrors(rule, b, offset + |a|)
    decreases |a|
  {
    if a == [] {
      assert a + b == b;
    } else {
      var ab := a + b;
      assert ab[0] == a[0] && ab[1..] == a[1..] + b;
      EachErrorsAppend(rule, a[1..], b, offset + 1);
    }
  }

  lemma EachErrorsSplit<T>(rule: (T, nat) -> seq<ValidationError>, items: seq<T>, offset: nat, i: nat)
    requires i < |items|
    ensures EachErrors(rule, items, offset)
      == EachErrors(rule, items[..i], offset) + rule(items[i], offset + i) + EachErrors(rule, items[i + 1..], offset + i + 1)
  {
    var single: seq<T> := [items[i]];
    assert items == items[..i] + (single + items[i + 1..]);
    EachErrorsAppend(rule, items[..i], single + items[i + 1..], offset);
    EachErrorsAppend(rule, single, items[i + 1..], offset + i);
    assert single[1..] == [];
  }

  /** `RuleForEach(r => r.Filters)`: every element's failures, in order. */
  function ItemsErrors(items: seq<Option<Filter>>, offset: nat): seq<ValidationError> {
    EachErrors(ItemErrors, items, offset)
  }

  /** `RuleFor(r => r.Filters).Cascade(Stop).NotEmpty().Must(1 <= Count <= 50000)`: an
      empty list fails `NotEmpty` and the range check does not run. */
  function CountErrors(items: seq<Option<Filter>>): seq<ValidationError> {
    if |items| == 0 then [ValidationError(Member("Filters"), NotEmpty)]
    else if !(MinFiltersPerRequest <= |items| <= MaxFiltersPerRequest) then [ValidationError(Member("Filters"), Predicate)]
    else []
  }

  /** `CreateContactExportRequestValidator.Validate`: the count rule, then every element.
      Both rules always run. */
  function RequestErrors(items: seq<Option<Filter>>): seq<ValidationError> {
    CountErrors(items) + ItemsErrors(items, 0)
  }

  predicate RequestValid(items: seq<Option<Filter>>) {
    RequestErrors(items) == []
  }

  lemma ItemsErrorsEmptySpec(items: seq<Option<Filter>>, offset: nat)
    ensures ItemsErrors(items, offset) == [] <==>
      forall i :: 0 <= i < |items| ==> items[i].Some? && FilterValid(items[i].value)
  {
    EachErrorsEmpty(ItemErrors, items, offset);
    forall k | 0 <= k < |items| && items[k].Some?
      ensures ItemErrors(items[k], offset + k) == [] <==> FilterValid(items[k].value)
    {
      NestedEmpty(FilterErrors(items[k].value), offset + k);
    }
  }

  /** The failures of the elements split at any index: element `i`'s failures appear,
      under its own name, between those of the elements before and after it. */
  lemma ItemsErrorsSplit(items: seq<Option<Filter>>, offset: nat, i: nat)
    requires i < |items|
    ensures ItemsErrors(items, offset)
      == ItemsErrors(items[..i], offset) + ItemErrors(items[i], offset + i) + ItemsErrors(items[i + 1..], offset + i + 1)
  {
    EachErrorsSplit(ItemErrors, items, offset, i);
  }

  /** The request is valid exactly when it holds between 1 and 50,000 filters, none of
      them null and each passing the filter validator. */
  lemma RequestValidSpec(items: seq<Option<Filter>>)
    ensures RequestValid(items) <==>
      && MinFiltersPerRequest <= |items| <= MaxFiltersPerRequest
      && forall i :: 0 <= i < |items| ==> items[i].Some? && FilterValid(items[i].value)
  {
    ItemsErrorsEmptySpec(items, 0);
  }

  /** A count of 0 or above 50,000 is reported on `Filters`, once: an empty list as
      `NotEmpty`, an oversized one as the range check. */
  lemma CountOutOfRange(items: seq<Option<Filter>>)
    ensures |items| == 0 ==> RequestErrors(items) == [ValidationError(Member("Filters"), NotEmpty)]
    ensures |items| > MaxFiltersPerRequest ==> RequestErrors(items)[0] == ValidationError(Member("Filters"), Predicate)
    ensures ErrorsOn(CountErrors(items), Member("Filters")) == CountErrors(items) && |CountErrors(items)| <= 1
    ensures CountErrors(items) == [] <==> MinFiltersPerRequest <= |items| <= MaxFiltersPerRequest
  {
    ErrorsOnSingleProperty(CountErrors(items), Member("Filters"), Member("Name"));
  }

  /** A null element is reported under its index, whatever the rest of the request holds. */
  lemma NullItemReported(items: seq<Option<Filter>>, i: nat)
    requires i < |items| && items[i].None?
    ensures ValidationError(Element("Filters", i, None), NotNull) in RequestErrors(items)
    ensures !RequestValid(items)
  {
    ItemsErrorsSplit(items, 0, i);
  }

  /** Any count from 1 to 50,000 of valid filters is valid; 0 and 50,001 are not. */
  lemma CountBounds(f: Filter, n: nat)
    requires FilterValid(f)
    ensures RequestValid(seq(n, _ => Some(f))) <==> 1 <= n <= 50_000
  {
    RequestValidSpec(seq(n, _ => Some(f)));
  }
}
