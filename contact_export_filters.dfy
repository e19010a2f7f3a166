/**
 * The contact-export filters: the abstract `ContactExportFilterBase` with its two sealed
 * variants, `ContactExportListIdFilter` (a list of contact-list ids) and
 * `ContactExportSubscriptionStatusFilter` (a subscription status), and their JSON form,
 * a polymorphic object tagged by the `name` discriminator.
 */
module ContactExportFilters {
  import opened Wrappers
  import opened StringEnum
  import opened EnumTables
  import opened Collections
  import opened Json
  import StringEnumJson

  /** C#'s `int`, the type of a contact-list id. */
  type Int32 = x: int | -0x8000_0000 <= x < 0x8000_0000

  // ---- the discriminator table ----

  /** The wire name of the discriminator property. */
  const DiscriminatorProperty: string := "name"
  const OperatorProperty: string := "operator"
  const ValueProperty: string := "value"
  const FiltersProperty: string := "filters"

  datatype Variant = ListIdVariant | SubscriptionStatusVariant

  /** The `[JsonDerivedType]` registrations: discriminator to variant. */
  const DerivedTypes: map<string, Variant> :=
    map[ListIdDiscriminator := ListIdVariant, SubscriptionStatusDiscriminator := SubscriptionStatusVariant]

  // ---- the observable state of a filter ----

  /** What a filter object holds at a given moment: the operator (null allowed, as the
      setter allows it) and the variant's `Value`. */
  datatype Filter =
    | ListIdFilterValue(op: Option<EnumValue>, ids: seq<Int32>)
    | SubscriptionStatusFilterValue(op: Option<EnumValue>, status: Option<EnumValue>)
  {
    function Variant(): Variant {
      if ListIdFilterValue? then ListIdVariant else SubscriptionStatusVariant
    }

    /** The `Discriminator` constant of the variant. */
    function Discriminator(): string {
      if ListIdFilterValue? then ListIdDiscriminator else SubscriptionStatusDiscriminator
    }

    /** The `Name` property, fixed by the variant. */
    function Name(): EnumValue {
      if ListIdFilterValue? then FilterNameListId else FilterNameSubscriptionStatus
    }
  }

  /** The discriminator table sends each variant's discriminator back to that variant,
      holds no other entry, and `Name` is the filter-name enum value defined with the
      discriminator string. */
  lemma DiscriminatorTableSpec(f: Filter)
    ensures f.Discriminator() in DerivedTypes && DerivedTypes[f.Discriminator()] == f.Variant()
    ensures DerivedTypes.Keys == {ListIdDiscriminator, SubscriptionStatusDiscriminator}
    ensures f.Name().ToString() == f.Discriminator()
    ensures FindIn(ContactExportFilterNameTable(), Some(f.Discriminator())) == f.Name()
    ensures IsDefinedIn(ContactExportFilterNameTable(), Some(f.Name()))
  {
    FilterNameConstants();
    assert ListIdDiscriminator in ContactExportFilterNameNames;
    assert SubscriptionStatusDiscriminator in ContactExportFilterNameNames;
  }

  // ---- the filter objects ----

  /** `ContactExportListIdFilter`. `Value` is get-only but refers to a mutable list. */
  class ListIdFilter {
    var operator: Option<EnumValue>
    const value: MutableList<Int32>

    /** The part every public constructor shares once its argument is accepted:
        `Value` is the given list and `Operator` is `Equal`. The declaration defaults
        (`[]` and `Unknown`) are overwritten here and so are never observed. */
    constructor Init(list: MutableList<Int32>)
      ensures value == list && operator == Some(OperatorEqual)
    {
      value := list;
      operator := Some(OperatorEqual);
    }

    /** The record copy constructor run by `with`: a shallow copy. */
    constructor CopyOf(list: MutableList<Int32>, op: Option<EnumValue>)
      ensures value == list && operator == op
    {
      value := list;
      operator := op;
    }

    /** `ContactExportListIdFilter(IEnumerable<int> value)`, also reached from the
        `IList<int>` JSON constructor: null or empty throws `ArgumentNullException`;
        otherwise `Value` is a fresh copy of the elements, in order. */
    static method FromEnumerable(value: MutableList?<Int32>) returns (r: Result<ListIdFilter, ArgumentError>)
      ensures r.Failure? <==> value == null || value.items == []
      ensures r.Failure? ==> r.error == ArgumentError.ArgumentNull("value")
      ensures r.Success? ==> fresh(r.value) && fresh(r.value.value)
      ensures r.Success? ==> r.value.value.items == value.items && r.value.operator == Some(OperatorEqual)
    {
      if value == null || value.items == [] {
        return Failure(ArgumentError.ArgumentNull("value"));
      }
      var copy := CloneList(value);
      var filter := new ListIdFilter.Init(copy.value);
      return Success(filter);
    }

    /** `ContactExportListIdFilter(params int[] values)`: null or empty throws;
        otherwise `Value` is a new list holding the array's elements. */
    static method FromArray(values: array?<Int32>) returns (r: Result<ListIdFilter, ArgumentError>)
      ensures r.Failure? <==> values == null || values.Length == 0
      ensures r.Failure? ==> r.error == ArgumentError.ArgumentNull("values")
      ensures r.Success? ==> fresh(r.value) && fresh(r.value.value)
      ensures r.Success? ==> r.value.value.items == values[..] && r.value.operator == Some(OperatorEqual)
    {
      if values == null || values.Length == 0 {
        return Failure(ArgumentError.ArgumentNull("values"));
      }
      var list := new MutableList<Int32>(values[..]);
      var filter := new ListIdFilter.Init(list);
      return Success(filter);
    }

    /** `this with { Operator = op }`: a new filter with the given operator that shares
        this filter's `Value` list; this filter is left as it was. */
    method WithOperator(op: Option<EnumValue>) returns (copy: ListIdFilter)
      ensures fresh(copy) && copy.operator == op && copy.value == value
    {
      copy := new ListIdFilter.CopyOf(value, op);
    }

    function Snapshot(): Filter
      reads this, value
    {
      ListIdFilterValue(operator, value.items)
    }
  }

  /** A list-id filter owns a copy of its input: changing the caller's list afterwards
      leaves the filter's `Value` as it was built. */
  method ListIdFilterIsDefensiveCopy(source: MutableList<Int32>, extra: Int32) returns (r: Result<ListIdFilter, ArgumentError>)
    modifies source
    ensures r.Success? <==> old(source.items) != []
    ensures r.Success? ==> r.value.value.items == old(source.items)
    ensures source.items == old(source.items) + [extra]
  {
    r := ListIdFilter.FromEnumerable(source);
    source.Add(extra);
  }

  /** `ContactExportSubscriptionStatusFilter`. Both properties have public setters. */
  class SubscriptionStatusFilter {
    var operator: Option<EnumValue>
    var value: Option<EnumValue>

    constructor CopyOf(status: Option<EnumValue>, op: Option<EnumValue>)
      ensures value == status && operator == op
    {
      value := status;
      operator := op;
    }

    /** `ContactExportSubscriptionStatusFilter(value)`: a null status throws; otherwise
        `Value` is the status and `Operator` is `Equal`. */
    static method Create(value: Option<EnumValue>) returns (r: Result<SubscriptionStatusFilter, ArgumentError>)
      ensures r.Failure? <==> value.None?
      ensures r.Failure? ==> r.error == ArgumentError.ArgumentNull("value")
      ensures r.Success? ==> fresh(r.value)
      ensures r.Success? ==> r.value.value == value && r.value.operator == Some(OperatorEqual)
    {
      if value.None? {
        return Failure(ArgumentError.ArgumentNull("value"));
      }
      var filter := new SubscriptionStatusFilter.CopyOf(value, Some(OperatorEqual));
      return Success(filter);
    }

    /** `this with { Operator = op }`: a new filter with the same `Value`; this one is left
        as it was. */
    method WithOperator(op: Option<EnumValue>) returns (copy: SubscriptionStatusFilter)
      ensures fresh(copy) && copy.operator == op && copy.value == value
    {
      copy := new SubscriptionStatusFilter.CopyOf(value, op);
    }

    function Snapshot(): Filter
      reads this
    {
      SubscriptionStatusFilterValue(operator, value)
    }
  }

  /** A reference of the abstract type `ContactExportFilterBase`: one of the two sealed
      variants. */
  datatype FilterRef = ListIdRef(listId: ListIdFilter) | StatusRef(status: SubscriptionStatusFilter) {
    function Footprint(): set<object> {
      match this
      case ListIdRef(l) => {l, l.value}
      case StatusRef(s) => {s}
    }

    function Snapshot(): Filter
      reads Footprint()
    {
      match this
      case ListIdRef(l) => l.Snapshot()
      case StatusRef(s) => s.Snapshot()
    }
  }

  // ---- the JSON form ----

  function EncodeIds(ids: seq<Int32>): seq<Json> {
    if ids == [] then [] else [JNumber(Integer(ids[0]))] + EncodeIds(ids[1..])
  }

  /** A JSON array of `int`s: every element must be an integer literal in range. */
  function DecodeIds(items: seq<Json>): Option<seq<Int32>> {
    if items == [] then Some([])
    else if items[0].JNumber? && items[0].n.Integer? && -0x8000_0000 <= items[0].n.value < 0x8000_0000 then
      match DecodeIds(items[1..])
      case Some(rest) => Some([items[0].n.value as Int32] + rest)
      case None => None
    else None
  }

  lemma {:induction false} IdsRoundTrip(ids: seq<Int32>)
    ensures DecodeIds(EncodeIds(ids)) == Some(ids)
  {
    if ids != [] {
      var items := EncodeIds(ids);
      assert items[0] == JNumber(Integer(ids[0]));
      assert items[1..] == EncodeIds(ids[1..]);
      IdsRoundTrip(ids[1..]);
      assert ids == [ids[0]] + ids[1..];
    }
  }

  /** Serialising a filter: the discriminator first, then `operator` (order 2), then
      `value` (order 3). `Name` is `[JsonIgnore]`, so it appears only as the discriminator. */
  function EncodeFilter(f: Filter): Json {
    JObject([
      (DiscriminatorProperty, JString(f.Discriminator())),
      (OperatorProperty, StringEnumJson.WriteToken(f.op)),
      (ValueProperty,
        match f
        case ListIdFilterValue(_, ids) => JArray(EncodeIds(ids))
        case SubscriptionStatusFilterValue(_, status) => StringEnumJson.WriteToken(status))
    ])
  }

  /** The value of the last property named `key` (a repeated property overwrites). */
  function Lookup(fields: seq<(string, Json)>, key: string): Option<Json> {
    if fields == [] then None
    else if fields[|fields| - 1].0 == key then Some(fields[|fields| - 1].1)
    else Lookup(fields[..|fields| - 1], key)
  }

  /** The discriminator: a string in the first property, named `name`. */
  function DiscriminatorOf(fields: seq<(string, Json)>): Option<string> {
    if |fields| > 0 && fields[0].0 == DiscriminatorProperty && fields[0].1.JString? then
      Some(fields[0].1.s)
    else None
  }

  /** Reading `operator` into the settable property. Absent, it keeps the `Equal` the
      constructor set; JSON null is assigned as null without calling the converter;
      anything else goes through `StringEnumJsonConverter.Read`. */
  function DecodeOperator(property: Option<Json>): Result<Option<EnumValue>, JsonError> {
    match property
    case None => Success(Some(OperatorEqual))
    case Some(JNull) => Success(None)
    case Some(j) =>
      match StringEnumJson.Read(ContactExportFilterOperatorTable(), j)
      case Success(v) => Success(Some(v))
      case Failure(e) => Failure(e)
  }

  /** Binding `value` to the list-id constructor: an array of `int`s that is not empty.
      A missing or null value reaches the constructor as null, and it rejects that just
      as it rejects an empty list. */
  function DecodeListIdValue(property: Option<Json>): Result<seq<Int32>, JsonError> {
    if property.None? || property.value.JNull? then Failure(ConstructorRejected(ValueProperty))
    else if !property.value.JArray? then Failure(MalformedProperty(ValueProperty))
    else
      var ids := DecodeIds(property.value.items);
      if ids.None? then Failure(MalformedProperty(ValueProperty))
      else if ids.value == [] then Failure(ConstructorRejected(ValueProperty))
      else Success(ids.value)
  }

  /** Binding `value` to the subscription-status constructor: missing or null reaches
      it as null and is rejected; anything else goes through the converter. */
  function DecodeStatusValue(property: Option<Json>): Result<EnumValue, JsonError> {
    if property.None? || property.value.JNull? then Failure(ConstructorRejected(ValueProperty))
    else StringEnumJson.Read(ContactExportFilterSubscriptionStatusTable(), property.value)
  }

  /** The conversion error of a binding, if any: a failure other than the constructor's
      own rejection of a null or empty argument. */
  function ConversionError<T>(r: Result<T, JsonError>): Option<JsonError> {
    if r.Failure? && !r.error.ConstructorRejected? then Some(r.error) else None
  }

  /** The conversion one property gets while the object is being read: `value` through
      the variant's constructor parameter type, `operator` through the enum converter;
      any other property is skipped. */
  function ConvertProperty(variant: Variant, p: (string, Json)): Option<JsonError> {
    if p.0 == ValueProperty then
      match variant
      case ListIdVariant => ConversionError(DecodeListIdValue(Some(p.1)))
      case SubscriptionStatusVariant => ConversionError(DecodeStatusValue(Some(p.1)))
    else if p.0 == OperatorProperty then ConversionError(DecodeOperator(Some(p.1)))
    else None
  }

  /** The first conversion error in document order. */
  function FirstConversionError(variant: Variant, fields: seq<(string, Json)>): Option<JsonError>
    decreases |fields|
  {
    if fields == [] then None
    else if ConvertProperty(variant, fields[0]).Some? then ConvertProperty(variant, fields[0])
    else FirstConversionError(variant, fields[1..])
  }

  /** Reading a filter object through the polymorphic base: the discriminator picks the
      variant; then every property is converted in document order, `value` as the
      `[JsonConstructor]` argument and `operator` into a cache, and the first conversion
      error is the one reported; only at the end of the object does the constructor run
      and reject a null or empty argument, after which the cached `operator` is assigned.
      Unknown properties, a repeated `name` among them, are skipped; a repeated property
      is converted each time and the last one is kept. */
  function DecodeFilter(j: Json): Result<Filter, JsonError> {
    if !j.JObject? then Failure(MalformedProperty(FiltersProperty))
    else
      var d := DiscriminatorOf(j.fields);
      if d.None? || d.value !in DerivedTypes then Failure(UnknownDiscriminator(d))
      else
        var variant := DerivedTypes[d.value];
        var rest := j.fields[1..];
        var conversion := FirstConversionError(variant, rest);
        if conversion.Some? then Failure(conversion.value)
        else
          var value := Lookup(rest, ValueProperty);
          var op := DecodeOperator(Lookup(rest, OperatorProperty));
          if variant == ListIdVariant then
            var ids := DecodeListIdValue(value);
            if ids.Failure? then Failure(ids.error)
            else if op.Failure? then Failure(op.error)
            else Success(ListIdFilterValue(op.value, ids.value))
          else
            var status := DecodeStatusValue(value);
            if status.Failure? then Failure(status.error)
            else if op.Failure? then Failure(op.error)
            else Success(SubscriptionStatusFilterValue(op.value, Some(status.value)))
  }

  /** Without a conversion error in any property, the last `operator` converts and the
      last `value` fails at most the constructor's check. */
  lemma {:induction false} NoConversionError(variant: Variant, fields: seq<(string, Json)>)
    requires FirstConversionError(variant, fields).None?
    ensures DecodeOperator(Lookup(fields, OperatorProperty)).Success?
    ensures variant == ListIdVariant ==> ConversionError(DecodeListIdValue(Lookup(fields, ValueProperty))).None?
    ensures variant == SubscriptionStatusVariant ==> ConversionError(DecodeStatusValue(Lookup(fields, ValueProperty))).None?
    decreases |fields|
  {
    if fields != [] {
      var last := fields[|fields| - 1];
      var init := fields[..|fields| - 1];
      FirstConversionErrorSplit(variant, init, last);
      assert init + [last] == fields;
      NoConversionError(variant, init);
    }
  }

  /** A conversion error in the last property is found when no earlier one is. */
  lemma {:induction false} FirstConversionErrorSplit(variant: Variant, init: seq<(string, Json)>, last: (string, Json))
    ensures FirstConversionError(variant, init + [last]).None? <==>
      FirstConversionError(variant, init).None? && ConvertProperty(variant, last).None?
    decreases |init|
  {
    if init == [] {
      assert init + [last] == [last];
    } else {
      assert (init + [last])[0] == init[0];
      assert (init + [last])[1..] == init[1..] + [last];
      FirstConversionErrorSplit(variant, init[1..], last);
    }
  }

  /** What a registered filter object reads as: the first conversion error in document
      order if there is one; otherwise only the constructor can still reject, and does so
      exactly when `value` is missing, null or (for list ids) empty. */
  lemma DecodeFilterOrder(fields: seq<(string, Json)>)
    requires DiscriminatorOf(fields).Some? && DiscriminatorOf(fields).value in DerivedTypes
    ensures var e := FirstConversionError(DerivedTypes[DiscriminatorOf(fields).value], fields[1..]);
      e.Some? ==> DecodeFilter(JObject(fields)) == Failure(e.value)
    ensures var e := FirstConversionError(DerivedTypes[DiscriminatorOf(fields).value], fields[1..]);
      e.None? && DecodeFilter(JObject(fields)).Failure? ==>
        DecodeFilter(JObject(fields)).error == ConstructorRejected(ValueProperty)
  {
    var variant := DerivedTypes[DiscriminatorOf(fields).value];
    if FirstConversionError(variant, fields[1..]).None? {
      NoConversionError(variant, fields[1..]);
    }
  }

  /** The `operator` token is converted before the constructor runs: an empty id list, or
      a null status, is the constructor's rejection only when `operator` converts (JSON
      null or a string); any other `operator` token is the converter's error first. And
      `value` placed before `operator` is converted first. */
  lemma OperatorConvertedBeforeConstructor(operator: Json)
    ensures var r := DecodeFilter(JObject([(DiscriminatorProperty, JString(ListIdDiscriminator)),
        (OperatorProperty, operator), (ValueProperty, JArray([]))]));
      r == if operator.JNull? || operator.JString? then Failure(ConstructorRejected(ValueProperty))
           else Failure(UnsupportedTokenType(TokenTypeOf(operator)))
    ensures var r := DecodeFilter(JObject([(DiscriminatorProperty, JString(SubscriptionStatusDiscriminator)),
        (OperatorProperty, operator), (ValueProperty, JNull)]));
      r == if operator.JNull? || operator.JString? then Failure(ConstructorRejected(ValueProperty))
           else Failure(UnsupportedTokenType(TokenTypeOf(operator)))
    ensures DecodeFilter(JObject([(DiscriminatorProperty, JString(ListIdDiscriminator)),
        (ValueProperty, JString("1")), (OperatorProperty, operator)])) == Failure(MalformedProperty(ValueProperty))
  {
    var opError := ConvertProperty(ListIdVariant, (OperatorProperty, operator));
    assert opError == ConvertProperty(SubscriptionStatusVariant, (OperatorProperty, operator));
    assert opError.None? <==> operator.JNull? || operator.JString?;
    assert opError.Some? ==> opError.value == UnsupportedTokenType(TokenTypeOf(operator));
    var listFields := [(DiscriminatorProperty, JString(ListIdDiscriminator)), (OperatorProperty, operator), (ValueProperty, JArray([]))];
    assert listFields[1..][1..] == [(ValueProperty, JArray([]))];
    assert ConvertProperty(ListIdVariant, (ValueProperty, JArray([]))).None?;
    assert Lookup(listFields[1..], ValueProperty) == Some(JArray([]));
    assert DiscriminatorOf(listFields) == Some(ListIdDiscriminator);
    assert DerivedTypes[ListIdDiscriminator] == ListIdVariant;
    assert FirstConversionError(ListIdVariant, listFields[1..][1..]) == None;
    assert FirstConversionError(ListIdVariant, listFields[1..]) == opError;
    assert opError.None? ==> DecodeListIdValue(Some(JArray([]))) == Failure(ConstructorRejected(ValueProperty));
    var statusFields := [(DiscriminatorProperty, JString(SubscriptionStatusDiscriminator)), (OperatorProperty, operator), (ValueProperty, JNull)];
    assert statusFields[1..][1..] == [(ValueProperty, JNull)];
    assert ConvertProperty(SubscriptionStatusVariant, (ValueProperty, JNull)).None?;
    assert Lookup(statusFields[1..], ValueProperty) == Some(JNull);
    assert DiscriminatorOf(statusFields) == Some(SubscriptionStatusDiscriminator);
    assert DerivedTypes[SubscriptionStatusDiscriminator] == SubscriptionStatusVariant;
    assert FirstConversionError(SubscriptionStatusVariant, statusFields[1..][1..]) == None;
    assert FirstConversionError(SubscriptionStatusVariant, statusFields[1..]) == opError;
  }

  /** Every object whose discriminator is missing or not registered is rejected. */
  lemma UnknownDiscriminatorRejected(fields: seq<(string, Json)>)
    requires DiscriminatorOf(fields).None? || DiscriminatorOf(fields).value !in DerivedTypes
    ensures DecodeFilter(JObject(fields)) == Failure(UnknownDiscriminator(DiscriminatorOf(fields)))
  {
  }

  /** The filters the round trip preserves: enum values that are registered in their
      tables, a non-empty id list, a non-null status. */
  ghost predicate Decodable(f: Filter) {
    && (f.op.Some? ==> f.op.value in ContactExportFilterOperatorTable().Values)
    && match f
       case ListIdFilterValue(_, ids) => ids != []
       case SubscriptionStatusFilterValue(_, status) =>
         status.Some? && status.value in ContactExportFilterSubscriptionStatusTable().Values
  }

  /** An encoded decodable filter converts without error: its `operator` token is a
      string or null, and its `value` token converts for its variant. */
  lemma EncodedConverts(f: Filter)
    requires Decodable(f)
    ensures FirstConversionError(DerivedTypes[f.Discriminator()], EncodeFilter(f).fields[1..]).None?
    ensures Lookup(EncodeFilter(f).fields[1..], OperatorProperty) == Some(StringEnumJson.WriteToken(f.op))
  {
    var rest := EncodeFilter(f).fields[1..];
    var variant := DerivedTypes[f.Discriminator()];
    StringEnumJson.WriteReadRoundTrip(ContactExportFilterOperatorTable(), f.op);
    assert ConvertProperty(variant, rest[0]).None?;
    assert rest[1..] == [rest[1]];
    match f {
      case ListIdFilterValue(_, ids) =>
        IdsRoundTrip(ids);
        assert DecodeListIdValue(Some(JArray(EncodeIds(ids)))) == Success(ids);
      case SubscriptionStatusFilterValue(_, status) =>
        StringEnumJson.WriteReadRoundTrip(ContactExportFilterSubscriptionStatusTable(), status);
    }
    assert ConvertProperty(variant, rest[1]).None?;
    assert FirstConversionError(variant, rest[1..]).None?;
  }

  /** Serialising then deserialising a filter gives back its variant, operator and value. */
  lemma FilterRoundTrip(f: Filter)
    requires Decodable(f)
    ensures DecodeFilter(EncodeFilter(f)) == Success(f)
  {
    var fields := EncodeFilter(f).fields;
    EncodedConverts(f);
    assert fields[1..][1].0 == ValueProperty;
    var ops := ContactExportFilterOperatorTable();
    StringEnumJson.WriteReadRoundTrip(ops, f.op);
    match f
    case ListIdFilterValue(_, ids) =>
      IdsRoundTrip(ids);
    case SubscriptionStatusFilterValue(_, status) =>
      StringEnumJson.WriteReadRoundTrip(ContactExportFilterSubscriptionStatusTable(), status);
  }

  // ---- the request body ----

  function EncodeItems(filters: seq<Option<Filter>>): seq<Json> {
    if filters == [] then []
    else [if filters[0].Some? then EncodeFilter(filters[0].value) else JNull] + EncodeItems(filters[1..])
  }

  /** `CreateContactExportRequest` serialised: `{"filters": [...]}`, a null entry as null. */
  function EncodeRequest(filters: seq<Option<Filter>>): Json {
    JObject([(FiltersProperty, JArray(EncodeItems(filters)))])
  }

  function DecodeItems(items: seq<Json>): Result<seq<Option<Filter>>, JsonError> {
    if items == [] then Success([])
    else
      var head := if items[0].JNull? then Success(None) else
        match DecodeFilter(items[0])
        case Success(f) => Success(Some(f))
        case Failure(e) => Failure(e);
      match head
      case Failure(e) => Failure(e)
      case Success(h) =>
        match DecodeItems(items[1..])
        case Success(rest) => Success([h] + rest)
        case Failure(e) => Failure(e)
  }

  /** Deserialising a request: the parameterless constructor, then the `filters` array
      populates the initially empty list. A missing `filters` leaves it empty. */
  function DecodeRequest(j: Json): Result<seq<Option<Filter>>, JsonError> {
    if !j.JObject? then Failure(MalformedProperty(FiltersProperty))
    else
      match Lookup(j.fields, FiltersProperty)
      case None => Success([])
      case Some(JArray(items)) => DecodeItems(items)
      case Some(_) => Failure(MalformedProperty(FiltersProperty))
  }

  lemma {:induction false} ItemsRoundTrip(filters: seq<Option<Filter>>)
    requires forall i :: 0 <= i < |filters| && filters[i].Some? ==> Decodable(filters[i].value)
    ensures DecodeItems(EncodeItems(filters)) == Success(filters)
  {
    if filters != [] {
      if filters[0].Some? {
        FilterRoundTrip(filters[0].value);
      }
      assert EncodeItems(filters)[1..] == EncodeItems(filters[1..]);
      ItemsRoundTrip(filters[1..]);
      assert filters == [filters[0]] + filters[1..];
    }
  }

  /** Serialising then deserialising a request keeps every filter's position, variant,
      operator and value, and every null entry. */
  lemma RequestRoundTrip(filters: seq<Option<Filter>>)
    requires forall i :: 0 <= i < |filters| && filters[i].Some? ==> Decodable(filters[i].value)
    ensures DecodeRequest(EncodeRequest(filters)) == Success(filters)
  {
    ItemsRoundTrip(filters);
  }
}
