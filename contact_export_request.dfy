/** `CreateContactExportRequest`: the list of filters a contact export is created with. */
module ContactExportRequests {
  import opened Wrappers
  import opened Collections
  import opened ContactExportFilters
  import opened ContactExportValidators

  /** The objects the filters of a list are made of. */
  function FiltersFootprint(refs: seq<Option<FilterRef>>): set<object> {
    if refs == [] then {}
    else (if refs[0].Some? then refs[0].value.Footprint() else {}) + FiltersFootprint(refs[1..])
  }

  /** The state of each filter of a list, null entries kept. */
  function Snapshots(refs: seq<Option<FilterRef>>): (r: seq<Option<Filter>>)
    reads FiltersFootprint(refs)
    ensures |r| == |refs|
    ensures forall i :: 0 <= i < |refs| ==> (r[i].Some? <==> refs[i].Some?)
    ensures forall i :: 0 <= i < |refs| && refs[i].Some? ==> r[i] == Some(refs[i].value.Snapshot())
  {
    if refs == [] then []
    else [if refs[0].Some? then Some(refs[0].value.Snapshot()) else None] + Snapshots(refs[1..])
  }

  class CreateContactExportRequest {
    /** `Filters`: get-only, so always the same list object, whose contents may change. */
    const filters: MutableList<Option<FilterRef>>

    function Repr(): set<object>
      reads this, filters
    {
      {this, filters} + FiltersFootprint(filters.items)
    }

    /** The parameterless constructor: an empty `Filters` list, filled later by the
        deserialiser (`JsonObjectCreationHandling.Populate`). */
    constructor Empty()
      ensures fresh(filters) && filters.items == []
    {
      filters := new MutableList<Option<FilterRef>>([]);
    }

    constructor Wrap(list: MutableList<Option<FilterRef>>)
      ensures filters == list
    {
      filters := list;
    }

    /** `CreateContactExportRequest(filters)`: a null or empty collection throws
        `ArgumentNullException`; otherwise `Filters` is a fresh copy with the same
        elements in order. Neither the count bound nor null elements are checked here. */
    static method FromFilters(source: MutableList?<Option<FilterRef>>)
      returns (r: Result<CreateContactExportRequest, ArgumentError>)
      ensures r.Failure? <==> source == null || source.items == []
      ensures r.Failure? ==> r.error == ArgumentError.ArgumentNull("filters")
      ensures r.Success? ==> fresh(r.value) && fresh(r.value.filters)
      ensures r.Success? ==> r.value.filters.items == source.items
    {
      if source == null || source.items == [] {
        return Failure(ArgumentError.ArgumentNull("filters"));
      }
      var copy := CloneList(source);
      var request := new CreateContactExportRequest.Wrap(copy.value);
      return Success(request);
    }

    /** `Validate()`: the request validator's result on the current filters. It is
        valid exactly when there are 1 to 50,000 filters, none null, each valid. */
    function Validate(): (r: ValidationResult)
      reads Repr()
      ensures r.IsValid() <==>
        && MinFiltersPerRequest <= |filters.items| <= MaxFiltersPerRequest
        && forall i :: 0 <= i < |filters.items| ==>
             filters.items[i].Some? && FilterValid(filters.items[i].value.Snapshot())
    {
      var s := Snapshots(filters.items);
      RequestValidSpec(s);
      ValidationResult(RequestErrors(s))
    }
  }

  /** The constructor accepts what `Validate` rejects: a single null filter, or more than
      50,000 filters, builds a request whose validation fails. */
  method ConstructorDefersLimits(source: MutableList<Option<FilterRef>>)
      returns (r: Result<CreateContactExportRequest, ArgumentError>)
    requires |source.items| > MaxFiltersPerRequest || (source.items != [] && source.items[0].None?)
    ensures r.Success? && !r.value.Validate().IsValid()
  {
    r := CreateContactExportRequest.FromFilters(source);
  }
}
