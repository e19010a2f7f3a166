/**
 * The fetch URIs of the two filtered collections: `SuppressionCollectionResource` and
 * `AccountAccessCollectionResource` add a query parameter only for a filter field that is
 * set, and leave the resource URI as it is otherwise.
 */
module FetchUris {
  import opened Wrappers
  import opened Text
  import opened Uris

  // ---- suppressions ----

  const EmailQueryParameter: string := "email"

  /** `SuppressionFilter`: an optional email address. */
  datatype SuppressionFilter = SuppressionFilter(email: Option<string>)

  /** The filter asks for something: it is present and its email is not blank. */
  predicate HasEmail(filter: Option<SuppressionFilter>) {
    filter.Some? && !IsNullOrWhiteSpace(filter.value.email)
  }

  /** `SuppressionCollectionResource.CreateFetchUri`: no filter, no email or a blank one
      gives the resource URI itself; otherwise exactly one parameter `email` is added,
      carrying the email as given, untrimmed. */
  function SuppressionFetchUri(resource: Uri, filter: Option<SuppressionFilter>): (r: Uri)
    ensures r.path == resource.path
    ensures r == resource <==> !HasEmail(filter)
    ensures HasEmail(filter) ==> r.query == resource.query + [(EmailQueryParameter, filter.value.email.value)]
  {
    if filter.Some? && filter.value.email.Some? && !IsNullOrWhiteSpace(filter.value.email) then
      AppendQueryParameter(resource, EmailQueryParameter, filter.value.email.value)
    else resource
  }

  // ---- account accesses ----

  const ProjectsQueryParameter: string := "project_ids"
  const InboxesQueryParameter: string := "inbox_ids"
  const DomainsQueryParameter: string := "domain_ids"

  /** `AccountAccessFilter`: three id lists, each possibly empty. */
  datatype AccountAccessFilter = AccountAccessFilter(projectIds: seq<Int64>, inboxIds: seq<Int64>, domainIds: seq<Int64>)

  /** The parameter for one id list: its name with the list's JSON text, or nothing for
      an empty list. */
  function Parameter(name: string, ids: seq<Int64>): seq<(string, string)> {
    if |ids| > 0 then [(name, JsonIntArray(ids))] else []
  }

  /** The query parameters the account-access fetch adds for a filter. */
  function AccessQuery(f: AccountAccessFilter): seq<(string, string)> {
    Parameter(ProjectsQueryParameter, f.projectIds) + Parameter(InboxesQueryParameter, f.inboxIds)
      + Parameter(DomainsQueryParameter, f.domainIds)
  }

  /** `AccountAccessCollectionResource.CreateFetchUri`: returns the resource URI for no
      filter; otherwise rebinds `uri` once per non-empty id list, in the order projects,
      inboxes, domains. */
  method AccountAccessFetchUri(resource: Uri, filter: Option<AccountAccessFilter>) returns (uri: Uri)
    ensures filter.None? ==> uri == resource
    ensures filter.Some? ==> uri == Uri(resource.path, resource.query + AccessQuery(filter.value))
  {
    if filter.None? {
      return resource;
    }
    var f := filter.value;
    uri := resource;
    ghost var before := uri;
    if |f.projectIds| > 0 {
      var projects := JsonIntArray(f.projectIds);
      uri := AppendQueryParameter(uri, ProjectsQueryParameter, projects);
    }
    AppendStep(resource, before, uri, [], ProjectsQueryParameter, f.projectIds);
    before := uri;
    if |f.inboxIds| > 0 {
      var inboxes := JsonIntArray(f.inboxIds);
      uri := AppendQueryParameter(uri, InboxesQueryParameter, inboxes);
    }
    AppendStep(resource, before, uri, Parameter(ProjectsQueryParameter, f.projectIds), InboxesQueryParameter, f.inboxIds);
    before := uri;
    if |f.domainIds| > 0 {
      var domains := JsonIntArray(f.domainIds);
      uri := AppendQueryParameter(uri, DomainsQueryParameter, domains);
    }
    AppendStep(resource, before, uri, Parameter(ProjectsQueryParameter, f.projectIds) + Parameter(InboxesQueryParameter, f.inboxIds),
      DomainsQueryParameter, f.domainIds);
  }

  /** One `if` of the fetch: the URI so far carries the parameters added before it, and
      afterwards also this list's parameter. */
  lemma AppendStep(resource: Uri, before: Uri, after: Uri, added: seq<(string, string)>, name: string, ids: seq<Int64>)
    requires before == Uri(resource.path, resource.query + added)
    requires after == if |ids| > 0 then AppendQueryParameter(before, name, JsonIntArray(ids)) else before
    ensures after == Uri(resource.path, resource.query + (added + Parameter(name, ids)))
  {
    assert resource.query + added + Parameter(name, ids) == resource.query + (added + Parameter(name, ids));
  }

  /** Each parameter is present exactly when its list is non-empty, then with the list's
      JSON text; a filter with three empty lists adds none. */
  lemma AccessQueryPresence(f: AccountAccessFilter)
    ensures (ProjectsQueryParameter, JsonIntArray(f.projectIds)) in AccessQuery(f) <==> |f.projectIds| > 0
    ensures (InboxesQueryParameter, JsonIntArray(f.inboxIds)) in AccessQuery(f) <==> |f.inboxIds| > 0
    ensures (DomainsQueryParameter, JsonIntArray(f.domainIds)) in AccessQuery(f) <==> |f.domainIds| > 0
    ensures AccessQuery(f) == [] <==> f.projectIds == [] && f.inboxIds == [] && f.domainIds == []
  {
    var p := Parameter(ProjectsQueryParameter, f.projectIds);
    var q := Parameter(InboxesQueryParameter, f.inboxIds);
    var d := Parameter(DomainsQueryParameter, f.domainIds);
    assert AccessQuery(f) == p + q + d;
  }

  /** Only the three names occur, at most once each, in the order projects, inboxes,
      domains. */
  lemma AccessQueryOrder(f: AccountAccessFilter)
    ensures forall i :: 0 <= i < |AccessQuery(f)| ==>
      AccessQuery(f)[i].0 in {ProjectsQueryParameter, InboxesQueryParameter, DomainsQueryParameter}
    ensures forall i, j :: 0 <= i < j < |AccessQuery(f)| ==> Rank(AccessQuery(f)[i].0) < Rank(AccessQuery(f)[j].0)
    ensures |AccessQuery(f)| <= 3
  {
    var p := Parameter(ProjectsQueryParameter, f.projectIds);
    var q := Parameter(InboxesQueryParameter, f.inboxIds);
    var d := Parameter(DomainsQueryParameter, f.domainIds);
    assert AccessQuery(f) == p + q + d;
  }

  /** The position of a parameter name in the order the source appends them. */
  function Rank(name: string): nat {
    if name == ProjectsQueryParameter then 0 else if name == InboxesQueryParameter then 1 else 2
  }
}
