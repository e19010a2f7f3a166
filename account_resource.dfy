/**
 * `AccountResource`: the child-resource accessors of an account. Each one only composes
 * the child's URI from the account's and returns a handle bound to it; none issues a
 * request.
 */
module AccountResources {
  import opened Wrappers
  import opened Text
  import opened Uris
  import opened Collections

  const BillingSegment: string := "billing"
  const PermissionsSegment: string := "permissions"
  const AccessesSegment: string := "account_accesses"
  const SendingDomainsSegment: string := "sending_domains"
  // `UrlSegments`
  const ProjectsSegment: string := "projects"
  const InboxesSegment: string := "inboxes"
  const ContactsSegment: string := "contacts"
  const EmailTemplatesSegment: string := "email_templates"
  const SuppressionsSegment: string := "suppressions"

  datatype ResourceKind =
    | BillingResource | PermissionsResource
    | AccountAccessCollectionResource | AccountAccessResource
    | SendingDomainCollectionResource | SendingDomainResource
    | ProjectCollectionResource | ProjectResource
    | InboxCollectionResource | InboxResource
    | ContactCollectionResource | ContactResource
    | EmailTemplateCollectionResource | EmailTemplateResource
    | SuppressionCollectionResource | SuppressionResource

  /** A resource handle: its type and the URI it is bound to. */
  datatype Resource = Resource(kind: ResourceKind, uri: Uri)

  function Billing(account: Uri): Resource { Resource(BillingResource, Append(account, BillingSegment)) }

  function Permissions(account: Uri): Resource { Resource(PermissionsResource, Append(account, PermissionsSegment)) }

  function Accesses(account: Uri): Resource {
    Resource(AccountAccessCollectionResource, Append(account, AccessesSegment))
  }

  function Access(account: Uri, accessId: Int64): Resource {
    Resource(AccountAccessResource, AppendId(Append(account, AccessesSegment), accessId))
  }

  function SendingDomains(account: Uri): Resource {
    Resource(SendingDomainCollectionResource, Append(account, SendingDomainsSegment))
  }

  function SendingDomain(account: Uri, domainId: Int64): Resource {
    Resource(SendingDomainResource, AppendId(Append(account, SendingDomainsSegment), domainId))
  }

  function Projects(account: Uri): Resource {
    Resource(ProjectCollectionResource, Append(account, ProjectsSegment))
  }

  function Project(account: Uri, projectId: Int64): Resource {
    Resource(ProjectResource, AppendId(Append(account, ProjectsSegment), projectId))
  }

  /** The inbox collection gets the account URI itself: it appends `inboxes` or
      `projects/{id}/inboxes` per operation. */
  function Inboxes(account: Uri): Resource { Resource(InboxCollectionResource, account) }

  function Inbox(account: Uri, inboxId: Int64): Resource {
    Resource(InboxResource, AppendId(Append(account, InboxesSegment), inboxId))
  }

  function Contacts(account: Uri): Resource {
    Resource(ContactCollectionResource, Append(account, ContactsSegment))
  }

  /** `Contact(idOrEmail)`: null or empty throws; otherwise the escaped id is one segment. */
  function Contact(account: Uri, idOrEmail: Option<string>): Result<Resource, ArgumentError> {
    if IsNullOrEmpty(idOrEmail) then Failure(ArgumentError.ArgumentNull("idOrEmail"))
    else Success(Resource(ContactResource, Append(Append(account, ContactsSegment), EscapeDataString(idOrEmail.value))))
  }

  function EmailTemplates(account: Uri): Resource {
    Resource(EmailTemplateCollectionResource, Append(account, EmailTemplatesSegment))
  }

  function EmailTemplate(account: Uri, emailTemplateId: Int64): Resource {
    Resource(EmailTemplateResource, AppendId(Append(account, EmailTemplatesSegment), emailTemplateId))
  }

  function Suppressions(account: Uri): Resource {
    Resource(SuppressionCollectionResource, Append(account, SuppressionsSegment))
  }

  /** `Suppression(suppressionId)`: null or empty throws; otherwise the escaped id is one
      segment. */
  function Suppression(account: Uri, suppressionId: Option<string>): Result<Resource, ArgumentError> {
    if IsNullOrEmpty(suppressionId) then Failure(ArgumentError.ArgumentNull("suppressionId"))
    else Success(Resource(SuppressionResource, Append(Append(account, SuppressionsSegment), EscapeDataString(suppressionId.value))))
  }

  /** The segments a child URI adds to the account URI, or `None` when the URI does not
      extend the account's path with the account's query. */
  function ChildSegments(account: Uri, child: Uri): Option<seq<string>> {
    if |account.path| <= |child.path| && child.path[..|account.path|] == account.path && child.query == account.query
    then Some(child.path[|account.path|..])
    else None
  }

  /** Which child a URI under the account addresses, by its segments: the server-side
      reading of the paths the accessors build. Id segments are returned as they are. */
  function Route(segments: seq<string>): Option<(ResourceKind, Option<string>)> {
    if segments == [] then Some((InboxCollectionResource, None))
    else if |segments| == 1 then
      var s := segments[0];
      if s == BillingSegment then Some((BillingResource, None))
      else if s == PermissionsSegment then Some((PermissionsResource, None))
      else if s == AccessesSegment then Some((AccountAccessCollectionResource, None))
      else if s == SendingDomainsSegment then Some((SendingDomainCollectionResource, None))
      else if s == ProjectsSegment then Some((ProjectCollectionResource, None))
      else if s == ContactsSegment then Some((ContactCollectionResource, None))
      else if s == EmailTemplatesSegment then Some((EmailTemplateCollectionResource, None))
      else if s == SuppressionsSegment then Some((SuppressionCollectionResource, None))
      else None
    else if |segments| == 2 then
      var s := segments[0];
      var id := Some(segments[1]);
      if s == AccessesSegment then Some((AccountAccessResource, id))
      else if s == SendingDomainsSegment then Some((SendingDomainResource, id))
      else if s == ProjectsSegment then Some((ProjectResource, id))
      else if s == InboxesSegment then Some((InboxResource, id))
      else if s == ContactsSegment then Some((ContactResource, id))
      else if s == EmailTemplatesSegment then Some((EmailTemplateResource, id))
      else if s == SuppressionsSegment then Some((SuppressionResource, id))
      else None
    else None
  }

  /** Where a handle's URI leads, read back from the account URI. */
  function Addressed(account: Uri, r: Resource): Option<(ResourceKind, Option<string>)> {
    match ChildSegments(account, r.uri)
    case Some(segments) => Route(segments)
    case None => None
  }

  /** Every collection accessor adds at most one fixed segment, keeps the query, and its URI
      is read back as its own resource type: no two of them address the same resource. */
  lemma CollectionAccessorsSpec(account: Uri)
    ensures Addressed(account, Billing(account)) == Some((BillingResource, None))
    ensures Addressed(account, Permissions(account)) == Some((PermissionsResource, None))
    ensures Addressed(account, Accesses(account)) == Some((AccountAccessCollectionResource, None))
    ensures Addressed(account, SendingDomains(account)) == Some((SendingDomainCollectionResource, None))
    ensures Addressed(account, Projects(account)) == Some((ProjectCollectionResource, None))
    ensures Addressed(account, Inboxes(account)) == Some((InboxCollectionResource, None))
    ensures Addressed(account, Contacts(account)) == Some((ContactCollectionResource, None))
    ensures Addressed(account, EmailTemplates(account)) == Some((EmailTemplateCollectionResource, None))
    ensures Addressed(account, Suppressions(account)) == Some((SuppressionCollectionResource, None))
    ensures Inboxes(account).uri == account
  {
    assert account.path[..|account.path|] == account.path;
  }

  lemma TwoSegmentChild(account: Uri, segment: string, last: string)
    ensures ChildSegments(account, Append(Append(account, segment), last)) == Some([segment, last])
  {
    var u := Append(Append(account, segment), last);
    assert u.path == account.path + [segment, last];
    assert u.path[..|account.path|] == account.path && u.path[|account.path|..] == [segment, last];
  }

  /** A child addressed by a collection segment and then a numeric id. */
  lemma IdChildAddressed(account: Uri, segment: string, id: Int64, kind: ResourceKind)
    requires Route([segment, FormatInt(id)]) == Some((kind, Some(FormatInt(id))))
    ensures Addressed(account, Resource(kind, AppendId(Append(account, segment), id))) == Some((kind, Some(FormatInt(id))))
  {
    TwoSegmentChild(account, segment, FormatInt(id));
  }

  /** A numeric-id accessor adds its collection segment and then the id's decimal text:
      the URI determines the resource type and, by `IdSegmentParsesBack`, the id. */
  lemma IdAccessorsSpec(account: Uri, id: Int64)
    ensures Addressed(account, Access(account, id)) == Some((AccountAccessResource, Some(FormatInt(id))))
    ensures Addressed(account, SendingDomain(account, id)) == Some((SendingDomainResource, Some(FormatInt(id))))
    ensures Addressed(account, Project(account, id)) == Some((ProjectResource, Some(FormatInt(id))))
    ensures Addressed(account, Inbox(account, id)) == Some((InboxResource, Some(FormatInt(id))))
    ensures Addressed(account, EmailTemplate(account, id)) == Some((EmailTemplateResource, Some(FormatInt(id))))
  {
    IdChildAddressed(account, AccessesSegment, id, AccountAccessResource);
    IdChildAddressed(account, SendingDomainsSegment, id, SendingDomainResource);
    IdChildAddressed(account, ProjectsSegment, id, ProjectResource);
    IdChildAddressed(account, InboxesSegment, id, InboxResource);
    IdChildAddressed(account, EmailTemplatesSegment, id, EmailTemplateResource);
  }

  /** The id segment of a numeric-id accessor parses back to the id. */
  lemma IdSegmentParsesBack(account: Uri, segment: string, id: Int64)
    ensures var u := AppendId(Append(account, segment), id); TryParseInt64(u.path[|u.path| - 1]) == Some(id)
  {
    FormatIntRoundTrip(id);
  }

  /** Two ids give the same project URI only when they are the same id. */
  lemma IdAccessorInjective(account: Uri, a: Int64, b: Int64)
    ensures Project(account, a) == Project(account, b) ==> a == b
    ensures Inbox(account, a) == Inbox(account, b) ==> a == b
  {
    FormatIntRoundTrip(a);
    FormatIntRoundTrip(b);
    if Project(account, a) == Project(account, b) || Inbox(account, a) == Inbox(account, b) {
      assert FormatInt(a) == FormatInt(b) by {
        var u := Project(account, a).uri.path;
        var v := Inbox(account, a).uri.path;
        assert Project(account, a).uri.path[|account.path| + 1] == FormatInt(a);
        assert Project(account, b).uri.path[|account.path| + 1] == FormatInt(b);
        assert Inbox(account, a).uri.path[|account.path| + 1] == FormatInt(a);
        assert Inbox(account, b).uri.path[|account.path| + 1] == FormatInt(b);
      }
    }
  }

  /** `Contact` and `Suppression` reject exactly null and the empty string; otherwise the
      escaped id is exactly one segment after the collection's, holds no `/`, `?` or `#`,
      and percent-decodes to the UTF-8 bytes of the id. */
  lemma EscapedIdAccessorsSpec(account: Uri, id: Option<string>)
    ensures Contact(account, id).Failure? <==> id.None? || id.value == ""
    ensures Suppression(account, id).Failure? <==> id.None? || id.value == ""
    ensures Contact(account, id).Success? ==>
      var r := Contact(account, id).value;
      && Addressed(account, r).Some? && Addressed(account, r).value.0 == ContactResource
      && var e := Addressed(account, r).value.1.value;
         '/' !in e && '?' !in e && '#' !in e && PercentDecode(e) == Some(Utf8Encode(id.value))
    ensures Suppression(account, id).Success? ==>
      var r := Suppression(account, id).value;
      && Addressed(account, r).Some? && Addressed(account, r).value.0 == SuppressionResource
      && var e := Addressed(account, r).value.1.value;
         '/' !in e && '?' !in e && '#' !in e && PercentDecode(e) == Some(Utf8Encode(id.value))
  {
    if id.Some? && id.value != "" {
      EscapeDataStringRoundTrip(id.value);
      TwoSegmentChild(account, ContactsSegment, EscapeDataString(id.value));
      TwoSegmentChild(account, SuppressionsSegment, EscapeDataString(id.value));
    }
  }
}
