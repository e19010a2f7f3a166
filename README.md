# Mailtrap .NET SDK core, modelled in Dafny

This project models the self-contained logic of the Mailtrap .NET SDK and proves what it
promises:

- **String-enum registry.** `StringEnum<T>` keeps, per enum type, a table from string to
  singleton value.
  - `Define` registers a new value and rejects a duplicate or a null string.
  - `Find` is total: null and `""` give `None`, a registered string gives its singleton,
    and any other string gives `Unknown`.
  - `StringEnumJsonConverter` reads and writes enum values through that table.
  - The six concrete enum types are modelled as the tables their static fields build.
- **Contact-export filters.** `ContactExportFilterBase` has two variants: a list-id filter
  (a list of contact-list ids) and a subscription-status filter. Both are classes with
  mutable fields.
  - Their JSON form is an object tagged by the `name` discriminator.
  - A request (`CreateContactExportRequest`) holds a defensively copied list of filters.
- **Validators.** The two FluentValidation rule sets are functions from the filters' state
  to the ordered list of failures. A result is valid when that list is empty.
- **Defensive copy.** `InternalCollectionExtensions.Clone` copies a list or dictionary into
  a fresh object with the same contents.
- **Validate before send.** `RestResourceCommandWithRequest` validates its request in the
  constructor. An invalid request never produces an HTTP message, so nothing reaches the
  wire.
- **Date converters.** The four `DateTimeOffset?` JSON converters are modelled:
  - the current converter, which reads ISO 8601 text or epoch milliseconds;
  - its epoch-millisecond writing twin;
  - the contacts converter, which only knows epoch milliseconds;
  - the older converter, which reads strings and JSON null itself and hands every other
    token to the serializer.
- **URI composition.** Two pieces are modelled:
  - the child-resource accessors of `AccountResource`, which append segments and
    percent-escape free-form ids;
  - the fetch URIs of the suppression and account-access collections, which add a query
    parameter only for a filter field that is set.

A URI is a sequence of path segments plus an ordered list of `(name, value)` query pairs.
`Uri.EscapeDataString` is written out as the percent-encoding of section 2.1 of RFC 3986,
applied to the UTF-8 bytes of the input. Only the unreserved characters of section 2.3
are kept as they are.

An instant is its UTC time in 100 ns ticks, the resolution of `DateTimeOffset`. It is not a
plain millisecond count, because the epoch writers lose the sub-millisecond part and the
round-trip lemmas state exactly that loss. ISO 8601 parsing and formatting are library
behaviour and are parameters of the model (`IsoText`). Their output is constrained where a
lemma needs it: it must be the `date-time` of section 5.6 of RFC 3339. `long.TryParse`
(`NumberStyles.Integer`) and `long.ToString()` are written out.

Files, one module each: `wrappers.dfy`, `text.dfy`, `json.dfy`, `uris.dfy`,
`collections.dfy`, `string_enum.dfy`, `enum_tables.dfy`, `string_enum_json.dfy`,
`contact_export_filters.dfy`, `contact_export_validators.dfy`,
`contact_export_request.dfy`, `rest_command.dfy`, `date_converters.dfy`, `fetch_uris.dfy`,
`account_resource.dfy`.

## Model

| member | source | states |
|---|---|---|
| StringEnum.FindIn | src/Mailtrap.Abstractions/Core/Models/StringEnum.cs:73-79 | every value `Find` yields is the one the table files under its own string, so it is a table entry and never an error; the null, `""` and unregistered cases are stated by `StringEnumJson.Read` and `FindUnregistered` |
| StringEnum.DefineSpec | src/Mailtrap.Abstractions/Core/Models/StringEnum.cs:93-104 | `Define` succeeds exactly for a non-null string not yet registered; it then adds exactly that key, `ToString` is the string, `Find` returns the new singleton, and every other lookup is unchanged; null and duplicates fail |
| StringEnum.FindToStringRoundTrip | src/Mailtrap.Abstractions/Core/Models/StringEnum.cs:35-111 | `Find(v.ToString()) == v` for every registered value, including `None` and `Unknown` |
| StringEnum.FindUnregistered | src/Mailtrap.Abstractions/Core/Models/StringEnum.cs:78 | a non-empty unregistered string finds `Unknown`, never an error |
| StringEnum.SingletonPerString | src/Mailtrap.Abstractions/Core/Models/StringEnum.cs:114-118 | two registered singletons are `Equals` iff their strings are equal; equal values hash alike |
| StringEnum.DefineAllSpec | src/Mailtrap.Abstractions/Core/Models/StringEnum.cs:93-104 | a run of `Define` calls succeeds iff the names are distinct and new; the table then gains one singleton per name and keeps its old entries |
| StringEnum.EnumTableSpec | src/Mailtrap.Abstractions/Core/Models/StringEnum.cs:35-56 | an enum type initialises iff its names are distinct and avoid "" and "Unknown"; the table is then the built-ins plus the names, and `IsDefined` holds of exactly the type's own names |
| StringEnum.Registry.constructor | src/Mailtrap.Abstractions/Core/Models/StringEnum.cs:35-45 | the static table starts as `{"" -> None, "Unknown" -> Unknown}` |
| StringEnum.Registry.Define | src/Mailtrap.Abstractions/Core/Models/StringEnum.cs:93-104 | the new table and result are those of `DefineIn`; on failure the table is unchanged; the registry invariant (built-ins present, every entry under its own string) is kept |
| StringEnum.Registry.Find | src/Mailtrap.Abstractions/Core/Models/StringEnum.cs:73-79 | the value found is the one the live table files under its string |
| EnumTables.EnumMapSpec | src/Mailtrap.Abstractions/Core/Models/StringEnum.cs:48-56 | for distinct new names the initialised table is exactly one singleton per name plus the built-ins |
| EnumTables.ContactExportFilterNameTable | src/Mailtrap.Abstractions/ContactExports/Models/ContactExportFilterName.cs:16-25 | the filter-name table holds `list_id` and `subscription_status` |
| EnumTables.ContactExportFilterOperatorTable | src/Mailtrap.Abstractions/ContactExports/Models/ContactExportFilterOperator.cs:16 | the operator table holds `equal` |
| EnumTables.ContactExportFilterSubscriptionStatusTable | src/Mailtrap.Abstractions/ContactExports/Models/ContactExportFilterSubscriptionStatus.cs:16-25 | the status table holds `subscribed` and `unsubscribed` |
| EnumTables.ContactExportStatusTable | src/Mailtrap.Abstractions/ContactExports/Models/ContactExportStatus.cs:16-34 | the export-status table holds `created`, `started` and `finished` |
| EnumTables.SuppressionTypeTable | src/Mailtrap.Abstractions/Suppressions/Models/SuppressionType.cs:15-42 | the suppression-type table holds its four strings, spaces included |
| EnumTables.SuppressionSendingStreamTable | src/Mailtrap.Abstractions/Suppressions/Models/SuppressionSendingStream.cs:15-33 | the sending-stream table holds `any`, `transactional` and `bulk` |
| EnumTables.OperatorConstants | src/Mailtrap.Abstractions/ContactExports/Models/ContactExportFilterOperator.cs:16 | `Find("equal")` is `Equal`; `Find("Equal")` is `Unknown` (case-sensitive); `None`, `Unknown` and null are not defined operators |
| EnumTables.FilterNameConstants | src/Mailtrap.Abstractions/ContactExports/Models/ContactExportFilterName.cs:16-25 | the filter-name constants are the singletons of the discriminator strings and are defined |
| EnumTables.StatusConstants | src/Mailtrap.Abstractions/ContactExports/Models/ContactExportFilterSubscriptionStatus.cs:16-25 | the status constants are their strings' singletons; `None` is not a defined status |
| StringEnumJson.Read | src/Mailtrap/Converters/StringEnumJsonConverter.cs:18-30 | succeeds iff the token is null or a string: null and "" give `None`, a registered string its singleton, other text `Unknown`; any other token is an unsupported-token error |
| StringEnumJson.Write | src/Mailtrap/Converters/StringEnumJsonConverter.cs:33-38 | appends exactly one token, the value's defining string, or JSON null for null |
| StringEnumJson.WriteReadRoundTrip | src/Mailtrap/Converters/StringEnumJsonConverter.cs:18-38 | reading back what was written gives the same registered value; null comes back as `None` |
| Collections.CloneList | src/Mailtrap.Abstractions/Core/Extensions/InternalCollectionExtensions.cs:23-31 | null fails with `ArgumentNullException`; otherwise a fresh list with the same elements in the same order |
| Collections.CloneDictionary | src/Mailtrap.Abstractions/Core/Extensions/InternalCollectionExtensions.cs:56-64 | null fails; otherwise a fresh dictionary with the same key-to-value mapping |
| ContactExportFilters.DiscriminatorTableSpec | src/Mailtrap.Abstractions/ContactExports/Models/ContactExportFilterBase.cs:6-19 | `list_id` and `subscription_status` are the only discriminators, each mapped to its own variant; `Name` is the enum value defined with the discriminator string |
| ContactExportFilters.ListIdFilter.Init | src/Mailtrap.Abstractions/ContactExports/Models/ContactExportListIdFilter.cs:64-70 | once accepted, `Value` is the given list and `Operator` is `Equal` |
| ContactExportFilters.ListIdFilter.FromEnumerable | src/Mailtrap.Abstractions/ContactExports/Models/ContactExportListIdFilter.cs:48-70 | null or empty fails with `ArgumentNullException("value")`; otherwise `Value` is a fresh list with the input's elements in order, and `Operator` is `Equal` |
| ContactExportFilters.ListIdFilter.FromArray | src/Mailtrap.Abstractions/ContactExports/Models/ContactExportListIdFilter.cs:84-90 | a null or empty array fails with `ArgumentNullException("values")`; otherwise `Value` is a fresh list of the array's elements, and `Operator` is `Equal` |
| ContactExportFilters.ListIdFilter.WithOperator | tests/Mailtrap.UnitTests/ContactExports/Model/ContactExportListIdFilterTests.cs:49-64 | a `with` copy has the new operator and shares `Value`; the original is untouched |
| ContactExportFilters.ListIdFilterIsDefensiveCopy | src/Mailtrap.Abstractions/ContactExports/Models/ContactExportListIdFilter.cs:68 | changing the caller's list after construction leaves the filter's `Value` as built |
| ContactExportFilters.SubscriptionStatusFilter.Create | src/Mailtrap.Abstractions/ContactExports/Models/ContactExportSubscriptionStatusFilter.cs:46-52 | null fails with `ArgumentNullException("value")`; otherwise `Value` is the argument and `Operator` is `Equal` |
| ContactExportFilters.SubscriptionStatusFilter.WithOperator | tests/Mailtrap.UnitTests/ContactExports/Model/ContactExportSubscriptionStatusFilterTests.cs:29-43 | a `with` copy has the new operator and the same `Value`; the original is untouched |
| ContactExportFilters.IdsRoundTrip | src/Mailtrap.Abstractions/ContactExports/Models/ContactExportListIdFilter.cs:30-32 | the JSON array of ids decodes back to the same ids in order |
| ContactExportFilters.UnknownDiscriminatorRejected | src/Mailtrap.Abstractions/ContactExports/Models/ContactExportFilterBase.cs:6-8 | an object whose `name` discriminator is missing or is neither `list_id` nor `subscription_status` is rejected, naming what it found |
| ContactExportFilters.DecodeFilterOrder | src/Mailtrap.Abstractions/ContactExports/Models/ContactExportFilterBase.cs:6-9 | a filter object of a registered variant reads as the first conversion error of its properties in document order, if any; otherwise only the constructor can reject it, and then with `ArgumentNullException("value")` |
| ContactExportFilters.OperatorConvertedBeforeConstructor | src/Mailtrap.Abstractions/ContactExports/Models/ContactExportListIdFilter.cs:64-66 | an empty id list, or a null status (ContactExportSubscriptionStatusFilter.cs:46-48), is the constructor's rejection exactly when the `operator` token is null or a string, and otherwise the enum converter's unsupported-token error; a malformed `value` placed before `operator` is reported first |
| ContactExportFilters.FilterRoundTrip | tests/Mailtrap.UnitTests/ContactExports/Model/ContactExportFilterBaseTests.cs:14-72 | a filter encoded as `name`, `operator`, `value` decodes back to the same variant, operator and value |
| ContactExportFilters.ItemsRoundTrip | tests/Mailtrap.UnitTests/ContactExports/Model/ContactExportFilterBaseTests.cs:75-93 | a filter list decodes back element by element, null entries included |
| ContactExportFilters.RequestRoundTrip | tests/Mailtrap.UnitTests/ContactExports/Model/ContactExportFilterBaseTests.cs:75-93 | serialising and deserialising a request keeps every filter's position, variant, operator and value |
| ContactExportRequests.CreateContactExportRequest.Empty | src/Mailtrap.Abstractions/ContactExports/Requests/CreateContactExportRequest.cs:17-23 | the parameterless constructor gives a fresh, empty `Filters` list |
| ContactExportRequests.CreateContactExportRequest.FromFilters | src/Mailtrap.Abstractions/ContactExports/Requests/CreateContactExportRequest.cs:38-44 | null or empty fails with `ArgumentNullException("filters")`; otherwise `Filters` is a fresh copy with the input's elements in order |
| ContactExportRequests.CreateContactExportRequest.Validate | src/Mailtrap.Abstractions/ContactExports/Requests/CreateContactExportRequest.cs:47-52 | the request validator's result on the current filters; valid iff there are 1 to 50,000 filters, none null, each passing the filter validator |
| ContactExportRequests.ConstructorDefersLimits | src/Mailtrap.Abstractions/ContactExports/Requests/CreateContactExportRequest.cs:38-52 | a request with more than 50,000 filters, or with a null first filter, is constructed and then fails `Validate` |
| ContactExportValidators.EnumRuleSpec | src/Mailtrap.Abstractions/ContactExports/Validators/ContactExportFilterValidator.cs:26-30 | a `NotNull().NotEmpty().Must(IsDefined)` chain reports at most one failure, on its own property, and none iff the value is defined |
| ContactExportValidators.FilterValidSpec | src/Mailtrap.Abstractions/ContactExports/Validators/ContactExportFilterValidator.cs:20-49 | a filter is valid iff its operator is defined and its value passes its variant's check (a non-empty list, or a defined status) |
| ContactExportValidators.FieldErrorsIndependent | tests/Mailtrap.UnitTests/ContactExports/Model/ContactExportListIdFilterTests.cs:67-114 | `Name` never fails; `Operator` fails, at most once, iff the operator is not defined; `Value` fails at most once, and changing the operator never changes its failures |
| ContactExportValidators.ConstructedFiltersPass | tests/Mailtrap.UnitTests/ContactExports/Model/ContactExportListIdFilterTests.cs:117-131 | a list-id filter as its constructor leaves it, from a non-empty id list, passes; so does a status filter from a defined status (the status constructor also accepts `None` and `Unknown`, which fail) |
| ContactExportValidators.RejectedFilters | src/Mailtrap.Abstractions/ContactExports/Validators/ContactExportFilterValidator.cs:26-49 | a null operator fails `NotNull` and `Unknown` fails `IsDefined`; an empty list fails `NotEmpty`; a null status fails `NotNull` and `None` fails `IsDefined` |
| ContactExportValidators.EmptiedListIdFilterRejected | tests/Mailtrap.UnitTests/ContactExports/Model/ContactExportListIdFilterTests.cs:67-81 | clearing a constructed filter's `Value` list gives a `NotEmpty` failure on `Value` and none on `Operator` |
| ContactExportValidators.ItemsErrorsEmptySpec | src/Mailtrap.Abstractions/ContactExports/Validators/CreateContactExportRequestValidator.cs:28-30 | the per-element rule reports nothing iff every element is non-null and valid |
| ContactExportValidators.ItemsErrorsSplit | src/Mailtrap.Abstractions/ContactExports/Validators/CreateContactExportRequestValidator.cs:28-30 | element `i`'s failures appear, under its index, between those of the elements before and after it |
| ContactExportValidators.RequestValidSpec | src/Mailtrap.Abstractions/ContactExports/Validators/CreateContactExportRequestValidator.cs:23-30 | a request is valid iff it has 1 to 50,000 filters, none null, each valid |
| ContactExportValidators.CountOutOfRange | src/Mailtrap.Abstractions/ContactExports/Validators/CreateContactExportRequestValidator.cs:23-26 | an empty list gives only `NotEmpty` on `Filters`, since the cascade stops before the range check; more than 50,000 filters fail the range check first; the count rule reports at most once |
| ContactExportValidators.NullItemReported | src/Mailtrap.Abstractions/ContactExports/Validators/CreateContactExportRequestValidator.cs:28-29 | a null element is reported as `NotNull` under its index, and the request is invalid |
| ContactExportValidators.CountBounds | tests/Mailtrap.UnitTests/ContactExports/Requests/CreateContactExportRequestTests.cs:93-107 | `n` copies of a valid filter are valid iff `1 <= n <= 50,000` |
| RestCommands.ValidateRequest | src/Mailtrap/Core/Rest/Commands/RestResourceCommandWithRequest.cs:35-52 | passes iff the request is non-null and either not validatable or valid; null fails `NotNull("request")`; an invalid one fails with the URI, the method and the whole result |
| RestCommands.RestResourceCommandWithRequest.Create | src/Mailtrap/Core/Rest/Commands/RestResourceCommandWithRequest.cs:11-28 | a command exists iff `ValidateRequest` passes, and then it stores the URI, method and request unchanged |
| RestCommands.RestResourceCommandWithRequest.CreateHttpRequest | src/Mailtrap/Core/Rest/Commands/RestResourceCommandWithRequest.cs:31-32 | the message carries exactly the stored method, URI and request |
| RestCommands.CreateContactExport | tests/Mailtrap.IntegrationTests/ContactExports/ContactExportIntegrationTests.cs:188-198 | a null or invalid request fails and sends nothing; a valid one is sent exactly once as a POST to the exports URI |
| FetchUris.SuppressionFetchUri | src/Mailtrap/Suppressions/SuppressionCollectionResource.cs:17-22 | the URI is unchanged iff there is no filter or a blank email; otherwise exactly one `email` parameter is added, carrying the untrimmed email |
| FetchUris.AccountAccessFetchUri | src/Mailtrap/AccountAccesses/AccountAccessCollectionResource.cs:26-54 | no filter gives the resource URI; otherwise the path is kept and the query gains exactly `AccessQuery(filter)` |
| FetchUris.AccessQueryPresence | src/Mailtrap/AccountAccesses/AccountAccessCollectionResource.cs:35-51 | each of `project_ids`, `inbox_ids`, `domain_ids` is present, with its list's JSON array, iff its list is non-empty; three empty lists add nothing |
| FetchUris.AccessQueryOrder | src/Mailtrap/AccountAccesses/AccountAccessCollectionResource.cs:35-51 | only those three names occur, at most once each, in the order project, inbox, domain |
| AccountResources.CollectionAccessorsSpec | src/Mailtrap/Accounts/AccountResource.cs:19-96 | each collection accessor adds its one fixed segment and is read back as its own resource type; `Inboxes` passes the account URI through |
| AccountResources.IdAccessorsSpec | src/Mailtrap/Accounts/AccountResource.cs:31-89 | `Access`, `SendingDomain`, `Project`, `Inbox` and `EmailTemplate` append their collection segment and then the id's decimal text |
| AccountResources.IdSegmentParsesBack | src/Mailtrap/Accounts/AccountResource.cs:51-52 | the id segment an id accessor appends parses back to the id |
| AccountResources.IdAccessorInjective | src/Mailtrap/Accounts/AccountResource.cs:51-64 | two ids give the same project (or inbox) URI only when they are equal |
| AccountResources.EscapedIdAccessorsSpec | src/Mailtrap/Accounts/AccountResource.cs:73-104 | `Contact` and `Suppression` reject exactly null and ""; otherwise they add one segment with no `/`, `?` or `#` that percent-decodes to the id's UTF-8 bytes |
| Uris.EscapeDataStringRoundTrip | src/Mailtrap/Accounts/AccountResource.cs:76 | percent-decoding the escaped id gives back exactly its UTF-8 bytes |
| Uris.EscapeUnreservedIdentity | src/Mailtrap/Accounts/AccountResource.cs:101 | an id made only of unreserved characters is used as it is |
| Text.TrimmedEmptyIffWhiteSpace | src/Mailtrap.Abstractions/Core/Converters/NullableDateTimeOffsetConverter.cs:41-42 | trimming then testing for empty asks exactly whether the text is blank |
| DateConverters.ParseString | src/Mailtrap.Abstractions/Core/Converters/NullableDateTimeOffsetConverter.cs:39-55 | null or blank gives null; otherwise the trimmed text is what gets parsed |
| DateConverters.ParseTrimmed | src/Mailtrap.Abstractions/Core/Converters/NullableDateTimeOffsetConverter.cs:47-54 | exactly the empty text is null; the text fails exactly when it is neither ISO text nor in-range 64-bit integer text, with "Cannot convert value" naming it, or the range error; a date is the ISO reading when there is one, and otherwise the instant at the start of that epoch millisecond |
| DateConverters.FromEpoch | src/Mailtrap.Abstractions/Core/Converters/NullableDateTimeOffsetConverter.cs:52-53 | succeeds iff the milliseconds are in the range of `FromUnixTimeMilliseconds`, giving an instant that converts back to the same milliseconds; otherwise the range error |
| DateConverters.ParseNumber | src/Mailtrap.Abstractions/Core/Converters/NullableDateTimeOffsetConverter.cs:70-75 | a number succeeds iff it is an integer in that range, and the instant is the start of exactly that epoch millisecond; a fractional or non-int64 number is "Invalid numeric value", an int64 out of range the range error |
| DateConverters.Read | src/Mailtrap.Abstractions/Core/Converters/NullableDateTimeOffsetConverter.cs:17-26 | null exactly for JSON null and blank strings; a string reads as its trimmed text does; fails exactly for another token type ("Unexpected JSON token"), a string that is neither ISO text nor in-range integer text, or a number that is not an in-range integer; a number gives the instant at the start of that epoch millisecond; the same function is the epoch-ms converter's delegating `Read` (src/Mailtrap.Abstractions/Core/Converters/NullableDateTimeOffsetUnixMsConverter.cs:12-13) |
| DateConverters.ReadText | src/Mailtrap.Abstractions/Core/Converters/NullableDateTimeOffsetConverter.cs:41-45 | a blank string reads as null; any other string goes on, trimmed and non-empty |
| DateConverters.WriteIso | src/Mailtrap.Abstractions/Core/Converters/NullableDateTimeOffsetConverter.cs:78-90 | appends the ISO text of a value, or JSON null; the older converter's `Write` (src/Mailtrap/Core/Converters/NullableDateTimeOffsetConverter.cs:39-51) is the same |
| DateConverters.WriteUnixMs | src/Mailtrap.Abstractions/Core/Converters/NullableDateTimeOffsetUnixMsConverter.cs:16-28 | appends the epoch-millisecond number of a value, or JSON null; the contacts converter's `Write` (src/Mailtrap.Abstractions/Contacts/Converters/DateTimeToUnixMsJsonConverter.cs:41-50) is the same |
| DateConverters.IsoRoundTrip | tests/Mailtrap.UnitTests/Core/Converters/NullableDateTimeOffsetConverterTests.cs:126-137 | ISO text written in RFC 3339 form reads back as the value, when the library parses its own output |
| DateConverters.UnixMsRoundTrip | tests/Mailtrap.UnitTests/Core/Converters/NullableDateTimeOffsetUnixMsConverterTests.cs:26-35 | epoch milliseconds and back give the instant truncated to its millisecond |
| DateConverters.UnixMsInverse | tests/Mailtrap.UnitTests/Core/Converters/NullableDateTimeOffsetUnixMsConverterTests.cs:61-73 | every in-range millisecond count comes back unchanged |
| DateConverters.UnixMsConverterRoundTrip | tests/Mailtrap.UnitTests/Core/Converters/NullableDateTimeOffsetUnixMsConverterTests.cs:26-73 | writing epoch milliseconds and reading them back gives the value truncated to the millisecond, whatever ISO parser is in use |
| DateConverters.IsoTextAccepted | tests/Mailtrap.UnitTests/Core/Converters/NullableDateTimeOffsetUnixMsConverterTests.cs:75-87 | ISO text is read as the library parses it, bare or padded with white space |
| DateConverters.ReadPadded | src/Mailtrap.Abstractions/Core/Converters/NullableDateTimeOffsetConverter.cs:41 | white space around text that has none at its ends changes nothing |
| DateConverters.WordIsNotNull | tests/Mailtrap.UnitTests/Core/Converters/NullableDateTimeOffsetConverterTests.cs:111-124 | a word such as `"null"` inside a JSON string is not JSON null: it is "Cannot convert value" naming the word |
| DateConverters.ContactsRead | src/Mailtrap.Abstractions/Contacts/Converters/DateTimeToUnixMsJsonConverter.cs:9-39 | null exactly for JSON null and blank strings; a date exactly for untrimmed in-range 64-bit integer text or an in-range integral number, the instant at the start of that epoch millisecond; a string that is not integer text is "Expected number … but got string", a non-int64 number a `GetInt64` error, any other token an error naming its type |
| DateConverters.ContactsRoundTrip | src/Mailtrap.Abstractions/Contacts/Converters/DateTimeToUnixMsJsonConverter.cs:41-50 | the contacts converter reads back what it writes, to the millisecond |
| DateConverters.ContactsRejectsIsoText | src/Mailtrap.Abstractions/Contacts/Converters/DateTimeToUnixMsJsonConverter.cs:24-29 | an ISO date string is an error for the contacts converter, but the current converter accepts it |
| DateConverters.ContactsAgreesOnEpoch | src/Mailtrap.Abstractions/Contacts/Converters/DateTimeToUnixMsJsonConverter.cs:11-38 | on null and number tokens the contacts converter and the current one succeed together and give the same instant |
| DateConverters.LegacyRead | src/Mailtrap/Core/Converters/NullableDateTimeOffsetConverter.cs:11-36 | JSON null and blank strings give null; any other string succeeds iff the library parses its untrimmed text, with that date, and otherwise is "Cannot convert value" naming the text; every other token goes to the serializer's fallback |
| DateConverters.LegacyRoundTrip | src/Mailtrap/Core/Converters/NullableDateTimeOffsetConverter.cs:11-51 | the older converter reads back the ISO text it writes |
| DateConverters.LegacyRejectsEpochText | src/Mailtrap/Core/Converters/NullableDateTimeOffsetConverter.cs:21-26 | epoch-millisecond text that is not a date is an error for the older converter, but an instant for the current one |

## Left out

- Rogue enum instances: `new T()` or a `with` copy of an enum value makes a second instance that compares by reference. The model identifies a value by its string, so it covers only the singletons the registry hands out.
- The registry's `ConcurrentDictionary` thread safety and the static-initialisation order (`RuntimeHelpers.RunClassConstructor`) are not modelled. Initialisation is a sequential run of `Define` calls, built-ins first.
- `IsDefined` is not part of this model's source files. It is taken to mean "registered, and neither `None` nor `Unknown`", which is what the tests expect of null, `None` and `Unknown`.
- StringEnumJson.Read: System.Text.Json may not call a converter for a JSON null (`HandleNull`). The model gives the converter's own answer (`None`). For the filter's `operator` property, JSON null becomes a null operator, as the serializer assigns it.
- The base `Operator` default (`Unknown`) and the list-id `Value` default (`[]`) are never observable. Every public constructor overwrites them, so the model has no state with them.
- System.Text.Json's ordering for these filters, which are read through the `[JsonPolymorphic]` base, is taken as: every property is converted in document order, `value` as the constructor argument and `operator` into a cache, and the first conversion error is the one thrown; the constructor runs only at the end of the object, and the cached `operator` is assigned after it.
- The `Ensure` exception types are modelled by their parameter name only (`ArgumentNull`). The list-id constructors' empty-input rejection is also `ArgumentNullException`, as in the source.
- `ToMailtrapValidationResult`, `ValidationResult` and the FluentValidation engine are not part of this model. A result is the ordered failure list, and the failures appear in rule declaration order.
- The validators read a snapshot of each filter's state (`Snapshot`). The model does not cover a filter changing while it is being validated.
- `Uri.Append` and `AppendQueryParameter` are not part of this model's source files. They are modelled as appending one path segment or one query pair.
- `AccountAccessFilter` is not part of this model's source files. Its three id lists are taken to hold `long`s.
- `JsonSerializer.Serialize` of an id list is taken to give the compact `[1,2,3]` form.
- The `RestResourceCommand` base class, `Execute`, the HTTP client, response handling and the message factory are not part of this model. Sending is modelled as appending the message to `Wire.sent`.
- The resource handles the accessors return are modelled as a resource kind plus a URI. Their own operations are out of scope.
- DateConverters.Read: `DateTimeOffset.TryParse` and ISO formatting are parameters (`IsoText`). The current converter parses in the invariant culture; the older one (`LegacyRead`) uses the current culture, so a caller may pass it a different `IsoText`.
- `long.TryParse` is modelled with `NumberStyles.Integer` and ASCII digits. The contacts converter calls it in the current culture, which the model takes to have the invariant culture's signs and digits.
- The offset of a `DateTimeOffset` is not modelled. Two values are equal when they denote the same UTC instant, as `DateTimeOffset.Equals` compares them.
- DateConverters.FromEpoch: the range check of `DateTimeOffset.FromUnixTimeMilliseconds` belongs to the library. It is modelled as the error `UnixMsOutOfRange`, standing for the `ArgumentOutOfRangeException` the library throws.
- DateConverters.LegacyRead: the serializer fallback `JsonSerializer.Deserialize<DateTimeOffset?>` for non-string, non-null tokens is a parameter (`fallback`).
- `Ensure.NotNull(writer)` in the `Write` methods has no counterpart, because a `JsonWriter` is never null in the model.
- FetchUris.SuppressionFetchUri: `SuppressionFilter` is reduced to its `Email` property. Its other properties take no part in the URI.
