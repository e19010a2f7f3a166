/**
 * The concrete string enums of the SDK: each is the table its static fields build by
 * calling `Define` once per constant, after the built-in `None` and `Unknown`.
 */
module EnumTables {
  import opened Wrappers
  import opened StringEnum

  /** The discriminators of the two contact-export filter variants. */
  const ListIdDiscriminator: string := "list_id"
  const SubscriptionStatusDiscriminator: string := "subscription_status"

  const ContactExportFilterNameNames: seq<string> := [ListIdDiscriminator, SubscriptionStatusDiscriminator]
  const ContactExportFilterOperatorNames: seq<string> := ["equal"]
  const ContactExportFilterSubscriptionStatusNames: seq<string> := ["subscribed", "unsubscribed"]
  const ContactExportStatusNames: seq<string> := ["created", "started", "finished"]
  const SuppressionTypeNames: seq<string> :=
    ["hard bounce", "spam complaint", "unsubscription", "manual import"]
  const SuppressionSendingStreamNames: seq<string> := ["any", "transactional", "bulk"]

  const FilterNameListId: EnumValue := EnumValue(ListIdDiscriminator)
  const FilterNameSubscriptionStatus: EnumValue := EnumValue(SubscriptionStatusDiscriminator)
  const OperatorEqual: EnumValue := EnumValue("equal")
  const StatusSubscribed: EnumValue := EnumValue("subscribed")
  const StatusUnsubscribed: EnumValue := EnumValue("unsubscribed")
  const ExportCreated: EnumValue := EnumValue("created")
  const ExportStarted: EnumValue := EnumValue("started")
  const ExportFinished: EnumValue := EnumValue("finished")

  /** What the static initialisation of an enum type with these names must leave behind:
      the built-ins in place, and `IsDefined` true of exactly the type's own names. */
  ghost predicate IsEnumTableOf(t: Table, names: seq<string>) {
    && WellFormed(t) && "" in t && "Unknown" in t
    && t[""] == NoneValue && t["Unknown"] == UnknownValue
    && (forall s :: s in t <==> s == "" || s == "Unknown" || s in names)
    && (forall s :: IsDefinedIn(t, Some(EnumValue(s))) <==> s in names)
  }

  /** The table holding the built-ins and one singleton per name. */
  function EnumMap(names: seq<string>): Table {
    map s | s in ["", "Unknown"] + names :: EnumValue(s)
  }

  /** When the names are distinct and new, the static initialisation builds exactly
      `EnumMap(names)`, and it is the table of an enum type with these names. */
  lemma EnumMapSpec(names: seq<string>)
    requires Distinct(names) && "" !in names && "Unknown" !in names
    ensures EnumTable(names) == Some(EnumMap(names))
    ensures IsEnumTableOf(EnumMap(names), names)
  {
    EnumTableSpec(names);
    var t := EnumTable(names).value;
    forall s | s in t
      ensures t[s] == EnumValue(s)
    {
      assert t[s].text == s;
    }
    assert t == EnumMap(names);
  }

  function ContactExportFilterNameTable(): (t: Table)
    ensures t == EnumMap(ContactExportFilterNameNames)
  {
    EnumMapSpec(ContactExportFilterNameNames);
    EnumTable(ContactExportFilterNameNames).value
  }

  function ContactExportFilterOperatorTable(): (t: Table)
    ensures t == EnumMap(ContactExportFilterOperatorNames)
  {
    EnumMapSpec(ContactExportFilterOperatorNames);
    EnumTable(ContactExportFilterOperatorNames).value
  }

  function ContactExportFilterSubscriptionStatusTable(): (t: Table)
    ensures t == EnumMap(ContactExportFilterSubscriptionStatusNames)
  {
    EnumMapSpec(ContactExportFilterSubscriptionStatusNames);
    EnumTable(ContactExportFilterSubscriptionStatusNames).value
  }

  function ContactExportStatusTable(): (t: Table)
    ensures t == EnumMap(ContactExportStatusNames)
  {
    EnumMapSpec(ContactExportStatusNames);
    EnumTable(ContactExportStatusNames).value
  }

  function SuppressionTypeTable(): (t: Table)
    ensures t == EnumMap(SuppressionTypeNames)
  {
    EnumMapSpec(SuppressionTypeNames);
    EnumTable(SuppressionTypeNames).value
  }

  function SuppressionSendingStreamTable(): (t: Table)
    ensures t == EnumMap(SuppressionSendingStreamNames)
  {
    EnumMapSpec(SuppressionSendingStreamNames);
    EnumTable(SuppressionSendingStreamNames).value
  }

  /** The operator constant is the singleton `Find` returns for its string, lookup is
      case-sensitive, and `None`, `Unknown` and null are not defined operators. */
  lemma OperatorConstants()
    ensures FindIn(ContactExportFilterOperatorTable(), Some("equal")) == OperatorEqual
    ensures FindIn(ContactExportFilterOperatorTable(), Some("Equal")) == UnknownValue
    ensures !IsDefinedIn(ContactExportFilterOperatorTable(), Some(NoneValue))
    ensures !IsDefinedIn(ContactExportFilterOperatorTable(), Some(UnknownValue))
    ensures !IsDefinedIn(ContactExportFilterOperatorTable(), None)
    ensures IsDefinedIn(ContactExportFilterOperatorTable(), Some(OperatorEqual))
  {
    EnumMapSpec(ContactExportFilterOperatorNames);
  }

  /** The filter-name constants are the singletons of the discriminator strings. */
  lemma FilterNameConstants()
    ensures FindIn(ContactExportFilterNameTable(), Some(ListIdDiscriminator)) == FilterNameListId
    ensures FindIn(ContactExportFilterNameTable(), Some(SubscriptionStatusDiscriminator))
      == FilterNameSubscriptionStatus
    ensures IsDefinedIn(ContactExportFilterNameTable(), Some(FilterNameListId))
    ensures IsDefinedIn(ContactExportFilterNameTable(), Some(FilterNameSubscriptionStatus))
  {
    EnumMapSpec(ContactExportFilterNameNames);
  }

  /** The subscription-status and export-status constants are their strings' singletons;
      the two subscription statuses are the defined ones, `None` is not. */
  lemma StatusConstants()
    ensures FindIn(ContactExportFilterSubscriptionStatusTable(), Some("subscribed")) == StatusSubscribed
    ensures FindIn(ContactExportFilterSubscriptionStatusTable(), Some("unsubscribed")) == StatusUnsubscribed
    ensures IsDefinedIn(ContactExportFilterSubscriptionStatusTable(), Some(StatusSubscribed))
    ensures IsDefinedIn(ContactExportFilterSubscriptionStatusTable(), Some(StatusUnsubscribed))
    ensures !IsDefinedIn(ContactExportFilterSubscriptionStatusTable(), Some(NoneValue))
    ensures FindIn(ContactExportStatusTable(), Some("finished")) == ExportFinished
  {
    EnumMapSpec(ContactExportFilterSubscriptionStatusNames);
    EnumMapSpec(ContactExportStatusNames);
  }
}
