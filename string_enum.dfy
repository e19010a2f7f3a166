/**
 * `StringEnum<T>`: a string-keyed table of singleton values per enum type `T`, with the
 * two built-in entries `None` (the empty string) and `Unknown` (the string "Unknown").
 *
 * A value is identified by the string it was defined with. The source compares values by
 * reference; the registry hands out exactly one instance per string, so for the values it
 * hands out, reference identity and equality of the defining strings coincide.
 */
module StringEnum {
  import opened Wrappers
  import opened Text

  /** A singleton of some `StringEnum<T>`; `text` is its private `_value`. */
  datatype EnumValue = EnumValue(text: string) {
    /** `ToString()`: the defining string. */
    function ToString(): string { text }

    /** `Equals(other)`: identity of the singleton; a null `other` is never equal. */
    predicate Equals(other: Option<EnumValue>) { other == Some(this) }

    /** `GetHashCode()`, given the runtime's string hash. */
    function GetHashCode(stringHash: string -> int): int { stringHash(text) }
  }

  /** `StringEnum<T>.None`. */
  const NoneValue: EnumValue := EnumValue("")
  /** `StringEnum<T>.Unknown`. */
  const UnknownValue: EnumValue := EnumValue("Unknown")

  /** The contents of the static `s_values` dictionary of one enum type. */
  type Table = map<string, EnumValue>

  /** Every entry is filed under its own defining string. */
  ghost predicate WellFormed(t: Table) {
    forall k :: k in t ==> t[k].text == k
  }

  datatype DefineError =
    | ArgumentNull(paramName: string)     // Ensure.NotNull(value, ...)
    | DuplicateValue(value: string)       // ArgumentException from a failed TryAdd

  /** `Define(value)` as a function of the table before the call: the new table and the
      new singleton, or the exception it throws. */
  function DefineIn(t: Table, value: Option<string>): Result<(Table, EnumValue), DefineError> {
    match value
    case None => Failure(ArgumentNull("value"))
    case Some(s) =>
      var enumValue := EnumValue(s);
      if s !in t then Success((t[s := enumValue], enumValue)) else Failure(DuplicateValue(s))
  }

  /** `Find(value)`: null and empty find `None`, a registered string finds its singleton,
      every other string finds `Unknown`. The lookup is exact, hence case-sensitive. */
  function FindIn(t: Table, value: Option<string>): (r: EnumValue)
    ensures WellFormed(t) && "" in t && "Unknown" in t ==> r.text in t && t[r.text] == r
  {
    if IsNullOrEmpty(value) then NoneValue
    else if value.value in t then t[value.value]
    else UnknownValue
  }

  /** `IsDefined(v)`, which the validators call. Its code is not part of this model; it is
      taken to mean: not null, registered, and neither `None` nor `Unknown`. */
  predicate IsDefinedIn(t: Table, v: Option<EnumValue>) {
    && v.Some?
    && v.value.text in t && t[v.value.text] == v.value
    && v.value != NoneValue && v.value != UnknownValue
  }

  /** `Define` succeeds exactly on a non-null string not yet in the table; then the table
      gains exactly that one entry, `Find` returns the new singleton for it, and every
      other lookup is as before. On failure `s_values` is left as it was. */
  lemma DefineSpec(t: Table, value: Option<string>)
    requires WellFormed(t)
    ensures DefineIn(t, value).Success? <==> value.Some? && value.value !in t
    ensures DefineIn(t, value).Success? ==>
      var (t', v) := DefineIn(t, value).value;
      && WellFormed(t') && t'.Keys == t.Keys + {value.value}
      && v.ToString() == value.value
      && (value.value != "" ==> FindIn(t', value) == v)
      && (forall s :: s != value.value ==> FindIn(t', Some(s)) == FindIn(t, Some(s)))
  {
  }

  /** `Find(v.ToString())` gives back `v` for every value in the table, `None` and
      `Unknown` included, provided `None` is the entry filed under the empty string. */
  lemma FindToStringRoundTrip(t: Table, v: EnumValue)
    requires WellFormed(t) && "" in t && t[""] == NoneValue
    requires v in t.Values
    ensures FindIn(t, Some(v.ToString())) == v
  {
    var k :| k in t && t[k] == v;
  }

  /** `Find` never fails: any string that is not registered yields `Unknown`. */
  lemma FindUnregistered(t: Table, s: string)
    requires s != [] && s !in t
    ensures FindIn(t, Some(s)) == UnknownValue
  {
  }

  /** Two registered singletons are equal exactly when their strings are, and equal
      values have equal hashes. */
  lemma SingletonPerString(t: Table, a: string, b: string, stringHash: string -> int)
    requires WellFormed(t) && a in t && b in t
    ensures t[a].Equals(Some(t[b])) <==> a == b
    ensures t[a].Equals(Some(t[b])) ==> t[a].GetHashCode(stringHash) == t[b].GetHashCode(stringHash)
  {
  }

  ghost predicate Distinct(names: seq<string>) {
    forall i, j :: 0 <= i < j < |names| ==> names[i] != names[j]
  }

  /** A run of `Define` calls, one per name, stopping at the first duplicate: the static
      initialisation of an enum type, whose static fields are `Define(name)` calls. */
  function DefineAll(t: Table, names: seq<string>): Option<Table>
    decreases |names|
  {
    if names == [] then Some(t)
    else match DefineIn(t, Some(names[0]))
      case Success((t', _)) => DefineAll(t', names[1..])
      case Failure(_) => None
  }

  /** The defines succeed exactly when the names are distinct and new; the table then
      holds its old entries plus one singleton per name. */
  lemma {:induction false} DefineAllSpec(t: Table, names: seq<string>)
    requires WellFormed(t)
    ensures DefineAll(t, names).Some? <==>
      (Distinct(names) && forall k :: 0 <= k < |names| ==> names[k] !in t)
    ensures DefineAll(t, names).Some? ==>
      var t' := DefineAll(t, names).value;
      && WellFormed(t')
      && t'.Keys == t.Keys + (set k | 0 <= k < |names| :: names[k])
      && (forall s :: s in t ==> t'[s] == t[s])
    decreases |names|
  {
    if names != [] {
      var n := names[0];
      if n !in t {
        var t1 := t[n := EnumValue(n)];
        DefineAllSpec(t1, names[1..]);
        assert forall k :: 1 <= k < |names| ==> names[k] == names[1..][k - 1];
        if DefineAll(t, names).Some? {
          assert (set k | 0 <= k < |names| :: names[k])
              == {n} + (set k | 0 <= k < |names[1..]| :: names[1..][k]);
        }
      } else {
        assert names[0] in t;
      }
    }
  }

  /** The table of an enum type whose static fields define `names`, in order: `None` and
      `Unknown` come first (the base type's static initialisers), then the derived type's. */
  function EnumTable(names: seq<string>): Option<Table> {
    DefineAll(map[], ["", "Unknown"] + names)
  }

  /** An enum type initialises without error exactly when its names are distinct and
      clash with neither built-in; a name is then `IsDefined` exactly when it is one of
      the type's own names. */
  lemma EnumTableSpec(names: seq<string>)
    ensures EnumTable(names).Some? <==> (Distinct(names) && "" !in names && "Unknown" !in names)
    ensures EnumTable(names).Some? ==>
      var t := EnumTable(names).value;
      && WellFormed(t) && "" in t && "Unknown" in t
      && t[""] == NoneValue && t["Unknown"] == UnknownValue
      && (forall s :: s in t <==> s == "" || s == "Unknown" || s in names)
      && (forall s :: IsDefinedIn(t, Some(EnumValue(s))) <==> s in names)
  {
    var all := ["", "Unknown"] + names;
    DefineAllSpec(map[], all);
    var t0: Table := map["" := NoneValue];
    var t1: Table := t0["Unknown" := UnknownValue];
    assert DefineAll(map[], all) == DefineAll(t1, names) by {
      assert all[1..][1..] == names;
    }
    DefineAllSpec(t1, names);
    if Distinct(names) && "" !in names && "Unknown" !in names {
      assert DefineAll(t1, names).Some?;
    }
    if EnumTable(names).Some? {
      var t := EnumTable(names).value;
      forall s ensures s in t <==> s == "" || s == "Unknown" || s in names {
        if s in names {
          var k :| 0 <= k < |names| && names[k] == s;
        }
      }
    }
  }

  /** The live registry of one enum type: the static `s_values` dictionary. */
  class Registry {
    var values: Table

    ghost predicate Valid()
      reads this
    {
      WellFormed(values) && "" in values && values[""] == NoneValue
      && "Unknown" in values && values["Unknown"] == UnknownValue
    }

    /** The base type's static initialisers: `None = Define("")`, then
        `Unknown = Define("Unknown")`. */
    constructor ()
      ensures Valid()
      ensures values == map["" := NoneValue, "Unknown" := UnknownValue]
    {
      values := map[];
      new;
      var none := Define(Some(""));
      var unknown := Define(Some("Unknown"));
    }

    /** `Define(value)`: inserts a fresh singleton, or throws and leaves the table alone. */
    method Define(value: Option<string>) returns (r: Result<EnumValue, DefineError>)
      modifies this
      ensures old(Valid()) ==> Valid()
      ensures match DefineIn(old(values), value)
        case Success((t, v)) => values == t && r == Success(v)
        case Failure(e) => values == old(values) && r == Failure(e)
    {
      if value.None? {
        return Failure(ArgumentNull("value"));
      }
      var enumValue := EnumValue(value.value);
      var added := value.value !in values;
      if added {
        values := values[value.value := enumValue];
        r := Success(enumValue);
      } else {
        r := Failure(DuplicateValue(value.value));
      }
    }

    /** `Find(value)` on the current table. */
    function Find(value: Option<string>): (r: EnumValue)
      reads this
      requires Valid()
      ensures r.text in values && values[r.text] == r
    {
      FindIn(values, value)
    }
  }
}
