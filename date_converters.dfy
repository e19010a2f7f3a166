/**
 * The four JSON converters for `DateTimeOffset?`: the current ISO-or-epoch converter
 * (`NullableDateTimeOffsetConverter`), the one that writes epoch milliseconds
 * (`NullableDateTimeOffsetUnixMsConverter`), the contacts converter that only knows epoch
 * milliseconds (`DateTimeToUnixMsNullableJsonConverter`), and the older string-only
 * `NullableDateTimeOffsetConverter` of the client library.
 *
 * An instant is its UTC time in ticks of 100 ns since 0001-01-01, the resolution of
 * `DateTimeOffset`. Parsing and formatting ISO 8601 text belong to the .NET library and
 * are parameters of the model (`IsoText`); the epoch arithmetic and `long.TryParse` are
 * written out.
 */
module DateConverters {
  import opened Wrappers
  import opened Text
  import opened Json

  const TicksPerMillisecond: nat := 10_000
  /** `DateTime.MaxValue.Ticks`: 9999-12-31T23:59:59.9999999. */
  const MaxTicks: nat := 3_155_378_975_999_999_999
  /** The ticks of 1970-01-01T00:00:00Z. */
  const UnixEpochTicks: nat := 621_355_968_000_000_000
  /** The range `DateTimeOffset.FromUnixTimeMilliseconds` accepts: 0001-01-01 to 9999-12-31. */
  const MinUnixMs: int := -62_135_596_800_000
  const MaxUnixMs: int := 253_402_300_799_999

  type Ticks = t: int | 0 <= t <= MaxTicks

  /** A `DateTimeOffset`, up to its offset: two values are equal when they denote the same
      UTC instant, as `DateTimeOffset.Equals` has it. */
  datatype Instant = Instant(utcTicks: Ticks)

  /** The milliseconds whose start is `i`: an instant with no sub-millisecond part. */
  predicate IsWholeMillisecond(i: Instant) {
    i.utcTicks % TicksPerMillisecond == 0
  }

  /** The instant with its sub-millisecond part dropped. */
  function TruncateToMillisecond(i: Instant): (r: Instant)
    ensures IsWholeMillisecond(r)
    ensures r.utcTicks <= i.utcTicks < r.utcTicks + TicksPerMillisecond
  {
    Instant(i.utcTicks - i.utcTicks % TicksPerMillisecond)
  }

  /** `DateTimeOffset.FromUnixTimeMilliseconds(ms)`: out of its range the library throws
      `ArgumentOutOfRangeException`; otherwise the instant `ms` milliseconds after the
      epoch, on a whole millisecond. */
  function FromUnixTimeMilliseconds(ms: int): (r: Result<Instant, JsonError>)
    ensures r.Failure? <==> !(MinUnixMs <= ms <= MaxUnixMs)
    ensures r.Failure? ==> r.error == UnixMsOutOfRange(ms)
    ensures r.Success? ==> IsWholeMillisecond(r.value)
    ensures r.Success? ==> r.value.utcTicks == UnixEpochTicks + ms * TicksPerMillisecond
  {
    if ms < MinUnixMs || ms > MaxUnixMs then Failure(UnixMsOutOfRange(ms))
    else Success(Instant(UnixEpochTicks + ms * TicksPerMillisecond))
  }

  /** `ToUnixTimeMilliseconds()`: whole milliseconds since the epoch, counted down to the
      start of the millisecond the instant is in (the ticks are never negative, so the
      library's truncating division is a floor). */
  function ToUnixTimeMilliseconds(i: Instant): (ms: int)
    ensures MinUnixMs <= ms <= MaxUnixMs && InInt64(ms)
    ensures (ms - MinUnixMs) * TicksPerMillisecond <= i.utcTicks < (ms - MinUnixMs + 1) * TicksPerMillisecond
  {
    i.utcTicks / TicksPerMillisecond - UnixEpochTicks / TicksPerMillisecond
  }

  /** Epoch milliseconds and back give the instant truncated to its millisecond. */
  lemma UnixMsRoundTrip(i: Instant)
    ensures FromUnixTimeMilliseconds(ToUnixTimeMilliseconds(i)) == Success(TruncateToMillisecond(i))
  {
    var ms := ToUnixTimeMilliseconds(i);
    assert UnixEpochTicks + ms * TicksPerMillisecond == i.utcTicks / TicksPerMillisecond * TicksPerMillisecond;
  }

  /** Every millisecond in range comes back unchanged: no two of them share an instant. */
  lemma UnixMsInverse(ms: int)
    requires MinUnixMs <= ms <= MaxUnixMs
    ensures ToUnixTimeMilliseconds(FromUnixTimeMilliseconds(ms).value) == ms
  {
    var t := UnixEpochTicks + ms * TicksPerMillisecond;
    assert t / TicksPerMillisecond == UnixEpochTicks / TicksPerMillisecond + ms;
  }

  // ---- ISO 8601 text ----

  /** The library's ISO 8601 parsing (`DateTimeOffset.TryParse` in some culture) and
      formatting (`Utf8JsonWriter.WriteStringValue(DateTimeOffset)`). */
  datatype IsoText = IsoText(tryParse: string -> Option<Instant>, format: Instant -> string)

  /** A numeric offset `+hh:mm` / `-hh:mm`, or `Z` (section 5.6 of RFC 3339). */
  predicate IsTimeOffset(t: string) {
    t == "Z"
    || (|t| == 6 && (t[0] == '+' || t[0] == '-') && IsDigit(t[1]) && IsDigit(t[2]) && t[3] == ':'
        && IsDigit(t[4]) && IsDigit(t[5]))
  }

  /** Optional fractional seconds `.d+`, then the offset. */
  predicate IsFractionAndOffset(t: string) {
    IsTimeOffset(t)
    || (|t| > 0 && t[0] == '.' && |TrimStart(t[1..], IsDigit)| < |t| - 1 && IsTimeOffset(TrimStart(t[1..], IsDigit)))
  }

  /** The `date-time` production of section 5.6 of RFC 3339:
      `yyyy-mm-ddThh:mm:ss[.f+]` followed by the offset. */
  predicate IsRfc3339DateTime(s: string) {
    && |s| >= 20
    && IsDigit(s[0]) && IsDigit(s[1]) && IsDigit(s[2]) && IsDigit(s[3]) && s[4] == '-'
    && IsDigit(s[5]) && IsDigit(s[6]) && s[7] == '-' && IsDigit(s[8]) && IsDigit(s[9])
    && s[10] == 'T' && IsDigit(s[11]) && IsDigit(s[12]) && s[13] == ':'
    && IsDigit(s[14]) && IsDigit(s[15]) && s[16] == ':' && IsDigit(s[17]) && IsDigit(s[18])
    && IsFractionAndOffset(s[19..])
  }

  /** The writer emits RFC 3339 text for every instant. */
  ghost predicate WritesRfc3339(iso: IsoText) {
    forall i :: IsRfc3339DateTime(iso.format(i))
  }

  /** The writer's text is read back as the instant it was written from. */
  predicate ParsesOwnFormat(iso: IsoText, i: Instant) {
    iso.tryParse(iso.format(i)) == Some(i)
  }

  lemma TimeOffsetEnd(t: string)
    requires IsFractionAndOffset(t)
    ensures |t| > 0 && (t[|t| - 1] == 'Z' || IsDigit(t[|t| - 1]))
  {
    if !IsTimeOffset(t) {
      var rest := TrimStart(t[1..], IsDigit);
      assert t[|t| - 1] == rest[|rest| - 1];
    }
  }

  /** RFC 3339 text is its own trimmed form, is not blank, and is not an integer: it
      starts and ends with a character that is not white space and has a `-` inside. */
  lemma Rfc3339Text(s: string)
    requires IsRfc3339DateTime(s)
    ensures !IsWhiteSpace(s[0]) && !IsWhiteSpace(s[|s| - 1])
    ensures Trim(s) == s
    ensures !AllSatisfy(s, IsWhiteSpace)
    ensures TryParseInt64(s) == None
  {
    var tail := s[19..];
    TimeOffsetEnd(tail);
    assert s[|s| - 1] == tail[|tail| - 1];
    TrimNothing(s, IsWhiteSpace);
    NonIntegerText(s, 4);
  }

  // ---- NullableDateTimeOffsetConverter ----

  /** `ParseString`: the text is trimmed first; null, or empty after trimming, is null. */
  function ParseString(iso: IsoText, value: Option<string>): (r: Result<Option<Instant>, JsonError>)
    ensures IsNullOrWhiteSpace(value) ==> r == Success(None)
    ensures !IsNullOrWhiteSpace(value) ==> r == ParseTrimmed(iso, Trim(value.value))
  {
    if value.None? then Success(None)
    else
      TrimmedEmptyIffWhiteSpace(value.value);
      ParseTrimmed(iso, Trim(value.value))
  }

  /** The rest of `ParseString`, on the trimmed text: exactly the empty text is null; it
      fails exactly when it is neither ISO text nor in-range 64-bit integer text; a date is
      the ISO reading when there is one, and otherwise the instant at that many epoch
      milliseconds. */
  function ParseTrimmed(iso: IsoText, s: string): (r: Result<Option<Instant>, JsonError>)
    ensures r == Success(None) <==> s == []
    ensures r.Failure? <==>
      && s != [] && iso.tryParse(s).None?
      && (TryParseInt64(s).Some? ==> !(MinUnixMs <= TryParseInt64(s).value <= MaxUnixMs))
    ensures r.Failure? ==> r.error == if TryParseInt64(s).Some? then UnixMsOutOfRange(TryParseInt64(s).value) else CannotConvert(s)
    ensures r.Success? && s != [] ==>
      && r.value.Some?
      && (|| r.value == iso.tryParse(s)
          || (&& iso.tryParse(s).None? && TryParseInt64(s).Some?
              && IsWholeMillisecond(r.value.value) && ToUnixTimeMilliseconds(r.value.value) == TryParseInt64(s).value))
  {
    if s == [] then Success(None)
    else if iso.tryParse(s).Some? then Success(iso.tryParse(s))
    else if TryParseInt64(s).Some? then FromEpoch(TryParseInt64(s).value)
    else Failure(CannotConvert(s))
  }

  /** An epoch-millisecond count as the nullable result. */
  function FromEpoch(ms: int): (r: Result<Option<Instant>, JsonError>)
    ensures r.Success? <==> MinUnixMs <= ms <= MaxUnixMs
    ensures r.Success? ==> r.value == Some(FromUnixTimeMilliseconds(ms).value) && ToUnixTimeMilliseconds(r.value.value) == ms
    ensures r.Failure? ==> r.error == UnixMsOutOfRange(ms)
  {
    match FromUnixTimeMilliseconds(ms)
    case Success(i) => UnixMsInverse(ms); Success(Some(i))
    case Failure(e) => Failure(e)
  }

  /** `ParseNumber`: `TryGetInt64` accepts an integral literal that fits in 64 bits, which
      is then epoch milliseconds. A number succeeds exactly when it is an integer in the
      range of `FromUnixTimeMilliseconds`, and the instant has that many milliseconds; a
      fractional or oversized number is "Invalid numeric value". */
  function ParseNumber(n: Number): (r: Result<Option<Instant>, JsonError>)
    ensures r.Success? <==> n.Integer? && MinUnixMs <= n.value <= MaxUnixMs
    ensures r.Success? ==> r.value.Some? && IsWholeMillisecond(r.value.value) && ToUnixTimeMilliseconds(r.value.value) == n.value
    ensures r.Failure? ==> r.error == if n.Integer? && InInt64(n.value) then UnixMsOutOfRange(n.value) else InvalidUnixMsNumber
  {
    if n.Integer? && InInt64(n.value) then FromEpoch(n.value) else Failure(InvalidUnixMsNumber)
  }

  /** `NullableDateTimeOffsetConverter.Read`, and `NullableDateTimeOffsetUnixMsConverter.Read`,
      which delegates to it. The result is null exactly for JSON null and blank strings; a
      string reads as its trimmed text does; it fails exactly for another token type, for
      a string that is neither ISO text nor in-range integer text, and for a number that is
      not an in-range integer; a number gives the instant at that many milliseconds. */
  function Read(iso: IsoText, token: Json): (r: Result<Option<Instant>, JsonError>)
    ensures r == Success(None) <==> token.JNull? || (token.JString? && AllSatisfy(token.s, IsWhiteSpace))
    ensures token.JString? ==> r == ParseString(iso, Some(Trim(token.s)))
    ensures r.Failure? <==>
      || !(token.JNull? || token.JString? || token.JNumber?)
      || (&& token.JString? && !AllSatisfy(token.s, IsWhiteSpace) && iso.tryParse(Trim(token.s)).None?
          && (TryParseInt64(Trim(token.s)).Some? ==> !(MinUnixMs <= TryParseInt64(Trim(token.s)).value <= MaxUnixMs)))
      || (token.JNumber? && !(token.n.Integer? && MinUnixMs <= token.n.value <= MaxUnixMs))
    ensures token.JNumber? && r.Success? ==> IsWholeMillisecond(r.value.value) && ToUnixTimeMilliseconds(r.value.value) == token.n.value
    ensures !(token.JNull? || token.JString? || token.JNumber?) ==> r == Failure(UnexpectedToken(TokenTypeOf(token)))
  {
    match token
    case JNull => Success(None)
    case JString(s) =>
      TrimmedEmptyIffWhiteSpace(s);
      TrimTwice(s);
      TrimmedEmptyIffWhiteSpace(Trim(s));
      ParseString(iso, Some(s))
    case JNumber(n) => ParseNumber(n)
    case _ => Failure(UnexpectedToken(TokenTypeOf(token)))
  }

  /** The token the ISO writers emit: the formatted instant, or JSON null. */
  function IsoToken(iso: IsoText, value: Option<Instant>): Json {
    if value.Some? then JString(iso.format(value.value)) else JNull
  }

  /** The token the epoch writers emit: the instant's epoch milliseconds, or JSON null. */
  function UnixMsToken(value: Option<Instant>): Json {
    if value.Some? then JNumber(Integer(ToUnixTimeMilliseconds(value.value))) else JNull
  }

  /** `NullableDateTimeOffsetConverter.Write`: ISO text for a value, null for null. */
  method WriteIso(writer: JsonWriter, iso: IsoText, value: Option<Instant>)
    modifies writer
    ensures writer.written == old(writer.written) + [IsoToken(iso, value)]
  {
    if value.Some? {
      writer.WriteStringValue(Some(iso.format(value.value)));
    } else {
      writer.WriteNullValue();
    }
  }

  /** `NullableDateTimeOffsetUnixMsConverter.Write`: epoch milliseconds for a value, null
      for null. */
  method WriteUnixMs(writer: JsonWriter, value: Option<Instant>)
    modifies writer
    ensures writer.written == old(writer.written) + [UnixMsToken(value)]
  {
    if value.Some? {
      writer.WriteNumberValue(ToUnixTimeMilliseconds(value.value));
    } else {
      writer.WriteNullValue();
    }
  }

  /** A string token: blank is null; otherwise its trimmed text, which is not empty, goes
      on to `ParseTrimmed`. */
  lemma ReadText(iso: IsoText, s: string)
    ensures AllSatisfy(s, IsWhiteSpace) ==> Read(iso, JString(s)) == Success(None)
    ensures !AllSatisfy(s, IsWhiteSpace) ==> Trim(s) != [] && Read(iso, JString(s)) == ParseTrimmed(iso, Trim(s))
  {
    TrimmedEmptyIffWhiteSpace(s);
  }

  /** Text with nothing to trim goes to `ParseTrimmed` as it is. */
  lemma ReadTrimmedText(iso: IsoText, s: string)
    requires Trim(s) == s && !AllSatisfy(s, IsWhiteSpace)
    ensures s != [] && Read(iso, JString(s)) == ParseTrimmed(iso, s)
  {
    ReadText(iso, s);
  }

  /** Trimming is idempotent. */
  lemma TrimTwice(s: string)
    ensures Trim(Trim(s)) == Trim(s)
  {
    var t := Trim(s);
    if t != [] {
      TrimNothing(t, IsWhiteSpace);
    }
  }

  /** Writing ISO text and reading it back gives the value, when the library parses what
      it formats. */
  lemma IsoRoundTrip(iso: IsoText, value: Option<Instant>)
    requires WritesRfc3339(iso)
    requires value.Some? ==> ParsesOwnFormat(iso, value.value)
    ensures Read(iso, IsoToken(iso, value)) == Success(value)
  {
    if value.Some? {
      var text := iso.format(value.value);
      Rfc3339Text(text);
      ReadTrimmedText(iso, text);
    }
  }

  /** `NullableDateTimeOffsetUnixMsConverter`: writing epoch milliseconds and reading them
      back gives the instant truncated to the millisecond, whatever ISO parser is in use. */
  lemma UnixMsConverterRoundTrip(iso: IsoText, value: Option<Instant>)
    ensures Read(iso, UnixMsToken(value)) == Success(if value.Some? then Some(TruncateToMillisecond(value.value)) else None)
  {
    if value.Some? {
      UnixMsRoundTrip(value.value);
    }
  }

  /** ISO text is read as the library parses it, bare or padded with white space. */
  lemma IsoTextAccepted(iso: IsoText, s: string, pad: string)
    requires IsRfc3339DateTime(s) && iso.tryParse(s).Some?
    requires AllSatisfy(pad, IsWhiteSpace)
    ensures Read(iso, JString(s)) == Success(iso.tryParse(s))
    ensures Read(iso, JString(pad + s + pad)) == Success(iso.tryParse(s))
  {
    Rfc3339Text(s);
    ReadTrimmedText(iso, s);
    ReadPadded(iso, s, pad);
  }

  /** White space around text that has none at its ends changes nothing. */
  lemma ReadPadded(iso: IsoText, s: string, pad: string)
    requires s != [] && !IsWhiteSpace(s[0]) && !IsWhiteSpace(s[|s| - 1])
    requires AllSatisfy(pad, IsWhiteSpace)
    ensures Read(iso, JString(pad + s + pad)) == ParseTrimmed(iso, s)
  {
    var padded := pad + s + pad;
    TrimPadded(s, pad);
    assert padded[|pad|] == s[0];
    ReadText(iso, padded);
  }

  /** Leading characters satisfying `p` are dropped up to the first one that does not. */
  lemma {:induction false} TrimStartPrefix(a: string, b: string, p: char -> bool)
    requires AllSatisfy(a, p) && b != [] && !p(b[0])
    ensures TrimStart(a + b, p) == b
  {
    if a == [] {
      assert a + b == b;
    } else {
      var ab := a + b;
      assert ab[0] == a[0] && ab[1..] == a[1..] + b;
      TrimStartPrefix(a[1..], b, p);
    }
  }

  /** Trailing characters satisfying `p` are dropped back to the last one that does not. */
  lemma {:induction false} TrimEndSuffix(a: string, b: string, p: char -> bool)
    requires AllSatisfy(b, p) && a != [] && !p(a[|a| - 1])
    ensures TrimEnd(a + b, p) == a
  {
    if b == [] {
      assert a + b == a;
    } else {
      var ab := a + b;
      var shorter := b[..|b| - 1];
      assert ab[|ab| - 1] == b[|b| - 1] && ab[..|ab| - 1] == a + shorter;
      TrimEndSuffix(a, shorter, p);
    }
  }

  lemma TrimPadded(s: string, pad: string)
    requires s != [] && !IsWhiteSpace(s[0]) && !IsWhiteSpace(s[|s| - 1])
    requires AllSatisfy(pad, IsWhiteSpace)
    ensures Trim(pad + s + pad) == s
  {
    assert pad + s + pad == pad + (s + pad);
    TrimStartPrefix(pad, s + pad, IsWhiteSpace);
    TrimEndSuffix(s, pad, IsWhiteSpace);
  }

  /** A word such as `null` in a JSON string is not JSON null: unless the library parses
      it as a date, it is an error naming the word. */
  lemma WordIsNotNull(iso: IsoText, s: string)
    requires |s| >= 3 && forall k :: 0 <= k < |s| ==> 'a' <= s[k] <= 'z'
    requires iso.tryParse(s) == None
    ensures Read(iso, JString(s)) == Failure(CannotConvert(s))
  {
    assert !IsDigit(s[1]) && !IsNumberWhite(s[1]) && !IsNumberWhite(s[0]) && !IsNumberWhite(s[|s| - 1]);
    NonIntegerText(s, 1);
    assert !IsWhiteSpace(s[0]) && !IsWhiteSpace(s[|s| - 1]);
    TrimNothing(s, IsWhiteSpace);
    ReadTrimmedText(iso, s);
  }

  // ---- DateTimeToUnixMsNullableJsonConverter ----

  /** `DateTimeToUnixMsNullableJsonConverter.Read`: the result is null exactly for JSON
      null and blank strings; it is a date exactly for a string with in-range 64-bit integer
      text (`long.TryParse`, untrimmed) or an in-range integral number (`GetInt64`), and
      that date has that many epoch milliseconds; everything else is an error. */
  function ContactsRead(token: Json): (r: Result<Option<Instant>, JsonError>)
    ensures r == Success(None) <==> token.JNull? || (token.JString? && AllSatisfy(token.s, IsWhiteSpace))
    ensures r.Success? <==>
      || token.JNull?
      || (&& token.JString?
          && (|| AllSatisfy(token.s, IsWhiteSpace)
              || (TryParseInt64(token.s).Some? && MinUnixMs <= TryParseInt64(token.s).value <= MaxUnixMs)))
      || (token.JNumber? && token.n.Integer? && MinUnixMs <= token.n.value <= MaxUnixMs)
    ensures token.JString? && r.Success? && r.value.Some? ==>
      TryParseInt64(token.s).Some? && IsWholeMillisecond(r.value.value) && ToUnixTimeMilliseconds(r.value.value) == TryParseInt64(token.s).value
    ensures token.JNumber? && r.Success? ==> IsWholeMillisecond(r.value.value) && ToUnixTimeMilliseconds(r.value.value) == token.n.value
    ensures token.JString? && r.Failure? ==>
      r.error == if TryParseInt64(token.s).Some? then UnixMsOutOfRange(TryParseInt64(token.s).value) else ExpectedUnixMsNumber(None)
    ensures token.JNumber? && r.Failure? ==>
      r.error == if token.n.Integer? && InInt64(token.n.value) then UnixMsOutOfRange(token.n.value) else NotAnInt64
    ensures !(token.JNull? || token.JString? || token.JNumber?) ==> r == Failure(ExpectedUnixMsNumber(Some(TokenTypeOf(token))))
  {
    match token
    case JNull => Success(None)
    case JString(s) =>
      if IsNullOrWhiteSpace(Some(s)) then Success(None)
      else if TryParseInt64(s).Some? then FromEpoch(TryParseInt64(s).value)
      else Failure(ExpectedUnixMsNumber(None))
    case JNumber(n) =>
      if n.Integer? && InInt64(n.value) then FromEpoch(n.value) else Failure(NotAnInt64)
    case _ => Failure(ExpectedUnixMsNumber(Some(TokenTypeOf(token))))
  }

  /** The contacts converter reads back what it writes, to the millisecond. */
  lemma ContactsRoundTrip(value: Option<Instant>)
    ensures ContactsRead(UnixMsToken(value)) == Success(if value.Some? then Some(TruncateToMillisecond(value.value)) else None)
  {
    if value.Some? {
      UnixMsRoundTrip(value.value);
    }
  }

  /** An ISO date is not epoch milliseconds: the contacts converter rejects it where the
      general converter accepts it. */
  lemma ContactsRejectsIsoText(iso: IsoText, s: string)
    requires IsRfc3339DateTime(s)
    ensures ContactsRead(JString(s)) == Failure(ExpectedUnixMsNumber(None))
    ensures iso.tryParse(s).Some? ==> Read(iso, JString(s)) == Success(iso.tryParse(s))
  {
    Rfc3339Text(s);
    ReadTrimmedText(iso, s);
  }

  /** The two epoch readers agree on null and on numbers: same instant, or both an error. */
  lemma ContactsAgreesOnEpoch(iso: IsoText, token: Json)
    requires token.JNull? || token.JNumber?
    ensures ContactsRead(token).Success? <==> Read(iso, token).Success?
    ensures ContactsRead(token).Success? ==> ContactsRead(token) == Read(iso, token)
  {
  }

  // ---- the older NullableDateTimeOffsetConverter ----

  /** The older converter's `Read`: JSON null and blank strings are null; any other string
      succeeds exactly when the library parses its untrimmed text, with that date, and
      otherwise is an error naming the text; every token other than null and a string is
      handed to the serializer's own `DateTimeOffset?` reading, `fallback`. */
  function LegacyRead(iso: IsoText, fallback: Json -> Result<Option<Instant>, JsonError>, token: Json)
    : (r: Result<Option<Instant>, JsonError>)
    ensures token.JNull? || (token.JString? && AllSatisfy(token.s, IsWhiteSpace)) ==> r == Success(None)
    ensures token.JString? ==> (r.Success? <==> AllSatisfy(token.s, IsWhiteSpace) || iso.tryParse(token.s).Some?)
    ensures token.JString? && !AllSatisfy(token.s, IsWhiteSpace) && r.Success? ==> r.value == iso.tryParse(token.s)
    ensures token.JString? && r.Failure? ==> r.error == CannotConvert(token.s)
    ensures !(token.JNull? || token.JString?) ==> r == fallback(token)
  {
    if token.JString? then
      var value := GetString(token);
      if IsNullOrWhiteSpace(value) then Success(None)
      else if iso.tryParse(value.value).Some? then Success(iso.tryParse(value.value))
      else Failure(CannotConvert(value.value))
    else if token.JNull? then Success(None)
    else fallback(token)
  }

  /** The older converter reads back the ISO text it writes. Unlike the current one it
      does not read epoch-millisecond text: without an ISO parse it is an error. */
  lemma LegacyRoundTrip(iso: IsoText, fallback: Json -> Result<Option<Instant>, JsonError>, value: Option<Instant>)
    requires WritesRfc3339(iso)
    requires value.Some? ==> ParsesOwnFormat(iso, value.value)
    ensures LegacyRead(iso, fallback, IsoToken(iso, value)) == Success(value)
  {
    if value.Some? {
      Rfc3339Text(iso.format(value.value));
    }
  }

  /** Epoch-millisecond text that the library does not parse as a date is an error for
      the older converter and an instant for the current one. */
  lemma LegacyRejectsEpochText(iso: IsoText, fallback: Json -> Result<Option<Instant>, JsonError>, ms: int)
    requires MinUnixMs <= ms <= MaxUnixMs
    requires iso.tryParse(FormatInt(ms)) == None
    ensures LegacyRead(iso, fallback, JString(FormatInt(ms))) == Failure(CannotConvert(FormatInt(ms)))
    ensures Read(iso, JString(FormatInt(ms))) == Success(Some(FromUnixTimeMilliseconds(ms).value))
  {
    var s := FormatInt(ms);
    EpochText(ms);
    ReadTrimmedText(iso, s);
  }

  /** `long.ToString()` text has nothing to trim, is not blank, and parses back. */
  lemma EpochText(n: int)
    requires InInt64(n)
    ensures Trim(FormatInt(n)) == FormatInt(n) && !AllSatisfy(FormatInt(n), IsWhiteSpace)
    ensures TryParseInt64(FormatInt(n)) == Some(n)
  {
    FormatIntRoundTrip(n);
    FormatIntTrimmed(n);
  }

  lemma FormatIntTrimmed(n: int)
    ensures Trim(FormatInt(n)) == FormatInt(n) && !AllSatisfy(FormatInt(n), IsWhiteSpace)
  {
    var s := FormatInt(n);
    FormatIntText(n);
    assert !IsWhiteSpace(s[0]) && !IsWhiteSpace(s[|s| - 1]);
    TrimNothing(s, IsWhiteSpace);
  }

  /** `long.ToString()` text starts with a digit or `-` and ends with a digit. */
  lemma FormatIntText(n: int)
    ensures |FormatInt(n)| > 0
    ensures IsDigit(FormatInt(n)[|FormatInt(n)| - 1])
    ensures IsDigit(FormatInt(n)[0]) || FormatInt(n)[0] == '-'
  {
    if n < 0 {
      var d := FormatNat(-n);
      assert FormatInt(n)[|FormatInt(n)| - 1] == d[|d| - 1];
    }
  }
}
