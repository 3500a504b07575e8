/** Dates, issuers, serials and the keys composed of them: storage/types.go, and the
    key builders of storage/knowncertificates.go and storage/filesystemdatabase.go.
    Instants are milliseconds since the start of year 0, UTC.
 */
module Identifiers {
  import opened Options
  import opened Text
  import opened Base64
  import opened Calendar

  const HOUR: int := 3_600_000

  // -------------------------------------------------------------------- ExpDate

  datatype ExpDate = ExpDate(date: int, lastGood: int, hourResolution: bool)

  function NewExpDateFromTime(t: int): ExpDate {
    var truncated := t - t % HOUR;
    ExpDate(truncated, truncated - 1, true)
  }

  function NewExpDate(s: string): Result<ExpDate> {
    if |s| > 10 && ParseHour(s).Ok? then
      var date := ParseHour(s).value * HOUR;
      Ok(ExpDate(date, date + HOUR - 1, true))
    else if ParseDay(s).Ok? then
      var date := ParseDay(s).value * HOUR;
      Ok(ExpDate(date, date + 24 * HOUR - 1, false))
    else Err
  }

  predicate IsExpiredAt(e: ExpDate, t: int) {
    e.lastGood < t
  }

  /** A date as the constructors make it: at the start of its unit, in years 0 to 9999. */
  predicate Regular(e: ExpDate) {
    e.date % HOUR == 0 && InRange(e.date / HOUR) && (!e.hourResolution ==> e.date / HOUR % 24 == 0)
  }

  function DateId(e: ExpDate): string
    requires InRange(e.date / HOUR)
  {
    if e.hourResolution then FormatHour(e.date / HOUR) else FormatDay(e.date / HOUR)
  }

  /** Printing a regular date and parsing it back gives its date and resolution. */
  lemma ParseUndoesDateId(e: ExpDate)
    requires Regular(e)
    ensures NewExpDate(DateId(e)).Ok?
    ensures var p := NewExpDate(DateId(e)).value;
            p.date == e.date && p.hourResolution == e.hourResolution &&
            p.lastGood == e.date + (if e.hourResolution then HOUR else 24 * HOUR) - 1
    ensures |DateId(e)| == if e.hourResolution then 13 else 10
  {
    var h := e.date / HOUR;
    assert h * HOUR == e.date;
    if e.hourResolution {
      ParseUndoesFormatHour(h);
    } else {
      ParseUndoesFormatDay(h);
    }
  }

  /** A date made from a time prints to an ID that parses to the same hour and prints
      the same again, but is good for exactly one hour longer; the time it was made
      from counts as expired for the one and as good for the other. */
  lemma DateFromTimeRoundTrip(t: int)
    requires t >= 0 && InRange(t / HOUR)
    ensures var e := NewExpDateFromTime(t);
            Regular(e) && NewExpDate(DateId(e)).Ok? &&
            var p := NewExpDate(DateId(e)).value;
            && p.date == e.date && p.hourResolution && e.hourResolution && DateId(p) == DateId(e)
            && p.lastGood == e.lastGood + HOUR
            && IsExpiredAt(e, t) && !IsExpiredAt(p, t)
  {
    var e := NewExpDateFromTime(t);
    assert e.date == t / HOUR * HOUR;
    ParseUndoesDateId(e);
  }

  predicate SameDate(e: ExpDate, f: ExpDate) {
    e.date == f.date && e.hourResolution == f.hourResolution
  }

  lemma WholeHours(h: int)
    ensures h * HOUR % HOUR == 0 && h * HOUR / HOUR == h
  {
  }

  lemma ParsedIsRegular(s: string)
    requires NewExpDate(s).Ok?
    ensures Regular(NewExpDate(s).value) && NewExpDate(s).value == AsParsed(NewExpDate(s).value)
  {
    if |s| > 10 && ParseHour(s).Ok? {
      ParsedHourIsInRange(s);
      WholeHours(ParseHour(s).value);
    } else {
      ParsedDayIsInRange(s);
      WholeHours(ParseDay(s).value);
    }
  }

  /** The date as parsing its ID gives it: good until the last instant of its unit. */
  function AsParsed(e: ExpDate): ExpDate {
    e.(lastGood := e.date + (if e.hourResolution then HOUR else 24 * HOUR) - 1)
  }

  lemma ParsedDateComesBack(e: ExpDate)
    requires Regular(e)
    ensures NewExpDate(DateId(e)) == Ok(AsParsed(e))
  {
    ParseUndoesDateId(e);
    FieldsMakeParsed(NewExpDate(DateId(e)), e);
  }

  lemma FieldsMakeParsed(r: Result<ExpDate>, e: ExpDate)
    requires r.Ok? && r.value.date == e.date && r.value.hourResolution == e.hourResolution
    requires r.value.lastGood == e.date + (if e.hourResolution then HOUR else 24 * HOUR) - 1
    ensures r == Ok(AsParsed(e))
  {
  }

  /** Whatever text parses, its date is regular and survives printing unchanged. */
  lemma PrintUndoesParse(s: string, e: ExpDate)
    requires NewExpDate(s) == Ok(e)
    ensures Regular(e) && NewExpDate(DateId(e)) == Ok(e)
  {
    ParsedIsRegular(s);
    ParsedDateComesBack(e);
  }

  /** An ID names one date at one resolution: no day ID is an hour ID. */
  lemma DateIdIsInjective(e: ExpDate, f: ExpDate)
    requires Regular(e) && Regular(f)
    ensures DateId(e) == DateId(f) <==> e.date == f.date && e.hourResolution == f.hourResolution
  {
    ParseUndoesDateId(e);
    ParseUndoesDateId(f);
  }

  lemma DateIdIsPlain(e: ExpDate)
    requires Regular(e)
    ensures ':' !in DateId(e) && '/' !in DateId(e)
  {
    PrintedDateForm(e.date / HOUR);
    assert !DateChar(':') && !DateChar('/');
  }

  // --------------------------------------------------------------------- issuers

  /** `Issuer.ID` of an issuer made from a certificate: its 32-byte key digest. */
  function DigestId(digest: seq<byte>): string
    requires |digest| == 32
  {
    Encode(digest)
  }

  lemma EncodedIsPlain(bytes: seq<byte>)
    ensures ':' !in Encode(bytes) && '/' !in Encode(bytes)
  {
    EncodedForm(bytes);
    assert !InAlphabet(':') && !InAlphabet('/');
  }

  predicate EndsInColon(s: string) {
    s != "" && s[|s| - 1] == ':'
  }

  // ------------------------------------------------------- UniqueCertIdentifier

  datatype UniqueCertIdentifier = UniqueCertIdentifier(expDate: ExpDate, issuer: string, serial: seq<byte>)

  function PrintUnique(u: UniqueCertIdentifier): string
    requires Regular(u.expDate)
  {
    DateId(u.expDate) + "::" + u.issuer + "::" + Encode(u.serial)
  }

  function ParseUnique(s: string): Result<UniqueCertIdentifier> {
    FromParts(Split(s, "::"))
  }

  function FromParts(parts: seq<string>): Result<UniqueCertIdentifier> {
    if |parts| != 3 || NewExpDate(parts[0]).Err? || Decode(parts[2]).Err? then Err
    else Ok(UniqueCertIdentifier(NewExpDate(parts[0]).value, parts[1], Decode(parts[2]).value))
  }

  /** The identifier that was printed comes back: date, resolution, issuer and serial. */
  predicate UniqueRecovers(u: UniqueCertIdentifier)
    requires Regular(u.expDate)
  {
    Recovered(ParseUnique(PrintUnique(u)), u.expDate, u.issuer, u.serial)
  }

  /** Splitting after a text without colons. */
  lemma SplitAfterPlain(a: string, b: string)
    requires ':' !in a
    ensures Split(a + "::" + b, "::") == [a] + Split(b, "::")
  {
    NoColonIsClean(a);
    SplitAfter(a, "::", b);
  }

  /** Two parts joined, the second without colons: the first comes back exactly when it
      ends cleanly. */
  lemma SplitPair(a: string, b: string)
    requires ':' !in b
    ensures EndsCleanly(a, "::") ==> Split(a + "::" + b, "::") == [a, b]
    ensures !EndsCleanly(a, "::") ==> Split(a + "::" + b, "::")[0] != a
  {
    SplitAfter(a, "::", b);
    NoColonIsClean(b);
    SplitWhole(b, "::");
  }

  lemma JoinedRight(a: string, b: string, c: string, d: string, e: string)
    ensures a + b + c + d + e == a + b + (c + d + e)
  {
  }

  lemma PrintedParts(d: string, issuer: string, serial: string)
    requires ':' !in d && ':' !in serial
    ensures var parts := Split(d + "::" + issuer + "::" + serial, "::");
            if EndsCleanly(issuer, "::") then parts == [d, issuer, serial]
            else |parts| >= 2 && parts[1] != issuer
  {
    var rest := issuer + "::" + serial;
    SplitAfterPlain(d, rest);
    SplitPair(issuer, serial);
    JoinedRight(d, "::", issuer, "::", serial);
  }

  predicate Recovered(r: Result<UniqueCertIdentifier>, e: ExpDate, issuer: string, serial: seq<byte>) {
    r.Ok? && SameDate(r.value.expDate, e) && r.value.issuer == issuer && r.value.serial == serial
  }

  lemma PrintedIsRecovered(d: string, e: ExpDate, issuer: string, serial: seq<byte>)
    requires ':' !in d && NewExpDate(d).Ok? && SameDate(NewExpDate(d).value, e)
    ensures Recovered(ParseUnique(d + "::" + issuer + "::" + Encode(serial)), e, issuer, serial) <==>
            EndsCleanly(issuer, "::")
  {
    EncodedIsPlain(serial);
    PrintedParts(d, issuer, Encode(serial));
    DecodeUndoesEncode(serial);
  }

  /** Printing then parsing recovers the identifier exactly when the issuer ID holds
      no "::" and does not end in ':'. */
  lemma UniqueRecoversExactly(u: UniqueCertIdentifier)
    requires Regular(u.expDate)
    ensures UniqueRecovers(u) <==> !Contains(u.issuer, "::") && !EndsInColon(u.issuer)
  {
    DateIdIsPlain(u.expDate);
    ParseUndoesDateId(u.expDate);
    PrintedIsRecovered(DateId(u.expDate), u.expDate, u.issuer, u.serial);
    CleanForColons(u.issuer);
  }

  lemma DigestIsClean(digest: seq<byte>)
    requires |digest| == 32
    ensures |DigestId(digest)| == 44 && !Contains(DigestId(digest), "::") && !EndsInColon(DigestId(digest))
  {
    EncodedForm(digest);
    EncodedIsPlain(digest);
    NoColonIsClean(DigestId(digest));
  }

  /** So identifiers of certificates issued under a digest always come back. */
  lemma DigestIssuersAlwaysRecover(u: UniqueCertIdentifier, digest: seq<byte>)
    requires Regular(u.expDate) && |digest| == 32 && u.issuer == DigestId(digest)
    ensures UniqueRecovers(u)
  {
    DigestIsClean(digest);
    UniqueRecoversExactly(u);
  }

  // --------------------------------------------------------------- IssuerAndDate

  datatype IssuerAndDate = IssuerAndDate(expDate: ExpDate, issuer: string)

  function PrintIssuerAndDate(d: IssuerAndDate): string
    requires Regular(d.expDate)
  {
    DateId(d.expDate) + "/" + d.issuer
  }

  function ParseIssuerAndDate(s: string): Result<IssuerAndDate> {
    var parts := Split(s, "/");
    if |parts| != 2 || NewExpDate(parts[0]).Err? then Err
    else Ok(IssuerAndDate(NewExpDate(parts[0]).value, parts[1]))
  }

  /** It comes back exactly when the issuer ID holds no '/'; otherwise there is an error. */
  lemma IssuerAndDateRecoversExactly(d: IssuerAndDate)
    requires Regular(d.expDate)
    ensures var r := ParseIssuerAndDate(PrintIssuerAndDate(d));
            if '/' in d.issuer then r.Err?
            else r.Ok? && r.value.expDate.date == d.expDate.date && r.value.issuer == d.issuer &&
                 r.value.expDate.hourResolution == d.expDate.hourResolution
  {
    DateIdIsPlain(d.expDate);
    SlashParts(DateId(d.expDate), d.issuer);
    ParseUndoesDateId(d.expDate);
  }

  lemma SlashParts(id: string, issuer: string)
    requires '/' !in id
    ensures var parts := Split(id + "/" + issuer, "/");
            if '/' in issuer then |parts| >= 3 else parts == [id, issuer]
  {
    CleanForChar(id, '/');
    CleanForChar(issuer, '/');
    SplitAfter(id, "/", issuer);
    if '/' in issuer {
      SplitHasMany(issuer, "/");
    } else {
      SplitWhole(issuer, "/");
    }
  }

  // --------------------------------------------------------------------- buckets

  const SERIALS: string := "serials"

  /** `KnownCertificates.serialId`: the remote key of a bucket's serials. */
  function SerialKey(e: ExpDate, issuer: string): string
    requires Regular(e)
  {
    SERIALS + "::" + (DateId(e) + "::" + issuer)
  }

  /** The bucket a serial key stands for, as `GetIssuerAndDatesFromCache` reads it. */
  datatype KeyReading = Malformed | BadDate | Bucket(date: ExpDate, issuer: string)

  function ReadKey(key: string): KeyReading {
    var parts := Split(key, "::");
    if |parts| != 3 then Malformed
    else if NewExpDate(parts[1]).Err? then BadDate
    else Bucket(NewExpDate(parts[1]).value, parts[2])
  }

  lemma KeyIsReadBack(d: string, e: ExpDate, issuer: string)
    requires ':' !in d && NewExpDate(d) == Ok(e)
    ensures ReadKey(SERIALS + "::" + (d + "::" + issuer)) ==
            if Contains(issuer, "::") then Malformed else Bucket(e, issuer)
  {
    SplitAfterPlain(SERIALS, d + "::" + issuer);
    SplitAfterPlain(d, issuer);
    if Contains(issuer, "::") {
      SplitHasMany(issuer, "::");
    } else {
      SplitWhole(issuer, "::");
    }
  }

  /** A serial key is read back as its own bucket exactly when the issuer ID holds no
      "::"; otherwise the key counts as malformed. A leading or trailing ':' is harmless. */
  lemma SerialKeyIsReadExactly(e: ExpDate, issuer: string)
    requires Regular(e)
    ensures ReadKey(SerialKey(e, issuer)) ==
            if Contains(issuer, "::") then Malformed else Bucket(AsParsed(e), issuer)
  {
    DateIdIsPlain(e);
    ParsedDateComesBack(e);
    KeyIsReadBack(DateId(e), AsParsed(e), issuer);
  }

  /** The order of the parts in the three kinds of composite text. */
  lemma PartsInOrder(e: ExpDate, issuer: string, serial: seq<byte>)
    requires Regular(e) && ':' !in issuer && '/' !in issuer
    ensures Split(PrintUnique(UniqueCertIdentifier(e, issuer, serial)), "::") == [DateId(e), issuer, Encode(serial)]
    ensures Split(PrintIssuerAndDate(IssuerAndDate(e, issuer)), "/") == [DateId(e), issuer]
    ensures Split(SerialKey(e, issuer), "::") == [SERIALS, DateId(e), issuer]
  {
    DateIdIsPlain(e);
    EncodedIsPlain(serial);
    NoColonIsClean(issuer);
    PrintedParts(DateId(e), issuer, Encode(serial));
    SlashParts(DateId(e), issuer);
    SplitAfterPlain(SERIALS, DateId(e) + "::" + issuer);
    SplitPair(DateId(e), issuer);
    NoColonIsClean(DateId(e));
  }

  /** `GetKnownCertificates`' local key, which has no separator. */
  function LocalKey(e: ExpDate, issuer: string): string
    requires Regular(e)
  {
    DateId(e) + issuer
  }

  /** Local keys of issuer IDs of one length, as digests are, or of dates of one
      resolution, as `Store` makes them, are distinct for distinct buckets. */
  lemma LocalKeyIsInjective(e: ExpDate, i: string, f: ExpDate, j: string)
    requires Regular(e) && Regular(f)
    requires |i| == |j| || e.hourResolution == f.hourResolution
    ensures LocalKey(e, i) == LocalKey(f, j) <==> SameDate(e, f) && i == j
  {
    ParseUndoesDateId(e);
    ParseUndoesDateId(f);
    DateIdIsInjective(e, f);
    if |DateId(e)| == |DateId(f)| {
      EqualHalves(DateId(e), i, DateId(f), j);
    }
  }

  lemma EqualHalves(a: string, i: string, b: string, j: string)
    requires |a| == |b|
    ensures a + i == b + j <==> a == b && i == j
  {
    assert (a + i)[..|a|] == a && (a + i)[|a|..] == i;
    assert (b + j)[..|b|] == b && (b + j)[|b|..] == j;
  }

  /** Otherwise they collide exactly when the day's issuer ID begins with the hour. */
  lemma LocalKeyCollidesExactly(day: ExpDate, i: string, hour: ExpDate, j: string)
    requires Regular(day) && Regular(hour) && !day.hourResolution && hour.hourResolution
    ensures LocalKey(day, i) == LocalKey(hour, j) <==>
            DateId(day) == FormatDay(hour.date / HOUR) && i == "-" + Pad2(hour.date / HOUR % 24) + j
  {
    var h := hour.date / HOUR;
    ParseUndoesFormatDay(h);
    ParseUndoesFormatDay(day.date / HOUR);
    LongerHead(DateId(day), i, FormatDay(h), "-", Pad2(h % 24), j);
  }

  lemma LongerHead(a: string, i: string, d: string, dash: string, p: string, j: string)
    requires |a| == |d|
    ensures a + i == (d + dash + p) + j <==> a == d && i == dash + p + j
  {
    assert (d + dash + p) + j == d + (dash + p + j);
    EqualHalves(a, i, d, dash + p + j);
  }
}
