/**
 The anti-corruption layer: the provider payload shapes, the integrity check on IDNow
 documents, and the pure conversions of each payload into the canonical records. The
 fetches themselves are I/O and are not modelled; the fetch functions below start from
 the response already received.
 */
module Repository {
  import opened Wrappers
  import opened Types
  import opened StringOps

  // ---------------------------------- IDNow ----------------------------------

  datatype IdNowIdentityData = IdNowIdentityData(name: string, birthdate: string)

  datatype IdNowPerson = IdNowPerson(identityData: IdNowIdentityData)

  datatype IdNowDocumentReport = IdNowDocumentReport(persons: seq<IdNowPerson>)

  /** The `type` field of an IDNow response. */
  datatype IdNowDocumentType = ID | IBAN | CHEQUE

  /** `lastReport` may be absent (`undefined`). */
  datatype IdNowDocumentResponse =
    IdNowDocumentResponse(uid: string, documentType: IdNowDocumentType, lastReport: Option<IdNowDocumentReport>)

  // ------------------------------ OtherProvider ------------------------------

  datatype OtherProviderUser = OtherProviderUser(name: string, birthDate: BirthDate)

  /** The numeric document id is a natural number here. */
  datatype OtherProviderDocumentResponse = OtherProviderDocumentResponse(id: nat, user: OtherProviderUser)

  // ----------------------------------- DB ------------------------------------

  /** A person row of the local store, with the store's own column names. */
  datatype DbPerson = DbPerson(first_name: string, last_name: string, birth_date: BirthDate)

  // --------------------------------- Errors ----------------------------------

  /** What makes an adapter fail instead of producing a canonical record. */
  datatype AdapterError =
    | DocumentShouldBeAnId   // the error thrown by the integrity check
    | NoReportedPerson       // `lastReport` absent or `persons` empty: reading `identityData` of `undefined`
    | MissingLastName        // the name has no space, so `split(" ")[1]` is `undefined`
    | MalformedBirthDate     // fewer than three dash-separated segments, or one that is not all digits

  // ------------------------- Integrity check (IDNow) -------------------------

  /** Only identity documents pass; bank (IBAN) and cheque documents are refused. */
  function CheckDocumentIsId(document: IdNowDocumentResponse): (r: Outcome<AdapterError>)
    ensures r == Pass <==> document.documentType == ID
    ensures r != Pass ==> r == Fail(DocumentShouldBeAnId)
  {
    var isValid := document.documentType == ID;
    if !isValid then Fail(DocumentShouldBeAnId) else Pass
  }

  // ------------------------------- Conversions -------------------------------

  /** Token 0 of `name.split(" ")`: the text before the first space, or all of `name`. */
  function ExtractFirstName(name: string): (first: string)
    ensures first <= name
    ensures ' ' !in first
    ensures |first| == |name| || name[|first|] == ' '
  {
    JoinHead(Split(name, ' '), ' ');
    Split(name, ' ')[0]
  }

  /**
   Token 1 of `name.split(" ")`: the text between the first and the second space (or the
   end); absent when `name` has no space. Tokens after it are dropped.
   */
  function ExtractLastName(name: string): (last: Option<string>)
    ensures last.Some? <==> ' ' in name
    ensures last.Some? ==>
      var start := |ExtractFirstName(name)| + 1;
      var end := start + |last.value|;
      && end <= |name|
      && name[start..end] == last.value
      && ' ' !in last.value
      && (end == |name| || name[end] == ' ')
  {
    var parts := Split(name, ' ');
    JoinHead(parts, ' ');
    if |parts| > 1 then
      JoinHead(parts[1..], ' ');
      assert parts[1..][0] == parts[1];
      var start := |parts[0]| + 1;
      assert name[start..][..|parts[1]|] == name[start..start + |parts[1]|];
      Some(parts[1])
    else
      None
  }

  /**
   `birthDate.split("-").map((info) => parseInt(info))`, then year, month and day from segments 0, 1 and 2.
   Further segments are ignored.
   */
  function ConvertBirthdate(birthDate: string): (r: Result<BirthDate, AdapterError>)
    ensures r.Ok? ==> r.value.day >= 0 && r.value.month >= 0 && r.value.year >= 0
    ensures r.Err? ==> r.error == MalformedBirthDate
  {
    var segments := Split(birthDate, '-');
    var infos := seq(|segments|, i requires 0 <= i < |segments| => ParseInt(segments[i]));
    if |infos| < 3 || infos[0].None? || infos[1].None? || infos[2].None? then
      Err(MalformedBirthDate)
    else
      Ok(BirthDate(day := infos[2].value, month := infos[1].value, year := infos[0].value))
  }

  /** The IDNow response as an identity document, from its first reported person only. */
  function ConvertIdNowResponseToDomainDocument(idNowDocument: IdNowDocumentResponse): (r: Result<IdDocument, AdapterError>)
    ensures idNowDocument.lastReport.None? ==> r == Err(NoReportedPerson)
    ensures idNowDocument.lastReport.Some? && |idNowDocument.lastReport.value.persons| == 0 ==> r == Err(NoReportedPerson)
    ensures r.Ok? <==>
      && idNowDocument.lastReport.Some?
      && |idNowDocument.lastReport.value.persons| > 0
      && ' ' in idNowDocument.lastReport.value.persons[0].identityData.name
      && ConvertBirthdate(idNowDocument.lastReport.value.persons[0].identityData.birthdate).Ok?
    ensures idNowDocument.lastReport.Some? && |idNowDocument.lastReport.value.persons| > 0 ==>
      var data := idNowDocument.lastReport.value.persons[0].identityData;
      && (' ' !in data.name ==> r == Err(MissingLastName))
      && (' ' in data.name && ConvertBirthdate(data.birthdate).Err? ==> r == Err(MalformedBirthDate))
    ensures r.Ok? ==>
      && r.value.id == idNowDocument.uid
      && idNowDocument.lastReport.Some?
      && |idNowDocument.lastReport.value.persons| > 0
      && var data := idNowDocument.lastReport.value.persons[0].identityData;
      && r.value.person.firstName == ExtractFirstName(data.name)
      && ExtractLastName(data.name) == Some(r.value.person.lastName)
      && ConvertBirthdate(data.birthdate) == Ok(r.value.person.birthDate)
  {
    match idNowDocument.lastReport
    case None => Err(NoReportedPerson)
    case Some(report) =>
      if |report.persons| == 0 then Err(NoReportedPerson)
      else
        var idNowPerson := report.persons[0];
        var firstName := ExtractFirstName(idNowPerson.identityData.name);
        match ExtractLastName(idNowPerson.identityData.name)
        case None => Err(MissingLastName)
        case Some(lastName) =>
          match ConvertBirthdate(idNowPerson.identityData.birthdate)
          case Err(e) => Err(e)
          case Ok(birthDate) => Ok(IdDocument(idNowDocument.uid, Person(firstName, lastName, birthDate)))
  }

  /** The alternate provider's response as an identity document; the birth date is passed through. */
  function ConvertOtherProviderResponseToDomainDocument(otherProviderDocument: OtherProviderDocumentResponse): (r: Result<IdDocument, AdapterError>)
    ensures r.Ok? <==> ' ' in otherProviderDocument.user.name
    ensures r.Err? ==> r.error == MissingLastName
    ensures r.Ok? ==>
      && IsDecimal(r.value.id)
      && ParseDecimal(r.value.id) == otherProviderDocument.id
      && (r.value.id[0] == '0' ==> r.value.id == "0")
      && r.value.person.firstName == ExtractFirstName(otherProviderDocument.user.name)
      && ExtractLastName(otherProviderDocument.user.name) == Some(r.value.person.lastName)
      && r.value.person.birthDate == otherProviderDocument.user.birthDate
  {
    var name := otherProviderDocument.user.name;
    match ExtractLastName(name)
    case None => Err(MissingLastName)
    case Some(lastName) =>
      Ok(IdDocument(NatToString(otherProviderDocument.id),
                    Person(ExtractFirstName(name), lastName, otherProviderDocument.user.birthDate)))
  }

  /** The local store's row as a canonical person: a renaming of the three fields. */
  function ConvertDbPersonToDomainPerson(dbPerson: DbPerson): (r: Person)
    ensures r.firstName == dbPerson.first_name
    ensures r.lastName == dbPerson.last_name
    ensures r.birthDate == dbPerson.birth_date
  {
    Person(dbPerson.first_name, dbPerson.last_name, dbPerson.birth_date)
  }

  // ----------------------------- Fetch pipelines -----------------------------

  /** The IDNow pipeline after the fetch: the integrity check first, then the conversion. */
  function FetchIdentityDocumentByIdNow(document: IdNowDocumentResponse): (r: Result<IdDocument, AdapterError>)
    ensures document.documentType != ID ==> r == Err(DocumentShouldBeAnId)
    ensures document.documentType == ID ==> r == ConvertIdNowResponseToDomainDocument(document)
  {
    match CheckDocumentIsId(document)
    case Fail(e) => Err(e)
    case Pass => ConvertIdNowResponseToDomainDocument(document)
  }

  /** The alternate provider's pipeline after the fetch: a conversion with no integrity check. */
  function FetchIdentityDocumentByOtherProvider(document: OtherProviderDocumentResponse): (r: Result<IdDocument, AdapterError>)
    ensures r == ConvertOtherProviderResponseToDomainDocument(document)
    ensures r.Err? ==> r == Err(MissingLastName)
  {
    ConvertOtherProviderResponseToDomainDocument(document)
  }

  // --------------------------------- Lemmas ----------------------------------

  /** A two-token name splits back into exactly its two tokens. */
  lemma TwoTokenNameRoundTrip(first: string, last: string)
    requires ' ' !in first && ' ' !in last
    ensures ExtractFirstName(first + " " + last) == first
    ensures ExtractLastName(first + " " + last) == Some(last)
  {
    SplitAtFirstSeparator(first, ' ', last);
    SplitWithoutSeparator(last, ' ');
  }

  /** The split rule is lossy: everything after the second token is dropped. */
  lemma FurtherNameTokensDropped(first: string, last: string, rest: string)
    requires ' ' !in first && ' ' !in last
    ensures ExtractFirstName(first + " " + last + " " + rest) == first
    ensures ExtractLastName(first + " " + last + " " + rest) == Some(last)
  {
    assert first + " " + last + " " + rest == first + [' '] + (last + [' '] + rest);
    SplitAtFirstSeparator(first, ' ', last + [' '] + rest);
    SplitAtFirstSeparator(last, ' ', rest);
  }

  lemma DecimalHasNoDash(s: string)
    requires IsDecimal(s)
    ensures '-' !in s
  {
  }

  /** Year, month and day are read from segments 0, 1 and 2 of a `Y-M-D` string of digits. */
  lemma BirthdateFromSegments(y: string, m: string, d: string)
    requires IsDecimal(y) && IsDecimal(m) && IsDecimal(d)
    ensures ConvertBirthdate(y + "-" + m + "-" + d)
         == Ok(BirthDate(day := ParseDecimal(d), month := ParseDecimal(m), year := ParseDecimal(y)))
  {
    DecimalHasNoDash(y);
    DecimalHasNoDash(m);
    DecimalHasNoDash(d);
    assert y + "-" + m + "-" + d == y + ['-'] + (m + ['-'] + d);
    SplitAtFirstSeparator(y, '-', m + ['-'] + d);
    SplitAtFirstSeparator(m, '-', d);
    SplitWithoutSeparator(d, '-');
  }

  /** Segments after the third are ignored. */
  lemma BirthdateExtraSegmentsIgnored(y: string, m: string, d: string, rest: string)
    requires IsDecimal(y) && IsDecimal(m) && IsDecimal(d)
    ensures ConvertBirthdate(y + "-" + m + "-" + d + "-" + rest) == ConvertBirthdate(y + "-" + m + "-" + d)
  {
    BirthdateFromSegments(y, m, d);
    DecimalHasNoDash(y);
    DecimalHasNoDash(m);
    DecimalHasNoDash(d);
    assert y + "-" + m + "-" + d + "-" + rest == y + ['-'] + (m + ['-'] + (d + ['-'] + rest));
    SplitAtFirstSeparator(y, '-', m + ['-'] + (d + ['-'] + rest));
    SplitAtFirstSeparator(m, '-', d + ['-'] + rest);
    SplitAtFirstSeparator(d, '-', rest);
  }

  /** A date written as `Y-M-D` with plain decimal numbers reads back as that date. */
  lemma BirthdateRoundTrip(b: BirthDate)
    requires b.day >= 0 && b.month >= 0 && b.year >= 0
    ensures ConvertBirthdate(NatToString(b.year) + "-" + NatToString(b.month) + "-" + NatToString(b.day)) == Ok(b)
  {
    BirthdateFromSegments(NatToString(b.year), NatToString(b.month), NatToString(b.day));
  }

  /** A date without a dash has fewer than three segments and is refused. */
  lemma BirthdateWithoutDashRejected(s: string)
    requires '-' !in s
    ensures ConvertBirthdate(s) == Err(MalformedBirthDate)
  {
  }

  /** A date with only one dash has two segments, fewer than three, and is refused. */
  lemma BirthdateWithTwoSegmentsRejected(y: string, m: string)
    requires IsDecimal(y) && IsDecimal(m)
    ensures ConvertBirthdate(y + "-" + m) == Err(MalformedBirthDate)
  {
    DecimalHasNoDash(y);
    DecimalHasNoDash(m);
    SplitAtFirstSeparator(y, '-', m);
    SplitWithoutSeparator(m, '-');
  }

  /** A dash-separated segment that is not all digits makes the date unparseable. */
  lemma BirthdateWithNonDigitSegmentRejected(y: string, m: string, d: string)
    requires '-' !in y && '-' !in m && '-' !in d
    requires !IsDecimal(y) || !IsDecimal(m) || !IsDecimal(d)
    ensures ConvertBirthdate(y + "-" + m + "-" + d) == Err(MalformedBirthDate)
  {
    assert y + "-" + m + "-" + d == y + ['-'] + (m + ['-'] + d);
    SplitAtFirstSeparator(y, '-', m + ['-'] + d);
    SplitAtFirstSeparator(m, '-', d);
    SplitWithoutSeparator(d, '-');
  }

  /** Only the first reported person is read: the others never influence the document. */
  lemma OnlyFirstReportedPersonRead(a: IdNowDocumentResponse, b: IdNowDocumentResponse)
    requires a.uid == b.uid && a.lastReport.Some? && b.lastReport.Some?
    requires |a.lastReport.value.persons| > 0 && |b.lastReport.value.persons| > 0
    requires a.lastReport.value.persons[0] == b.lastReport.value.persons[0]
    ensures ConvertIdNowResponseToDomainDocument(a) == ConvertIdNowResponseToDomainDocument(b)
  {
  }

  /** An IDNow identity document for a two-token name and a `Y-M-D` date converts to exactly those fields. */
  lemma IdNowConversionOfWellFormedPerson(response: IdNowDocumentResponse, first: string, last: string, y: string, m: string, d: string)
    requires ' ' !in first && ' ' !in last && IsDecimal(y) && IsDecimal(m) && IsDecimal(d)
    requires response.documentType == ID && response.lastReport.Some? && |response.lastReport.value.persons| > 0
    requires response.lastReport.value.persons[0].identityData == IdNowIdentityData(first + " " + last, y + "-" + m + "-" + d)
    ensures FetchIdentityDocumentByIdNow(response)
         == Ok(IdDocument(response.uid, Person(first, last, BirthDate(ParseDecimal(d), ParseDecimal(m), ParseDecimal(y)))))
  {
    TwoTokenNameRoundTrip(first, last);
    BirthdateFromSegments(y, m, d);
  }

  /** The store's rename loses nothing: distinct rows give distinct persons. */
  lemma DbPersonConversionInjective(a: DbPerson, b: DbPerson)
    requires ConvertDbPersonToDomainPerson(a) == ConvertDbPersonToDomainPerson(b)
    ensures a == b
  {
  }
}
