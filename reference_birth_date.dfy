/**
 The birth-date guard as the matcher writes it. In the source a birth date is an object
 and the guard uses `!==`, which compares object identity: two birth-date objects with
 the same day, month and year still differ. This module models that reading, shows
 that it rejects equal dates held in distinct objects, and relates it to the value
 comparison the rest of the model uses.
 */
module ReferenceBirthDate {
  import opened Wrappers
  import opened Types
  import Domain
  import Repository

  /** A birth-date object: immutable fields, identity given by the reference. */
  class BirthDateObject {
    const day: int
    const month: int
    const year: int

    constructor (day: int, month: int, year: int)
      ensures this.day == day && this.month == month && this.year == year
    {
      this.day := day;
      this.month := month;
      this.year := year;
    }
  }

  datatype PersonRecord = PersonRecord(firstName: string, lastName: string, birthDate: BirthDateObject)

  datatype IdDocumentRecord = IdDocumentRecord(id: string, person: PersonRecord)

  function DateValue(b: BirthDateObject): BirthDate
  {
    BirthDate(b.day, b.month, b.year)
  }

  function PersonValue(p: PersonRecord): Person
  {
    Person(p.firstName, p.lastName, DateValue(p.birthDate))
  }

  function DocumentValue(d: IdDocumentRecord): IdDocument
  {
    IdDocument(d.id, PersonValue(d.person))
  }

  /** The four guards as written, the last one comparing the birth-date references. */
  function DoesPersonMatchDocumentAsWritten(person: PersonRecord, identityDocument: IdDocumentRecord, dependencies: Dependencies): (s: Status)
    ensures s == Valid <==>
      && person.firstName <= identityDocument.person.firstName
      && person.lastName == identityDocument.person.lastName
      && dependencies.checkPersonNameInOfficialRegister(person.firstName + " " + person.lastName)
      && person.birthDate == identityDocument.person.birthDate
  {
    if !Domain.FirstNamesMatch(person.firstName, identityDocument.person.firstName) then
      Invalid
    else if person.lastName != identityDocument.person.lastName then
      Invalid
    else if !dependencies.checkPersonNameInOfficialRegister(person.firstName + " " + person.lastName) then
      Invalid
    else if person.birthDate != identityDocument.person.birthDate then
      Invalid
    else
      Valid
  }

  /** When both sides hold the very same birth-date object, both readings agree (the situation of the unit tests). */
  lemma AsWrittenAgreesOnSharedBirthDate(person: PersonRecord, identityDocument: IdDocumentRecord, dependencies: Dependencies)
    requires person.birthDate == identityDocument.person.birthDate
    ensures DoesPersonMatchDocumentAsWritten(person, identityDocument, dependencies)
         == Domain.DoesPersonMatchDocument(PersonValue(person), DocumentValue(identityDocument), dependencies)
  {
  }

  /** The reference reading is stricter: whatever it accepts, the value reading accepts too. */
  lemma AsWrittenValidImpliesValueValid(person: PersonRecord, identityDocument: IdDocumentRecord, dependencies: Dependencies)
    requires DoesPersonMatchDocumentAsWritten(person, identityDocument, dependencies) == Valid
    ensures Domain.DoesPersonMatchDocument(PersonValue(person), DocumentValue(identityDocument), dependencies) == Valid
  {
  }

  /** Two distinct birth-date objects are rejected as written, even with equal fields. */
  lemma AsWrittenRejectsDistinctObjects(person: PersonRecord, identityDocument: IdDocumentRecord, dependencies: Dependencies)
    requires person.birthDate != identityDocument.person.birthDate
    ensures DoesPersonMatchDocumentAsWritten(person, identityDocument, dependencies) == Invalid
  {
  }

  /**
   The discrepancy on a concrete input: "Jane Doe" born 1 January 1990 on both sides,
   each date in its own object, with a register that accepts every name.
   */
  method EqualDatesInDistinctObjects() returns (asWritten: Status, intended: Status)
    ensures asWritten == Invalid
    ensures intended == Valid
  {
    var personDate := new BirthDateObject(1, 1, 1990);
    var documentDate := new BirthDateObject(1, 1, 1990);
    var person := PersonRecord("Jane", "Doe", personDate);
    var identityDocument := IdDocumentRecord("1234", PersonRecord("Jane", "Doe", documentDate));
    var dependencies := Dependencies(name => true);
    asWritten := DoesPersonMatchDocumentAsWritten(person, identityDocument, dependencies);
    intended := Domain.DoesPersonMatchDocument(PersonValue(person), DocumentValue(identityDocument), dependencies);
    Domain.DocumentOfSamePersonMatches(PersonValue(person), "1234", dependencies);
  }

  /**
   The IDNow conversion as written: `convertBirthdate` builds a new object literal,
   so every converted document carries a freshly allocated birth date.
   */
  method ConvertIdNowResponseAsWritten(response: Repository.IdNowDocumentResponse) returns (r: Result<IdDocumentRecord, Repository.AdapterError>)
    ensures Repository.ConvertIdNowResponseToDomainDocument(response).Err? ==> r == Err(Repository.ConvertIdNowResponseToDomainDocument(response).error)
    ensures Repository.ConvertIdNowResponseToDomainDocument(response).Ok? ==>
      r.Ok? && DocumentValue(r.value) == Repository.ConvertIdNowResponseToDomainDocument(response).value && fresh(r.value.person.birthDate)
  {
    match Repository.ConvertIdNowResponseToDomainDocument(response)
    case Err(e) =>
      r := Err(e);
    case Ok(document) =>
      var b := document.person.birthDate;
      var date := new BirthDateObject(b.day, b.month, b.year);
      r := Ok(IdDocumentRecord(document.id, PersonRecord(document.person.firstName, document.person.lastName, date)));
  }

  /**
   Consequence: a person whose birth-date object existed before the conversion never
   matches an IDNow document as written, whatever its fields.
   */
  method MatchStoredPersonAgainstIdNowAsWritten(person: PersonRecord, response: Repository.IdNowDocumentResponse, dependencies: Dependencies)
    returns (verdict: Option<Status>)
    ensures verdict.Some? <==> Repository.ConvertIdNowResponseToDomainDocument(response).Ok?
    ensures verdict.Some? ==> verdict.value == Invalid
  {
    var document := ConvertIdNowResponseAsWritten(response);
    match document
    case Err(_) =>
      verdict := None;
    case Ok(d) =>
      verdict := Some(DoesPersonMatchDocumentAsWritten(person, d, dependencies));
  }
}
