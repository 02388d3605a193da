/**
 The canonical domain records shared by the matcher and the adapters.
 All of them are immutable values; `BirthDate` is compared by value here
 (see module `ReferenceBirthDate` for the reference comparison the source performs).
 */
module Types {

  /** A birth date; no calendar validation is performed anywhere. */
  datatype BirthDate = BirthDate(day: int, month: int, year: int)

  /** The subject's registered identity, and also the identity a document claims. */
  datatype Person = Person(firstName: string, lastName: string, birthDate: BirthDate)

  /** A third-party-asserted identity bound to a document identifier. */
  datatype IdDocument = IdDocument(id: string, person: Person)

  /** The verdict of one match. */
  datatype Status = Valid | Invalid

  /** Injected capabilities: a lookup of a full name in the official register. */
  datatype Dependencies = Dependencies(checkPersonNameInOfficialRegister: string -> bool)
}
