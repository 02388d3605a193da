/**
 The matching predicate: a canonical person against the person claimed by an identity
 document, through four guards evaluated in a fixed short-circuit order.
 */
module Domain {
  import opened Types
  import StringOps

  /**
   First-name policy: the document's first name must begin with the person's first
   name, so a document may carry a fuller given name. The test is case-sensitive and
   asymmetric.
   */
  function FirstNamesMatch(personFirstName: string, documentFirstName: string): (r: bool)
    ensures r <==> exists extra :: documentFirstName == personFirstName + extra
  {
    var r := StringOps.StartsWith(documentFirstName, personFirstName);
    assert r ==> documentFirstName == personFirstName + documentFirstName[|personFirstName|..];
    r
  }

  /** The name handed to the official register: first name, one space, last name. */
  function FullName(person: Person): (name: string)
    ensures |name| == |person.firstName| + 1 + |person.lastName|
    ensures name[|person.firstName|] == ' '
    ensures name[..|person.firstName|] == person.firstName
    ensures name[|person.firstName| + 1..] == person.lastName
  {
    person.firstName + " " + person.lastName
  }

  /**
   The verdict: first name, then last name, then the official register (consulted
   with the person's own full name), then the birth date; the first failing guard
   decides `Invalid`, and only when all four pass is the result `Valid`.
   */
  function DoesPersonMatchDocument(person: Person, identityDocument: IdDocument, dependencies: Dependencies): (s: Status)
    ensures s == Valid <==>
      && person.firstName <= identityDocument.person.firstName
      && person.lastName == identityDocument.person.lastName
      && dependencies.checkPersonNameInOfficialRegister(person.firstName + " " + person.lastName)
      && person.birthDate == identityDocument.person.birthDate
  {
    if !FirstNamesMatch(person.firstName, identityDocument.person.firstName) then
      Invalid
    else if person.lastName != identityDocument.person.lastName then
      Invalid
    else if !dependencies.checkPersonNameInOfficialRegister(FullName(person)) then
      Invalid
    else if person.birthDate != identityDocument.person.birthDate then
      Invalid
    else
      Valid
  }

  /** A document first name that does not begin with the person's first name is rejected. */
  lemma FirstNameNotPrefixRejects(person: Person, identityDocument: IdDocument, dependencies: Dependencies)
    requires !(person.firstName <= identityDocument.person.firstName)
    ensures DoesPersonMatchDocument(person, identityDocument, dependencies) == Invalid
  {
  }

  /** The first-name test accepts both ways only for equal names: it is asymmetric otherwise. */
  lemma FirstNamesMatchBothWaysOnlyIfEqual(a: string, b: string)
    requires FirstNamesMatch(a, b) && FirstNamesMatch(b, a)
    ensures a == b
  {
  }

  /** Different last names are rejected, whatever the register says. */
  lemma LastNameMismatchRejects(person: Person, identityDocument: IdDocument, dependencies: Dependencies)
    requires person.lastName != identityDocument.person.lastName
    ensures DoesPersonMatchDocument(person, identityDocument, dependencies) == Invalid
  {
  }

  /**
   When either name check fails the register is never consulted: any two registers
   give the same `Invalid` verdict.
   */
  lemma NameMismatchIgnoresRegister(person: Person, identityDocument: IdDocument, d1: Dependencies, d2: Dependencies)
    requires !(person.firstName <= identityDocument.person.firstName) || person.lastName != identityDocument.person.lastName
    ensures DoesPersonMatchDocument(person, identityDocument, d1) == Invalid
    ensures DoesPersonMatchDocument(person, identityDocument, d2) == Invalid
  {
  }

  /**
   The register is asked about the person's own full name and nothing else: two
   registers that agree on that one name give the same verdict, whatever they say
   about the document's name or any other string.
   */
  lemma RegisterSeesOnlyPersonFullName(person: Person, identityDocument: IdDocument, d1: Dependencies, d2: Dependencies)
    requires d1.checkPersonNameInOfficialRegister(person.firstName + " " + person.lastName)
          == d2.checkPersonNameInOfficialRegister(person.firstName + " " + person.lastName)
    ensures DoesPersonMatchDocument(person, identityDocument, d1) == DoesPersonMatchDocument(person, identityDocument, d2)
  {
  }

  /** A register refusal is final, even when every document field matches. */
  lemma RegisterRefusalRejects(person: Person, identityDocument: IdDocument, dependencies: Dependencies)
    requires !dependencies.checkPersonNameInOfficialRegister(person.firstName + " " + person.lastName)
    ensures DoesPersonMatchDocument(person, identityDocument, dependencies) == Invalid
  {
  }

  /** A birth date that differs in any one of its fields is rejected. */
  lemma BirthDateMismatchRejects(person: Person, identityDocument: IdDocument, dependencies: Dependencies)
    requires || person.birthDate.day != identityDocument.person.birthDate.day
             || person.birthDate.month != identityDocument.person.birthDate.month
             || person.birthDate.year != identityDocument.person.birthDate.year
    ensures DoesPersonMatchDocument(person, identityDocument, dependencies) == Invalid
  {
  }

  /** The document identifier is never read. */
  lemma DocumentIdIgnored(person: Person, identityDocument: IdDocument, otherId: string, dependencies: Dependencies)
    ensures DoesPersonMatchDocument(person, identityDocument, dependencies)
         == DoesPersonMatchDocument(person, identityDocument.(id := otherId), dependencies)
  {
  }

  /** A document embedding exactly the person matches iff the register accepts the person's name. */
  lemma DocumentOfSamePersonMatches(person: Person, id: string, dependencies: Dependencies)
    ensures DoesPersonMatchDocument(person, IdDocument(id, person), dependencies) == Valid
        <==> dependencies.checkPersonNameInOfficialRegister(person.firstName + " " + person.lastName)
  {
  }

  /**
   A document whose first name extends the person's (a fuller given name) is judged
   exactly as a document carrying the person's own first name.
   */
  lemma FullerDocumentFirstNameAccepted(person: Person, identityDocument: IdDocument, extra: string, dependencies: Dependencies)
    requires identityDocument.person.firstName == person.firstName + extra
    ensures DoesPersonMatchDocument(person, identityDocument, dependencies)
         == DoesPersonMatchDocument(person, identityDocument.(person := identityDocument.person.(firstName := person.firstName)), dependencies)
  {
  }
}
