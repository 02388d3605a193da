/** The matcher's unit-test scenarios, stated as lemmas over the model. */
module DomainScenarios {
  import opened Types
  import opened Domain

  const JaneDoe: Person := Person("Jane", "Doe", BirthDate(1, 1, 1992))

  const JaneDoeDocument: IdDocument := IdDocument("1", JaneDoe)

  /** The test register: it refuses "Janne Doe" and accepts every other name. */
  const MockedDependencies: Dependencies := Dependencies(name => name != "Janne Doe")

  lemma AllFieldsMatchIsValid()
    ensures DoesPersonMatchDocument(JaneDoe, JaneDoeDocument, MockedDependencies) == Valid
  {
  }

  lemma LongerPersonFirstNameIsInvalid()
    ensures DoesPersonMatchDocument(JaneDoe.(firstName := "Janet"), JaneDoeDocument, MockedDependencies) == Invalid
  {
  }

  lemma AdditionalDocumentFirstNameIsValid()
    ensures DoesPersonMatchDocument(JaneDoe, IdDocument("1", JaneDoe.(firstName := "Jane Michelle")), MockedDependencies) == Valid
  {
  }

  lemma DifferentLastNameIsInvalid()
    ensures DoesPersonMatchDocument(JaneDoe.(lastName := "Doolittle"), JaneDoeDocument, MockedDependencies) == Invalid
  {
  }

  lemma RegisterRefusalIsInvalid()
    ensures DoesPersonMatchDocument(JaneDoe.(firstName := "Janne"), IdDocument("1", JaneDoe.(firstName := "Janne")), MockedDependencies) == Invalid
  {
  }

  lemma DifferentBirthDayIsInvalid()
    ensures DoesPersonMatchDocument(JaneDoe.(birthDate := JaneDoe.birthDate.(day := 31)), JaneDoeDocument, MockedDependencies) == Invalid
  {
  }

  /**
   The prefix test works on characters, not on whole names: a person "Jan" is accepted
   against a document naming "Jane".
   */
  lemma CharacterPrefixOfFirstNameIsValid()
    ensures DoesPersonMatchDocument(JaneDoe.(firstName := "Jan"), IdDocument("1", JaneDoe), MockedDependencies) == Valid
  {
  }
}
