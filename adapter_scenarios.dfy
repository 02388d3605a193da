/**
 The adapters on the sample IDNow payload, and the adapters composed with the matcher.
 */
module AdapterScenarios {
  import opened Wrappers
  import opened Types
  import opened StringOps
  import opened Repository
  import Domain

  /** The sample IDNow response: uid "1234", an identity document for "Jane Doe" born "1990-01-01". */
  function SampleIdNowResponse(documentType: IdNowDocumentType): IdNowDocumentResponse
  {
    IdNowDocumentResponse("1234", documentType,
      Some(IdNowDocumentReport([IdNowPerson(IdNowIdentityData("Jane Doe", "1990-01-01"))])))
  }

  /** The sample converts to Jane Doe born on 1 January 1990; leading zeros of the month and day are ignored. */
  lemma SampleIdNowResponseConverts()
    ensures FetchIdentityDocumentByIdNow(SampleIdNowResponse(ID))
         == Ok(IdDocument("1234", Person("Jane", "Doe", BirthDate(day := 1, month := 1, year := 1990))))
  {
    assert "Jane Doe" == "Jane" + " " + "Doe";
    assert "1990-01-01" == "1990" + "-" + "01" + "-" + "01";
    assert ParseDecimal("1990") == 1990 by {
      assert "1990"[..3] == "199" && "199"[..2] == "19" && "19"[..1] == "1" && "1"[..0] == "";
    }
    assert ParseDecimal("01") == 1 by {
      LeadingZeroIgnored("1");
      assert ['0'] + "1" == "01";
    }
    IdNowConversionOfWellFormedPerson(SampleIdNowResponse(ID), "Jane", "Doe", "1990", "01", "01");
  }

  /** The same payload marked as a bank or cheque document yields the integrity error, never a document. */
  lemma NonIdSampleRejected(documentType: IdNowDocumentType)
    requires documentType != ID
    ensures FetchIdentityDocumentByIdNow(SampleIdNowResponse(documentType)) == Err(DocumentShouldBeAnId)
  {
  }

  /**
   A stored person and an IDNow identity document naming the same two-token name and the
   same date, written `Y-M-D` with any digit strings (zero-padded or not), match exactly
   when the register accepts that name.
   */
  lemma IdNowDocumentOfStoredPersonMatches(row: DbPerson, response: IdNowDocumentResponse, y: string, m: string, d: string, dependencies: Dependencies)
    requires ' ' !in row.first_name && ' ' !in row.last_name
    requires IsDecimal(y) && IsDecimal(m) && IsDecimal(d)
    requires ParseDecimal(y) == row.birth_date.year
    requires ParseDecimal(m) == row.birth_date.month
    requires ParseDecimal(d) == row.birth_date.day
    requires response.documentType == ID && response.lastReport.Some? && |response.lastReport.value.persons| > 0
    requires response.lastReport.value.persons[0].identityData
          == IdNowIdentityData(row.first_name + " " + row.last_name, y + "-" + m + "-" + d)
    ensures FetchIdentityDocumentByIdNow(response).Ok?
    ensures Domain.DoesPersonMatchDocument(ConvertDbPersonToDomainPerson(row), FetchIdentityDocumentByIdNow(response).value, dependencies) == Valid
        <==> dependencies.checkPersonNameInOfficialRegister(row.first_name + " " + row.last_name)
  {
    var person := ConvertDbPersonToDomainPerson(row);
    IdNowConversionOfWellFormedPerson(response, row.first_name, row.last_name, y, m, d);
    assert FetchIdentityDocumentByIdNow(response) == Ok(IdDocument(response.uid, person));
    Domain.DocumentOfSamePersonMatches(person, response.uid, dependencies);
  }

  /**
   A stored person and an alternate-provider document for the same two-token name and the
   same date match exactly when the register accepts that name.
   */
  lemma OtherProviderDocumentOfStoredPersonMatches(row: DbPerson, id: nat, dependencies: Dependencies)
    requires ' ' !in row.first_name && ' ' !in row.last_name
    ensures
      var response := OtherProviderDocumentResponse(id, OtherProviderUser(row.first_name + " " + row.last_name, row.birth_date));
      && FetchIdentityDocumentByOtherProvider(response).Ok?
      && (Domain.DoesPersonMatchDocument(ConvertDbPersonToDomainPerson(row), FetchIdentityDocumentByOtherProvider(response).value, dependencies) == Valid
          <==> dependencies.checkPersonNameInOfficialRegister(row.first_name + " " + row.last_name))
  {
  }

  /** The sample "Jane Doe" / "1990-01-01" payload matches a stored Jane Doe born on 1 January 1990 iff the register accepts "Jane Doe". */
  lemma SampleIdNowResponseMatchesStoredPerson(dependencies: Dependencies)
    ensures FetchIdentityDocumentByIdNow(SampleIdNowResponse(ID)).Ok?
    ensures Domain.DoesPersonMatchDocument(
              ConvertDbPersonToDomainPerson(DbPerson("Jane", "Doe", BirthDate(1, 1, 1990))),
              FetchIdentityDocumentByIdNow(SampleIdNowResponse(ID)).value, dependencies) == Valid
        <==> dependencies.checkPersonNameInOfficialRegister("Jane Doe")
  {
    assert "Jane" + " " + "Doe" == "Jane Doe";
    assert "1990" + "-" + "01" + "-" + "01" == "1990-01-01";
    assert ParseDecimal("1990") == 1990 by {
      assert "1990"[..3] == "199" && "199"[..2] == "19" && "19"[..1] == "1" && "1"[..0] == "";
    }
    assert ParseDecimal("01") == 1 by {
      LeadingZeroIgnored("1");
      assert ['0'] + "1" == "01";
    }
    IdNowDocumentOfStoredPersonMatches(DbPerson("Jane", "Doe", BirthDate(1, 1, 1990)), SampleIdNowResponse(ID),
      "1990", "01", "01", dependencies);
  }
}
