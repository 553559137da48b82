/**
 * How the pieces meet: the body the generator page sends is what the draft route turns into
 * the details block of its prompt.
 */
module Pipeline {
  import opened Outcomes
  import opened JsObject
  import DraftRoute
  import Generator

  /**
   * In the route's details (the body without type and language) the effective date is today,
   * every other form field is as typed, and the type and language never appear.
   */
  lemma GeneratorDetails(documentType: string, language: string, formData: Entries, today: string, k: string)
    requires DistinctKeys(formData)
    ensures var details := DraftRoute.Details(Generator.RequestBody(documentType, language, formData, today));
      && Get(details, Generator.EffectiveDateKey) == Some(today)
      && Get(details, Generator.DocumentTypeKey) == None
      && Get(details, Generator.LanguageKey) == None
      && (k != Generator.DocumentTypeKey && k != Generator.LanguageKey && k != Generator.EffectiveDateKey ==>
            Get(details, k) == Get(formData, k))
  {
    Generator.RequestBodyFields(documentType, language, formData, today, k);
    GetDefined(formData, k);
  }
}
