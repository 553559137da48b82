/**
 * The document generator page: the per-type form definitions, the form state, and the three
 * handlers that reset the form, edit one field, send the draft request and export the draft.
 * The two `fetch` calls and the clock are parameters.
 */
module Generator {
  import opened Outcomes
  import opened Js
  import opened JsObject
  import DraftRoute

  /** A text box, or a radio group with its options. */
  datatype FieldKind = TextBox | Radio(options: seq<string>)

  /** One form field, `caption` being its `label`; the placeholders shown in text boxes are not modelled. */
  datatype Field = Field(caption: string, kind: FieldKind)

  const YesNo: seq<string> := ["Yes", "No"]

  /**
   * The keys of `documentFields`, which are the only options of the document-type drop-down;
   * `Name` is the key text the page keeps and sends.
   */
  datatype DocType = Nda | Mou | PrivacyPolicy | Employment | Investor | Vendor

  function Name(t: DocType): string {
    match t
    case Nda => "Non-Disclosure Agreement"
    case Mou => "Memorandum of Understanding"
    case PrivacyPolicy => "Privacy Policy"
    case Employment => "Employment Agreement"
    case Investor => "Investor Agreement"
    case Vendor => "Vendor Contract"
  }

  /** Each key names one type: the six keys have six different lengths. */
  lemma NameInjective(t: DocType, u: DocType)
    requires Name(t) == Name(u)
    ensures t == u
  {
    assert |Name(t)| == |Name(u)|;
  }

  /** `documentFields[t]`, in the order the form shows them. */
  function DocumentFields(t: DocType): seq<Field> {
    match t
    case Nda =>
      [ Field("Party A Name", TextBox), Field("Party A Address", TextBox),
        Field("Party A shares confidential information", Radio(YesNo)),
        Field("Party B Name", TextBox), Field("Party B Address", TextBox),
        Field("Party B shares confidential information", Radio(YesNo)),
        Field("Confidential Information Definition", Radio(["Standard", "Specific"])),
        Field("Specific Confidential Information Details", TextBox),
        Field("Effective Date", TextBox), Field("Specific Effective Date", TextBox),
        Field("Term Duration", TextBox), Field("Include Penalty Clause", Radio(YesNo)),
        Field("Penalty Amount", TextBox), Field("Governing Law", TextBox), Field("Jurisdiction", TextBox) ]
    case Mou =>
      [ Field("First Party Name", TextBox), Field("Second Party Name", TextBox),
        Field("Objective of MOU", TextBox), Field("Jurisdiction", TextBox), Field("Term of MOU", TextBox),
        Field("Include Confidentiality Clause", Radio(YesNo)) ]
    case PrivacyPolicy =>
      [ Field("Company Name", TextBox), Field("Website/App Name", TextBox), Field("Jurisdiction", TextBox),
        Field("Contact Email for Privacy Inquiries", TextBox), Field("Types of Data Collected", TextBox) ]
    case Employment =>
      [ Field("Company Name", TextBox), Field("Employee Name", TextBox), Field("Job Title", TextBox),
        Field("Annual Salary (INR)", TextBox), Field("Notice Period (in days)", TextBox),
        Field("Probation Period (in days)", TextBox), Field("Jurisdiction", TextBox),
        Field("Include Non-Compete Clause", Radio(YesNo)) ]
    case Investor =>
      [ Field("Company Name", TextBox), Field("Investor Name", TextBox),
        Field("Investment Amount (INR)", TextBox), Field("Equity Percentage (%)", TextBox),
        Field("Number of Board Seats", TextBox), Field("Vesting Cliff", TextBox),
        Field("Total Vesting Period", TextBox), Field("Jurisdiction", TextBox),
        Field("Include Right of First Refusal", Radio(YesNo)) ]
    case Vendor =>
      [ Field("Client Name", TextBox), Field("Vendor Name", TextBox),
        Field("Detailed Service Description", TextBox), Field("Payment Amount (INR)", TextBox),
        Field("Term of Contract", TextBox), Field("Payment Schedule", TextBox), Field("Jurisdiction", TextBox),
        Field("Include Late Payment Penalty", Radio(YesNo)) ]
  }

  function Labels(fields: seq<Field>): (labels: seq<string>)
    ensures |labels| == |fields| && forall i :: 0 <= i < |fields| ==> labels[i] == fields[i].caption
  {
    seq(|fields|, i requires 0 <= i < |fields| => fields[i].caption)
  }

  /**
   * The `reduce` that starts from `{}` and sets every label to `""`: after `n` steps the labels
   * before `n` are set, in order.
   */
  function BlankFormUpTo(labels: seq<string>, n: nat): Entries
    requires n <= |labels|
  {
    if n == 0 then [] else Put(BlankFormUpTo(labels, n - 1), labels[n - 1], "")
  }

  function BlankForm(labels: seq<string>): Entries {
    BlankFormUpTo(labels, |labels|)
  }

  /** Never two entries for one key, even when a label repeats. */
  lemma {:induction false} BlankFormUpToDistinct(labels: seq<string>, n: nat)
    requires n <= |labels|
    ensures DistinctKeys(BlankFormUpTo(labels, n))
  {
    if n > 0 {
      BlankFormUpToDistinct(labels, n - 1);
      PutDistinct(BlankFormUpTo(labels, n - 1), labels[n - 1], "");
    }
  }

  lemma BlankFormDistinct(labels: seq<string>)
    ensures DistinctKeys(BlankForm(labels))
  {
    BlankFormUpToDistinct(labels, |labels|);
  }

  /** Whether `k` is one of the first `n` labels. */
  predicate AmongFirst(labels: seq<string>, n: nat, k: string)
    requires n <= |labels|
  {
    n > 0 && (labels[n - 1] == k || AmongFirst(labels, n - 1, k))
  }

  /** Being among the first `n` labels is being in the prefix of length `n`. */
  lemma {:induction false} AmongFirstIsIn(labels: seq<string>, n: nat, k: string)
    requires n <= |labels|
    ensures AmongFirst(labels, n, k) <==> k in labels[..n]
  {
    if n > 0 {
      AmongFirstIsIn(labels, n - 1, k);
      TakeSnoc(labels, n);
    }
  }

  /** After `n` steps exactly the labels before `n` map to `""`. */
  lemma {:induction false} BlankFormUpToGet(labels: seq<string>, n: nat, k: string)
    requires n <= |labels|
    ensures Get(BlankFormUpTo(labels, n), k) == if AmongFirst(labels, n, k) then Some("") else None
  {
    if n > 0 {
      BlankFormUpToGet(labels, n - 1, k);
      GetPut(BlankFormUpTo(labels, n - 1), labels[n - 1], "", k);
    }
  }

  /** The blank form maps exactly the labels, each to `""`. */
  lemma BlankFormGet(labels: seq<string>, k: string)
    ensures Get(BlankForm(labels), k) == if k in labels then Some("") else None
  {
    BlankFormUpToGet(labels, |labels|, k);
    AmongFirstIsIn(labels, |labels|, k);
    assert labels[..|labels|] == labels;
  }

  /** The form after `n` steps lists the labels before `n`, in field order, when they are distinct. */
  lemma {:induction false} BlankFormUpToKeys(labels: seq<string>, n: nat)
    requires n <= |labels| && Distinct(labels)
    ensures Keys(BlankFormUpTo(labels, n)) == labels[..n]
  {
    if n > 0 {
      BlankFormUpToKeys(labels, n - 1);
      TakeSnoc(labels, n);
      assert labels[n - 1] !in labels[..n - 1];
      PutKeys(BlankFormUpTo(labels, n - 1), labels[n - 1], "");
    }
  }

  /** The blank form lists the labels in field order when they are distinct. */
  lemma BlankFormKeys(labels: seq<string>)
    requires Distinct(labels)
    ensures Keys(BlankForm(labels)) == labels
  {
    BlankFormUpToKeys(labels, |labels|);
    assert labels[..|labels|] == labels;
  }

  const ApiErrorFallback := "An unknown API error occurred"
  const ExportFallback := "Failed to create Google Doc."
  const GenerateFirst := "Please generate a document first."
  const DocumentTypeKey := DraftRoute.DocumentTypeKey
  const LanguageKey := DraftRoute.LanguageKey
  const EffectiveDateKey := "Effective Date"

  /**
   * What a `fetch` comes back with: a JSON body with the status and the fields the page reads
   * (`details` may be absent), or a thrown error with its message.
   */
  datatype Reply = Reply(ok: bool, details: Option<string>, payload: string) | Thrown(message: string)

  /** `details || fallback`: an absent or empty `details` gives the fallback. */
  function ErrorText(details: Option<string>, fallback: string): (e: string)
    ensures details.Some? && details.value != "" ==> e == details.value
    ensures details.None? || details.value == "" ==> e == fallback
  {
    if details.Some? && details.value != "" then details.value else fallback
  }

  /** `new Date().toISOString().split("T")[0]`: the date part of an ISO timestamp. */
  function IsoDate(iso: string): string {
    Split(iso, 'T')[0]
  }

  /** The JSON body of the draft request: type, language, the form, and today's date last. */
  function RequestBody(documentType: string, language: string, formData: Entries, today: string): Entries {
    Put(Spread([(DocumentTypeKey, documentType), (LanguageKey, language)], formData), EffectiveDateKey, today)
  }

  /**
   * The body carries today's date under "Effective Date" whatever was typed; the type and the
   * language unless the form has those keys; and every other form entry as typed.
   */
  lemma RequestBodyFields(documentType: string, language: string, formData: Entries, today: string, k: string)
    requires DistinctKeys(formData)
    ensures Get(RequestBody(documentType, language, formData, today), EffectiveDateKey) == Some(today)
    ensures k != EffectiveDateKey && k in Keys(formData) ==>
      Get(RequestBody(documentType, language, formData, today), k) == Get(formData, k)
    ensures DocumentTypeKey !in Keys(formData) ==>
      Get(RequestBody(documentType, language, formData, today), DocumentTypeKey) == Some(documentType)
    ensures LanguageKey !in Keys(formData) ==>
      Get(RequestBody(documentType, language, formData, today), LanguageKey) == Some(language)
    ensures k != EffectiveDateKey && k != DocumentTypeKey && k != LanguageKey && k !in Keys(formData) ==>
      Get(RequestBody(documentType, language, formData, today), k) == None
  {
    var base := [(DocumentTypeKey, documentType), (LanguageKey, language)];
    var spread := Spread(base, formData);
    SpreadGet(base, formData, k);
    SpreadGet(base, formData, DocumentTypeKey);
    SpreadGet(base, formData, LanguageKey);
    GetPut(spread, EffectiveDateKey, today, k);
    GetPut(spread, EffectiveDateKey, today, DocumentTypeKey);
    GetPut(spread, EffectiveDateKey, today, LanguageKey);
    GetPair(DocumentTypeKey, documentType, LanguageKey, language, k);
    GetPair(DocumentTypeKey, documentType, LanguageKey, language, DocumentTypeKey);
    GetPair(DocumentTypeKey, documentType, LanguageKey, language, LanguageKey);
  }

  /** The export request's title: `documentType - language`. */
  function DocTitle(documentType: string, language: string): string {
    documentType + " - " + language
  }

  /** The page's state cells. */
  class GeneratorPage {
    var documentType: DocType
    var language: string
    var formData: Entries
    var generatedHtml: string
    var isCreatingDoc: bool
    var docUrl: string
    var isLoading: bool
    var error: string

    ghost predicate Valid()
      reads this
    {
      DistinctKeys(formData)
    }

    /** The first render: an empty form object, even though the NDA fields are shown. */
    constructor ()
      ensures Valid()
      ensures documentType == Nda && language == "English" && formData == []
      ensures generatedHtml == "" && !isCreatingDoc && docUrl == "" && !isLoading && error == ""
    {
      documentType := Nda;
      language := "English";
      formData := [];
      generatedHtml := "";
      isCreatingDoc := false;
      docUrl := "";
      isLoading := false;
      error := "";
    }

    /** `handleDocumentTypeChange`. */
    method HandleDocumentTypeChange(newType: DocType)
      modifies this
      ensures Valid()
      ensures documentType == newType
      ensures formData == BlankForm(Labels(DocumentFields(newType)))
      ensures generatedHtml == "" && docUrl == "" && error == ""
      ensures language == old(language) && isCreatingDoc == old(isCreatingDoc) && isLoading == old(isLoading)
    {
      documentType := newType;
      formData := BlankForm(Labels(DocumentFields(newType)));
      BlankFormDistinct(Labels(DocumentFields(newType)));
      generatedHtml := "";
      docUrl := "";
      error := "";
    }

    /** `handleInputChange`: `{ ...prev, [name]: value }`. */
    method HandleInputChange(name: string, value: string)
      requires Valid()
      modifies this
      ensures Valid()
      ensures formData == Put(old(formData), name, value)
      ensures documentType == old(documentType) && language == old(language) && generatedHtml == old(generatedHtml)
      ensures isCreatingDoc == old(isCreatingDoc) && docUrl == old(docUrl) && isLoading == old(isLoading) && error == old(error)
    {
      PutDistinct(formData, name, value);
      formData := Put(formData, name, value);
    }

    /**
     * `handleGenerateSubmit`: clears the outputs, sends the body, then shows the draft or the
     * error, and ends with `isLoading` false. `iso` is `new Date().toISOString()`, `send`
     * stands for the `fetch` of the draft route.
     */
    method HandleGenerateSubmit(iso: string, send: Entries -> Reply) returns (body: Entries)
      modifies this
      ensures body == RequestBody(Name(old(documentType)), old(language), old(formData), IsoDate(iso))
      ensures send(body).Reply? && send(body).ok ==> generatedHtml == send(body).payload && error == ""
      ensures send(body).Reply? && !send(body).ok ==>
        generatedHtml == "" && error == ErrorText(send(body).details, ApiErrorFallback)
      ensures send(body).Thrown? ==> generatedHtml == "" && error == send(body).message
      ensures docUrl == "" && !isLoading
      ensures documentType == old(documentType) && language == old(language) && formData == old(formData)
      ensures isCreatingDoc == old(isCreatingDoc)
    {
      isLoading := true;
      error := "";
      generatedHtml := "";
      docUrl := "";
      body := RequestBody(Name(documentType), language, formData, IsoDate(iso));
      var reply := send(body);
      if reply.Thrown? {
        error := reply.message;
      } else if !reply.ok {
        error := ErrorText(reply.details, ApiErrorFallback);
      } else {
        generatedHtml := reply.payload;
      }
      isLoading := false;
    }

    /**
     * `handleCreateDoc`: without a draft it only sets the error and sends nothing; otherwise it
     * sends the title and the draft and shows the document's address or the error. `request`
     * is the title and content sent, `None` when nothing is sent.
     */
    method HandleCreateDoc(send: (string, string) -> Reply) returns (request: Option<(string, string)>)
      modifies this
      ensures old(generatedHtml) == "" ==>
        request == None && error == GenerateFirst && docUrl == old(docUrl) && isCreatingDoc == old(isCreatingDoc)
      ensures old(generatedHtml) != "" ==>
        request == Some((DocTitle(Name(old(documentType)), old(language)), old(generatedHtml))) && !isCreatingDoc
      ensures old(generatedHtml) != "" && send(request.value.0, request.value.1).Reply? && send(request.value.0, request.value.1).ok ==>
        docUrl == send(request.value.0, request.value.1).payload && error == ""
      ensures old(generatedHtml) != "" && send(request.value.0, request.value.1).Reply? && !send(request.value.0, request.value.1).ok ==>
        docUrl == "" && error == ErrorText(send(request.value.0, request.value.1).details, ExportFallback)
      ensures old(generatedHtml) != "" && send(request.value.0, request.value.1).Thrown? ==>
        docUrl == "" && error == send(request.value.0, request.value.1).message
      ensures documentType == old(documentType) && language == old(language) && formData == old(formData)
      ensures generatedHtml == old(generatedHtml) && isLoading == old(isLoading)
    {
      if generatedHtml == "" {
        error := GenerateFirst;
        return None;
      }
      isCreatingDoc := true;
      error := "";
      docUrl := "";
      var title := DocTitle(Name(documentType), language);
      request := Some((title, generatedHtml));
      var reply := send(title, generatedHtml);
      if reply.Thrown? {
        error := reply.message;
      } else if !reply.ok {
        error := ErrorText(reply.details, ExportFallback);
      } else {
        docUrl := reply.payload;
      }
      isCreatingDoc := false;
    }
  }
}
