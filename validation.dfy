/**
 * Validation of a compliance submission: a rule per compliance category (allowed file types and a
 * size ceiling), and `validateCompliance`, which collects error messages for missing fields and for
 * files that break the category's rule, plus a warning for an effective date in the past.
 */
module Validation {
  import opened Outcomes
  import opened Js

  /** One entry of `complianceRules`; `maxSize` is in megabytes. */
  datatype CategoryRule = CategoryRule(allowedTypes: seq<string>, maxSize: nat, requiredDocs: seq<string>)

  /** `complianceRules`. */
  function ComplianceRules(): map<string, CategoryRule> {
    map[
      "financial" := CategoryRule(["PDF", "DOCX", "TXT"], 5, ["Financial Statement", "Tax Compliance Certificate"]),
      "legal" := CategoryRule(["PDF", "DOCX"], 10, ["Contract", "License Agreement", "Certificate"]),
      "safety" := CategoryRule(["PDF", "DOCX", "TXT"], 8, ["Safety Manual", "Inspection Report"]),
      "environmental" := CategoryRule(["PDF", "DOCX"], 15, ["Environmental Impact", "Compliance Certificate"]),
      "tax" := CategoryRule(["PDF", "DOCX"], 5, ["Tax Return", "Withholding Certificate"]),
      "hr" := CategoryRule(["PDF", "DOCX", "TXT"], 10, ["Employee Handbook", "Policy Document"])
    ]
  }

  /** `getComplianceRequirements`: the category's rule, or `null` for a category with none. */
  function GetComplianceRequirements(complianceType: string): (r: Option<CategoryRule>)
    ensures r.Some? <==> complianceType in ComplianceRules()
    ensures r.Some? ==> r.value == ComplianceRules()[complianceType]
  {
    if complianceType in ComplianceRules() then Some(ComplianceRules()[complianceType]) else None
  }

  /** The six categories are the only ones with a rule; every rule accepts PDF and DOCX and has a positive ceiling. */
  lemma RuleTableShape(complianceType: string)
    ensures GetComplianceRequirements(complianceType).Some? <==>
      complianceType in {"financial", "legal", "safety", "environmental", "tax", "hr"}
    ensures GetComplianceRequirements(complianceType).Some? ==>
      var rule := GetComplianceRequirements(complianceType).value;
      "PDF" in rule.allowedTypes && "DOCX" in rule.allowedTypes && rule.maxSize > 0 && |rule.requiredDocs| >= 2
  {
  }

  /** The form fields that are checked; a missing field is the empty string. */
  datatype ComplianceData = ComplianceData(companyName: string, complianceType: string, effectiveDate: string)

  /** A selected file: its name and its size in bytes. */
  datatype SelectedFile = SelectedFile(name: string, size: nat)

  /** The errors `validateCompliance` can report; Message gives the text it pushes for each. */
  datatype ValidationError =
    | CompanyNameRequired
    | ComplianceTypeRequired
    | EffectiveDateRequired
    | NoDocuments
    | InvalidFileTypes(complianceType: string, rule: CategoryRule)
    | FilesTooLarge(complianceType: string, rule: CategoryRule)

  function Message(e: ValidationError): string {
    match e
    case CompanyNameRequired => "Company name is required"
    case ComplianceTypeRequired => "Compliance type is required"
    case EffectiveDateRequired => "Effective date is required"
    case NoDocuments => "At least one document must be uploaded"
    case InvalidFileTypes(t, rule) => "Invalid file types for " + t + ". Allowed: " + Join(rule.allowedTypes, ", ")
    case FilesTooLarge(t, rule) => "Files exceed maximum size of " + NatToString(rule.maxSize) + "MB for " + t
  }

  const PastDateWarning := "Effective date is in the past"

  datatype ValidationResult = ValidationResult(isValid: bool, errors: seq<ValidationError>, warnings: seq<string>)

  /** `file.name.split('.').pop()?.toUpperCase()`, with ASCII-only upper-casing. */
  function FileExtension(name: string): (ext: string)
    ensures '.' !in name ==> ext == ToUpper(name)
  {
    ToUpper(AfterLast(name, '.'))
  }

  /** The extension is what follows the last dot. */
  lemma ExtensionAfterLastDot(stem: string, ext: string)
    requires '.' !in ext
    ensures FileExtension(stem + "." + ext) == ToUpper(ext)
  {
    AfterLastOf(stem, '.', ext);
  }

  predicate DisallowedType(rule: CategoryRule, f: SelectedFile) {
    FileExtension(f.name) !in rule.allowedTypes
  }

  /** Strictly larger than the ceiling in mebibytes. */
  predicate Oversized(rule: CategoryRule, f: SelectedFile) {
    f.size > rule.maxSize * 1024 * 1024
  }

  /** The test of `files.filter(file => !rule.allowedTypes.includes(ext))`. */
  function TypeCheck(rule: CategoryRule): SelectedFile -> bool {
    f => DisallowedType(rule, f)
  }

  /** The test of `files.filter(file => file.size > rule.maxSize * 1024 * 1024)`. */
  function SizeCheck(rule: CategoryRule): SelectedFile -> bool {
    f => Oversized(rule, f)
  }

  function If<T>(b: bool, e: T): seq<T> {
    if b then [e] else []
  }

  /**
   * The file checks, which run only when there is at least one file and the category has a rule;
   * `rule` is the category's entry in the table.
   */
  function FileErrors(complianceType: string, rule: Option<CategoryRule>, files: seq<SelectedFile>): seq<ValidationError> {
    if files == [] then [NoDocuments]
    else if rule.None? then []
    else
      If(Any(files, TypeCheck(rule.value)), InvalidFileTypes(complianceType, rule.value))
      + If(Any(files, SizeCheck(rule.value)), FilesTooLarge(complianceType, rule.value))
  }

  /** Some file fails the type check exactly when some file has a disallowed type; likewise for size. */
  lemma AnyChecks(rule: CategoryRule, files: seq<SelectedFile>)
    ensures Any(files, TypeCheck(rule)) <==> exists f :: f in files && DisallowedType(rule, f)
    ensures Any(files, SizeCheck(rule)) <==> exists f :: f in files && Oversized(rule, f)
  {
  }

  /**
   * The errors in the order they are pushed, given the rule of the submitted category. They depend
   * on neither the clock nor the date parser. A company name whose trim is empty is one that is all
   * white space (TrimEmptyIffAllSpace).
   */
  function Errors(data: ComplianceData, rule: Option<CategoryRule>, files: seq<SelectedFile>): seq<ValidationError> {
    FieldErrors(data) + FileErrors(data.complianceType, rule, files)
  }

  /** The checks of the three required fields. */
  function FieldErrors(data: ComplianceData): seq<ValidationError> {
    If(AllSpace(data.companyName), CompanyNameRequired)
    + If(data.complianceType == "", ComplianceTypeRequired)
    + If(data.effectiveDate == "", EffectiveDateRequired)
  }

  /**
   * The warnings. `parseDate` stands for `new Date(...)`, `None` being an invalid date, which
   * compares false with everything; `todayMidnight` is the start of the current day.
   */
  function Warnings(data: ComplianceData, parseDate: string -> Option<int>, todayMidnight: int): seq<string> {
    If(data.effectiveDate != "" && parseDate(data.effectiveDate).Some? && parseDate(data.effectiveDate).value < todayMidnight,
       PastDateWarning)
  }

  /** `validateCompliance`, which reads its rules from the `complianceRules` table. */
  method ValidateCompliance(data: ComplianceData, files: seq<SelectedFile>, parseDate: string -> Option<int>, todayMidnight: int)
    returns (result: ValidationResult)
    ensures result.errors == Errors(data, GetComplianceRequirements(data.complianceType), files)
    ensures result.warnings == Warnings(data, parseDate, todayMidnight)
    ensures result.isValid <==> result.errors == []
  {
    result := ValidateAgainst(ComplianceRules(), data, files, parseDate, todayMidnight);
  }

  /** The body of `validateCompliance` for a given rule table. */
  method ValidateAgainst(rules: map<string, CategoryRule>, data: ComplianceData, files: seq<SelectedFile>,
                         parseDate: string -> Option<int>, todayMidnight: int)
    returns (result: ValidationResult)
    ensures result.errors == Errors(data, if data.complianceType in rules then Some(rules[data.complianceType]) else None, files)
    ensures result.warnings == Warnings(data, parseDate, todayMidnight)
    ensures result.isValid <==> result.errors == []
  {
    var errors := CheckFields(data);
    var warnings: seq<string> := [];
    if data.effectiveDate != "" {
      var effectiveDate := parseDate(data.effectiveDate);
      if effectiveDate.Some? && effectiveDate.value < todayMidnight {
        warnings := warnings + [PastDateWarning];
      }
    }
    var rule := if data.complianceType in rules then Some(rules[data.complianceType]) else None;
    errors := CheckFiles(errors, data.complianceType, rule, files);
    result := ValidationResult(|errors| == 0, errors, warnings);
  }

  /** The field part of `validateCompliance`: the errors for the missing fields, in order. */
  method CheckFields(data: ComplianceData) returns (errors: seq<ValidationError>)
    ensures errors == FieldErrors(data)
  {
    errors := [];
    TrimEmptyIffAllSpace(data.companyName);
    if Trim(data.companyName) == "" {
      errors := errors + [CompanyNameRequired];
    }
    if data.complianceType == "" {
      errors := errors + [ComplianceTypeRequired];
    }
    if data.effectiveDate == "" {
      errors := errors + [EffectiveDateRequired];
    }
  }

  /** The file part of `validateCompliance`: pushes the errors of the file checks onto `errors`. */
  method CheckFiles(errors: seq<ValidationError>, complianceType: string, rule: Option<CategoryRule>, files: seq<SelectedFile>)
    returns (pushed: seq<ValidationError>)
    ensures pushed == errors + FileErrors(complianceType, rule, files)
  {
    pushed := errors;
    if |files| == 0 {
      pushed := pushed + [NoDocuments];
    } else if rule.Some? {
      var afterType := PushIfAny(pushed, files, TypeCheck(rule.value), InvalidFileTypes(complianceType, rule.value));
      pushed := PushIfAny(afterType, files, SizeCheck(rule.value), FilesTooLarge(complianceType, rule.value));
      AppendAssociative(errors, If(Any(files, TypeCheck(rule.value)), InvalidFileTypes(complianceType, rule.value)),
                        If(Any(files, SizeCheck(rule.value)), FilesTooLarge(complianceType, rule.value)));
    }
  }

  /** One file check: filter the files by `keep` and push `e` when any is left. */
  method PushIfAny(errors: seq<ValidationError>, files: seq<SelectedFile>, keep: SelectedFile -> bool, e: ValidationError)
    returns (pushed: seq<ValidationError>)
    ensures pushed == errors + If(Any(files, keep), e)
  {
    var hits := Filter(files, keep);
    FilterNonEmpty(files, keep);
    if |hits| > 0 {
      pushed := errors + [e];
    } else {
      pushed := errors;
    }
  }

  /** Membership in the errors splits into the field checks and the file checks. */
  lemma ErrorsSplit(data: ComplianceData, rule: Option<CategoryRule>, files: seq<SelectedFile>)
    ensures forall e :: e in Errors(data, rule, files) <==>
      e in FieldErrors(data) || e in FileErrors(data.complianceType, rule, files)
  {
  }

  /** The field checks: one error per missing field, none twice, and no file error among them. */
  lemma FieldErrorsShape(data: ComplianceData)
    ensures forall e :: e in FieldErrors(data) ==>
      e.CompanyNameRequired? || e.ComplianceTypeRequired? || e.EffectiveDateRequired?
    ensures CompanyNameRequired in FieldErrors(data) <==> AllSpace(data.companyName)
    ensures ComplianceTypeRequired in FieldErrors(data) <==> data.complianceType == ""
    ensures EffectiveDateRequired in FieldErrors(data) <==> data.effectiveDate == ""
    ensures Distinct(FieldErrors(data))
  {
  }

  /** The file checks: only file errors, none twice. */
  lemma FileErrorsShape(complianceType: string, rule: Option<CategoryRule>, files: seq<SelectedFile>)
    ensures forall e :: e in FileErrors(complianceType, rule, files) ==>
      e.NoDocuments? || e.InvalidFileTypes? || e.FilesTooLarge?
    ensures Distinct(FileErrors(complianceType, rule, files))
  {
    if files != [] && rule.Some? {
      var badType := Any(files, TypeCheck(rule.value));
      var tooLarge := Any(files, SizeCheck(rule.value));
      var ty, sz := InvalidFileTypes(complianceType, rule.value), FilesTooLarge(complianceType, rule.value);
      assert FileErrors(complianceType, rule, files) == If(badType, ty) + If(tooLarge, sz);
      TwoIfs(badType, ty, tooLarge, sz);
    }
  }

  /** At most two different errors, each at most once. */
  lemma TwoIfs<T>(b1: bool, e1: T, b2: bool, e2: T)
    requires e1 != e2
    ensures forall x :: x in If(b1, e1) + If(b2, e2) ==> x == e1 || x == e2
    ensures Distinct(If(b1, e1) + If(b2, e2))
  {
  }

  /** Each missing field has its own error, raised exactly when that field is missing; a blank company name counts as missing. */
  lemma RequiredFieldErrors(data: ComplianceData, rule: Option<CategoryRule>, files: seq<SelectedFile>)
    ensures CompanyNameRequired in Errors(data, rule, files) <==> AllSpace(data.companyName)
    ensures ComplianceTypeRequired in Errors(data, rule, files) <==> data.complianceType == ""
    ensures EffectiveDateRequired in Errors(data, rule, files) <==> data.effectiveDate == ""
  {
    ErrorsSplit(data, rule, files);
    FieldErrorsShape(data);
    FileErrorsShape(data.complianceType, rule, files);
  }

  /** The trim of a string is empty exactly when the string is all white space. */
  lemma TrimEmptyIffAllSpace(s: string)
    ensures Trim(s) == "" <==> AllSpace(s)
  {
    var r := Trim(s);
    var i :| SpaceAround(r, s, i);
    EmptyIffAllSpaceAround(r, s, i);
  }

  /** White space, then a trimmed `r` at `i`, then white space: `r` is empty exactly when all of `s` is white space. */
  lemma EmptyIffAllSpaceAround(r: string, s: string, i: int)
    requires Trimmed(r) && SpaceAround(r, s, i)
    ensures r == "" <==> AllSpace(s)
  {
    if r == "" {
      forall k | 0 <= k < |s| ensures IsSpace(s[k]) {
        if k < i {
          assert s[..i][k] == s[k];
        } else {
          assert s[i..][k - i] == s[k];
        }
      }
    } else {
      assert s[i] == r[0] by {
        assert r[0] == s[i..i + |r|][0];
      }
    }
  }

  /** Without files the missing-document error is raised, and the type and size checks do not run. */
  lemma NoFilesSkipsFileChecks(data: ComplianceData, rule: Option<CategoryRule>)
    ensures NoDocuments in Errors(data, rule, [])
    ensures forall e :: e in Errors(data, rule, []) ==> !e.InvalidFileTypes? && !e.FilesTooLarge?
  {
    ErrorsSplit(data, rule, []);
    FieldErrorsShape(data);
    assert FileErrors(data.complianceType, rule, []) == [NoDocuments];
  }

  /**
   * With files and a known category, the type error is raised exactly when some file has a
   * disallowed extension and the size error exactly when some file is oversized.
   */
  lemma FileCheckErrors(data: ComplianceData, rule: CategoryRule, files: seq<SelectedFile>)
    requires files != []
    ensures InvalidFileTypes(data.complianceType, rule) in Errors(data, Some(rule), files)
      <==> exists f :: f in files && DisallowedType(rule, f)
    ensures FilesTooLarge(data.complianceType, rule) in Errors(data, Some(rule), files)
      <==> exists f :: f in files && Oversized(rule, f)
    ensures NoDocuments !in Errors(data, Some(rule), files)
  {
    ErrorsSplit(data, Some(rule), files);
    FieldErrorsShape(data);
    RuleFileErrors(data.complianceType, rule, files);
  }

  /** The file checks of a known category on a non-empty list, one error kind at a time. */
  lemma RuleFileErrors(t: string, rule: CategoryRule, files: seq<SelectedFile>)
    requires files != []
    ensures InvalidFileTypes(t, rule) in FileErrors(t, Some(rule), files) <==> exists f :: f in files && DisallowedType(rule, f)
    ensures FilesTooLarge(t, rule) in FileErrors(t, Some(rule), files) <==> exists f :: f in files && Oversized(rule, f)
    ensures NoDocuments !in FileErrors(t, Some(rule), files)
  {
    AnyChecks(rule, files);
    var badType := Any(files, TypeCheck(rule));
    var tooLarge := Any(files, SizeCheck(rule));
    var ty, sz := InvalidFileTypes(t, rule), FilesTooLarge(t, rule);
    var es := FileErrors(t, Some(rule), files);
    assert es == If(badType, ty) + If(tooLarge, sz);
    InIf(badType, ty, ty);
    InIf(tooLarge, sz, ty);
    InIf(badType, ty, sz);
    InIf(tooLarge, sz, sz);
    InIf(badType, ty, NoDocuments);
    InIf(tooLarge, sz, NoDocuments);
  }

  lemma InIf<T>(b: bool, e: T, x: T)
    ensures x in If(b, e) <==> b && x == e
  {
  }

  /** A category with no rule runs no type or size check. */
  lemma UnknownCategoryNoFileChecks(data: ComplianceData, files: seq<SelectedFile>)
    requires files != []
    ensures forall e :: e in Errors(data, None, files) ==>
      e.CompanyNameRequired? || e.ComplianceTypeRequired? || e.EffectiveDateRequired?
  {
    ErrorsSplit(data, None, files);
    FieldErrorsShape(data);
    assert FileErrors(data.complianceType, None, files) == [];
  }

  /** The size ceiling is inclusive: a file of exactly `maxSize` megabytes is not oversized. */
  lemma ExactCeilingPasses(rule: CategoryRule, f: SelectedFile)
    requires f.size == rule.maxSize * 1024 * 1024
    ensures !Oversized(rule, f)
  {
  }

  /** No error is reported twice, however many files break the rule. */
  lemma ErrorsDistinct(data: ComplianceData, rule: Option<CategoryRule>, files: seq<SelectedFile>)
    ensures Distinct(Errors(data, rule, files))
  {
    FieldErrorsShape(data);
    FileErrorsShape(data.complianceType, rule, files);
    DistinctAppend(FieldErrors(data), FileErrors(data.complianceType, rule, files));
  }

  /** The only warning is the past-date one, raised exactly when a given date parses to a time before today. */
  lemma PastDateOnlyWarns(data: ComplianceData, parseDate: string -> Option<int>, todayMidnight: int)
    ensures Warnings(data, parseDate, todayMidnight) == [PastDateWarning] <==>
      data.effectiveDate != "" && parseDate(data.effectiveDate).Some? && parseDate(data.effectiveDate).value < todayMidnight
    ensures Warnings(data, parseDate, todayMidnight) == [] || Warnings(data, parseDate, todayMidnight) == [PastDateWarning]
  {
  }
}
