/**
 * Validation of the project form's fields. Every check applies to the
 * trimmed value and measures it as JavaScript's `length` does, in UTF-16
 * code units; a failure is a translation key, with the limit it broke as a
 * parameter.
 */
module ProjectFields {
  import opened Text

  const NameMin: nat := 3
  const NameMax: nat := 100
  const ClientNameMax: nat := 100
  const JobCodeMax: nat := 50

  const NameRequired := "project.validation.nameRequired"
  const NameMinLength := "project.validation.nameMinLength"
  const NameTooLong := "project.validation.nameTooLong"
  const ClientNameTooLong := "project.validation.clientNameTooLong"
  const JobCodeTooLong := "project.validation.jobCodeTooLong"

  /** A failed check: the message key and, except for a missing name, the limit. */
  datatype ValidationError = ValidationError(key: string, params: Option<map<string, int>>)

  /** `validateProjectName`: required, then at least 3 and at most 100 code units once trimmed. */
  function ValidateProjectName(value: string): (r: Option<ValidationError>)
    ensures r == None <==> NameMin <= Utf16Length(Trim(value)) <= NameMax
    ensures Utf16Length(Trim(value)) == 0 ==> r == Some(ValidationError(NameRequired, None))
    ensures 0 < Utf16Length(Trim(value)) < NameMin ==> r == Some(ValidationError(NameMinLength, Some(map["min" := NameMin as int])))
    ensures Utf16Length(Trim(value)) > NameMax ==> r == Some(ValidationError(NameTooLong, Some(map["max" := NameMax as int])))
  {
    var length := Utf16Length(Trim(value));
    if length == 0 then Some(ValidationError(NameRequired, None))
    else if length < NameMin then Some(ValidationError(NameMinLength, Some(map["min" := NameMin as int])))
    else if length > NameMax then Some(ValidationError(NameTooLong, Some(map["max" := NameMax as int])))
    else None
  }

  /** `validateClientName`: optional, at most 100 code units once trimmed. */
  function ValidateClientName(value: string): (r: Option<ValidationError>)
    ensures r == None <==> Utf16Length(Trim(value)) <= ClientNameMax
    ensures r != None ==> r == Some(ValidationError(ClientNameTooLong, Some(map["max" := ClientNameMax as int])))
  {
    if Utf16Length(Trim(value)) > ClientNameMax then Some(ValidationError(ClientNameTooLong, Some(map["max" := ClientNameMax as int])))
    else None
  }

  /** `validateJobCode`: optional, at most 50 code units once trimmed. */
  function ValidateJobCode(value: string): (r: Option<ValidationError>)
    ensures r == None <==> Utf16Length(Trim(value)) <= JobCodeMax
    ensures r != None ==> r == Some(ValidationError(JobCodeTooLong, Some(map["max" := JobCodeMax as int])))
  {
    if Utf16Length(Trim(value)) > JobCodeMax then Some(ValidationError(JobCodeTooLong, Some(map["max" := JobCodeMax as int])))
    else None
  }

  lemma TrimIdempotent(s: string)
    ensures Trim(Trim(s)) == Trim(s)
  {
    TrimUnchanged(Trim(s));
  }

  /**
   * Only the trimmed value matters: each validator gives the same verdict
   * for a value and for its trimmed form, so surrounding whitespace never
   * turns a valid field invalid or the reverse.
   */
  lemma ValidationIgnoresSurroundingWhitespace(value: string)
    ensures ValidateProjectName(Trim(value)) == ValidateProjectName(value)
    ensures ValidateClientName(Trim(value)) == ValidateClientName(value)
    ensures ValidateJobCode(Trim(value)) == ValidateJobCode(value)
  {
    TrimIdempotent(value);
  }

  /**
   * A character above the basic plane, such as an emoji, counts twice: two
   * of them make a valid project name, 26 break the job-code limit and 51
   * the client-name limit.
   */
  lemma AstralCharactersCountTwice(s: string)
    requires forall i :: 0 <= i < |s| ==> s[i] as int > 0xFFFF
    ensures 2 <= |s| <= 50 ==> ValidateProjectName(s) == None
    ensures |s| > 25 <==> ValidateJobCode(s) != None
    ensures |s| > 50 <==> ValidateClientName(s) != None
  {
    assert s == [] || (!IsJsWhitespace(s[0]) && !IsJsWhitespace(s[|s| - 1]));
    TrimUnchanged(s);
  }

  /** The limits nest: a valid job code, and a valid project name, also pass the client-name limit. */
  lemma LimitsNest(value: string)
    ensures ValidateJobCode(value) == None ==> ValidateClientName(value) == None
    ensures ValidateProjectName(value) == None ==> ValidateClientName(value) == None
  {
  }
}
