/** The per-form side document ("form code"): prepopulation hints and front/back validation rules. */
module FormCodes {

  /** How to prefill a field on a new form (`type: now` with a time layout). */
  datatype PrepopulateSpec = PrepopulateSpec(specType: string, format: string)

  /** An HTML5 rule injected on the input element. */
  datatype FrontValidation = FrontValidation(required: bool, pattern: string, title: string)

  /** A server-side rule: required, minimum and maximum byte length, each with its message. */
  datatype BackValidation = BackValidation(
    required: bool, requiredMessage: string,
    min: int, minMessage: string,
    max: int, maxMessage: string)

  datatype FormCode = FormCode(
    form: string,
    prepopulate: map<string, PrepopulateSpec>,
    frontValidations: map<string, FrontValidation>,
    backValidations: map<string, BackValidation>)
}
