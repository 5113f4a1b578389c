/**
 * Server-side validation of a submitted detail form against the
 * `back_validations` rules of the entity's form code.
 */
module Validation {
  import opened Wrappers
  import opened Strings
  import opened Values
  import opened FormCodes

  /**
   * The message one rule records for a submitted value, if any: an empty
   * required value gets the required message and nothing else; a non-empty
   * value is checked against the minimum, then the maximum byte length, the
   * latter overwriting the former.
   */
  function RuleError(rule: BackValidation, raw: string): Option<string>
  {
    if rule.required && raw == "" then Some(rule.requiredMessage)
    else if raw == "" then None
    else
      var afterMin := if rule.min > 0 && ByteLen(raw) < rule.min then Some(rule.minMessage) else None;
      if rule.max > 0 && ByteLen(raw) > rule.max then Some(rule.maxMessage) else afterMin
  }

  /** The error map `validate` returns for a submission. */
  function Errors(code: Option<FormCode>, form: Params): (errors: map<string, string>)
    ensures code.None? ==> errors == map[]
    ensures code.Some? ==> errors.Keys <= code.value.backValidations.Keys
    ensures code.Some? ==> forall f :: f in code.value.backValidations ==>
      var rule, raw := code.value.backValidations[f], Lookup(form, f);
      && (rule.required && raw == "" ==> f in errors && errors[f] == rule.requiredMessage)
      && (!rule.required && raw == "" ==> f !in errors)
      && (raw != "" && 0 < rule.max < ByteLen(raw) ==> f in errors && errors[f] == rule.maxMessage)
      && (raw != "" && !(0 < rule.max < ByteLen(raw)) && 0 < rule.min && ByteLen(raw) < rule.min ==>
            f in errors && errors[f] == rule.minMessage)
      && (raw != "" && !(0 < rule.max < ByteLen(raw)) && !(0 < rule.min && ByteLen(raw) < rule.min) ==>
            f !in errors)
  {
    if code.None? then map[]
    else
      var rules := code.value.backValidations;
      map f | f in rules && RuleError(rules[f], Lookup(form, f)).Some? :: RuleError(rules[f], Lookup(form, f)).value
  }

  /** `validate`: one pass over the rules, writing into the error map. */
  method Validate(code: Option<FormCode>, form: Params) returns (errors: map<string, string>)
    ensures errors == Errors(code, form)
  {
    errors := map[];
    if code.None? {
      return;
    }
    var rules := code.value.backValidations;
    var todo := rules.Keys;
    while todo != {}
      invariant todo <= rules.Keys
      invariant forall f :: f in errors <==> f in rules && f !in todo && RuleError(rules[f], Lookup(form, f)).Some?
      invariant forall f :: f in errors ==> errors[f] == RuleError(rules[f], Lookup(form, f)).value
      decreases todo
    {
      var field :| field in todo;
      todo := todo - {field};
      var rule := rules[field];
      var raw := Lookup(form, field);
      if rule.required && raw == "" {
        errors := errors[field := rule.requiredMessage];
        continue;
      }
      if raw != "" {
        if rule.min > 0 && ByteLen(raw) < rule.min {
          errors := errors[field := rule.minMessage];
        }
        if rule.max > 0 && ByteLen(raw) > rule.max {
          errors := errors[field := rule.maxMessage];
        }
      }
    }
    var want := Errors(code, form);
    assert errors.Keys == want.Keys;
    assert errors == want;
  }
}
