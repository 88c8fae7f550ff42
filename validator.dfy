/**
 * `Validator` (utils.js): field checks for `required` and `minLength`, and
 * `validate`, which runs the rules in order, collects one message per failing
 * field and throws a single error whose message is those messages joined by
 * line breaks.  A thrown error is modelled as `Fail(message)`.
 */
module Validator {
  import opened Wrappers
  import opened JsValues
  import opened Text

  /**
   * One entry of the `rules` object, in its enumeration order.  An absent
   * `minLength` is `0` and an absent `label` (`fieldLabel`) is `""`: the source only tests
   * their truthiness, and `undefined` behaves as these do.
   */
  datatype Rule = Rule(field: string, required: bool, minLength: int, fieldLabel: string)

  /** The value of a field, `undefined` when the data object lacks it. */
  function FieldValue(data: map<string, Value>, field: string): Value {
    if field in data then data[field] else Undefined
  }

  /** The name used in messages: the rule's label when it is non-empty, else the field name. */
  function Label(rule: Rule): string {
    if rule.fieldLabel != "" then rule.fieldLabel else rule.field
  }

  function RequiredMessage(fieldName: string): string {
    fieldName + " est requis"
  }

  function MinLengthMessage(fieldName: string, length: int): string {
    fieldName + " doit contenir au moins " + IntToDecimal(length) + " caractères"
  }

  /** `Validator.required`: a falsy value, or a string of whitespace only, is missing. */
  function Required(value: Value, fieldName: string): (r: Outcome<string>)
    ensures r.Fail? <==>
      !Truthy(value) || (value.Str? && forall i :: 0 <= i < |value.s| ==> IsJsWhitespace(value.s[i]))
    ensures r.Fail? ==> r.error == RequiredMessage(fieldName)
  {
    if !Truthy(value) then Fail(RequiredMessage(fieldName))
    else if value.Str? then
      BlankIff(value.s);
      if Blank(value.s) then Fail(RequiredMessage(fieldName)) else Pass
    else Pass
  }

  /**
   * `Validator.minLength`.  `value.length` is `undefined` for values other than
   * strings and arrays, and `undefined < length` is false, so those pass.
   * The source's only caller passes a truthy value.
   */
  function MinLength(value: Value, length: int, fieldName: string): (r: Outcome<string>)
    requires Truthy(value)
    ensures r.Fail? <==> (value.Str? && |value.s| < length) || (value.Arr? && |value.items| < length)
    ensures r.Fail? ==> r.error == MinLengthMessage(fieldName, length)
  {
    match LengthOf(value)
    case Some(n) => if n < length then Fail(MinLengthMessage(fieldName, length)) else Pass
    case None => Pass
  }

  /**
   * The message one rule contributes, if any: the `required` check runs first
   * and, when it throws, the `minLength` check of that rule is skipped.
   */
  function FieldError(data: map<string, Value>, rule: Rule): (r: Option<string>)
    // a missing required value reports the `required` message
    ensures var v := FieldValue(data, rule.field);
      rule.required && (!Truthy(v) || (v.Str? && forall i :: 0 <= i < |v.s| ==> IsJsWhitespace(v.s[i])))
      ==> r == Some(RequiredMessage(Label(rule)))
    // any other message is the `minLength` one, for a truthy value and a non-zero minimum
    ensures var v := FieldValue(data, rule.field);
      r.Some? && r.value != RequiredMessage(Label(rule)) ==>
        r.value == MinLengthMessage(Label(rule), rule.minLength) && Truthy(v) && rule.minLength != 0
    // a value that passes `required` but is too short reports the `minLength` message
    ensures var v := FieldValue(data, rule.field);
      && !(rule.required && (!Truthy(v) || (v.Str? && forall i :: 0 <= i < |v.s| ==> IsJsWhitespace(v.s[i]))))
      && rule.minLength != 0 && Truthy(v)
      && ((v.Str? && |v.s| < rule.minLength) || (v.Arr? && |v.items| < rule.minLength))
      ==> r == Some(MinLengthMessage(Label(rule), rule.minLength))
    // the rule passes exactly when neither check fails
    ensures var v := FieldValue(data, rule.field);
      r.None? <==>
        && !(rule.required && (!Truthy(v) || (v.Str? && forall i :: 0 <= i < |v.s| ==> IsJsWhitespace(v.s[i]))))
        && !(rule.minLength != 0 && Truthy(v) &&
             ((v.Str? && |v.s| < rule.minLength) || (v.Arr? && |v.items| < rule.minLength)))
  {
    var v := FieldValue(data, rule.field);
    var name := Label(rule);
    if rule.required && Required(v, name).Fail? then Some(RequiredMessage(name))
    else if rule.minLength != 0 && Truthy(v) && MinLength(v, rule.minLength, name).Fail? then
      Some(MinLengthMessage(name, rule.minLength))
    else None
  }

  /** The messages `validate` collects, in rule order. */
  function Failures(data: map<string, Value>, rules: seq<Rule>): (errors: seq<string>)
    ensures |errors| <= |rules|
  {
    if rules == [] then []
    else
      var last := FieldError(data, rules[|rules| - 1]);
      Failures(data, rules[..|rules| - 1]) + (if last.Some? then [last.value] else [])
  }

  /** What `validate` does with the collected messages. */
  function Verdict(errors: seq<string>): (r: Outcome<string>)
    ensures r.Fail? <==> errors != []
    ensures |errors| == 1 ==> r == Fail(errors[0])
  {
    if |errors| > 0 then Fail(Join(errors, "\n")) else Pass
  }

  /** `Validator.validate(data, rules)`. */
  method Validate(data: map<string, Value>, rules: seq<Rule>) returns (r: Outcome<string>)
    ensures r == Verdict(Failures(data, rules))
    ensures r.Fail? <==> exists i :: 0 <= i < |rules| && FieldError(data, rules[i]).Some?
  {
    var errors: seq<string> := [];
    var i := 0;
    while i < |rules|
      invariant 0 <= i <= |rules|
      invariant errors == Failures(data, rules[..i])
    {
      var rule := rules[i];
      var value := FieldValue(data, rule.field);
      var name := Label(rule);
      var outcome: Outcome<string> := Pass;
      if rule.required {
        outcome := Required(value, name);
      }
      if outcome.Pass? && rule.minLength != 0 && Truthy(value) {
        outcome := MinLength(value, rule.minLength, name);
      }
      if outcome.Fail? {
        errors := errors + [outcome.error];
      }
      assert rules[..i + 1][..i] == rules[..i];
      i := i + 1;
    }
    assert rules[..i] == rules;
    FailuresEmptyIff(data, rules);
    if |errors| > 0 {
      r := Fail(Join(errors, "\n"));
    } else {
      r := Pass;
    }
  }

  /** Messages of consecutive rule lists concatenate. */
  lemma {:induction false} FailuresAppend(data: map<string, Value>, a: seq<Rule>, b: seq<Rule>)
    ensures Failures(data, a + b) == Failures(data, a) + Failures(data, b)
    decreases |b|
  {
    if b == [] {
      assert a + b == a;
    } else {
      var b' := b[..|b| - 1];
      assert (a + b)[..|a + b| - 1] == a + b';
      assert (a + b)[|a + b| - 1] == b[|b| - 1];
      FailuresAppend(data, a, b');
    }
  }

  /** `validate` collects nothing exactly when every rule passes. */
  lemma {:induction false} FailuresEmptyIff(data: map<string, Value>, rules: seq<Rule>)
    ensures Failures(data, rules) == [] <==> forall i :: 0 <= i < |rules| ==> FieldError(data, rules[i]).None?
  {
    if rules != [] {
      var init := rules[..|rules| - 1];
      FailuresEmptyIff(data, init);
      assert forall i :: 0 <= i < |init| ==> init[i] == rules[i];
    }
  }

  /** A required field that is falsy or whitespace only always makes `validate` throw, with its message among the rest. */
  lemma RequiredBlankAlwaysFails(data: map<string, Value>, rules: seq<Rule>, i: nat)
    requires i < |rules| && rules[i].required
    requires var v := FieldValue(data, rules[i].field);
             !Truthy(v) || (v.Str? && forall k :: 0 <= k < |v.s| ==> IsJsWhitespace(v.s[k]))
    ensures RequiredMessage(Label(rules[i])) in Failures(data, rules)
    ensures Verdict(Failures(data, rules)).Fail?
  {
  }

  /** `minLength` is only consulted for a truthy value: a falsy optional field never fails. */
  lemma MinLengthOnlyWhenTruthy(data: map<string, Value>, rule: Rule)
    requires !rule.required && !Truthy(FieldValue(data, rule.field))
    ensures FieldError(data, rule) == None
  {
  }

  /** No collected message holds a line break when no label or field name does. */
  lemma {:induction false} FailuresSingleLine(data: map<string, Value>, rules: seq<Rule>)
    requires forall i :: 0 <= i < |rules| ==> '\n' !in Label(rules[i])
    ensures forall j :: 0 <= j < |Failures(data, rules)| ==> '\n' !in Failures(data, rules)[j]
  {
    if rules != [] {
      var init, rule := rules[..|rules| - 1], rules[|rules| - 1];
      FailuresSingleLine(data, init);
      var name := Label(rule);
      assert '\n' !in " est requis";
      assert '\n' !in " doit contenir au moins " && '\n' !in " caractères";
      assert '\n' !in IntToDecimal(rule.minLength);
      assert '\n' !in RequiredMessage(name);
      assert '\n' !in MinLengthMessage(name, rule.minLength);
    }
  }

  /**
   * The thrown message determines the failures: splitting it at line breaks
   * gives back each message in rule order, provided no label holds a line break.
   */
  lemma MessageSplitsIntoFailures(data: map<string, Value>, rules: seq<Rule>)
    requires forall i :: 0 <= i < |rules| ==> '\n' !in Label(rules[i])
    requires Verdict(Failures(data, rules)).Fail?
    ensures Split(Verdict(Failures(data, rules)).error, '\n') == Failures(data, rules)
  {
    FailuresSingleLine(data, rules);
    SplitJoin(Failures(data, rules), '\n');
  }
}
