/**
 * The preview form's submission check: per-field validation in a fixed
 * order (required, empty, email, phone), the whole-form error list, the
 * submit state machine, and the value-map updates made by the inputs.
 * The `onSubmit` collaborator is asynchronous; the state machine is split
 * at the `await` into `HandleSubmit` and `SubmitSettled`.
 */
module Validation {
  import opened JsText
  import opened FormModel

  datatype ValidationError = ValidationError(fieldId: string, message: string)

  const Email := "email"
  const Phone := "phone"

  function RequiredMessage(labelText: string): string {
    labelText + " is required"
  }

  const EmailMessage := "Please enter a valid email address"
  const PhoneMessage := "Please enter a valid 10-digit phone number"
  const FormErrorId := "form"
  const SubmitFailedMessage := "An error occurred while submitting the form"

  /** `formData[field.id]`: `None` is `undefined`. */
  function Lookup(values: map<string, Value>, id: string): Option<Value> {
    if id in values then Some(values[id]) else None
  }

  /** `!value`: `undefined` and `""` are falsy; every list, even `[]`, is
      truthy. */
  predicate Falsy(v: Option<Value>) {
    v.None? || v == Some(Text(""))
  }

  /** The text a regular expression sees: a list converts to its items
      joined by commas. */
  function AsText(v: Value): string {
    match v
    case Text(t) => t
    case Choices(items) => JoinComma(items)
  }

  // ---------------------------------------------------------------------
  // The email pattern ^[^\s@]+@[^\s@]+\.[^\s@]+$

  /** `[^\s@]` */
  predicate Plain(c: char) {
    c != '@' && !IsSpace(c)
  }

  predicate AllPlain(s: string) {
    forall k :: 0 <= k < |s| ==> Plain(s[k])
  }

  /** One way of reading `s` as the pattern's three runs: `a@b.c` with each
      run non-empty and free of `@` and whitespace. */
  ghost predicate EmailSplit(s: string, a: string, b: string, c: string) {
    s == a + "@" + b + "." + c &&
    a != [] && b != [] && c != [] && AllPlain(a) && AllPlain(b) && AllPlain(c)
  }

  /** What `emailRegex.test(s)` means: some way of reading `s` as the
      pattern. */
  ghost predicate EmailPatternMatches(s: string) {
    exists a, b, c :: EmailSplit(s, a, b, c)
  }

  /** The first position of `ch` in `s`, or -1. */
  function CharIndex(s: string, ch: char): (r: int)
    ensures -1 <= r < |s|
    ensures r == -1 <==> ch !in s
    ensures r >= 0 ==> s[r] == ch && ch !in s[..r]
  {
    if s == [] then -1
    else if s[0] == ch then 0
    else
      var k := CharIndex(s[1..], ch);
      assert s[1..] == s[..|s|][1..];
      if k == -1 then -1
      else
        assert s[..k + 1] == [s[0]] + s[1..][..k];
        k + 1
  }

  /** The domain contains a dot that is neither its first nor its last
      character. */
  predicate HasInnerDot(d: string) {
    exists j :: 0 < j < |d| - 1 && d[j] == '.'
  }

  /** The email rule as a string predicate: a non-empty local part without
      `@` or whitespace, then `@`, then a domain without `@` or whitespace
      that has an inner dot. An accepted address holds no whitespace, has
      its one `@` at the first occurrence, and is at least `a@b.c` long. */
  predicate IsEmail(s: string)
    ensures IsEmail(s) ==> |s| >= 5 && CharIndex(s, '@') > 0
    ensures IsEmail(s) ==> forall k :: 0 <= k < |s| ==> !IsSpace(s[k]) && (s[k] == '@' ==> k == CharIndex(s, '@'))
  {
    var i := CharIndex(s, '@');
    var ok := i > 0 && AllPlain(s[..i]) && AllPlain(s[i + 1..]) && HasInnerDot(s[i + 1..]);
    assert ok ==> forall k :: 0 <= k < |s| ==> Plain(s[k]) || k == i by {
      if ok {
        forall k | 0 <= k < |s| && k != i ensures Plain(s[k]) {
          if k < i {
            assert s[k] == s[..i][k];
          } else {
            assert s[k] == s[i + 1..][k - i - 1];
          }
        }
      }
    }
    ok
  }

  /** The string predicate accepts exactly the strings the pattern matches. */
  lemma IsEmailMatchesPattern(s: string)
    ensures IsEmail(s) <==> EmailPatternMatches(s)
  {
    if IsEmail(s) {
      IsEmailSplits(s);
    }
    if EmailPatternMatches(s) {
      var a, b, c :| EmailSplit(s, a, b, c);
      SplitIsEmail(s, a, b, c);
    }
  }

  lemma IsEmailSplits(s: string)
    requires IsEmail(s)
    ensures EmailPatternMatches(s)
  {
    var i := CharIndex(s, '@');
    var d := s[i + 1..];
    var j :| 0 < j < |d| - 1 && d[j] == '.';
    var a, b, c := s[..i], d[..j], d[j + 1..];
    assert d == b + "." + c;
    assert s == a + "@" + d;
    assert AllPlain(b) by {
      forall k | 0 <= k < |b| ensures Plain(b[k]) { assert b[k] == d[k]; }
    }
    assert AllPlain(c) by {
      forall k | 0 <= k < |c| ensures Plain(c[k]) { assert c[k] == d[j + 1 + k]; }
    }
    assert EmailSplit(s, a, b, c);
  }

  lemma SplitIsEmail(s: string, a: string, b: string, c: string)
    requires EmailSplit(s, a, b, c)
    ensures IsEmail(s)
  {
    var d := b + "." + c;
    assert s == a + ['@'] + d;
    assert '@' !in a by {
      forall k | 0 <= k < |a| ensures a[k] != '@' { assert Plain(a[k]); }
    }
    CharIndexAfter(a, '@', d);
    assert s[..|a|] == a && s[|a| + 1..] == d;
    assert AllPlain(".") by { assert Plain('.'); }
    AllPlainJoin(b, ".");
    AllPlainJoin(b + ".", c);
    assert d[|b|] == '.';
  }

  /** A character that does not occur before it is found where it stands. */
  lemma CharIndexAfter(a: string, ch: char, d: string)
    requires ch !in a
    ensures CharIndex(a + [ch] + d, ch) == |a|
  {
    var s := a + [ch] + d;
    assert s[|a|] == ch;
  }

  lemma AllPlainJoin(x: string, y: string)
    requires AllPlain(x) && AllPlain(y)
    ensures AllPlain(x + y)
  {
    forall k | 0 <= k < |x + y| ensures Plain((x + y)[k]) {
      if k >= |x| {
        assert (x + y)[k] == y[k - |x|];
      }
    }
  }

  lemma EmailAccepted()
    ensures IsEmail("a@b.com")
  {
    assert "a@b.com"[1] == '@';
    assert CharIndex("a@b.com", '@') == 1;
    assert "a@b.com"[2..][1] == '.';
  }

  lemma EmailRejected()
    ensures !IsEmail("abc")
    ensures !IsEmail("a@b")
    ensures !IsEmail("@b.com")
    ensures !IsEmail("a@.com")
  {
    assert CharIndex("abc", '@') == -1;
    assert CharIndex("@b.com", '@') == 0;
    assert CharIndex("a@b", '@') == 1;
    assert "a@b"[2..] == "b";
    assert CharIndex("a@.com", '@') == 1;
    var d := "a@.com"[2..];
    assert d == ".com";
    assert !HasInnerDot(d) by {
      forall j | 0 < j < |d| - 1 ensures d[j] != '.' {
      }
    }
  }

  // ---------------------------------------------------------------------
  // Field and form validation

  /** A phone field's value must be text: a list there would make the phone
      rule throw (`[].replace` is not a function). */
  predicate Validatable(value: Option<Value>, field: Field) {
    field.kind == Phone && value.Some? ==> value.value.Text?
  }

  /** The required message is told apart from the two format messages by
      its last character, whatever the label. */
  lemma RequiredMessageDistinct(labelText: string)
    ensures RequiredMessage(labelText) != EmailMessage && RequiredMessage(labelText) != PhoneMessage
  {
    var m := RequiredMessage(labelText);
    assert m[|m| - 1] == 'd';
    assert EmailMessage[|EmailMessage| - 1] == 's';
    assert PhoneMessage[|PhoneMessage| - 1] == 'r';
  }

  /** The required test: falsy, or a string that trims to nothing. */
  predicate Blank(value: Option<Value>) {
    Falsy(value) || (value.Some? && value.value.Text? && Trim(value.value.text) == [])
  }

  /** `validateField` */
  function ValidateField(value: Option<Value>, field: Field): (r: Option<ValidationError>)
    requires Validatable(value, field)
    ensures r.Some? ==> r.value.fieldId == field.id
    ensures r.Some? ==> r.value.message in {RequiredMessage(field.labelText), EmailMessage, PhoneMessage}
    ensures Falsy(value) ==> (r.Some? <==> field.required)
  {
    if field.required && Blank(value) then
      Some(ValidationError(field.id, RequiredMessage(field.labelText)))
    else if Falsy(value) then
      None
    else if field.kind == Email && !IsEmail(AsText(value.value)) then
      Some(ValidationError(field.id, EmailMessage))
    else if field.kind == Phone && |Digits(value.value.text)| != 10 then
      Some(ValidationError(field.id, PhoneMessage))
    else
      None
  }

  /** A required field whose value is falsy or whitespace only gets the
      required message and nothing else. */
  lemma RequiredComesFirst(value: Option<Value>, field: Field)
    requires Validatable(value, field) && field.required
    requires Falsy(value) || (value.Some? && value.value.Text? && AllSpace(value.value.text))
    ensures ValidateField(value, field) == Some(ValidationError(field.id, RequiredMessage(field.labelText)))
  {
    if value.Some? && value.value.Text? {
      TrimEmptyIff(value.value.text);
    }
  }

  /** The required message appears exactly for a required field whose
      value is blank (falsy, or a string that trims to nothing), and a
      falsy value of a field that is not required gets no error. */
  lemma RequiredOnlyWhenBlank(value: Option<Value>, field: Field)
    requires Validatable(value, field)
    ensures ValidateField(value, field) == Some(ValidationError(field.id, RequiredMessage(field.labelText)))
      <==> field.required && Blank(value)
    ensures !field.required && Falsy(value) ==> ValidateField(value, field).None?
  {
    RequiredMessageDistinct(field.labelText);
  }

  /** An email field with a non-empty text value that is not blank-and-
      required fails exactly when the pattern does not match. */
  lemma EmailRule(t: string, field: Field)
    requires field.kind == Email && t != []
    requires !(field.required && AllSpace(t))
    ensures ValidateField(Some(Text(t)), field).Some? <==> !EmailPatternMatches(t)
    ensures ValidateField(Some(Text(t)), field).Some? ==>
      ValidateField(Some(Text(t)), field).value.message == EmailMessage
  {
    IsEmailMatchesPattern(t);
    var v := Some(Text(t));
    assert !(field.required && Blank(v)) by { TrimEmptyIff(t); }
    assert !Falsy(v);
    assert AsText(v.value) == t;
    assert ValidateField(v, field) == if IsEmail(t) then None else Some(ValidationError(field.id, EmailMessage));
  }

  /** A phone field with a non-empty text value that is not blank-and-
      required is valid exactly when ten digits remain after stripping
      every non-digit. */
  lemma PhoneRule(t: string, field: Field)
    requires field.kind == Phone && t != []
    requires !(field.required && AllSpace(t))
    ensures ValidateField(Some(Text(t)), field).None? <==> |Digits(t)| == 10
    ensures ValidateField(Some(Text(t)), field).Some? ==>
      ValidateField(Some(Text(t)), field).value.message == PhoneMessage
  {
    var v := Some(Text(t));
    assert !(field.required && Blank(v)) by { TrimEmptyIff(t); }
    assert !Falsy(v);
    assert field.kind != Email by { assert Phone[0] != Email[0]; }
  }

  lemma PhoneExamples(field: Field)
    requires field.kind == Phone
    ensures ValidateField(Some(Text("123-456-7890")), field).None?
    ensures ValidateField(Some(Text("12345")), field) == Some(ValidationError(field.id, PhoneMessage))
  {
    DashedPhoneDigits();
    ShortPhoneDigits();
    NotAllSpace("12345");
    NotAllSpace("123-456-7890");
    PhoneRule("123-456-7890", field);
    PhoneRule("12345", field);
  }

  lemma DashedPhoneDigits()
    ensures Digits("123-456-7890") == "1234567890"
  {
    var a, b, c := "123", "456", "7890";
    var s := a + "-" + b + "-" + c;
    assert s == "123-456-7890";
    assert AllDigits(a) && AllDigits(b) && AllDigits(c);
    DashedDigits(a, b, c);
    assert a + b + c == "1234567890";
  }

  lemma ShortPhoneDigits()
    ensures Digits("12345") == "12345"
  {
    DigitsOfDigits("12345");
  }

  lemma NotAllSpace(s: string)
    requires s != [] && s[0] == '1'
    ensures !AllSpace(s)
  {
    assert !IsSpace(s[0]);
  }

  /** Fields that are neither email nor phone never get a format error:
      only the required message can appear. */
  lemma NoFormatErrorForOtherKinds(value: Option<Value>, field: Field)
    requires field.kind != Email && field.kind != Phone
    ensures ValidateField(value, field).Some? ==>
      field.required && Blank(value) &&
      ValidateField(value, field).value.message == RequiredMessage(field.labelText)
  {
  }

  predicate AllValidatable(values: map<string, Value>, fields: seq<Field>) {
    forall i :: 0 <= i < |fields| ==> Validatable(Lookup(values, fields[i].id), fields[i])
  }

  function Check(values: map<string, Value>, field: Field): seq<ValidationError>
    requires Validatable(Lookup(values, field.id), field)
  {
    match ValidateField(Lookup(values, field.id), field)
    case None => []
    case Some(e) => [e]
  }

  /** The error list `validateForm` builds: each field's error, if any, in
      field order. */
  function Errors(values: map<string, Value>, fields: seq<Field>): (r: seq<ValidationError>)
    requires AllValidatable(values, fields)
    ensures |r| <= |fields|
    ensures forall p :: 0 <= p < |r| ==> HasId(fields, r[p].fieldId)
  {
    if fields == [] then []
    else
      var n := |fields| - 1;
      var prev := Errors(values, fields[..n]);
      assert forall p :: 0 <= p < |prev| ==> HasId(fields, prev[p].fieldId) by {
        forall p | 0 <= p < |prev| ensures HasId(fields, prev[p].fieldId) {
          var i :| 0 <= i < n && fields[..n][i].id == prev[p].fieldId;
          assert fields[i] == fields[..n][i];
        }
      }
      assert fields[n].id == fields[n].id;
      prev + Check(values, fields[n])
  }

  /** `validateForm`: walks the fields in order and accumulates their
      errors. */
  method ValidateForm(values: map<string, Value>, fields: seq<Field>) returns (errs: seq<ValidationError>)
    requires AllValidatable(values, fields)
    ensures errs == Errors(values, fields)
  {
    errs := [];
    for i := 0 to |fields|
      invariant errs == Errors(values, fields[..i])
    {
      var e := ValidateField(Lookup(values, fields[i].id), fields[i]);
      if e.Some? {
        errs := errs + [e.value];
      }
      assert fields[..i + 1][..i] == fields[..i];
    }
    assert fields[..|fields|] == fields;
  }

  lemma IndexOfExtend(fs: seq<Field>, f: Field, id: string)
    requires HasId(fs, id)
    ensures HasId(fs + [f], id) && IndexOf(fs + [f], id) == IndexOf(fs, id)
  {
    var r := IndexOf(fs, id);
    assert (fs + [f])[r].id == id;
  }

  lemma PrefixDistinct(fs: seq<Field>, n: nat)
    requires DistinctIds(fs) && n <= |fs|
    ensures DistinctIds(fs[..n])
  {
    forall i, j | 0 <= i < j < n ensures fs[..n][i].id != fs[..n][j].id {
      assert fs[..n][i] == fs[i] && fs[..n][j] == fs[j];
    }
  }

  /** Every error names one of the fields, the errors follow the field order,
      and no field has two errors. */
  lemma {:induction false} ErrorsInFieldOrder(values: map<string, Value>, fields: seq<Field>)
    requires AllValidatable(values, fields) && DistinctIds(fields)
    ensures var errs := Errors(values, fields);
      |errs| <= |fields| &&
      (forall p :: 0 <= p < |errs| ==> HasId(fields, errs[p].fieldId)) &&
      (forall p, q :: 0 <= p < q < |errs| ==> IndexOf(fields, errs[p].fieldId) < IndexOf(fields, errs[q].fieldId))
  {
    if fields != [] {
      var n := |fields| - 1;
      var init, f := fields[..n], fields[n];
      assert fields == init + [f];
      assert AllValidatable(values, init) by {
        forall i | 0 <= i < |init| ensures Validatable(Lookup(values, init[i].id), init[i]) {
          assert init[i] == fields[i];
        }
      }
      PrefixDistinct(fields, n);
      ErrorsInFieldOrder(values, init);
      var prev := Errors(values, init);
      var errs := Errors(values, fields);
      assert errs == prev + Check(values, f);
      forall p | 0 <= p < |prev| ensures HasId(fields, prev[p].fieldId) && IndexOf(fields, prev[p].fieldId) == IndexOf(init, prev[p].fieldId) {
        IndexOfExtend(init, f, prev[p].fieldId);
      }
      if |errs| > |prev| {
        assert errs[|prev|].fieldId == f.id;
        IndexOfDistinct(fields, n);
        assert HasId(fields, f.id) by { assert fields[n].id == f.id; }
      }
    }
  }

  /** Every field's own error appears in the list. */
  lemma {:induction false} ErrorsComplete(values: map<string, Value>, fields: seq<Field>, i: nat)
    requires AllValidatable(values, fields) && i < |fields|
    ensures ValidateField(Lookup(values, fields[i].id), fields[i]).Some? ==>
      ValidateField(Lookup(values, fields[i].id), fields[i]).value in Errors(values, fields)
  {
    var n := |fields| - 1;
    var init := fields[..n];
    assert AllValidatable(values, init) by {
      forall k | 0 <= k < |init| ensures Validatable(Lookup(values, init[k].id), init[k]) {
        assert init[k] == fields[k];
      }
    }
    if i < n {
      assert init[i] == fields[i];
      ErrorsComplete(values, init, i);
    }
  }

  /** The errors an empty submission gets: one per required field, in field
      order. */
  function RequiredErrors(fields: seq<Field>): seq<ValidationError> {
    if fields == [] then []
    else if fields[0].required then
      [ValidationError(fields[0].id, RequiredMessage(fields[0].labelText))] + RequiredErrors(fields[1..])
    else RequiredErrors(fields[1..])
  }

  lemma {:induction false} RequiredErrorsSnoc(fs: seq<Field>, f: Field)
    ensures RequiredErrors(fs + [f]) == RequiredErrors(fs) +
      (if f.required then [ValidationError(f.id, RequiredMessage(f.labelText))] else [])
  {
    if fs == [] {
      assert [] + [f] == [f];
    } else {
      assert (fs + [f])[1..] == fs[1..] + [f];
      RequiredErrorsSnoc(fs[1..], f);
    }
  }

  /** On an empty value map the form gets exactly one error per required
      field. */
  lemma {:induction false} EmptySubmission(fields: seq<Field>)
    ensures AllValidatable(map[], fields)
    ensures Errors(map[], fields) == RequiredErrors(fields)
  {
    if fields != [] {
      var n := |fields| - 1;
      assert fields == fields[..n] + [fields[n]];
      EmptySubmission(fields[..n]);
      RequiredErrorsSnoc(fields[..n], fields[n]);
    }
  }

  // ---------------------------------------------------------------------
  // Submission

  /** Where `handleSubmit` stands when it reaches its `await` or returns:
      rejected with the errors it also handed to `onValidationError`, or
      waiting on `onSubmit` with the values. */
  datatype SubmitStep = Rejected(errs: seq<ValidationError>) | AwaitingSubmit(data: map<string, Value>)

  /** The hook's state: `errors`, `isSubmitting`, `isSubmitted`. */
  class SubmitController {
    var errors: seq<ValidationError>
    var isSubmitting: bool
    var isSubmitted: bool

    constructor ()
      ensures errors == [] && !isSubmitting && !isSubmitted
    {
      errors := [];
      isSubmitting := false;
      isSubmitted := false;
    }

    /** Whether the submit button of a form showing `fields` can be pressed:
        it is rendered only for a non-empty field list, it is disabled while
        submitting, and the whole form gives way to the success message once
        submitted. The hook itself does not check this. */
    function SubmitEnabled(fields: seq<Field>): (r: bool)
      reads this
      ensures r <==> fields != [] && !isSubmitting && !isSubmitted
    {
      |fields| > 0 && !isSubmitting && !isSubmitted
    }

    /** `handleSubmit` up to its `await`: validation errors are published and
        end the submission; otherwise the values go to `onSubmit`. */
    method HandleSubmit(values: map<string, Value>, fields: seq<Field>) returns (step: SubmitStep)
      requires AllValidatable(values, fields)
      modifies this
      ensures step == if Errors(values, fields) == [] then AwaitingSubmit(values) else Rejected(Errors(values, fields))
      ensures step.Rejected? ==> errors == step.errs && !isSubmitting
      ensures step.AwaitingSubmit? ==> errors == [] && isSubmitting && !SubmitEnabled(fields)
      ensures step.Rejected? ==> fields != [] && (SubmitEnabled(fields) <==> !isSubmitted)
      ensures fields == [] ==> step == AwaitingSubmit(values)
      ensures isSubmitted == old(isSubmitted)
    {
      isSubmitting := true;
      errors := [];
      var validationErrors := ValidateForm(values, fields);
      if |validationErrors| > 0 {
        errors := validationErrors;
        isSubmitting := false;
        return Rejected(validationErrors);
      }
      return AwaitingSubmit(values);
    }

    /** The rest of `handleSubmit` once `onSubmit` has settled: success
        marks the form submitted, failure leaves one form-level error, and
        submitting ends either way. */
    method SubmitSettled(succeeded: bool)
      modifies this
      ensures !isSubmitting
      ensures succeeded ==> isSubmitted && errors == old(errors)
      ensures !succeeded ==> errors == [ValidationError(FormErrorId, SubmitFailedMessage)] && isSubmitted == old(isSubmitted)
      ensures forall fields: seq<Field> :: SubmitEnabled(fields) <==> fields != [] && !isSubmitted
    {
      if succeeded {
        isSubmitted := true;
      } else {
        errors := [ValidationError(FormErrorId, SubmitFailedMessage)];
      }
      isSubmitting := false;
    }
  }

  // ---------------------------------------------------------------------
  // Input updates

  /** `handleInputChange`: sets one key of the value map. */
  function SetValue(values: map<string, Value>, id: string, v: Value): (r: map<string, Value>)
    ensures r.Keys == values.Keys + {id} && r[id] == v
    ensures forall k :: k in values && k != id ==> r[k] == values[k]
  {
    values[id := v]
  }

  /** `items.filter(v => v !== x)` */
  function Remove(items: seq<string>, x: string): (r: seq<string>)
    ensures x !in r && |r| <= |items|
    ensures forall y :: y in r ==> y in items
    ensures forall y :: y in items && y != x ==> y in r
  {
    if items == [] then []
    else if items[0] == x then Remove(items[1..], x)
    else [items[0]] + Remove(items[1..], x)
  }

  lemma {:induction false} RemoveAbsent(items: seq<string>, x: string)
    requires x !in items
    ensures Remove(items, x) == items
  {
    if items != [] {
      RemoveAbsent(items[1..], x);
    }
  }

  lemma {:induction false} RemoveAppend(items: seq<string>, extra: seq<string>, x: string)
    ensures Remove(items + extra, x) == Remove(items, x) + Remove(extra, x)
  {
    if items == [] {
      assert items + extra == extra;
    } else {
      assert (items + extra)[1..] == items[1..] + extra;
      RemoveAppend(items[1..], extra, x);
    }
  }

  /** The checkbox toggle: checking appends the value, unchecking removes
      every occurrence of it. */
  function Toggle(current: seq<string>, option: string, checked: bool): (r: seq<string>)
    ensures checked ==> r == current + [option]
    ensures !checked ==> option !in r && (forall y :: y != option ==> (y in r <==> y in current))
  {
    if checked then current + [option] else Remove(current, option)
  }

  /** Checking an unchecked value and unchecking it again gives back the
      same list; unchecking removes as many copies as checking added. */
  lemma CheckThenUncheck(current: seq<string>, option: string)
    requires option !in current
    ensures Toggle(Toggle(current, option, true), option, false) == current
  {
    RemoveAppend(current, [option], option);
    RemoveAbsent(current, option);
    assert Remove([option], option) == [];
  }

  /** `formData[field.id] || []` for a checkbox field. */
  function CheckedValues(v: Option<Value>): (r: seq<string>)
    requires v.None? || v.value.Choices? || v.value == Text("")
    ensures v.Some? && v.value.Choices? ==> r == v.value.items
    ensures Falsy(v) ==> r == []
  {
    if v.Some? && v.value.Choices? then v.value.items else []
  }

  /** The checkbox `onChange`: toggles the value in the field's list and
      stores the new list under the field's id. */
  function CheckboxChange(values: map<string, Value>, id: string, option: string, checked: bool): (r: map<string, Value>)
    requires id in values ==> values[id].Choices? || values[id] == Text("")
    ensures r.Keys == values.Keys + {id}
    ensures forall k :: k in values && k != id ==> r[k] == values[k]
    ensures r[id] == Choices(Toggle(CheckedValues(Lookup(values, id)), option, checked))
  {
    SetValue(values, id, Choices(Toggle(CheckedValues(Lookup(values, id)), option, checked)))
  }
}
