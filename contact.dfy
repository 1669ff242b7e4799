/**
 * The contact form (assets/js/modules/contato.js): the e-mail pattern, the
 * per-field and whole-form validation with their inline error markers, the
 * status alert above the form, and the submission state machine guarded by
 * `isSubmitting`.
 */
module Contact {
  import opened Base
  import opened Strings

  const RequiredMessage: string := "Este campo é obrigatório."
  const EmailMessage: string := "Por favor, insira um email válido."
  const SuccessMessage: string := "Mensagem enviada com sucesso! Entraremos em contato em breve."
  const SubmitErrorMessage: string := "Erro ao enviar mensagem. Tente novamente."
  const IdleLabel: string := "Enviar Mensagem"
  const LoadingLabel: string := "<span class=\"loading\"></span>Enviando..."
  const InvalidClass: string := "is-invalid"

  // ---------------------------------------------------------------------
  // validateEmail

  /** A character of the class `[^\s@]`. */
  predicate IsEmailChar(c: char) {
    !IsJsSpace(c) && c != '@'
  }

  predicate AllEmailChars(s: string) {
    forall k :: 0 <= k < |s| ==> IsEmailChar(s[k])
  }

  /** The strings matched by `^[^\s@]+@[^\s@]+\.[^\s@]+$`: an `@` at `i` and a
      `.` at `j` cut the string into three non-empty runs of `[^\s@]`. */
  ghost predicate EmailPattern(s: string) {
    exists i: nat, j: nat ::
      0 < i && i + 1 < j && j + 1 < |s| && s[i] == '@' && s[j] == '.'
      && AllEmailChars(s[..i]) && AllEmailChars(s[i + 1..j]) && AllEmailChars(s[j + 1..])
  }

  /** Index of the first `c` in `s`, or `|s|` when there is none. */
  function IndexOf(s: string, c: char): (i: nat)
    ensures i <= |s|
    ensures i == |s| <==> c !in s
    ensures i < |s| ==> s[i] == c
    ensures forall k :: 0 <= k < i ==> s[k] != c
  {
    if s == [] then 0 else if s[0] == c then 0 else 1 + IndexOf(s[1..], c)
  }

  /** `d` holds a `.` that is neither its first nor its last character. */
  predicate HasInnerDot(d: string) {
    exists k :: 0 < k < |d| - 1 && d[k] == '.'
  }

  /** `validateEmail`: exactly one `@`, no white space anywhere, a non-empty
      local part, and a domain with an inner `.`. */
  predicate ValidateEmail(email: string) {
    var at := IndexOf(email, '@');
    NoSpace(email) && CountChar(email, '@') == 1 && 0 < at && HasInnerDot(email[at + 1..])
  }

  /** The only `c` in a string that holds exactly one `c` is the one at `i`. */
  lemma OnlyOccurrence(s: string, c: char, i: nat)
    requires i < |s| && s[i] == c && CountChar(s, c) == 1
    ensures forall k :: 0 <= k < |s| && k != i ==> s[k] != c
  {
    assert s == s[..i] + s[i..];
    CountCharAppend(s[..i], s[i..], c);
    assert s[i..][1..] == s[i + 1..];
    assert c !in s[..i] && c !in s[i + 1..];
    forall k | 0 <= k < |s| && k != i ensures s[k] != c {
      if k < i { assert s[k] == s[..i][k]; } else { assert s[k] == s[i + 1..][k - i - 1]; }
    }
  }

  /** `AllEmailChars` of a slice, read index by index. */
  lemma AllEmailCharsSlice(s: string, lo: nat, hi: nat)
    requires lo <= hi <= |s|
    ensures AllEmailChars(s[lo..hi]) <==> forall m :: lo <= m < hi ==> IsEmailChar(s[m])
  {
    if AllEmailChars(s[lo..hi]) {
      forall m | lo <= m < hi ensures IsEmailChar(s[m]) {
        assert s[m] == s[lo..hi][m - lo];
      }
    }
  }

  /** `c` is absent from a slice when it is absent from each index of it. */
  lemma NotInSlice(s: string, lo: nat, hi: nat, c: char)
    requires lo <= hi <= |s|
    requires forall m :: lo <= m < hi ==> s[m] != c
    ensures c !in s[lo..hi]
  {
    forall m | 0 <= m < hi - lo ensures s[lo..hi][m] != c {
      assert s[lo..hi][m] == s[lo + m];
    }
  }

  lemma ValidateEmailSound(s: string)
    requires ValidateEmail(s)
    ensures EmailPattern(s)
  {
    var i := IndexOf(s, '@');
    var d := s[i + 1..];
    var k :| 0 < k < |d| - 1 && d[k] == '.';
    var j := i + 1 + k;
    OnlyOccurrence(s, '@', i);
    assert s[j] == d[k];
    AllEmailCharsSlice(s, 0, i);
    AllEmailCharsSlice(s, i + 1, j);
    AllEmailCharsSlice(s, j + 1, |s|);
    assert s[..i] == s[0..i] && s[j + 1..] == s[j + 1..|s|];
    assert EmailPattern(s);
  }

  /** Every character of a pattern match other than its `@` is in `[^\s@]`. */
  lemma PatternOthers(s: string, i: nat, j: nat)
    requires 0 < i && i + 1 < j && j + 1 < |s| && s[j] == '.'
    requires AllEmailChars(s[..i]) && AllEmailChars(s[i + 1..j]) && AllEmailChars(s[j + 1..])
    ensures forall m :: 0 <= m < |s| && m != i ==> IsEmailChar(s[m])
  {
    assert s[..i] == s[0..i] && s[j + 1..] == s[j + 1..|s|];
    AllEmailCharsSlice(s, 0, i);
    AllEmailCharsSlice(s, i + 1, j);
    AllEmailCharsSlice(s, j + 1, |s|);
  }

  /** A string whose only non-`[^\s@]` character is one `@` at `i` holds
      exactly one `@`, found at `i`. */
  lemma SingleAt(s: string, i: nat)
    requires i < |s| && s[i] == '@'
    requires forall m :: 0 <= m < |s| && m != i ==> IsEmailChar(s[m])
    ensures IndexOf(s, '@') == i && CountChar(s, '@') == 1 && NoSpace(s)
  {
    NotInSlice(s, 0, i, '@');
    NotInSlice(s, i + 1, |s|, '@');
    assert s == s[..i] + [s[i]] + s[i + 1..];
    CountCharAppend(s[..i] + [s[i]], s[i + 1..], '@');
    CountCharAppend(s[..i], [s[i]], '@');
  }

  lemma ValidateEmailComplete(s: string)
    requires EmailPattern(s)
    ensures ValidateEmail(s)
  {
    var i: nat, j: nat :| 0 < i && i + 1 < j && j + 1 < |s| && s[i] == '@' && s[j] == '.'
      && AllEmailChars(s[..i]) && AllEmailChars(s[i + 1..j]) && AllEmailChars(s[j + 1..]);
    PatternOthers(s, i, j);
    SingleAt(s, i);
    assert s[i + 1..][j - i - 1] == '.';
  }

  /** The computed check accepts exactly the language of the regular expression. */
  lemma ValidateEmailMatchesPattern(s: string)
    ensures ValidateEmail(s) <==> EmailPattern(s)
  {
    if ValidateEmail(s) { ValidateEmailSound(s); }
    if EmailPattern(s) { ValidateEmailComplete(s); }
  }

  /** A domain without a dot-segment is rejected. */
  lemma RejectsDotlessDomain()
    ensures !ValidateEmail("foo@bar")
  {
    assert '.' !in "foo@bar";
    ValidateEmailMatchesPattern("foo@bar");
  }

  /** A `local@domain.tld` address is accepted. */
  lemma AcceptsDottedDomain()
    ensures ValidateEmail("foo@bar.com")
  {
    var good := "foo@bar.com";
    assert AllEmailChars(good[..3]) by { assert good[..3] == "foo"; }
    assert AllEmailChars(good[4..7]) by { assert good[4..7] == "bar"; }
    assert AllEmailChars(good[8..]) by { assert good[8..] == "com"; }
    assert good[3] == '@' && good[7] == '.';
    assert EmailPattern(good);
    ValidateEmailMatchesPattern(good);
  }

  // ---------------------------------------------------------------------
  // Fields, error markers and validateField

  datatype Control = Input | TextArea

  /** A `.form-error` span: its id and its text. */
  datatype ErrorSpan = ErrorSpan(id: string, message: string)

  /** One `input` or `textarea` of the form. `errors` are the `.form-error`
      spans under the field's parent element, in document order. */
  datatype Field = Field(
    control: Control,
    inputType: string,
    id: string,
    value: string,
    defaultValue: string,
    classes: set<string>,
    attributes: map<string, string>,
    errors: seq<ErrorSpan>)

  predicate IsRequired(f: Field) {
    "required" in f.attributes
  }

  /** Matches `input[type="email"]`, and is also the test `field.type === 'email'`. */
  predicate IsEmailInput(f: Field) {
    f.control == Input && f.inputType == "email"
  }

  function ErrorId(f: Field): string {
    f.id + "-error"
  }

  function DropFirst(s: seq<ErrorSpan>): seq<ErrorSpan> {
    if s == [] then [] else s[1..]
  }

  /** `setFieldError`: mark the field invalid, drop the parent's first error
      span and append a new one with `message`. */
  function SetError(f: Field, message: string): (g: Field)
    ensures InvalidClass in g.classes && g.classes - {InvalidClass} == f.classes - {InvalidClass}
    ensures g.attributes == f.attributes["aria-invalid" := "true"]["aria-describedby" := ErrorId(f)]
    ensures |f.errors| <= 1 ==> g.errors == [ErrorSpan(ErrorId(f), message)]
    ensures g.(classes := f.classes, attributes := f.attributes, errors := f.errors) == f
  {
    f.(classes := f.classes + {InvalidClass},
       attributes := f.attributes["aria-invalid" := "true"]["aria-describedby" := ErrorId(f)],
       errors := DropFirst(f.errors) + [ErrorSpan(ErrorId(f), message)])
  }

  /** `clearFieldError`: remove the invalid marker, both ARIA attributes and
      the parent's first error span. */
  function ClearError(f: Field): (g: Field)
    ensures InvalidClass !in g.classes && g.classes - {InvalidClass} == f.classes - {InvalidClass}
    ensures "aria-invalid" !in g.attributes && "aria-describedby" !in g.attributes
    ensures g.attributes == f.attributes - {"aria-invalid", "aria-describedby"}
    ensures |f.errors| <= 1 ==> g.errors == []
    ensures g.(classes := f.classes, attributes := f.attributes, errors := f.errors) == f
  {
    f.(classes := f.classes - {InvalidClass},
       attributes := f.attributes - {"aria-invalid", "aria-describedby"},
       errors := DropFirst(f.errors))
  }

  datatype Verdict = Pass | Fail(message: string)

  /** The decision of `validateField`: the required check first, then the
      e-mail check. */
  function FieldVerdict(f: Field): Verdict {
    if IsRequired(f) && Trim(f.value) == [] then Fail(RequiredMessage)
    else if IsEmailInput(f) && f.value != "" && !ValidateEmail(f.value) then Fail(EmailMessage)
    else Pass
  }

  /** What the verdict means: a required field must hold a non-white-space
      character, a non-empty e-mail field must match the pattern, the
      required check wins over the e-mail check, and an empty optional field
      passes. */
  lemma FieldVerdictMeaning(f: Field)
    ensures FieldVerdict(f).Pass? <==>
      (IsRequired(f) ==> !IsBlank(f.value)) && (IsEmailInput(f) && f.value != "" ==> EmailPattern(f.value))
    ensures FieldVerdict(f) == Fail(RequiredMessage) <==> IsRequired(f) && IsBlank(f.value)
    ensures FieldVerdict(f) == Fail(EmailMessage) <==>
      !(IsRequired(f) && IsBlank(f.value)) && IsEmailInput(f) && f.value != "" && !EmailPattern(f.value)
  {
    TrimEmptyIffBlank(f.value);
    ValidateEmailMatchesPattern(f.value);
  }

  /** The field after `validateField`: its previous error state is always
      cleared first; on a failure the verdict's message is shown. */
  function ValidatedField(f: Field): (g: Field)
    ensures g.value == f.value && g.control == f.control && g.inputType == f.inputType && g.id == f.id
    ensures g.defaultValue == f.defaultValue
    ensures |f.errors| <= 1 ==> |g.errors| <= 1
    ensures g.classes - {InvalidClass} == f.classes - {InvalidClass}
    ensures g.attributes - {"aria-invalid", "aria-describedby"} == f.attributes - {"aria-invalid", "aria-describedby"}
    ensures FieldVerdict(f).Pass? ==>
      InvalidClass !in g.classes && "aria-invalid" !in g.attributes && "aria-describedby" !in g.attributes
      && (|f.errors| <= 1 ==> g.errors == [])
    ensures FieldVerdict(f).Fail? ==>
      InvalidClass in g.classes && "aria-invalid" in g.attributes && "aria-describedby" in g.attributes
      && g.attributes["aria-invalid"] == "true" && g.attributes["aria-describedby"] == ErrorId(f)
      && (|f.errors| <= 1 ==> g.errors == [ErrorSpan(ErrorId(f), FieldVerdict(f).message)])
  {
    var cleared := ClearError(f);
    match FieldVerdict(f)
    case Pass => cleared
    case Fail(m) => SetError(cleared, m)
  }

  // ---------------------------------------------------------------------
  // validateForm

  /** Index of the first `input[type="email"]` at or after `from`, or `|fields|`. */
  function FirstEmailFrom(fields: seq<Field>, from: nat): (k: nat)
    requires from <= |fields|
    ensures from <= k <= |fields|
    ensures k < |fields| ==> IsEmailInput(fields[k])
    ensures forall i :: from <= i < k ==> !IsEmailInput(fields[i])
    decreases |fields| - from
  {
    if from == |fields| then from
    else if IsEmailInput(fields[from]) then from
    else FirstEmailFrom(fields, from + 1)
  }

  function FirstEmailInput(fields: seq<Field>): nat {
    FirstEmailFrom(fields, 0)
  }

  /** The e-mail step of `validateForm` rejects the first e-mail input. */
  predicate EmailStepFails(fields: seq<Field>) {
    var k := FirstEmailInput(fields);
    k < |fields| && fields[k].value != "" && !ValidateEmail(fields[k].value)
  }

  /** What `validateForm` returns: every required field passes and the first
      e-mail input is empty or well formed. */
  predicate FormIsValid(fields: seq<Field>) {
    (forall i :: 0 <= i < |fields| && IsRequired(fields[i]) ==> FieldVerdict(fields[i]).Pass?)
    && !EmailStepFails(fields)
  }

  /** Field `i` after the loop of `validateForm` (required fields only). */
  function AfterLoop(f: Field): Field {
    if IsRequired(f) then ValidatedField(f) else f
  }

  /** Field `i` after the whole of `validateForm`. */
  function AfterValidateForm(fields: seq<Field>, i: nat): Field
    requires i < |fields|
  {
    var g := AfterLoop(fields[i]);
    if i == FirstEmailInput(fields) && EmailStepFails(fields) then SetError(g, EmailMessage) else g
  }

  function ValidateFormState(fields: seq<Field>): (r: seq<Field>)
    ensures |r| == |fields|
    ensures forall i :: 0 <= i < |fields| ==> r[i] == AfterValidateForm(fields, i)
  {
    seq(|fields|, i requires 0 <= i < |fields| => AfterValidateForm(fields, i))
  }

  /** Two field lists with the same controls and types have the same first e-mail input. */
  lemma {:induction false} FirstEmailSame(a: seq<Field>, b: seq<Field>, from: nat)
    requires |a| == |b| && from <= |a|
    requires forall i :: 0 <= i < |a| ==> IsEmailInput(a[i]) == IsEmailInput(b[i])
    ensures FirstEmailFrom(a, from) == FirstEmailFrom(b, from)
    decreases |a| - from
  {
    if from < |a| && !IsEmailInput(a[from]) {
      FirstEmailSame(a, b, from + 1);
    }
  }

  /** A rejected form always leaves some field marked `is-invalid`, so
      `focusFirstError` has a field to focus. */
  lemma InvalidFormMarksAField(fields: seq<Field>)
    requires !FormIsValid(fields)
    ensures exists i :: 0 <= i < |fields| && InvalidClass in ValidateFormState(fields)[i].classes
  {
    var r := ValidateFormState(fields);
    if EmailStepFails(fields) {
      var k := FirstEmailInput(fields);
      assert InvalidClass in r[k].classes;
    } else {
      var i :| 0 <= i < |fields| && IsRequired(fields[i]) && !FieldVerdict(fields[i]).Pass?;
      assert InvalidClass in r[i].classes;
    }
  }

  /** An accepted form has every required field non-blank and a first e-mail
      input that is empty or matches the pattern. */
  lemma ValidFormMeaning(fields: seq<Field>)
    requires FormIsValid(fields)
    ensures forall i :: 0 <= i < |fields| && IsRequired(fields[i]) ==> !IsBlank(fields[i].value)
    ensures var k := FirstEmailInput(fields);
      k < |fields| && fields[k].value != "" ==> EmailPattern(fields[k].value)
  {
    var k := FirstEmailInput(fields);
    if k < |fields| { ValidateEmailMatchesPattern(fields[k].value); }
  }

  /** The first field carrying `is-invalid`, or `|fields|`. */
  function FirstInvalid(fields: seq<Field>, from: nat): (k: nat)
    requires from <= |fields|
    ensures from <= k <= |fields|
    ensures k < |fields| ==> InvalidClass in fields[k].classes
    ensures forall i :: from <= i < k ==> InvalidClass !in fields[i].classes
    decreases |fields| - from
  {
    if from == |fields| then from
    else if InvalidClass in fields[from].classes then from
    else FirstInvalid(fields, from + 1)
  }

  /** `form.reset()` followed by clearing every field's error state. */
  function ResetField(f: Field): (g: Field)
    ensures g.value == f.defaultValue && g.defaultValue == f.defaultValue
    ensures g.control == f.control && g.inputType == f.inputType && g.id == f.id
    ensures g.classes == f.classes - {InvalidClass}
    ensures g.attributes == f.attributes - {"aria-invalid", "aria-describedby"}
    ensures "aria-invalid" !in g.attributes && "aria-describedby" !in g.attributes
    ensures |f.errors| <= 1 ==> g.errors == []
  {
    ClearError(f.(value := f.defaultValue))
  }

  // ---------------------------------------------------------------------
  // The module object

  datatype SubmitButton = SubmitButton(disabled: bool, caption: string)

  /** An `.alert` element inserted before the form; `key` tells apart the
      alerts so that each one's dismissal timer removes only itself. */
  datatype Alert = Alert(key: nat, kind: string, message: string)

  class ContactModule {
    /** `#contact-form` was found, so the handlers are bound. */
    const bound: bool
    var fields: seq<Field>
    var button: Option<SubmitButton>
    /** The `.alert` elements in the form's parent. */
    var alerts: seq<Alert>
    var nextAlert: nat
    var isSubmitting: bool
    /** The field that last received focus from `focusFirstError`. */
    var focused: Option<nat>

    /** At most one error span per field parent and at most one alert. */
    ghost predicate Valid()
      reads this
    {
      (forall i :: 0 <= i < |fields| ==> |fields[i].errors| <= 1) && |alerts| <= 1
    }

    constructor (formFound: bool, markup: seq<Field>, buttonFound: bool)
      requires forall i :: 0 <= i < |markup| ==> markup[i].errors == []
      ensures Valid() && bound == formFound && !isSubmitting && alerts == [] && focused == None
      ensures fields == (if formFound then markup else [])
      ensures button == (if formFound && buttonFound then Some(SubmitButton(false, IdleLabel)) else None)
    {
      bound := formFound;
      fields := if formFound then markup else [];
      button := if formFound && buttonFound then Some(SubmitButton(false, IdleLabel)) else None;
      alerts := [];
      nextAlert := 0;
      isSubmitting := false;
      focused := None;
    }

    /** `setFieldError(field, message)`. */
    method SetFieldError(i: nat, message: string)
      requires Valid() && i < |fields|
      modifies this`fields
      ensures Valid()
      ensures fields == old(fields)[i := SetError(old(fields[i]), message)]
    {
      fields := fields[i := SetError(fields[i], message)];
    }

    /** `clearFieldError(field)`. */
    method ClearFieldError(i: nat)
      requires Valid() && i < |fields|
      modifies this`fields
      ensures Valid()
      ensures fields == old(fields)[i := ClearError(old(fields[i]))]
    {
      fields := fields[i := ClearError(fields[i])];
    }

    /** `validateField(field)`. */
    method ValidateField(i: nat) returns (ok: bool)
      requires Valid() && i < |fields|
      modifies this`fields
      ensures Valid()
      ensures ok == FieldVerdict(old(fields[i])).Pass?
      ensures fields == old(fields)[i := ValidatedField(old(fields[i]))]
    {
      var f := fields[i];
      ClearFieldError(i);
      var v := FieldVerdict(f);
      if v.Fail? {
        SetFieldError(i, v.message);
        ok := false;
        return;
      }
      ok := true;
    }

    /** `validateForm()`: every required field is validated, none skipped,
        then the first e-mail input is checked again. */
    method ValidateForm() returns (isValid: bool)
      requires Valid()
      modifies this`fields
      ensures Valid()
      ensures isValid == FormIsValid(old(fields))
      ensures fields == ValidateFormState(old(fields))
    {
      ghost var before := fields;
      isValid := true;
      var i := 0;
      while i < |fields|
        invariant 0 <= i <= |fields| == |before|
        invariant Valid()
        invariant forall j :: 0 <= j < i ==> fields[j] == AfterLoop(before[j])
        invariant forall j :: i <= j < |fields| ==> fields[j] == before[j]
        invariant isValid == forall j :: 0 <= j < i && IsRequired(before[j]) ==> FieldVerdict(before[j]).Pass?
      {
        if IsRequired(fields[i]) {
          var ok := ValidateField(i);
          if !ok {
            isValid := false;
          }
        }
        i := i + 1;
      }
      FirstEmailSame(fields, before, 0);
      var k := FirstEmailFrom(fields, 0);
      if k < |fields| && fields[k].value != "" {
        if !ValidateEmail(fields[k].value) {
          SetFieldError(k, EmailMessage);
          isValid := false;
        }
      }
    }

    /** `focusFirstError()`. */
    method FocusFirstError()
      modifies this`focused
      ensures var k := FirstInvalid(fields, 0); focused == if k < |fields| then Some(k) else old(focused)
    {
      var k := FirstInvalid(fields, 0);
      if k < |fields| {
        focused := Some(k);
      }
    }

    /** `setLoadingState(loading)`: nothing happens without a submit button. */
    method SetLoadingState(loading: bool)
      modifies this`button
      ensures button == if old(button).None? then None
                        else if loading then Some(SubmitButton(true, LoadingLabel))
                        else Some(SubmitButton(false, IdleLabel))
    {
      if button.None? {
        return;
      }
      if loading {
        button := Some(SubmitButton(true, LoadingLabel));
      } else {
        button := Some(SubmitButton(false, IdleLabel));
      }
    }

    /** `showMessage(message, type)`: the previous alert is removed before the
        new one is inserted, so there is never more than one. */
    method ShowMessage(message: string, kind: string)
      requires Valid()
      modifies this`alerts, this`nextAlert
      ensures Valid()
      ensures alerts == [Alert(old(nextAlert), kind, message)] && nextAlert == old(nextAlert) + 1
    {
      if alerts != [] {
        alerts := alerts[1..];
      }
      alerts := alerts + [Alert(nextAlert, kind, message)];
      nextAlert := nextAlert + 1;
    }

    /** The five-second timer of the alert with `key` fires: that alert is
        removed if it is still in the page. */
    method AlertTimerFires(key: nat)
      requires Valid()
      modifies this`alerts
      ensures Valid()
      ensures alerts == (if old(alerts) != [] && old(alerts)[0].key == key then [] else old(alerts))
    {
      if alerts != [] && alerts[0].key == key {
        alerts := [];
      }
    }

    /** `resetForm()`: every value goes back to its default and every
        field's error state is cleared. */
    method ResetForm()
      requires Valid()
      modifies this`fields
      ensures Valid()
      ensures |fields| == |old(fields)|
      ensures forall i :: 0 <= i < |fields| ==> fields[i] == ResetField(old(fields[i]))
    {
      ghost var before := fields;
      var i := 0;
      while i < |fields|
        invariant 0 <= i <= |fields| == |before|
        invariant Valid()
        invariant forall j :: 0 <= j < i ==> fields[j] == ResetField(before[j])
        invariant forall j :: i <= j < |fields| ==> fields[j] == before[j]
      {
        fields := fields[i := fields[i].(value := fields[i].defaultValue)];
        ClearFieldError(i);
        i := i + 1;
      }
    }

    /** The `blur` handler of field `i`. */
    method OnBlur(i: nat)
      requires Valid() && i < |fields|
      modifies this`fields
      ensures Valid()
      ensures fields == old(fields)[i := ValidatedField(old(fields[i]))]
    {
      var _ := ValidateField(i);
    }

    /** The `input` handler of field `i`, after the user changed its value. */
    method OnInput(i: nat, newValue: string)
      requires Valid() && i < |fields|
      modifies this`fields
      ensures Valid()
      ensures fields == old(fields)[i := ClearError(old(fields[i]).(value := newValue))]
    {
      fields := fields[i := fields[i].(value := newValue)];
      ClearFieldError(i);
    }

    /** The synchronous part of `handleSubmit()`, up to the awaited submission. */
    method HandleSubmit()
      requires Valid()
      modifies this`fields, this`isSubmitting, this`button, this`focused
      ensures Valid()
      ensures !bound || old(isSubmitting) ==>
        fields == old(fields) && isSubmitting == old(isSubmitting) && button == old(button) && focused == old(focused)
      ensures bound && !old(isSubmitting) ==> fields == ValidateFormState(old(fields))
      ensures bound && !old(isSubmitting) && FormIsValid(old(fields)) ==>
        isSubmitting && focused == old(focused)
        && button == (if old(button).None? then None else Some(SubmitButton(true, LoadingLabel)))
      ensures bound && !old(isSubmitting) && !FormIsValid(old(fields)) ==>
        !isSubmitting && button == old(button) && focused == Some(FirstInvalid(fields, 0))
    {
      if !bound || isSubmitting {
        return;
      }
      ghost var before := fields;
      var isValid := ValidateForm();
      if !isValid {
        InvalidFormMarksAField(before);
        FocusFirstError();
        return;
      }
      isSubmitting := true;
      SetLoadingState(true);
    }

    /** The awaited submission settles: on success the success alert is shown
        and the form reset; on failure the error alert is shown and the input
        kept; in both cases the button is restored and `isSubmitting` cleared. */
    method SubmissionSettles(succeeded: bool)
      requires Valid() && isSubmitting
      modifies this`fields, this`isSubmitting, this`button, this`alerts, this`nextAlert
      ensures Valid() && !isSubmitting
      ensures button == if old(button).None? then None else Some(SubmitButton(false, IdleLabel))
      ensures succeeded ==> (alerts == [Alert(old(nextAlert), "success", SuccessMessage)]
        && |fields| == |old(fields)|
        && forall i :: 0 <= i < |fields| ==> fields[i] == ResetField(old(fields[i])))
      ensures !succeeded ==> (alerts == [Alert(old(nextAlert), "error", SubmitErrorMessage)]
        && fields == old(fields))
    {
      if succeeded {
        ShowMessage(SuccessMessage, "success");
        ResetForm();
      } else {
        ShowMessage(SubmitErrorMessage, "error");
      }
      isSubmitting := false;
      SetLoadingState(false);
    }
  }

  /** Submitting with one empty required "name" field: focus moves to that
      field, the form does not enter the submitting state, no alert appears. */
  method EmptySubmitScenario() returns (focus: Option<nat>, submitting: bool, alertCount: nat)
    ensures focus == Some(0) && !submitting && alertCount == 0
  {
    var nameField := Field(Input, "text", "name", "", "", {}, map["required" := ""], []);
    assert !FormIsValid([nameField]) by {
      assert Trim(nameField.value) == [];
    }
    var m := new ContactModule(true, [nameField], true);
    m.HandleSubmit();
    focus, submitting, alertCount := m.focused, m.isSubmitting, |m.alerts|;
  }

  /** A single well-formed e-mail field makes a valid form, whether or not
      it is required: a well-formed address is never blank. */
  lemma SingleEmailFormValid(f: Field)
    requires IsEmailInput(f) && ValidateEmail(f.value)
    ensures FormIsValid([f])
  {
    assert !IsJsSpace(f.value[0]);
    TrimEmptyIffBlank(f.value);
    assert FieldVerdict(f) == Pass;
    assert FirstEmailFrom([f], 0) == 0;
  }

  /** Submitting a form whose one field is a well-formed e-mail
      address (such as "foo@bar.com", see AcceptsDottedDomain): the button
      shows the loading label, and once the submission settles exactly one
      alert is shown; the field is back at its default after a success and
      keeps the user's input after a failure. */
  method ValidSubmitScenario(email: Field, succeeded: bool)
    returns (loading: Option<SubmitButton>, alertCount: nat, value: string)
    requires IsEmailInput(email) && ValidateEmail(email.value) && email.errors == []
    ensures loading == Some(SubmitButton(true, LoadingLabel)) && alertCount == 1
    ensures value == if succeeded then email.defaultValue else email.value
  {
    SingleEmailFormValid(email);
    var n := new ContactModule(true, [email], true);
    n.HandleSubmit();
    loading := n.button;
    n.SubmissionSettles(succeeded);
    alertCount, value := |n.alerts|, n.fields[0].value;
  }
}
