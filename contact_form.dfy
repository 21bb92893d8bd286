/**
 * The contact form (`ContactForm`): field updates, validation with its error
 * messages, the e-mail pattern `^[^\s@]+@[^\s@]+\.[^\s@]+$`, and the
 * submit / completion / new-inquiry cycle. The two-second submission delay
 * is the explicit step `CompleteSubmission`.
 */
module Contact {
  import opened Wrappers
  import opened StringOps

  /** The form controls, by their `name` attribute. */
  datatype Field = Name | Email | Type | Message

  /** `FormData`; the `type` field is called `inquiryType` here. */
  datatype FormData = FormData(name: string, email: string, inquiryType: string, message: string)

  const EmptyForm: FormData := FormData("", "", "", "")

  /** `FormErrors`: one optional message per validated field. */
  datatype FormErrors = FormErrors(name: Option<string>, email: Option<string>, message: Option<string>)

  const NoErrors: FormErrors := FormErrors(None, None, None)

  const NameRequired: string := "お名前を入力してください"
  const EmailRequired: string := "メールアドレスを入力してください"
  const EmailMalformed: string := "正しいメールアドレスを入力してください"
  const MessageRequired: string := "お問合せ内容を入力してください"
  const MessageTooShort: string := "10文字以上で入力してください"

  /** The minimum `message.length`. */
  const MinMessageLength: nat := 10

  /** `s.length`: UTF-16 code units, two for every character outside the Basic Multilingual Plane. */
  function Utf16Length(s: string): (n: nat)
    ensures |s| <= n <= 2 * |s|
    decreases |s|
  {
    if s == [] then 0 else Utf16Length(s[..|s| - 1]) + if s[|s| - 1] > '\U{FFFF}' then 2 else 1
  }

  /** Text made only of Basic Multilingual Plane characters has one code unit per character. */
  lemma {:induction false} Utf16LengthOfBmp(s: string)
    requires forall k :: 0 <= k < |s| ==> s[k] <= '\U{FFFF}'
    ensures Utf16Length(s) == |s|
    decreases |s|
  {
    if s != [] {
      Utf16LengthOfBmp(s[..|s| - 1]);
    }
  }

  lemma {:induction false} Utf16LengthAppend(s: string, t: string)
    ensures Utf16Length(s + t) == Utf16Length(s) + Utf16Length(t)
    decreases |t|
  {
    if t == [] {
      assert s + t == s;
    } else {
      var n := |t| - 1;
      assert (s + t)[..|s + t| - 1] == s + t[..n];
      Utf16LengthAppend(s, t[..n]);
    }
  }

  /** `[^\s@]+`: non-empty, with neither white space nor '@'. */
  ghost predicate PlainRun(t: string)
  {
    t != [] && forall k :: 0 <= k < |t| ==> !IsWhiteSpace(t[k]) && t[k] != '@'
  }

  /** The whole of `s` matches `[^\s@]+@[^\s@]+\.[^\s@]+`, split at its '@' and a later '.'. */
  ghost predicate MatchesEmailPattern(s: string)
  {
    exists i, j :: 0 <= i < j < |s| && s[i] == '@' && s[j] == '.' &&
      PlainRun(s[..i]) && PlainRun(s[i + 1..j]) && PlainRun(s[j + 1..])
  }

  /** `s.indexOf(c)`, or -1 when `c` does not occur. */
  function IndexOf(s: string, c: char): (r: int)
    ensures -1 <= r < |s|
    ensures r >= 0 ==> s[r] == c && c !in s[..r]
    ensures r == -1 ==> c !in s
    decreases |s|
  {
    if s == [] then -1
    else if s[0] == c then 0
    else
      var r := IndexOf(s[1..], c);
      assert s[1..] == s[1..][..] && s == [s[0]] + s[1..];
      if r == -1 then -1
      else
        assert s[..r + 1] == [s[0]] + s[1..][..r];
        r + 1
  }

  predicate NoSpaceOrAt(t: string)
  {
    forall k :: 0 <= k < |t| ==> !IsWhiteSpace(t[k]) && t[k] != '@'
  }

  /** The e-mail test: one '@' after a non-empty head, no white space, a '.' inside the domain. */
  function IsEmailAddress(s: string): bool
  {
    var at := IndexOf(s, '@');
    && at >= 1
    && NoSpaceOrAt(s[..at])
    && NoSpaceOrAt(s[at + 1..])
    && at + 3 <= |s|
    && '.' in s[at + 2..|s| - 1]
  }

  /** The e-mail test accepts exactly the strings the regular expression matches. */
  lemma EmailTestIsPattern(s: string)
    ensures IsEmailAddress(s) <==> MatchesEmailPattern(s)
    ensures MatchesEmailPattern(s) ==> !AllWhiteSpace(s)
  {
    if IsEmailAddress(s) {
      EmailTestMatches(s);
    }
    if MatchesEmailPattern(s) {
      var i, j :| 0 <= i < j < |s| && s[i] == '@' && s[j] == '.' &&
        PlainRun(s[..i]) && PlainRun(s[i + 1..j]) && PlainRun(s[j + 1..]);
      PatternPassesTest(s, i, j);
      PatternIsNotBlank(s);
    }
  }

  lemma EmailTestMatches(s: string)
    requires IsEmailAddress(s)
    ensures MatchesEmailPattern(s)
  {
    var i := IndexOf(s, '@');
    var d := s[i + 2..|s| - 1];
    var p :| 0 <= p < |d| && d[p] == '.';
    var j := i + 2 + p;
    assert s[j] == '.';
    assert s[i + 1..j] == s[i + 1..][..j - i - 1];
    assert s[j + 1..] == s[i + 1..][j - i..];
    assert PlainRun(s[..i]) && PlainRun(s[i + 1..j]) && PlainRun(s[j + 1..]);
  }

  lemma PatternPassesTest(s: string, i: int, j: int)
    requires 0 <= i < j < |s| && s[i] == '@' && s[j] == '.'
    requires PlainRun(s[..i]) && PlainRun(s[i + 1..j]) && PlainRun(s[j + 1..])
    ensures IsEmailAddress(s)
  {
    assert IndexOf(s, '@') == i;
    var rest := s[i + 1..];
    forall k | 0 <= k < |rest| ensures !IsWhiteSpace(rest[k]) && rest[k] != '@' {
      if k < j - i - 1 {
        assert rest[k] == s[i + 1..j][k];
      } else if k > j - i - 1 {
        assert rest[k] == s[j + 1..][k - (j - i)];
      }
    }
    assert s[i + 2..|s| - 1][j - i - 2] == '.';
  }

  /** A string that matches the pattern is not blank. */
  lemma PatternIsNotBlank(s: string)
    requires MatchesEmailPattern(s)
    ensures !AllWhiteSpace(s)
  {
    var i, j :| 0 <= i < j < |s| && s[i] == '@' && s[j] == '.' &&
      PlainRun(s[..i]) && PlainRun(s[i + 1..j]) && PlainRun(s[j + 1..]);
    assert !IsWhiteSpace(s[i]);
  }

  /**
   * `!s.trim()` holds exactly when `s` is all white space, by the contract of
   * `Trim`; the rules below test `AllWhiteSpace` directly.
   */
  lemma BlankIsTrimmedEmpty(s: string)
    ensures Trim(s) == [] <==> AllWhiteSpace(s)
  {
  }

  /** The `name` rule: blank after trimming is an error. */
  function NameError(name: string): Option<string>
  {
    if AllWhiteSpace(name) then Some(NameRequired) else None
  }

  /** The `email` rule: blank first, then the pattern, tested on the untrimmed value. */
  function EmailError(email: string): Option<string>
  {
    if AllWhiteSpace(email) then Some(EmailRequired)
    else if !IsEmailAddress(email) then Some(EmailMalformed)
    else None
  }

  /** The `message` rule: blank first, then at least ten UTF-16 code units, white space included. */
  function MessageError(message: string): Option<string>
  {
    if AllWhiteSpace(message) then Some(MessageRequired)
    else if Utf16Length(message) < MinMessageLength then Some(MessageTooShort)
    else None
  }

  /** `validateForm`'s `newErrors`. */
  function ValidationErrors(f: FormData): FormErrors
  {
    FormErrors(NameError(f.name), EmailError(f.email), MessageError(f.message))
  }

  /** The name is reported exactly when it is blank. */
  lemma NameRule(name: string)
    ensures NameError(name) == None <==> !AllWhiteSpace(name)
    ensures NameError(name) == None || NameError(name) == Some(NameRequired)
  {
  }

  /** The address passes exactly when it matches the pattern; a blank one is reported as missing. */
  lemma EmailRule(email: string)
    ensures EmailError(email) == None <==> MatchesEmailPattern(email)
    ensures EmailError(email) == Some(EmailRequired) <==> AllWhiteSpace(email)
    ensures EmailError(email) == None || EmailError(email) == Some(EmailRequired) || EmailError(email) == Some(EmailMalformed)
  {
    EmailTestIsPattern(email);
  }

  /** The message passes exactly when it is not blank and has at least ten code units. */
  lemma MessageRule(message: string)
    ensures MessageError(message) == None <==> !AllWhiteSpace(message) && Utf16Length(message) >= MinMessageLength
    ensures MessageError(message) == Some(MessageRequired) <==> AllWhiteSpace(message)
    ensures MessageError(message) == None || MessageError(message) == Some(MessageRequired) || MessageError(message) == Some(MessageTooShort)
  {
  }

  /** No field has an error. */
  predicate IsValid(f: FormData)
  {
    ValidationErrors(f) == NoErrors
  }

  /** A form is accepted exactly when name and message are not blank, the address matches and the message is long enough. */
  lemma ValidIff(f: FormData)
    ensures IsValid(f) <==>
      && !AllWhiteSpace(f.name)
      && MatchesEmailPattern(f.email)
      && !AllWhiteSpace(f.message) && Utf16Length(f.message) >= MinMessageLength
  {
    NameRule(f.name);
    EmailRule(f.email);
    MessageRule(f.message);
  }

  /** The inquiry type is never checked: any value there leaves the verdict alone. */
  lemma TypeIsNotValidated(f: FormData, t: string)
    ensures ValidationErrors(f.(inquiryType := t)) == ValidationErrors(f)
  {
  }

  /** Submitting the empty form reports all three fields as missing. */
  lemma EmptyFormErrors()
    ensures ValidationErrors(EmptyForm) == FormErrors(Some(NameRequired), Some(EmailRequired), Some(MessageRequired))
  {
    assert AllWhiteSpace(EmptyForm.name);
  }

  /** The length rule counts white space: a letter padded with nine spaces is long enough. */
  lemma PaddedMessageIsLongEnough(m: string)
    requires m == "a" + "         "
    ensures ValidationErrors(EmptyForm.(message := m)).message == None
  {
    assert !IsWhiteSpace(m[0]);
    Utf16LengthOfBmp(m);
    MessageRule(m);
  }

  /** The value of one control. */
  function FieldValue(f: FormData, field: Field): string
  {
    match field
    case Name => f.name
    case Email => f.email
    case Type => f.inquiryType
    case Message => f.message
  }

  /** The form with one control's value replaced. */
  function WithField(f: FormData, field: Field, value: string): (g: FormData)
    ensures FieldValue(g, field) == value
    ensures forall other :: other != field ==> FieldValue(g, other) == FieldValue(f, other)
  {
    match field
    case Name => f.(name := value)
    case Email => f.(email := value)
    case Type => f.(inquiryType := value)
    case Message => f.(message := value)
  }

  /** `errors[name]` as JavaScript reads it: the message, or nothing for the type select. */
  function ErrorOf(e: FormErrors, field: Field): Option<string>
  {
    match field
    case Name => e.name
    case Email => e.email
    case Type => None
    case Message => e.message
  }

  /** The error clearing of `handleInputChange`: a non-empty message of the edited control goes away. */
  function ClearError(e: FormErrors, field: Field): (r: FormErrors)
    ensures ErrorOf(e, field).Some? && ErrorOf(e, field).value != "" ==> ErrorOf(r, field) == None
    ensures ErrorOf(e, field) == None || ErrorOf(e, field) == Some("") ==> r == e
    ensures forall other :: other != field ==> ErrorOf(r, other) == ErrorOf(e, other)
  {
    match ErrorOf(e, field)
    case Some(m) =>
      if m == "" then e
      else (
        match field
        case Name => e.(name := None)
        case Email => e.(email := None)
        case Message => e.(message := None)
        case Type => e)
    case None => e
  }

  class ContactForm {
    var formData: FormData
    var errors: FormErrors
    var isSubmitting: bool
    var isSubmitted: bool
    var charCount: nat

    /** The character counter shows the message's length. */
    predicate CounterMatches()
      reads this
    {
      charCount == Utf16Length(formData.message)
    }

    constructor ()
      ensures formData == EmptyForm && errors == NoErrors
      ensures !isSubmitting && !isSubmitted && charCount == 0
      ensures CounterMatches()
    {
      formData := EmptyForm;
      errors := NoErrors;
      isSubmitting := false;
      isSubmitted := false;
      charCount := 0;
    }

    /** `validateForm`: replaces the errors by those of the current form and reports whether there are none. */
    method ValidateForm() returns (ok: bool)
      modifies this
      ensures errors == ValidationErrors(old(formData)) && ok == IsValid(old(formData))
      ensures formData == old(formData) && charCount == old(charCount)
      ensures isSubmitting == old(isSubmitting) && isSubmitted == old(isSubmitted)
    {
      var f := formData;
      errors := ValidationErrors(f);
      ok := IsValid(f);
    }

    /** `handleInputChange`: stores the value, updates the counter for the message, clears the control's error. */
    method HandleInputChange(field: Field, value: string)
      modifies this
      ensures formData == WithField(old(formData), field, value)
      ensures charCount == if field == Message then Utf16Length(value) else old(charCount)
      ensures errors == ClearError(old(errors), field)
      ensures isSubmitting == old(isSubmitting) && isSubmitted == old(isSubmitted)
      ensures old(CounterMatches()) ==> CounterMatches()
    {
      formData := WithField(formData, field, value);
      if field == Message {
        charCount := Utf16Length(value);
      }
      var current := ErrorOf(errors, field);
      if current.Some? && current.value != "" {
        errors := ClearError(errors, field);
      }
    }

    /** `handleSubmit`: validates, and on success starts submitting. */
    method HandleSubmit() returns (accepted: bool)
      modifies this
      ensures accepted == IsValid(old(formData))
      ensures errors == ValidationErrors(old(formData))
      ensures isSubmitting == (accepted || old(isSubmitting))
      ensures formData == old(formData) && charCount == old(charCount) && isSubmitted == old(isSubmitted)
    {
      accepted := ValidateForm();
      if !accepted {
        return;
      }
      isSubmitting := true;
    }

    /** The submission delay ends: the form is reset and the thank-you view shown. */
    method CompleteSubmission()
      modifies this
      ensures !isSubmitting && isSubmitted
      ensures formData == EmptyForm && charCount == 0 && CounterMatches()
      ensures errors == old(errors)
    {
      isSubmitting := false;
      isSubmitted := true;
      formData := EmptyForm;
      charCount := 0;
    }

    /** The "new inquiry" button of the thank-you view. */
    method StartNewInquiry()
      modifies this
      ensures !isSubmitted
      ensures formData == old(formData) && errors == old(errors)
      ensures isSubmitting == old(isSubmitting) && charCount == old(charCount)
    {
      isSubmitted := false;
    }
  }

  /** A valid form goes through: submitting is accepted and completion shows an empty form again. */
  method SubmitValidForm(form: ContactForm)
    requires IsValid(form.formData) && !form.isSubmitting
    modifies form
    ensures form.isSubmitted && !form.isSubmitting && form.errors == NoErrors
    ensures form.formData == EmptyForm && form.CounterMatches()
  {
    var accepted := form.HandleSubmit();
    assert accepted && form.isSubmitting;
    form.CompleteSubmission();
  }
}
