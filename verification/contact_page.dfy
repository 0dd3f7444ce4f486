/**
  The routed contact page: a form validated by a schema (name at least 2
  characters, a valid e-mail address, message at least 10 characters, company
  and service optional), a submit that shows "Sending..." for two seconds and
  then a success panel, and a "Send Another Message" button.
 */
module ContactPage {
  import opened Wrappers

  /** `ContactFormValues`; company and service may be undefined. */
  datatype Values = Values(
    name: string, email: string, company: Option<string>, service: Option<string>, message: string)

  /** `defaultFormValues`: every field the empty string. */
  const DefaultValues := Values("", "", Some(""), Some(""), "")

  datatype FieldName = Name | Email | Company | Service | Message

  const NameTooShort := "Full name must be at least 2 characters."
  const InvalidEmail := "Please enter a valid email address."
  const MessageTooShort := "Message must be at least 10 characters."

  /** A string's `length` in JavaScript: UTF-16 code units, so a character
      beyond U+FFFF counts twice. */
  function Utf16Length(s: string): (n: nat)
    ensures |s| <= n <= 2 * |s|
  {
    if s == [] then 0 else (if s[0] as int >= 0x1_0000 then 2 else 1) + Utf16Length(s[1..])
  }

  /** For text in the Basic Multilingual Plane the length is the number of characters. */
  lemma {:induction false} Utf16LengthOfBmp(s: string)
    requires forall i :: 0 <= i < |s| ==> s[i] as int < 0x1_0000
    ensures Utf16Length(s) == |s|
    decreases |s|
  {
    if s != [] {
      Utf16LengthOfBmp(s[1..]);
    }
  }

  /** Length is additive, so text mixing characters inside and beyond U+FFFF
      counts one unit for each of the first and two for each of the second. */
  lemma {:induction false} Utf16LengthAppend(a: string, b: string)
    ensures Utf16Length(a + b) == Utf16Length(a) + Utf16Length(b)
    decreases |a|
  {
    if a == [] {
      assert a + b == b;
    } else {
      Utf16LengthAppend(a[1..], b);
      assert (a + b)[1..] == a[1..] + b;
    }
  }

  /** `.min(n)` measures UTF-16 length and trims nothing: a single character
      beyond U+FFFF meets `min(2)`, and two spaces are a long-enough name. */
  lemma MinLengthExamples()
    ensures Utf16Length("\U{1_F600}") == 2
    ensures Utf16Length("  ") == 2
  {
  }

  /** The schema's verdict on a draft; `isEmail` stands for the library's
      e-mail check, which is not modelled. */
  predicate SchemaValid(v: Values, isEmail: string -> bool) {
    Utf16Length(v.name) >= 2 && isEmail(v.email) && Utf16Length(v.message) >= 10
  }

  /** The message shown under each failing field; company and service never fail. */
  function Errors(v: Values, isEmail: string -> bool): (errs: map<FieldName, string>)
    ensures Name in errs <==> Utf16Length(v.name) < 2
    ensures Email in errs <==> !isEmail(v.email)
    ensures Message in errs <==> Utf16Length(v.message) < 10
    ensures Company !in errs && Service !in errs
    ensures forall k :: k in errs ==>
      errs[k] == match k
        case Name => NameTooShort
        case Email => InvalidEmail
        case _ => MessageTooShort
  {
    (if Utf16Length(v.name) < 2 then map[Name := NameTooShort] else map[])
      + (if isEmail(v.email) then map[] else map[Email := InvalidEmail])
      + (if Utf16Length(v.message) < 10 then map[Message := MessageTooShort] else map[])
  }

  /** A draft has no errors exactly when the schema accepts it, whatever its
      company and service hold. */
  lemma ErrorsEmptyIffValid(v: Values, isEmail: string -> bool)
    ensures Errors(v, isEmail) == map[] <==> SchemaValid(v, isEmail)
    ensures forall c, s :: SchemaValid(v.(company := c, service := s), isEmail) == SchemaValid(v, isEmail)
  {
    var errs := Errors(v, isEmail);
    if !SchemaValid(v, isEmail) {
      assert Name in errs || Email in errs || Message in errs;
    } else {
      assert errs.Keys == {};
    }
  }

  function Read(v: Values, k: FieldName): Option<string> {
    match k
    case Name => Some(v.name)
    case Email => Some(v.email)
    case Company => v.company
    case Service => v.service
    case Message => Some(v.message)
  }

  /** `setValues(prev => ({ ...prev, <field>: value }))`: only field `k` changes. */
  function WithField(v: Values, k: FieldName, s: string): (r: Values)
    ensures Read(r, k) == Some(s)
    ensures forall j :: j != k ==> Read(r, j) == Read(v, j)
  {
    match k
    case Name => v.(name := s)
    case Email => v.(email := s)
    case Company => v.(company := Some(s))
    case Service => v.(service := Some(s))
    case Message => v.(message := s)
  }

  class Page {
    var isSubmitting: bool
    var isSubmitted: bool
    var values: Values
    /** Whether the two-second timer armed by `onSubmit` has yet to fire. */
    var timerPending: bool

    /** A timer is pending exactly while submitting, and the success panel is
        never shown while submitting. */
    ghost predicate Valid()
      reads this
    {
      timerPending == isSubmitting && !(isSubmitted && isSubmitting)
    }

    constructor ()
      ensures Valid() && !isSubmitting && !isSubmitted && values == DefaultValues
    {
      isSubmitting := false;
      isSubmitted := false;
      values := DefaultValues;
      timerPending := false;
    }

    /** The form, with its submit button, is on screen unless the success
        panel is; the button is disabled while submitting. */
    predicate SubmitEnabled()
      reads this
    {
      !isSubmitted && !isSubmitting
    }

    /** The change handler of field `k`. */
    method SetField(k: FieldName, s: string)
      requires Valid()
      modifies this
      ensures Valid() && values == WithField(old(values), k, s)
      ensures isSubmitting == old(isSubmitting) && isSubmitted == old(isSubmitted)
    {
      values := WithField(values, k, s);
    }

    /** `onSubmit`: the values are only logged, and a timer is armed. */
    method OnSubmit()
      requires Valid() && SubmitEnabled()
      modifies this
      ensures Valid() && isSubmitting && !isSubmitted && values == old(values)
    {
      isSubmitting := true;
      timerPending := true;
    }

    /** The timer callback: submitting ends, the success panel shows and the
        form is reset to the defaults. */
    method OnTimer()
      requires Valid() && timerPending
      modifies this
      ensures Valid() && !isSubmitting && isSubmitted && values == DefaultValues
    {
      timerPending := false;
      isSubmitting := false;
      isSubmitted := true;
      values := DefaultValues;
    }

    /** "Send Another Message": only `isSubmitted` changes. */
    method SendAnother()
      requires Valid()
      modifies this
      ensures Valid() && !isSubmitted
      ensures isSubmitting == old(isSubmitting) && values == old(values)
    {
      isSubmitted := false;
    }

    /** Pressing "Send Message": when the button is usable the schema runs on
        the current values; `onSubmit` runs only if it reports no errors. */
    method ClickSubmit(isEmail: string -> bool) returns (errs: map<FieldName, string>)
      requires Valid()
      modifies this
      ensures Valid() && values == old(values) && isSubmitted == old(isSubmitted)
      ensures !old(SubmitEnabled()) ==> errs == map[] && isSubmitting == old(isSubmitting)
      ensures old(SubmitEnabled()) ==>
        errs == Errors(old(values), isEmail) && (isSubmitting <==> SchemaValid(old(values), isEmail))
    {
      errs := map[];
      if SubmitEnabled() {
        errs := Errors(values, isEmail);
        ErrorsEmptyIffValid(values, isEmail);
        if errs == map[] {
          OnSubmit();
        }
      }
    }
  }

  /** A full round: a valid draft is submitted, the timer fires, and "Send
      Another Message" brings back an empty, usable form. */
  method SubmissionRound(p: Page, isEmail: string -> bool)
    requires p.Valid() && p.SubmitEnabled() && SchemaValid(p.values, isEmail)
    modifies p
    ensures p.Valid() && p.SubmitEnabled() && p.values == DefaultValues
  {
    var errs := p.ClickSubmit(isEmail);
    assert errs == map[] && p.timerPending;
    p.OnTimer();
    p.SendAnother();
  }
}
