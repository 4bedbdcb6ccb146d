/** The form-validation hook (vibe-coding-landing/src/hooks/useFormValidation.ts):
    per-field messages for the live form, a whole-form check, the `errors`
    map the form displays, and validation with sanitising before submit. */
module UseFormValidation {
  import opened Types
  import opened Strings
  import opened Records
  import opened Validations

  /** The keys of the form data. */
  datatype Field = NameField | EmailField | SubscribedField {
    function Key(): string {
      match this
      case NameField => "name"
      case EmailField => "email"
      case SubscribedField => "subscribed"
    }
  }

  /** The message `validateField` shows: the first error, or "" when valid. */
  ghost function FieldMessage(field: Field, value: string): string {
    match field
    case NameField => if NameErrors(value) != [] then NameErrors(value)[0].message else ""
    case EmailField => if EmailErrors(value) != [] then EmailErrors(value)[0].message else ""
    case SubscribedField => ""
  }

  /** `validateField`; the checkbox value is never validated. */
  method ValidateField(field: Field, value: string) returns (message: string)
    ensures message == FieldMessage(field, value)
    ensures field == NameField ==> (message == "" <==> NameErrors(value) == [])
    ensures field == EmailField ==> (message == "" <==> EmailErrors(value) == [])
    ensures field == SubscribedField ==> message == ""
  {
    match field {
      case NameField =>
        var nameValidation := ValidateName(value);
        message := if |nameValidation.errors| > 0 then nameValidation.errors[0].message else "";
      case EmailField =>
        var emailValidation := ValidateEmail(value);
        message := if |emailValidation.errors| > 0 then emailValidation.errors[0].message else "";
      case SubscribedField =>
        message := "";
    }
  }

  /** The result of `validateForm`: a flag and the map of messages. */
  datatype FormCheck = FormCheck(isValid: bool, errors: Record)

  /** The map `validateForm` builds from the raw form data. */
  ghost function FormMap(data: FormData): Record {
    var nameError := FieldMessage(NameField, data.name);
    var emailError := FieldMessage(EmailField, data.email);
    (if nameError != "" then [("name", nameError)] else [])
    + (if emailError != "" then [("email", emailError)] else [])
  }

  /** `validateForm` */
  method ValidateForm(data: FormData) returns (r: FormCheck)
    ensures r.errors == FormMap(data)
    ensures r.isValid <==> r.errors == []
  {
    var formErrors: Record := [];
    var nameError := ValidateField(NameField, data.name);
    if nameError != "" {
      formErrors := Put(formErrors, "name", nameError);
      assert formErrors == [("name", nameError)];
    }
    var emailError := ValidateField(EmailField, data.email);
    if emailError != "" {
      PutAtEnd(formErrors, "email", emailError);
      formErrors := Put(formErrors, "email", emailError);
    }
    r := FormCheck(|Keys(formErrors)| == 0, formErrors);
  }

  /** Putting a new key appends the entry. */
  lemma {:induction false} PutAtEnd(r: Record, k: string, v: string)
    requires k !in Keys(r)
    ensures Put(r, k, v) == r + [(k, v)]
  {
    if r != [] {
      assert r[0].0 != k by {
        assert Keys(r)[0] == r[0].0;
      }
      assert k !in Keys(r[1..]) by {
        assert Keys(r) == [r[0].0] + Keys(r[1..]);
      }
      PutAtEnd(r[1..], k, v);
      assert Put(r, k, v) == [r[0]] + Put(r[1..], k, v);
      assert [r[0]] + (r[1..] + [(k, v)]) == r + [(k, v)];
    }
  }

  /** The first error of a field always has a message. */
  lemma FirstMessagesNonEmpty(data: FormData)
    ensures NameErrors(data.name) != [] ==> NameErrors(data.name)[0].message != ""
    ensures EmailErrors(data.email) != [] ==> EmailErrors(data.email)[0].message != ""
  {
    NameErrorsMeaning(data.name);
    EmailErrorsMeaning(data.email);
  }

  /** `validateForm`'s map has at most the keys "name" and "email", in that
      order, each with a non-empty message. */
  lemma FormMapShape(data: FormData)
    ensures forall k :: 0 <= k < |FormMap(data)| ==> FormMap(data)[k].0 in {"name", "email"} && FormMap(data)[k].1 != ""
    ensures Distinct(Keys(FormMap(data)))
  {
    FirstMessagesNonEmpty(data);
    TwoEntries(FieldMessage(NameField, data.name), FieldMessage(EmailField, data.email));
  }

  /** The map of at most a name entry then an email entry, each present when its message is. */
  lemma TwoEntries(n: string, e: string)
    ensures var m := (if n != "" then [("name", n)] else []) + (if e != "" then [("email", e)] else []);
      (forall k :: 0 <= k < |m| ==> m[k].0 in {"name", "email"} && m[k].1 != "")
      && Distinct(Keys(m))
  {
  }

  /** `validateForm`'s map is empty exactly when both fields are valid as
      typed, and holds each failing field's first message. */
  lemma FormMapMeaning(data: FormData)
    ensures FormMap(data) == [] <==> NameErrors(data.name) == [] && EmailErrors(data.email) == []
    ensures NameErrors(data.name) != [] ==> Lookup(FormMap(data), "name") == Some(NameErrors(data.name)[0].message)
    ensures EmailErrors(data.email) != [] ==> Lookup(FormMap(data), "email") == Some(EmailErrors(data.email)[0].message)
  {
    FirstMessagesNonEmpty(data);
  }

  /** The result of `validateAndSanitizeForm`. */
  datatype SanitizedForm = SanitizedForm(isValid: bool, errors: Record, sanitizedData: FormData)

  /** `validateAndSanitizeForm` */
  method ValidateAndSanitizeForm(data: FormData) returns (r: SanitizedForm)
    ensures r.sanitizedData == FormData(SanitizeInput(data.name), CanonicalEmail(data.email), data.subscribed)
    ensures r.isValid <==> FormErrors(Sanitized(SubscriberFormData(data.name, data.email, Some(data.subscribed)))) == []
    ensures r.errors == PutAll(FormErrors(Sanitized(SubscriberFormData(data.name, data.email, Some(data.subscribed)))))
    ensures r.isValid <==> r.errors == []
  {
    var validation := ValidateAndSanitizeSubscriber(SubscriberFormData(data.name, data.email, Some(data.subscribed)));
    var formErrors := CollectErrors(validation.errors);
    PutAllEmpty(validation.errors);
    r := SanitizedForm(validation.isValid, formErrors,
                       FormData(validation.sanitizedData.name, validation.sanitizedData.email,
                                validation.sanitizedData.subscribedToUpdates.GetOr(false)));
  }

  /** The forEach loop leaves the map empty exactly when there were no errors. */
  lemma PutAllEmpty(errs: seq<ValidationError>)
    ensures PutAll(errs) == [] <==> errs == []
  {
    if errs != [] {
      var last := errs[|errs| - 1];
      assert Lookup(PutAll(errs), last.field).Some?;
    }
  }

  /** Live validation sees the raw text: an email typed with a leading
      space is shown as malformed. */
  lemma LeadingSpaceFailsLive()
    ensures FieldMessage(EmailField, " a@b.co") == EmailInvalid.message
  {
    EmailWithSpaceRejected(" a@b.co", 0);
    assert EmailErrors(" a@b.co") == [EmailInvalid];
  }

  /** Submit validation sees the sanitised text: the same email passes. */
  lemma LeadingSpacePassesSubmit()
    ensures CanonicalEmail(" a@b.co") == "a@b.co"
    ensures EmailErrors(CanonicalEmail(" a@b.co")) == []
  {
    LowerSpacedEmail();
    TrimSpacedEmail();
    ShortEmailValid();
  }

  lemma LowerSpacedEmail()
    ensures ToLower(" a@b.co") == " a@b.co"
  {
    var raw := " a@b.co";
    assert forall k | 0 <= k < |raw| :: LowerChar(raw[k]) == raw[k];
  }

  lemma TrimSpacedEmail()
    ensures Trim(" a@b.co") == "a@b.co"
  {
    var raw := " a@b.co";
    assert raw[1..] == "a@b.co";
    assert IsSpace(raw[0]) && !IsSpace(raw[1]) && !IsSpace(raw[|raw| - 1]);
    TrimOneLeading(raw);
  }

  /** One leading whitespace character before a text with non-whitespace ends. */
  lemma TrimOneLeading(s: string)
    requires |s| >= 2 && IsSpace(s[0]) && !IsSpace(s[1]) && !IsSpace(s[|s| - 1])
    ensures Trim(s) == s[1..]
  {
    TrimStartStep(s);
    TrimStartStep(s[1..]);
    TrimFixed(s[1..]);
  }

  lemma ShortEmailValid()
    ensures EmailErrors("a@b.co") == []
  {
    var e := "a@b.co";
    assert e[..1] == "a" && e[2..3] == "b" && e[4..] == "co";
    assert EmailPartChar('a') && EmailPartChar('b') && EmailPartChar('c') && EmailPartChar('o');
    assert EmailPart("a") && EmailPart("b") && EmailPart("co");
    assert EmailSplit(e, 1, 3);
  }

  /** Live validation shows a field's first error, submit validation keeps
      its last: for the name "!" that is the length message live and the
      character-set message on submit. */
  lemma OneBadCharMessages()
    ensures FieldMessage(NameField, "!") == NameTooShort.message
    ensures SanitizeInput("!") == "!"
    ensures LastMessage(NameErrors("!"), "name") == Some(NameInvalidChars.message)
  {
    assert NameErrors("!") == [NameTooShort, NameInvalidChars] by {
      assert !NameChar('!');
      OneCharInvalidName("!");
    }
    assert LastMessage([NameTooShort, NameInvalidChars], "name") == Some(NameInvalidChars.message);
    BangSanitized();
  }

  lemma BangSanitized()
    ensures SanitizeInput("!") == "!"
  {
    var s := "!";
    assert Trim(s) == s by {
      assert !IsSpace(s[0]);
      TrimFixed(s);
    }
    assert CollapseSpaces(s) == s by {
      assert SingleSpaced(s);
      CollapseSpacesFixed(s);
    }
  }

  /** The hook's `errors` state. */
  class FormValidation {
    var errors: Record

    ghost predicate Valid()
      reads this
    {
      Distinct(Keys(errors))
    }

    constructor()
      ensures errors == [] && Valid()
    {
      errors := [];
    }

    /** `updateFieldError`: sets one key; every other entry keeps its value. */
    method UpdateFieldError(field: Field, error: string)
      requires Valid()
      modifies this
      ensures Valid()
      ensures errors == Put(old(errors), field.Key(), error)
      ensures Lookup(errors, field.Key()) == Some(error)
      ensures forall k :: k != field.Key() ==> Lookup(errors, k) == Lookup(old(errors), k)
    {
      PutDistinct(errors, field.Key(), error);
      errors := Put(errors, field.Key(), error);
    }

    /** `clearFieldError`: removes one key; every other entry keeps its value. */
    method ClearFieldError(field: Field)
      requires Valid()
      modifies this
      ensures Valid()
      ensures errors == Delete(old(errors), field.Key())
      ensures Lookup(errors, field.Key()) == None
      ensures forall k :: k != field.Key() ==> Lookup(errors, k) == Lookup(old(errors), k)
    {
      DeleteDistinct(errors, field.Key());
      errors := Delete(errors, field.Key());
    }

    /** `clearAllErrors` */
    method ClearAllErrors()
      modifies this
      ensures Valid()
      ensures errors == []
      ensures forall k :: Lookup(errors, k) == None
    {
      errors := [];
    }
  }
}
