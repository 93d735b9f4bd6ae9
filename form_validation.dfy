/**
  Client-side validation of the "create request" form and the rule that
  decides what the phone field shows underneath it.
*/
module FormValidation {
  import opened Wrappers
  import opened JsText

  /** The keys the validator may put into its error object. */
  datatype Field = Name | Phone | Title

  /** The validator's messages; `Text` gives the exact wording shown. */
  datatype Message = NameRequired | PhoneRequired | PhoneDigitsOnly | PhoneTenDigits | TitleRequired

  function Text(m: Message): (s: string)
    ensures s != ""
  {
    match m
    case NameRequired => "Name is required"
    case PhoneRequired => "Phone number is required"
    case PhoneDigitsOnly => "Phone must contain digits only"
    case PhoneTenDigits => "Phone must be 10 digits"
    case TitleRequired => "Title is required"
  }

  /** The one backend message that is attached to the phone field. */
  const PhoneExists: string := "Phone number already exists"

  /** The browser `File` chosen for upload is opaque: a handle stands for it. */
  datatype FormDraft = FormDraft(name: string, phone: string, title: string, image: Option<nat>)

  const EmptyDraft: FormDraft := FormDraft("", "", "", None)

  predicate IsTenDigitPhone(phone: string) {
    |phone| == 10 && AllAsciiDigits(phone)
  }

  /** What the validator accepts, stated without `trim` or regular expressions. */
  predicate IsSubmittable(f: FormDraft) {
    !AllWhitespace(f.name) && IsTenDigitPhone(f.phone) && !AllWhitespace(f.title)
  }

  /** The phone checks, which stop at the first failing rule: required
      (after trimming), then digits only (on the untrimmed text), then length. */
  function PhoneError(phone: string): (r: Option<Message>)
    ensures r == Some(PhoneRequired) <==> AllWhitespace(phone)
    ensures r == Some(PhoneDigitsOnly) <==> !AllWhitespace(phone) && !AllAsciiDigits(phone)
    ensures r == Some(PhoneTenDigits) <==> phone != [] && AllAsciiDigits(phone) && |phone| != 10
    ensures r == None <==> IsTenDigitPhone(phone)
  {
    assert phone != [] && AllAsciiDigits(phone) ==> MatchesDigitsOnly(phone);
    if AllWhitespace(phone) then Some(PhoneRequired)
    else if !MatchesDigitsOnly(phone) then Some(PhoneDigitsOnly)
    else if |phone| != 10 then Some(PhoneTenDigits)
    else None
  }

  /** The error object the validator builds. Each field is checked on its
      own, and the object is empty
      exactly when the draft is submittable. */
  function FormErrors(f: FormDraft): (r: map<Field, Message>)
    ensures Name in r <==> AllWhitespace(f.name)
    ensures Phone in r <==> !IsTenDigitPhone(f.phone)
    ensures Title in r <==> AllWhitespace(f.title)
    ensures Name in r ==> r[Name] == NameRequired
    ensures Phone in r ==> PhoneError(f.phone) == Some(r[Phone])
    ensures Title in r ==> r[Title] == TitleRequired
    ensures r == map[] <==> IsSubmittable(f)
  {
    var afterName: map<Field, Message> := if AllWhitespace(f.name) then map[Name := NameRequired] else map[];
    var afterPhone := if PhoneError(f.phone).Some? then afterName[Phone := PhoneError(f.phone).value] else afterName;
    var r := if AllWhitespace(f.title) then afterPhone[Title := TitleRequired] else afterPhone;
    r
  }

  /** `Object.keys(errors).length === 0` holds exactly when none of the
      three keys is present. */
  lemma NoKeysIffEmpty(errors: map<Field, Message>)
    ensures |errors| == 0 <==> Name !in errors && Phone !in errors && Title !in errors
  {
    assert |errors| == |errors.Keys|;
    if |errors| != 0 {
      assert errors.Keys != {};
      var k :| k in errors.Keys;
      assert k == Name || k == Phone || k == Title;
    } else {
      assert errors.Keys == {};
    }
  }

  /** The body of the validator: fills the error object one check at a
      time and reports whether it stayed empty. */
  method BuildErrors(f: FormDraft) returns (temp: map<Field, Message>, ok: bool)
    ensures temp == FormErrors(f)
    ensures ok <==> IsSubmittable(f)
  {
    temp := map[];
    var blankName := TrimIsEmpty(f.name);
    var blankPhone := TrimIsEmpty(f.phone);
    var blankTitle := TrimIsEmpty(f.title);
    if blankName {
      temp := temp[Name := NameRequired];
    }
    ghost var afterName := temp;
    if blankPhone {
      temp := temp[Phone := PhoneRequired];
    } else if !MatchesDigitsOnly(f.phone) {
      temp := temp[Phone := PhoneDigitsOnly];
    } else if |f.phone| != 10 {
      temp := temp[Phone := PhoneTenDigits];
    }
    assert temp == if PhoneError(f.phone).Some? then afterName[Phone := PhoneError(f.phone).value] else afterName;
    if blankTitle {
      temp := temp[Title := TitleRequired];
    }
    ok := |temp| == 0;
    NoKeysIffEmpty(temp);
  }

  /** The three checks are independent: every combination of error keys
      is produced by some draft. */
  lemma AnyErrorCombination(keys: set<Field>)
    ensures exists f :: FormErrors(f).Keys == keys
  {
    var name := if Name in keys then "" else "n";
    var phone := if Phone in keys then "" else "0123456789";
    var title := if Title in keys then "" else "t";
    assert !AllWhitespace("n") by { assert !IsJsWhitespace("n"[0]); }
    assert !AllWhitespace("t") by { assert !IsJsWhitespace("t"[0]); }
    assert IsTenDigitPhone("0123456789");
    var r := FormErrors(FormDraft(name, phone, title, None));
    assert Name in r <==> Name in keys;
    assert Phone in r <==> Phone in keys;
    assert Title in r <==> Title in keys;
    assert forall k :: k in r.Keys <==> k in keys by {
      forall k ensures k in r.Keys <==> k in keys {
        match k
        case Name =>
        case Phone =>
        case Title =>
      }
    }
  }

  /** How a text field presents itself: whether it is marked as erroneous
      and the helper text shown under it. */
  datatype FieldDisplay = FieldDisplay(flagged: bool, helperText: string)

  /** The phone field: a local validation message (always a non-empty,
      hence truthy, string) takes precedence; otherwise the field shows the
      backend's "phone already exists" message and no other. The dialog's
      banner shows every non-empty backend message, that one included. */
  function PhoneHelper(errors: map<Field, Message>, backendError: string): (d: FieldDisplay)
    ensures d.flagged <==> d.helperText != ""
    ensures Phone in errors ==> d.helperText == Text(errors[Phone])
    ensures Phone !in errors ==>
              d.helperText == (if backendError == PhoneExists then PhoneExists else "")
  {
    var local := if Phone in errors then Text(errors[Phone]) else "";
    FieldDisplay(
      local != "" || backendError == PhoneExists,
      if local != "" then local else if backendError == PhoneExists then backendError else "")
  }

  /** Right after validation, the phone field shows the validator's message
      whenever the phone is invalid, whatever the backend said before; a
      valid phone is flagged only for the "already exists" message. */
  lemma PhoneHelperAfterValidation(f: FormDraft, backendError: string)
    ensures !IsTenDigitPhone(f.phone) ==>
              PhoneHelper(FormErrors(f), backendError) == FieldDisplay(true, Text(PhoneError(f.phone).value))
    ensures IsTenDigitPhone(f.phone) ==>
              (PhoneHelper(FormErrors(f), backendError).flagged <==> backendError == PhoneExists)
  {
    var errors := FormErrors(f);
    if !IsTenDigitPhone(f.phone) {
      assert errors[Phone] == PhoneError(f.phone).value;
    }
  }
}
