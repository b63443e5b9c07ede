/** The customer login form: phone and name validators, and the login call
    that only goes out when both pass. */
module Login {
  import opened Common
  import opened TextUtil

  const PhoneMessage := "Số điện thoại phải có 10 chữ số."
  const EmptyNameMessage := "Tên khách hàng không được để trống."
  const InvalidNameMessage := "Tên khách hàng không được chứa số hoặc ký tự đặc biệt."
  const DefaultLoginError := "Có lỗi xảy ra!"

  predicate IsAsciiLetter(c: char) { 'a' <= c <= 'z' || 'A' <= c <= 'Z' }

  /** Matches `^[0-9]*$`, one character at a time. */
  function AllDigits(s: string): (b: bool)
    ensures b <==> forall i :: 0 <= i < |s| ==> IsDigit(s[i])
  {
    s == [] || (IsDigit(s[0]) && AllDigits(s[1..]))
  }

  /** `/^[0-9]{10}$/.test(phone)`. */
  function PhoneValid(phone: string): (b: bool)
    ensures b <==> |phone| == 10 && forall i :: 0 <= i < |phone| ==> IsDigit(phone[i])
  {
    |phone| == 10 && AllDigits(phone)
  }

  /** `name.trim() === ''`: the name holds nothing but whitespace. */
  function Blank(s: string): (b: bool)
    ensures b <==> forall i :: 0 <= i < |s| ==> IsJsSpace(s[i])
  {
    s == [] || (IsJsSpace(s[0]) && Blank(s[1..]))
  }

  /** Matches `^[a-zA-Z\s]*$`. */
  function LettersAndSpaces(s: string): (b: bool)
    ensures b <==> forall i :: 0 <= i < |s| ==> IsAsciiLetter(s[i]) || IsJsSpace(s[i])
  {
    s == [] || ((IsAsciiLetter(s[0]) || IsJsSpace(s[0])) && LettersAndSpaces(s[1..]))
  }

  /** The message validateName sets, or None when the name passes. */
  function NameError(name: string): (r: Option<string>)
    ensures r == Some(EmptyNameMessage) <==> forall i :: 0 <= i < |name| ==> IsJsSpace(name[i])
    ensures r == Some(InvalidNameMessage) <==>
              (exists i :: 0 <= i < |name| && !IsJsSpace(name[i])) &&
              (exists i :: 0 <= i < |name| && !IsAsciiLetter(name[i]) && !IsJsSpace(name[i]))
    ensures r.None? <==>
              (exists i :: 0 <= i < |name| && IsAsciiLetter(name[i])) &&
              (forall i :: 0 <= i < |name| ==> IsAsciiLetter(name[i]) || IsJsSpace(name[i]))
  {
    if Blank(name) then Some(EmptyNameMessage)
    else if !LettersAndSpaces(name) then Some(InvalidNameMessage)
    else
      var i :| 0 <= i < |name| && !IsJsSpace(name[i]);
      assert IsAsciiLetter(name[i]);
      None
  }

  /** A name with an accented letter is rejected as containing special characters. */
  lemma AccentedNameRejected()
    ensures NameError("Lê An") == Some(InvalidNameMessage)
  {
    var name := "Lê An";
    assert !IsJsSpace(name[0]);
    assert !IsAsciiLetter(name[1]) && !IsJsSpace(name[1]);
  }

  lemma PhoneExamples()
    ensures PhoneValid("0901234567")
    ensures !PhoneValid("090123456") && !PhoneValid("09012345678") && !PhoneValid("090123456a")
  {
    assert !IsDigit("090123456a"[9]);
  }

  datatype Errors = Errors(phone: string, name: string, general: string)

  /** What the login request came back with: an accepted login, a refusal
      with its response text, or a request that failed outright. */
  datatype LoginResponse = Accepted | Refused(text: string) | Failed(message: string)

  /** The hook's state, the customer's stored phone, and the number of login
      requests sent so far. */
  class LoginForm {
    var phone: string
    var name: string
    var errors: Errors
    var storedPhone: Option<string>
    var requests: nat

    constructor ()
      ensures phone == "" && name == "" && errors == Errors("", "", "")
      ensures storedPhone == None && requests == 0
    {
      phone := "";
      name := "";
      errors := Errors("", "", "");
      storedPhone := None;
      requests := 0;
    }

    /** validatePhone: sets or clears the phone error and nothing else. */
    method ValidatePhone() returns (ok: bool)
      modifies this`errors
      ensures ok == PhoneValid(phone)
      ensures errors == old(errors).(phone := if ok then "" else PhoneMessage)
    {
      ok := PhoneValid(phone);
      if !ok {
        errors := errors.(phone := PhoneMessage);
        return;
      }
      errors := errors.(phone := "");
    }

    /** validateName: sets or clears the name error and nothing else. */
    method ValidateName() returns (ok: bool)
      modifies this`errors
      ensures ok == NameError(name).None?
      ensures errors == old(errors).(name := if ok then "" else NameError(name).value)
    {
      var e := NameError(name);
      if e.Some? {
        errors := errors.(name := e.value);
        return false;
      }
      errors := errors.(name := "");
      return true;
    }

    /** handleLogin: no request unless both validators pass, and the name is
        not checked when the phone fails. A sent request succeeds only when
        accepted, which stores the phone; a refusal or failure sets the
        general error. */
    method HandleLogin(response: LoginResponse) returns (ok: bool)
      modifies this`errors, this`storedPhone, this`requests
      ensures !PhoneValid(phone) ==>
        !ok && errors == old(errors).(phone := PhoneMessage) &&
        storedPhone == old(storedPhone) && requests == old(requests)
      ensures PhoneValid(phone) && NameError(name).Some? ==>
        !ok && errors == old(errors).(phone := "", name := NameError(name).value) &&
        storedPhone == old(storedPhone) && requests == old(requests)
      ensures PhoneValid(phone) && NameError(name).None? ==>
        && ok == response.Accepted?
        && requests == old(requests) + 1
        && storedPhone == (if ok then Some(phone) else old(storedPhone))
        && errors == (match response
                      case Accepted => old(errors).(phone := "", name := "")
                      case Refused(text) =>
                        old(errors).(phone := "", name := "", general := if text == "" then DefaultLoginError else text)
                      case Failed(message) => old(errors).(phone := "", name := "", general := message))
    {
      var phoneOk := ValidatePhone();
      if !phoneOk {
        return false;
      }
      var nameOk := ValidateName();
      if !nameOk {
        return false;
      }
      requests := requests + 1;
      match response {
        case Accepted =>
          storedPhone := Some(phone);
          ok := true;
        case Refused(text) =>
          errors := errors.(general := if text == "" then DefaultLoginError else text);
          ok := false;
        case Failed(message) =>
          errors := errors.(general := message);
          ok := false;
      }
    }
  }
}
