/** Staff accounts: login check, generated passwords, password change and
    the staff-creation rollback. */
module Accounts {
  import opened Common
  import opened TextUtil

  datatype AccountRec = AccountRec(username: string, password: string, role: string, isActive: bool)

  /** A staff row; `account` is the username of the linked account, if any. */
  datatype StaffRec = StaffRec(fullName: string, phoneNumber: string, account: Option<string>)

  /** `authenticated`: the account with that username, if it is active and
      the password matches; a missing username or password never matches. */
  function Authenticated(accounts: map<string, AccountRec>, username: Option<string>, password: Option<string>): (r: Option<AccountRec>)
    ensures r.Some? <==> username.Some? && username.value in accounts &&
                         accounts[username.value].isActive && password == Some(accounts[username.value].password)
    ensures r.Some? ==> r.value == accounts[username.value]
  {
    if username.None? || username.value !in accounts then None
    else
      var account := accounts[username.value];
      if account.isActive && password == Some(account.password) then Some(account) else None
  }

  /** The form field `is_active` is true only for the exact string "true";
      a JSON boolean true does not count. */
  predicate IsActiveFlag(raw: Option<Value>)
  {
    raw == Some(Text("true"))
  }

  /** A JSON boolean, a missing field and any other spelling ("True", "1")
      all leave the account inactive. */
  lemma BooleanTrueIsInactive(b: bool, t: string)
    requires t != "true"
    ensures !IsActiveFlag(Some(Bool(b))) && !IsActiveFlag(None) && !IsActiveFlag(Some(Text(t)))
    ensures IsActiveFlag(Some(Text("true")))
  {
  }

  // ---------------------------------------------------------------------
  // Generated passwords
  // ---------------------------------------------------------------------

  /** The ASCII whitespace `str.split()` breaks on. */
  predicate IsSpace(c: char)
  {
    c == ' ' || c == '\t' || c == '\n' || c == '\r' || c == '\U{0B}' || c == '\U{0C}' ||
    ('\U{1C}' <= c <= '\U{1F}')
  }

  predicate HasWord(s: string)
  {
    exists i :: 0 <= i < |s| && !IsSpace(s[i])
  }

  /** The string without its trailing whitespace. */
  function TrimEnd(s: string): (r: string)
    ensures |r| <= |s| && r == s[..|r|]
    ensures forall i :: |r| <= i < |s| ==> IsSpace(s[i])
    ensures r != [] ==> !IsSpace(r[|r| - 1])
  {
    if s == [] || !IsSpace(s[|s| - 1]) then s else TrimEnd(s[..|s| - 1])
  }

  /** The maximal run of non-space characters at the end of the string. */
  function TrailingRun(s: string): (r: string)
    ensures |r| <= |s| && r == s[|s| - |r|..]
    ensures forall i :: 0 <= i < |r| ==> !IsSpace(r[i])
    ensures |r| < |s| ==> IsSpace(s[|s| - |r| - 1])
  {
    if s == [] || IsSpace(s[|s| - 1]) then []
    else TrailingRun(s[..|s| - 1]) + [s[|s| - 1]]
  }

  /** `w` sits at `k` in `s`, after a space or at the start, and only spaces follow it. */
  predicate LastWordAt(s: string, w: string, k: int)
    requires 0 <= k <= |s| - |w|
  {
    w == s[k..k + |w|] && (k == 0 || IsSpace(s[k - 1])) && (forall i :: k + |w| <= i < |s| ==> IsSpace(s[i]))
  }

  /** `split()[-1]`: the last whitespace-separated word. It starts at `k`,
      after a space or at the start, and only spaces follow it. */
  function LastWord(s: string): (w: string)
    ensures HasWord(s) ==> w != []
    ensures forall i :: 0 <= i < |w| ==> !IsSpace(w[i])
    ensures exists k :: 0 <= k <= |s| - |w| && LastWordAt(s, w, k)
  {
    var t := TrimEnd(s);
    var w := TrailingRun(t);
    var k := |t| - |w|;
    assert LastWordAt(s, w, k);
    assert HasWord(s) ==> t != [];
    w
  }

  /** `phone_number[-4:]`: the whole number when it is shorter. */
  function LastFour(phone: string): (r: string)
    ensures |phone| >= 4 ==> |r| == 4 && r == phone[|phone| - 4..]
    ensures |phone| < 4 ==> r == phone
  {
    if |phone| >= 4 then phone[|phone| - 4..] else phone
  }

  /** A full name that is only whitespace makes `split()[-1]` raise. */
  datatype GenerateError = IndexError

  /** generate_password: none when either field is empty; otherwise the
      lower-cased transliteration of the last word of the name followed by the
      last four characters of the phone number. */
  function GeneratePassword(fullName: string, phoneNumber: string, translit: string -> string): (r: Result<Option<string>, GenerateError>)
    ensures fullName == "" || phoneNumber == "" ==> r == Ok(None)
    ensures fullName != "" && phoneNumber != "" && !HasWord(fullName) ==> r == Err(IndexError)
    ensures fullName != "" && phoneNumber != "" && HasWord(fullName) ==>
      && r.Ok? && r.value.Some?
      && r.value.value == Lower(translit(LastWord(fullName))) + LastFour(phoneNumber)
      && |r.value.value| >= |LastFour(phoneNumber)|
      && r.value.value[|r.value.value| - |LastFour(phoneNumber)|..] == LastFour(phoneNumber)
  {
    if fullName == "" || phoneNumber == "" then Ok(None)
    else if !HasWord(fullName) then Err(IndexError)
    else
      var pw := Lower(translit(LastWord(fullName))) + LastFour(phoneNumber);
      assert pw[|pw| - |LastFour(phoneNumber)|..] == LastFour(phoneNumber);
      Ok(Some(pw))
  }

  /** Two staff members with the same last word and the same last four digits get the same password. */
  lemma GeneratedPasswordDependsOnlyOnLastWordAndDigits(n1: string, p1: string, n2: string, p2: string, translit: string -> string)
    requires n1 != "" && p1 != "" && n2 != "" && p2 != "" && HasWord(n1) && HasWord(n2)
    requires LastWord(n1) == LastWord(n2) && LastFour(p1) == LastFour(p2)
    ensures GeneratePassword(n1, p1, translit) == GeneratePassword(n2, p2, translit)
  {
  }

  lemma LastWordExample()
    ensures HasWord("Le An ") && LastWord("Le An ") == "An"
  {
    assert !IsSpace("Le An "[0]);
    assert TrimEnd("Le An ") == "Le An" by {
      assert "Le An "[..5] == "Le An";
      assert !IsSpace("Le An"[4]);
    }
    assert TrailingRun("Le An") == "An" by {
      assert "Le An"[..4] == "Le A";
      assert "Le A"[..3] == "Le ";
      assert IsSpace("Le "[2]);
    }
  }

  lemma LowerExample()
    ensures Lower("An") == "an"
  {
    assert LowerChar('A') == 'a' && LowerChar('n') == 'n';
    assert "An"[1..] == "n";
    assert Lower("n") == "n" by { assert "n"[1..] == []; }
  }

  /** "Le An " with phone 0901234567 gets "an4567" from any transliteration
      that keeps an ASCII word as it is. */
  lemma GeneratePasswordExample(translit: string -> string)
    requires translit("An") == "An"
    ensures GeneratePassword("Le An ", "0901234567", translit) == Ok(Some("an4567"))
  {
    LastWordExample();
    LowerExample();
    assert LastFour("0901234567") == "4567" by {
      assert "0901234567"[6..] == "4567";
    }
    assert Lower(translit(LastWord("Le An "))) + LastFour("0901234567") == "an4567";
  }

  // ---------------------------------------------------------------------
  // Password change and staff creation
  // ---------------------------------------------------------------------

  datatype AccountError =
    | MissingId
    | MissingOldPassword
    | MissingNewPassword
    | StaffNotFound
    | NoLinkedAccount
    | WrongOldPassword
    | SamePassword
    | InvalidStaff
    | MissingNameOrPhone
    | DuplicateUsername
    | NameWithoutWord

  /** A request field is falsy when missing, empty, or the number 0. */
  predicate PresentId(id: Option<int>) { id.Some? && id.value != 0 }
  predicate PresentText(s: Option<string>) { s.Some? && s.value != "" }

  /** The id and both passwords are all present. */
  predicate Supplied(id: Option<int>, oldPw: Option<string>, newPw: Option<string>)
  {
    PresentId(id) && PresentText(oldPw) && PresentText(newPw)
  }

  /** The staff row has an account that exists. */
  predicate Linked(staff: map<int, StaffRec>, accounts: map<string, AccountRec>, sid: int)
    requires sid in staff
  {
    staff[sid].account.Some? && staff[sid].account.value in accounts
  }

  function StoredPassword(staff: map<int, StaffRec>, accounts: map<string, AccountRec>, sid: int): string
    requires sid in staff && Linked(staff, accounts, sid)
  {
    accounts[staff[sid].account.value].password
  }

  /** The checks of change_password, in order; the first failing one is
      reported. A staff row without an account makes the handler raise. */
  function ChangeCheck(staff: map<int, StaffRec>, accounts: map<string, AccountRec>,
                       id: Option<int>, oldPw: Option<string>, newPw: Option<string>): (r: Option<AccountError>)
    ensures r == Some(MissingId) <==> !PresentId(id)
    ensures r == Some(MissingOldPassword) <==> PresentId(id) && !PresentText(oldPw)
    ensures r == Some(MissingNewPassword) <==> PresentId(id) && PresentText(oldPw) && !PresentText(newPw)
    ensures r == Some(StaffNotFound) <==> Supplied(id, oldPw, newPw) && id.value !in staff
    ensures r == Some(NoLinkedAccount) <==>
              Supplied(id, oldPw, newPw) && id.value in staff && !Linked(staff, accounts, id.value)
    ensures r == Some(WrongOldPassword) <==>
              Supplied(id, oldPw, newPw) && id.value in staff && Linked(staff, accounts, id.value) &&
              StoredPassword(staff, accounts, id.value) != oldPw.value
    ensures r == Some(SamePassword) <==>
              Supplied(id, oldPw, newPw) && id.value in staff && Linked(staff, accounts, id.value) &&
              StoredPassword(staff, accounts, id.value) == oldPw.value && oldPw.value == newPw.value
    ensures r.None? <==>
              Supplied(id, oldPw, newPw) && id.value in staff && Linked(staff, accounts, id.value) &&
              StoredPassword(staff, accounts, id.value) == oldPw.value && oldPw.value != newPw.value
  {
    if !PresentId(id) then Some(MissingId)
    else if !PresentText(oldPw) then Some(MissingOldPassword)
    else if !PresentText(newPw) then Some(MissingNewPassword)
    else if id.value !in staff then Some(StaffNotFound)
    else if staff[id.value].account.None? || staff[id.value].account.value !in accounts then Some(NoLinkedAccount)
    else if accounts[staff[id.value].account.value].password != oldPw.value then Some(WrongOldPassword)
    else if oldPw.value == newPw.value then Some(SamePassword)
    else None
  }

  /** The staff rows and accounts, keyed by staff id and by username. */
  class StaffDirectory {
    var staff: map<int, StaffRec>
    var accounts: map<string, AccountRec>
    var nextStaffId: int

    constructor (staff: map<int, StaffRec>, accounts: map<string, AccountRec>, nextStaffId: int)
      ensures this.staff == staff && this.accounts == accounts && this.nextStaffId == nextStaffId
    {
      this.staff := staff;
      this.accounts := accounts;
      this.nextStaffId := nextStaffId;
    }

    /** change_password: on success only the linked account's password changes;
        any rejection leaves every account as it was. */
    method ChangePassword(id: Option<int>, oldPw: Option<string>, newPw: Option<string>) returns (r: Option<AccountError>)
      modifies this`accounts
      ensures r == ChangeCheck(staff, old(accounts), id, oldPw, newPw)
      ensures r.Some? ==> accounts == old(accounts)
      ensures r.None? ==>
        var u := staff[id.value].account.value;
        accounts == old(accounts)[u := old(accounts)[u].(password := newPw.value)]
    {
      r := ChangeCheck(staff, accounts, id, oldPw, newPw);
      if r.None? {
        var u := staff[id.value].account.value;
        accounts := accounts[u := accounts[u].(password := newPw.value)];
      }
    }

    /** create_staff, by its net effect on the two tables: the account is
        created with a placeholder password and deleted again (taking the
        staff row with it, by cascade) when the staff data is invalid or no
        password can be generated; the staff id is used up once the row was
        saved. A name made only of whitespace raises after both rows were
        saved, so they stay with the placeholder password. A taken username
        raises before anything is written. */
    method CreateStaff(username: string, role: string, isActive: Option<Value>, staffValid: bool,
                       fullName: string, phoneNumber: string, translit: string -> string)
      returns (r: Result<int, AccountError>)
      modifies this
      ensures username in old(accounts) || !staffValid ==>
        && r == (if username in old(accounts) then Err(DuplicateUsername) else Err(InvalidStaff))
        && accounts == old(accounts) && staff == old(staff) && nextStaffId == old(nextStaffId)
      ensures username !in old(accounts) && staffValid && GeneratePassword(fullName, phoneNumber, translit) == Ok(None) ==>
        && r == Err(MissingNameOrPhone)
        && accounts == old(accounts) && staff == old(staff) && nextStaffId == old(nextStaffId) + 1
      ensures username !in old(accounts) && staffValid && GeneratePassword(fullName, phoneNumber, translit).Err? ==>
        && r == Err(NameWithoutWord)
        && accounts == old(accounts)[username := AccountRec(username, "default_password", role, IsActiveFlag(isActive))]
        && staff == old(staff)[old(nextStaffId) := StaffRec(fullName, phoneNumber, Some(username))]
        && nextStaffId == old(nextStaffId) + 1
      ensures username !in old(accounts) && staffValid && GeneratePassword(fullName, phoneNumber, translit).Ok? &&
              GeneratePassword(fullName, phoneNumber, translit).value.Some? ==>
        && r == Ok(old(nextStaffId))
        && accounts == old(accounts)[username := AccountRec(username, GeneratePassword(fullName, phoneNumber, translit).value.value,
                                                            role, IsActiveFlag(isActive))]
        && staff == old(staff)[old(nextStaffId) := StaffRec(fullName, phoneNumber, Some(username))]
        && nextStaffId == old(nextStaffId) + 1
      ensures r.Ok? ==> username in accounts && (accounts[username].isActive <==> isActive == Some(Text("true")))
    {
      if username in accounts {
        return Err(DuplicateUsername);
      }
      if !staffValid {
        return Err(InvalidStaff);
      }
      var account := AccountRec(username, "default_password", role, IsActiveFlag(isActive));
      var row := StaffRec(fullName, phoneNumber, Some(username));
      var gen := GeneratePassword(fullName, phoneNumber, translit);
      var sid := nextStaffId;
      nextStaffId := nextStaffId + 1;
      match gen {
        case Err(_) =>
          accounts := accounts[username := account];
          staff := staff[sid := row];
          r := Err(NameWithoutWord);
        case Ok(None) =>
          r := Err(MissingNameOrPhone);
        case Ok(Some(pw)) =>
          accounts := accounts[username := account.(password := pw)];
          staff := staff[sid := row];
          r := Ok(sid);
      }
    }
  }
}
