/**
 * The login/registration form. Submitting runs a chain of early-return
 * rules: the admin credential pair (when an email is typed in login mode),
 * then empty fields, then the 10-digit phone rule, then either a lookup of
 * an existing account or a registration that refuses a phone already in use.
 */
module Auth {
  import opened Types
  import opened Constants
  import opened Seqs

  /** `/^\d*$/`: only the ASCII digits, the empty string included. */
  predicate AllDigits(s: string): (digits: bool)
    ensures digits <==> forall c :: c in s ==> '0' <= c <= '9'
  {
    DigitsEverywhere(s);
    forall i :: 0 <= i < |s| ==> '0' <= s[i] <= '9'
  }

  lemma DigitsEverywhere(s: string)
    ensures (forall i :: 0 <= i < |s| ==> '0' <= s[i] <= '9') <==> (forall c :: c in s ==> '0' <= c <= '9')
  {
    if forall i :: 0 <= i < |s| ==> '0' <= s[i] <= '9' {
      forall c | c in s
        ensures '0' <= c <= '9'
      {
        var i :| 0 <= i < |s| && s[i] == c;
      }
    } else {
      var i :| 0 <= i < |s| && !('0' <= s[i] <= '9');
      assert s[i] in s;
    }
  }

  const PhoneLengthError: string := "Phone number must be exactly 10 digits (e.g., 050xxxxxxx)"

  /** `validatePhone`: the empty message means valid. */
  function ValidatePhone(phone: string): (message: string)
    ensures message == "" <==> |phone| == 10
    ensures message != "" ==> message == PhoneLengthError
  {
    if |phone| != 10 then PhoneLengthError else ""
  }

  /** The characters `String.prototype.trim` removes: ECMAScript white space and line terminators. */
  predicate IsWhiteSpace(c: char)
  {
    || c == '\t' || c == '\n' || c == '\U{000B}' || c == '\U{000C}' || c == '\r' || c == ' '
    || c == '\U{00A0}' || c == '\U{1680}' || ('\U{2000}' <= c <= '\U{200A}')
    || c == '\U{2028}' || c == '\U{2029}' || c == '\U{202F}' || c == '\U{205F}'
    || c == '\U{3000}' || c == '\U{FEFF}'
  }

  /** Drops leading white space. */
  function TrimStart(s: string): (r: string)
    ensures |r| <= |s| && r == s[|s| - |r|..]
    ensures forall i :: 0 <= i < |s| - |r| ==> IsWhiteSpace(s[i])
    ensures r == [] || !IsWhiteSpace(r[0])
  {
    if s != [] && IsWhiteSpace(s[0]) then TrimStart(s[1..]) else s
  }

  /** Drops trailing white space. */
  function TrimEnd(s: string): (r: string)
    ensures |r| <= |s| && r == s[..|r|]
    ensures forall i :: |r| <= i < |s| ==> IsWhiteSpace(s[i])
    ensures r == [] || !IsWhiteSpace(r[|r| - 1])
  {
    if s != [] && IsWhiteSpace(s[|s| - 1]) then TrimEnd(s[..|s| - 1]) else s
  }

  /** `trim()`: a middle slice of `s` that neither starts nor ends with white space. */
  function Trim(s: string): (r: string)
    ensures exists i, j :: 0 <= i <= j <= |s| && r == s[i..j]
    ensures r == [] || (!IsWhiteSpace(r[0]) && !IsWhiteSpace(r[|r| - 1]))
  {
    var t := TrimStart(s);
    var r := TrimEnd(t);
    assert r == s[|s| - |t|..|s| - |t| + |r|];
    r
  }

  /** What `trim()` drops, in front and behind, is white space and nothing else. */
  lemma TrimDropsOnlyWhiteSpace(s: string)
    ensures exists i, j :: && 0 <= i <= j <= |s| && Trim(s) == s[i..j]
                           && (forall k :: 0 <= k < i ==> IsWhiteSpace(s[k]))
                           && (forall k :: j <= k < |s| ==> IsWhiteSpace(s[k]))
  {
    var t := TrimStart(s);
    var r := TrimEnd(t);
    var i := |s| - |t|;
    assert Trim(s) == r;
    assert t == s[i..] && r == t[..|r|];
    assert r == s[i..i + |r|];
    forall k | i + |r| <= k < |s|
      ensures IsWhiteSpace(s[k])
    {
      assert s[k] == t[k - i];
    }
    assert 0 <= i <= i + |r| <= |s| && Trim(s) == s[i..i + |r|]
           && (forall k :: 0 <= k < i ==> IsWhiteSpace(s[k]))
           && (forall k :: i + |r| <= k < |s| ==> IsWhiteSpace(s[k]));
  }

  /** Trimming an already trimmed name changes nothing. */
  lemma TrimIdempotent(s: string)
    ensures Trim(Trim(s)) == Trim(s)
  {
    var r := Trim(s);
    TrimStartKeeps(r);
    TrimEndKeeps(r);
  }

  lemma TrimStartKeeps(s: string)
    requires s == [] || !IsWhiteSpace(s[0])
    ensures TrimStart(s) == s
  {
  }

  lemma TrimEndKeeps(s: string)
    requires s == [] || !IsWhiteSpace(s[|s| - 1])
    ensures TrimEnd(s) == s
  {
  }

  /** `toLowerCase()`, on the ASCII letters only. */
  function ToLower(s: string): (r: string)
    ensures |r| == |s|
    ensures forall i :: 0 <= i < |s| ==> r[i] == if 'A' <= s[i] <= 'Z' then (s[i] as int + 32) as char else s[i]
  {
    if s == [] then []
    else [if 'A' <= s[0] <= 'Z' then (s[0] as int + 32) as char else s[0]] + ToLower(s[1..])
  }

  /** The form of a name that logins compare: trimmed and lower-cased. */
  function NameKey(name: string): string
  {
    ToLower(Trim(name))
  }

  /** The account test of login (and of the exact-match check of registration). */
  predicate Matches(u: User, phone: string, fullName: string)
  {
    u.phoneNumber == phone && NameKey(u.fullName) == NameKey(fullName)
  }

  /** `users.find(...)`: the first user with that phone and name, if any. */
  function FindAccount(users: seq<User>, phone: string, fullName: string): (r: Option<User>)
    ensures r.None? <==> forall k :: 0 <= k < |users| ==> !Matches(users[k], phone, fullName)
    ensures r.Some? ==> exists i :: 0 <= i < |users| && r.value == users[i] && Matches(users[i], phone, fullName)
                                   && forall k :: 0 <= k < i ==> !Matches(users[k], phone, fullName)
  {
    var i := FirstIndex(users, (u: User) => Matches(u, phone, fullName));
    if i >= 0 then Some(users[i]) else None
  }

  /** `users.some(u => u.phoneNumber === phone)`: some stored position holds that phone. */
  predicate PhoneInUse(users: seq<User>, phone: string): (used: bool)
    ensures used <==> exists i :: 0 <= i < |users| && users[i].phoneNumber == phone
  {
    exists u :: u in users && u.phoneNumber == phone
  }

  /** `users.some(...)` with the login test: it holds exactly when the login lookup finds an account. */
  predicate AccountExists(users: seq<User>, phone: string, fullName: string): (found: bool)
    ensures found <==> FindAccount(users, phone, fullName).Some?
  {
    exists u :: u in users && Matches(u, phone, fullName)
  }

  /** The fixed identity an admin login produces; it is never stored. */
  const BuilderIdentity: User := User("builder-1", "System Builder", "0000000000", Builder)

  const InvalidAdminMessage: string := "Invalid Admin credentials."
  const MissingFieldsMessage: string := "Please enter Name and Phone Number"
  const NotFoundMessage: string := "Account not found. Please check your name and number or create an account."
  const PhoneTakenMessage: string := "An account with this phone number already exists."
  const AlreadyRegisteredMessage: string := "This account already exists. Please log in."

  /** Where the rule chain of `handleSubmit` stops. */
  datatype Decision =
    | AdminLogin(admin: User)
    | InvalidAdmin
    | MissingFields
    | InvalidPhone(message: string)
    | StudentLogin(account: User)
    | AccountNotFound
    | PhoneTaken
    | AlreadyRegistered
    | Registered(newUser: User)

  /**
   * The rule chain. `newId` stands for `Date.now().toString()`, the id a
   * registration gives the new student.
   */
  function Decide(isLogin: bool, email: string, password: string, fullName: string, phone: string,
                  users: seq<User>, newId: string): (d: Decision)
    ensures isLogin && email != "" ==>
      (d == AdminLogin(BuilderIdentity) <==> email == BuilderEmail && password == BuilderPassword)
      && (d == AdminLogin(BuilderIdentity) || d == InvalidAdmin)
    ensures !(isLogin && email != "") && (fullName == "" || phone == "") ==> d == MissingFields
    ensures !(isLogin && email != "") && fullName != "" && phone != "" && |phone| != 10 ==> d == InvalidPhone(PhoneLengthError)
    ensures d.StudentLogin? || d == AccountNotFound ==> isLogin && |phone| == 10 && fullName != ""
    ensures d.Registered? ==> !isLogin && |phone| == 10 && fullName != "" && !PhoneInUse(users, phone)
    ensures d.Registered? ==> d.newUser == User(newId, Trim(fullName), phone, Student)
  {
    if isLogin && email != "" then
      if email == BuilderEmail && password == BuilderPassword then AdminLogin(BuilderIdentity) else InvalidAdmin
    else if fullName == "" || phone == "" then MissingFields
    else if ValidatePhone(phone) != "" then InvalidPhone(ValidatePhone(phone))
    else if isLogin then LoginDecision(fullName, phone, users)
    else RegisterDecision(fullName, phone, users, newId)
  }

  /** The login end of the chain: the first matching account, or "not found". */
  function LoginDecision(fullName: string, phone: string, users: seq<User>): (d: Decision)
    ensures d.StudentLogin? || d == AccountNotFound
    ensures d.StudentLogin? <==> AccountExists(users, phone, fullName)
    ensures d.StudentLogin? ==> FindAccount(users, phone, fullName) == Some(d.account)
  {
    match FindAccount(users, phone, fullName)
    case Some(u) => StudentLogin(u)
    case None => AccountNotFound
  }

  /**
   * The registration end of the chain: a phone in use is refused, then an
   * exact name-and-phone match, and otherwise a student is created.
   */
  function RegisterDecision(fullName: string, phone: string, users: seq<User>, newId: string): (d: Decision)
    ensures d == PhoneTaken || d == AlreadyRegistered || d.Registered?
    ensures d.Registered? ==> !PhoneInUse(users, phone) && d.newUser == User(newId, Trim(fullName), phone, Student)
  {
    if PhoneInUse(users, phone) then PhoneTaken
    else if AccountExists(users, phone, fullName) then AlreadyRegistered
    else Registered(User(newId, Trim(fullName), phone, Student))
  }

  /** In the admin branch nothing but email and password matters. */
  lemma AdminIgnoresStudentFields(email: string, password: string,
                                  name1: string, phone1: string, users1: seq<User>, id1: string,
                                  name2: string, phone2: string, users2: seq<User>, id2: string)
    requires email != ""
    ensures Decide(true, email, password, name1, phone1, users1, id1) == Decide(true, email, password, name2, phone2, users2, id2)
  {
  }

  /**
   * Student login succeeds exactly when some user has that phone and that
   * name (trimmed, lower-cased), and then logs in the first such user.
   */
  lemma LoginFindsAccount(password: string, fullName: string, phone: string, users: seq<User>, newId: string)
    requires fullName != "" && |phone| == 10
    ensures Decide(true, "", password, fullName, phone, users, newId).StudentLogin? <==> AccountExists(users, phone, fullName)
    ensures Decide(true, "", password, fullName, phone, users, newId).StudentLogin? ==>
      exists i :: 0 <= i < |users| && users[i] == Decide(true, "", password, fullName, phone, users, newId).account
                  && Matches(users[i], phone, fullName)
                  && forall k :: 0 <= k < i ==> !Matches(users[k], phone, fullName)
  {
  }

  /**
   * Registration with a name, a 10-digit phone and a phone nobody uses
   * succeeds, whatever was typed in the e-mail and password fields, and
   * creates a student with the trimmed name.
   */
  lemma {:induction false} RegistrationSucceeds(email: string, password: string, fullName: string, phone: string,
                                                users: seq<User>, newId: string)
    requires fullName != "" && |phone| == 10 && !PhoneInUse(users, phone)
    ensures Decide(false, email, password, fullName, phone, users, newId) == Registered(User(newId, Trim(fullName), phone, Student))
  {
    if AccountExists(users, phone, fullName) {
      AccountUsesPhone(users, phone, fullName);
    }
  }

  /** Registration is refused whenever the phone is in use, whatever the name. */
  lemma RegistrationRefusesUsedPhone(email: string, password: string, fullName: string, phone: string, users: seq<User>, newId: string)
    requires fullName != "" && |phone| == 10 && PhoneInUse(users, phone)
    ensures Decide(false, email, password, fullName, phone, users, newId) == PhoneTaken
  {
  }

  /** The "account already exists" rejection can never be reached: the phone rule fires first. */
  lemma {:induction false} NeverAlreadyRegistered(isLogin: bool, email: string, password: string, fullName: string,
                                                  phone: string, users: seq<User>, newId: string)
    ensures Decide(isLogin, email, password, fullName, phone, users, newId) != AlreadyRegistered
  {
    var d := Decide(isLogin, email, password, fullName, phone, users, newId);
    if !(isLogin && email != "") && fullName != "" && phone != "" && |phone| == 10 {
      if isLogin {
        assert d == LoginDecision(fullName, phone, users);
      } else {
        if AccountExists(users, phone, fullName) {
          AccountUsesPhone(users, phone, fullName);
        }
        assert d == RegisterDecision(fullName, phone, users, newId);
      }
    }
  }

  /** An account that matches a phone and name has that phone in use. */
  lemma AccountUsesPhone(users: seq<User>, phone: string, fullName: string)
    requires AccountExists(users, phone, fullName)
    ensures PhoneInUse(users, phone)
  {
    var u :| u in users && Matches(u, phone, fullName);
    assert u.phoneNumber == phone;
  }

  /** A student who has just registered can log in with what they typed and gets the same account. */
  lemma RegisterThenLogin(fullName: string, phone: string, users: seq<User>, newId: string, laterId: string)
    requires Decide(false, "", "", fullName, phone, users, newId).Registered?
    ensures var u := Decide(false, "", "", fullName, phone, users, newId).newUser;
            Decide(true, "", "", fullName, phone, users + [u], laterId) == StudentLogin(u)
  {
    var u := User(newId, Trim(fullName), phone, Student);
    assert !PhoneInUse(users, phone);
    TrimIdempotent(fullName);
    assert Matches(u, phone, fullName);
    var all := users + [u];
    forall k | 0 <= k < |users|
      ensures !Matches(all[k], phone, fullName)
    {
      assert all[k] == users[k];
      assert users[k] in users;
    }
    assert all[|users|] == u;
    var found := FindAccount(all, phone, fullName);
    assert found.Some?;
    var i :| 0 <= i < |all| && found.value == all[i] && Matches(all[i], phone, fullName)
             && forall k :: 0 <= k < i ==> !Matches(all[k], phone, fullName);
    assert i == |users|;
  }

  /** The calls `handleSubmit` makes to its parent, in order. */
  datatype Callback = OnLogin(user: User) | OnRegister(user: User)

  function CallbacksOf(d: Decision): seq<Callback>
  {
    match d
    case AdminLogin(u) => [OnLogin(u)]
    case StudentLogin(u) => [OnLogin(u)]
    case Registered(u) => [OnRegister(u), OnLogin(u)]
    case _ => []
  }

  /** The general error message a decision shows ("" for none). */
  function GeneralErrorOf(d: Decision): string
  {
    match d
    case InvalidAdmin => InvalidAdminMessage
    case MissingFields => MissingFieldsMessage
    case AccountNotFound => NotFoundMessage
    case PhoneTaken => PhoneTakenMessage
    case AlreadyRegistered => AlreadyRegisteredMessage
    case _ => ""
  }

  class AuthForm {
    var isLogin: bool
    var fullName: string
    var phone: string
    var phoneError: string
    var generalError: string
    var email: string
    var password: string

    /** The phone field only ever holds digits. */
    ghost predicate Valid()
      reads this
    {
      AllDigits(phone)
    }

    constructor ()
      ensures Valid()
      ensures isLogin && fullName == "" && phone == "" && phoneError == "" && generalError == ""
      ensures email == "" && password == ""
    {
      isLogin := true;
      fullName := "";
      phone := "";
      phoneError := "";
      generalError := "";
      email := "";
      password := "";
    }

    /** `handlePhoneChange`: an edit with a non-digit is ignored; an accepted one clears both errors. */
    method HandlePhoneChange(value: string)
      requires Valid()
      modifies this
      ensures Valid()
      ensures AllDigits(value) ==> phone == value && phoneError == "" && generalError == ""
      ensures !AllDigits(value) ==> phone == old(phone) && phoneError == old(phoneError) && generalError == old(generalError)
      ensures isLogin == old(isLogin) && fullName == old(fullName) && email == old(email) && password == old(password)
    {
      if AllDigits(value) {
        phone := value;
        if phoneError != "" {
          phoneError := "";
        }
        if generalError != "" {
          generalError := "";
        }
      }
    }

    method SetFullName(value: string)
      requires Valid()
      modifies this
      ensures Valid()
      ensures fullName == value
      ensures isLogin == old(isLogin) && phone == old(phone) && phoneError == old(phoneError)
      ensures generalError == old(generalError) && email == old(email) && password == old(password)
    {
      fullName := value;
    }

    method SetEmail(value: string)
      requires Valid()
      modifies this
      ensures Valid()
      ensures email == value
      ensures isLogin == old(isLogin) && fullName == old(fullName) && phone == old(phone)
      ensures phoneError == old(phoneError) && generalError == old(generalError) && password == old(password)
    {
      email := value;
    }

    method SetPassword(value: string)
      requires Valid()
      modifies this
      ensures Valid()
      ensures password == value
      ensures isLogin == old(isLogin) && fullName == old(fullName) && phone == old(phone)
      ensures phoneError == old(phoneError) && generalError == old(generalError) && email == old(email)
    {
      password := value;
    }

    /** Switches between login and registration and clears the form and both errors. */
    method ToggleMode()
      requires Valid()
      modifies this
      ensures Valid()
      ensures isLogin == !old(isLogin)
      ensures fullName == "" && phone == "" && email == "" && password == "" && phoneError == "" && generalError == ""
    {
      isLogin := !isLogin;
      phoneError := "";
      generalError := "";
      fullName := "";
      phone := "";
      email := "";
      password := "";
    }

    /**
     * `handleSubmit`: clears the general error, runs the rule chain on the
     * form's fields, shows the rule's message and makes its calls. The phone
     * error is only ever set here, never cleared.
     */
    method HandleSubmit(users: seq<User>, newId: string) returns (calls: seq<Callback>)
      requires Valid()
      modifies this
      ensures Valid()
      ensures var d := Decide(old(isLogin), old(email), old(password), old(fullName), old(phone), users, newId);
              && calls == CallbacksOf(d)
              && generalError == GeneralErrorOf(d)
              && phoneError == (if d.InvalidPhone? then d.message else old(phoneError))
      ensures isLogin == old(isLogin) && fullName == old(fullName) && phone == old(phone)
      ensures email == old(email) && password == old(password)
    {
      ghost var d := Decide(old(isLogin), old(email), old(password), old(fullName), old(phone), users, newId);
      generalError := "";
      calls := [];

      if isLogin && email != "" {
        if email == BuilderEmail && password == BuilderPassword {
          assert d == AdminLogin(BuilderIdentity);
          calls := [OnLogin(BuilderIdentity)];
          assert calls == CallbacksOf(d);
        } else {
          assert d == InvalidAdmin;
          generalError := InvalidAdminMessage;
          assert calls == CallbacksOf(d);
        }
        return;
      }

      if fullName == "" || phone == "" {
        assert d == MissingFields;
        generalError := MissingFieldsMessage;
        assert calls == CallbacksOf(d);
        return;
      }

      var pError := ValidatePhone(phone);
      if pError != "" {
        assert d == InvalidPhone(pError);
        phoneError := pError;
        assert calls == CallbacksOf(d);
        return;
      }

      var message;
      if isLogin {
        assert d == LoginDecision(fullName, phone, users);
        calls, message := LogInStudent(fullName, phone, users);
      } else {
        assert d == RegisterDecision(fullName, phone, users, newId);
        calls, message := RegisterStudent(fullName, phone, users, newId);
      }
      generalError := message;
      assert calls == CallbacksOf(d);
    }
  }

  /**
   * Student login once the fields have passed the checks: log in the first
   * account with that phone and name, or show "not found".
   */
  method LogInStudent(fullName: string, phone: string, users: seq<User>) returns (calls: seq<Callback>, message: string)
    ensures calls == CallbacksOf(LoginDecision(fullName, phone, users))
    ensures message == GeneralErrorOf(LoginDecision(fullName, phone, users))
  {
    ghost var d := LoginDecision(fullName, phone, users);
    var existingUser := FindAccount(users, phone, fullName);
    if existingUser.Some? {
      assert d == StudentLogin(existingUser.value);
      calls, message := [OnLogin(existingUser.value)], "";
    } else {
      assert d == AccountNotFound;
      calls, message := [], NotFoundMessage;
    }
  }

  /**
   * Registration once the fields have passed the checks: refuse a phone in
   * use, then an exact match (never reached: a matching account has its
   * phone in use), and otherwise register the student and log them in.
   */
  method RegisterStudent(fullName: string, phone: string, users: seq<User>, newId: string)
    returns (calls: seq<Callback>, message: string)
    ensures calls == CallbacksOf(RegisterDecision(fullName, phone, users, newId))
    ensures message == GeneralErrorOf(RegisterDecision(fullName, phone, users, newId))
  {
    if PhoneInUse(users, phone) {
      return [], PhoneTakenMessage;
    }
    if AccountExists(users, phone, fullName) {
      AccountUsesPhone(users, phone, fullName);
      assert false;
    }
    var newUser := User(newId, Trim(fullName), phone, Student);
    calls, message := [OnRegister(newUser), OnLogin(newUser)], "";
  }
}
