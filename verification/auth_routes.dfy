/**
 * Registration and login on the server: the e-mail and password rules, and
 * the order in which each handler checks its input. The password hasher is
 * the parameter `hash` and the stored-hash check the parameter `check`.
 */
module AuthRoutes {
  import opened Wrappers
  import opened Json
  import opened Text
  import opened Db
  import FormRules
  import RegisterPage

  // ---------------------------------------------------------------------------
  // The e-mail rule: `^[a-zA-Z0-9._%+-]+@[a-zA-Z0-9.-]+\.[a-zA-Z]{2,}$`

  predicate LocalChar(c: char) {
    IsAsciiAlnum(c) || c == '.' || c == '_' || c == '%' || c == '+' || c == '-'
  }

  predicate DomainChar(c: char) {
    IsAsciiAlnum(c) || c == '.' || c == '-'
  }

  /**
   * The pattern matches all of `t` with its `@` at `a` and its `\.` at `k`:
   * local characters before `a`, domain characters strictly between, and two
   * or more letters after `k`.
   */
  predicate EmailSplit(t: string, a: int, k: int) {
    && 0 < a && a + 1 < k && k + 2 < |t|
    && (forall i | 0 <= i < a :: LocalChar(t[i]))
    && t[a] == '@'
    && (forall i | a < i < k :: DomainChar(t[i]))
    && t[k] == '.'
    && (forall i | k < i < |t| :: IsAsciiLetter(t[i]))
  }

  predicate EmailShape(t: string) {
    exists a, k | 0 < a < k < |t| :: EmailSplit(t, a, k)
  }

  /** `validate_email`: `re.match` of the anchored pattern, whose `$` also matches just before a final newline. */
  predicate ValidateEmail(s: string) {
    EmailShape(s) || (|s| > 0 && s[|s| - 1] == '\n' && EmailShape(s[..|s| - 1]))
  }

  /**
   * A single left-to-right scan for the pattern: the run of local characters
   * must end in the `@`, the rest must be domain characters, and the last dot
   * must be followed by two or more letters only.
   */
  method MatchShape(t: string) returns (ok: bool)
    ensures ok <==> EmailShape(t)
  {
    var a := 0;
    while a < |t| && LocalChar(t[a])
      invariant 0 <= a <= |t|
      invariant forall i | 0 <= i < a :: LocalChar(t[i])
    {
      a := a + 1;
    }
    forall a', k' | 0 < a' < k' < |t| && EmailSplit(t, a', k')
      ensures a' == a && forall j | a' < j < |t| :: DomainChar(t[j])
    {
      assert !LocalChar(t[a']);
    }
    if a == 0 || a == |t| || t[a] != '@' {
      return false;
    }
    var i := a + 1;
    var k := -1;
    while i < |t| && DomainChar(t[i])
      invariant a + 1 <= i <= |t|
      invariant forall j | a < j < i :: DomainChar(t[j])
      invariant k == -1 || (a < k < i && t[k] == '.')
      invariant forall j | a < j < i && t[j] == '.' :: j <= k
    {
      if t[i] == '.' {
        k := i;
      }
      i := i + 1;
    }
    if i < |t| {
      return false;
    }
    forall a', k' | 0 < a' < k' < |t| && EmailSplit(t, a', k') ensures k' == k {
      assert k' <= k;
    }
    if k < a + 2 || k + 2 >= |t| {
      return false;
    }
    var j := k + 1;
    while j < |t| && IsAsciiLetter(t[j])
      invariant k + 1 <= j <= |t|
      invariant forall x | k < x < j :: IsAsciiLetter(t[x])
    {
      j := j + 1;
    }
    if j < |t| {
      return false;
    }
    assert EmailSplit(t, a, k);
    return true;
  }

  /** `validate_email`, computed. */
  method MatchEmail(s: string) returns (ok: bool)
    ensures ok <==> ValidateEmail(s)
  {
    ok := MatchShape(s);
    if !ok && |s| > 0 && s[|s| - 1] == '\n' {
      ok := MatchShape(s[..|s| - 1]);
    }
  }

  /** Every address the server accepts also passes the client's loose pattern. */
  lemma ServerEmailPassesClient(s: string)
    requires ValidateEmail(s)
    ensures FormRules.LooseEmail(s)
  {
    var t := if EmailShape(s) then s else s[..|s| - 1];
    var a, k :| 0 < a < k < |t| && EmailSplit(t, a, k);
    assert t[a - 1] == s[a - 1] && t[k + 1] == s[k + 1];
    assert forall i | a < i < k :: t[i] == s[i];
    assert FormRules.LooseEmailAt(s, a, k);
  }

  /** The converse fails: the client accepts a one-letter top-level domain, the server does not. */
  lemma ClientEmailIsLooser()
    ensures FormRules.LooseEmail("a@b.c")
    ensures !ValidateEmail("a@b.c")
  {
    assert FormRules.LooseEmailAt("a@b.c", 1, 3);
  }

  // ---------------------------------------------------------------------------
  // The password rule

  /** `validate_password`: eight or more characters with a lower-case letter, an upper-case letter and a digit. */
  predicate ValidatePassword(p: string) {
    |p| >= 8 && FormRules.HasAllClasses(p)
  }

  /** On text without line breaks, the server's rule and the registration form's rule agree. */
  lemma PasswordRulesAgree(p: string)
    requires forall k | 0 <= k < |p| :: !IsLineTerminator(p[k])
    ensures ValidatePassword(p) <==> RegisterPage.ClientPasswordOk(p)
  {
    FormRules.MixedCaseOnOneLine(p);
  }

  /** A line break separates them: the client's lookaheads stop at it, the server's searches do not. */
  lemma PasswordRulesDifferOnLineBreak()
    ensures ValidatePassword("abcdefg\nA1")
    ensures !RegisterPage.ClientPasswordOk("abcdefg\nA1")
  {
    FormRules.MixedCaseLineBreak();
  }

  /**
   * `validate_password` applied to whatever the body held: `len` works on
   * strings, lists and dictionaries, and the pattern searches only on strings.
   */
  function PasswordCheck(v: Value): (r: Py<bool>)
    ensures v.Str? ==> r == Ok(ValidatePassword(v.s))
    ensures r == Ok(true) ==> v.Str? && ValidatePassword(v.s)
  {
    match PyLen(v)
    case Raised => Raised
    case Ok(n) => if n < 8 then Ok(false) else if v.Str? then Ok(ValidatePassword(v.s)) else Raised
  }

  // ---------------------------------------------------------------------------
  // Registration

  const NoData := "No data provided"
  const FieldsRequired := "Email and password are required"
  const InvalidEmail := "Invalid email format"
  const WeakPassword := "Password must be at least 8 characters with uppercase, lowercase, and number"
  const UserExists := "User already exists"
  const InvalidCredentials := "Invalid credentials"
  const Deactivated := "Account is deactivated"

  /** What registration reads, before any check: the e-mail stripped and lower-cased, the password, the name stripped. */
  function RegisterFields(body: Value): (r: Py<(string, Value, string)>)
    ensures r.Ok? <==> body.Obj? && StripLower(PyGet(body, "email", Str(""))).Ok? && Strip(PyGet(body, "name", Str(""))).Ok?
    ensures r.Ok? ==> r.value.0 == StripLower(PyGet(body, "email", Str(""))).value
  {
    var email := StripLower(PyGet(body, "email", Str("")));
    var password := PyGet(body, "password", Str(""));
    var name := Strip(PyGet(body, "name", Str("")));
    if email.Raised? || password.Raised? || name.Raised? then Raised
    else Ok((email.value, password.value, name.value))
  }

  /** The row registration adds. */
  function NewUser(d: Data, email: string, password: string, name: string, hash: string -> string): (u: User)
    ensures u.email == email && u.name == name && u.passwordHash == hash(password)
    ensures u.subscription == Free && u.isActive
    ensures forall x | x in d.users :: x.id < u.id
  {
    var id := FreshId(d.users, (x: User) => x.id);
    assert forall i | 0 <= i < |d.users| :: d.users[i].id < id;
    User(id, email, name, hash(password), Free, true)
  }

  /** The inputs registration accepts: e-mail, password and name as read, all checks passed. */
  predicate RegisterAccepts(d: Data, body: Value) {
    && PyTruthy(body) && RegisterFields(body).Ok?
    && var f := RegisterFields(body).value;
    && f.0 != "" && ValidateEmail(f.0)
    && f.1.Str? && ValidatePassword(f.1.s)
    && FindByEmail(d.users, f.0).None?
  }

  /** Where the checks of `register` lead: an answer, or the row to create from the e-mail, password and name. */
  datatype RegisterStep = Refuse(status: int, message: string) | Create(email: string, password: string, name: string)

  /** The checks of `register` on the fields it read, in order. */
  function FieldChecks(d: Data, email: string, password: Value, name: string): (s: RegisterStep)
    ensures s.Create? <==>
      email != "" && ValidateEmail(email) && password.Str? && ValidatePassword(password.s) && FindByEmail(d.users, email).None?
    ensures s.Create? ==> s == Create(email, password.s, name)
    ensures s.Refuse? ==> s.status in {400, 409, 500}
    ensures s.Refuse? && s.status == 409 ==> ValidateEmail(email) && FindByEmail(d.users, email).Some?
    ensures s.Refuse? && s.status == 409 ==> PasswordCheck(password) == Ok(true)
    ensures s == Refuse(400, FieldsRequired) <==> email == "" || !PyTruthy(password)
    ensures s == Refuse(400, InvalidEmail) <==> email != "" && PyTruthy(password) && !ValidateEmail(email)
    ensures s == Refuse(400, WeakPassword) <==>
      email != "" && PyTruthy(password) && ValidateEmail(email) && PasswordCheck(password) == Ok(false)
  {
    if email == "" || !PyTruthy(password) then Refuse(400, FieldsRequired)
    else if !ValidateEmail(email) then Refuse(400, InvalidEmail)
    else match PasswordCheck(password)
      case Raised => Refuse(500, "Registration failed")
      case Ok(strong) =>
        if !strong then Refuse(400, WeakPassword)
        else if FindByEmail(d.users, email).Some? then Refuse(409, UserExists)
        else Create(email, password.s, name)
  }

  /** The checks of `register`, in order. */
  function RegisterChecks(d: Data, body: Value): (s: RegisterStep)
    ensures !PyTruthy(body) ==> s == Refuse(400, NoData)
    ensures PyTruthy(body) && RegisterFields(body).Raised? ==> s == Refuse(500, "Registration failed")
    ensures PyTruthy(body) && RegisterFields(body).Ok? ==>
      var f := RegisterFields(body).value;
      s == FieldChecks(d, f.0, f.1, f.2)
  {
    if !PyTruthy(body) then Refuse(400, NoData)
    else match RegisterFields(body)
      case Raised => Refuse(500, "Registration failed")
      case Ok(f) => FieldChecks(d, f.0, f.1, f.2)
  }

  /** Registration creates a user exactly for an accepted request, and a 409 reveals a taken address only after both rules pass. */
  lemma RegisterChecksAccept(d: Data, body: Value)
    ensures RegisterChecks(d, body).Create? <==> RegisterAccepts(d, body)
    ensures RegisterChecks(d, body).Create? ==>
      var f := RegisterFields(body).value;
      f.1.Str? && RegisterChecks(d, body) == Create(f.0, f.1.s, f.2)
    ensures RegisterChecks(d, body).Refuse? ==> RegisterChecks(d, body).status in {400, 409, 500}
    ensures RegisterChecks(d, body) == Refuse(409, UserExists) ==>
      && RegisterFields(body).Ok? && ValidateEmail(RegisterFields(body).value.0)
      && FindByEmail(d.users, RegisterFields(body).value.0).Some?
      && PasswordCheck(RegisterFields(body).value.1) == Ok(true)
  {
  }

  /** `register`: only an accepted request writes, and it appends exactly the new user. */
  function Register(d: Data, body: Value, hash: string -> string): (r: Reply)
    ensures r.status != 201 ==> r.data == d
    ensures r.status == 201 <==> RegisterAccepts(d, body)
    ensures r.status == 201 ==>
      var s := RegisterChecks(d, body);
      r.data == d.(users := d.users + [NewUser(d, s.email, s.password, s.name, hash)])
  {
    RegisterChecksAccept(d, body);
    match RegisterChecks(d, body)
    case Refuse(status, message) => Answer(d, status, message)
    case Create(email, password, name) =>
      Reply(201, "Registration successful", d.(users := d.users + [NewUser(d, email, password, name, hash)]))
  }

  /** Registration keeps e-mail addresses and identifiers unique, and the new user owns no memory. */
  lemma RegisterKeepsUsersUnique(d: Data, body: Value, hash: string -> string)
    requires UniqueEmails(d.users) && UniqueUserIds(d.users) && MemoryOwnersExist(d)
    ensures var r := Register(d, body, hash);
      && UniqueEmails(r.data.users) && UniqueUserIds(r.data.users) && MemoryOwnersExist(r.data)
      && (r.status == 201 ==> MemoryCount(r.data, r.data.users[|r.data.users| - 1].id) == 0)
  {
    var r := Register(d, body, hash);
    if r.status == 201 {
      var s := RegisterChecks(d, body);
      var u := NewUser(d, s.email, s.password, s.name, hash);
      RegisterChecksAccept(d, body);
      assert FindByEmail(d.users, s.email).None?;
      AppendUserKeepsUnique(d, u);
    }
  }

  /** Appending a user with a fresh identifier and an unused address keeps the user invariants, and the user owns nothing. */
  lemma AppendUserKeepsUnique(d: Data, u: User)
    requires UniqueEmails(d.users) && UniqueUserIds(d.users) && MemoryOwnersExist(d)
    requires forall x | x in d.users :: x.id < u.id && x.email != u.email
    ensures var e := d.(users := d.users + [u]);
      UniqueEmails(e.users) && UniqueUserIds(e.users) && MemoryOwnersExist(e) && MemoryCount(e, u.id) == 0
  {
    var e := d.(users := d.users + [u]);
    forall m | m in d.memories ensures m.userId != u.id {
      var o :| o in d.users && o.id == m.userId;
    }
    var mine := (m: Memory) => m.userId == u.id;
    assert UserMemories(e, u.id) == Seqs.Filter(d.memories, mine);
    Seqs.FilterNone(d.memories, mine);
    forall i, j | 0 <= i < j < |e.users| ensures e.users[i].email != e.users[j].email && e.users[i].id != e.users[j].id {
      if j == |d.users| {
        assert e.users[i] in d.users;
      }
    }
  }

  // ---------------------------------------------------------------------------
  // Login

  /** What login reads: the e-mail stripped and lower-cased, and the password. */
  function LoginFields(body: Value): (r: Py<(string, Value)>)
    ensures r.Ok? <==> body.Obj? && StripLower(PyGet(body, "email", Str(""))).Ok?
  {
    var email := StripLower(PyGet(body, "email", Str("")));
    var password := PyGet(body, "password", Str(""));
    if email.Raised? || password.Raised? then Raised else Ok((email.value, password.value))
  }

  /** The login inputs that name a known user and give that user's password. */
  predicate PasswordVerified(d: Data, body: Value, check: (string, string) -> bool) {
    && PyTruthy(body) && LoginFields(body).Ok?
    && var f := LoginFields(body).value;
    && f.0 != "" && PyTruthy(f.1)
    && FindByEmail(d.users, f.0).Some?
    && f.1.Str? && check(FindByEmail(d.users, f.0).value.passwordHash, f.1.s)
  }

  /** `login`: nothing is written; the deactivation answer is given only to a caller who knows the password. */
  function Login(d: Data, body: Value, check: (string, string) -> bool): (r: Reply)
    ensures r.data == d
    ensures r.status in {200, 400, 401, 500}
    ensures r.status == 400 <==>
      !PyTruthy(body) || (LoginFields(body).Ok? && (LoginFields(body).value.0 == "" || !PyTruthy(LoginFields(body).value.1)))
    ensures r.status == 400 && r.message == FieldsRequired <==>
      PyTruthy(body) && LoginFields(body).Ok? && (LoginFields(body).value.0 == "" || !PyTruthy(LoginFields(body).value.1))
    ensures r.status == 200 <==> PasswordVerified(d, body, check) && FindByEmail(d.users, LoginFields(body).value.0).value.isActive
    ensures r.message == Deactivated <==>
      PasswordVerified(d, body, check) && !FindByEmail(d.users, LoginFields(body).value.0).value.isActive
    ensures r.status == 401 && r.message != Deactivated ==>
      && LoginFields(body).Ok?
      && var f := LoginFields(body).value;
      && (FindByEmail(d.users, f.0).None? || (f.1.Str? && !check(FindByEmail(d.users, f.0).value.passwordHash, f.1.s)))
  {
    if !PyTruthy(body) then Answer(d, 400, NoData)
    else match LoginFields(body)
      case Raised => Answer(d, 500, "Login failed")
      case Ok((email, password)) =>
        if email == "" || !PyTruthy(password) then Answer(d, 400, FieldsRequired)
        else match FindByEmail(d.users, email)
          case None => Answer(d, 401, InvalidCredentials)
          case Some(u) =>
            if !password.Str? then Answer(d, 500, "Login failed")
            else if !check(u.passwordHash, password.s) then Answer(d, 401, InvalidCredentials)
            else if !u.isActive then Answer(d, 401, Deactivated)
            else Answer(d, 200, "Login successful")
  }

  /** An unknown address and a wrong password get the very same answer. */
  lemma UnknownUserLooksLikeWrongPassword(d: Data, b1: Value, b2: Value, check: (string, string) -> bool)
    requires PyTruthy(b1) && LoginFields(b1).Ok? && LoginFields(b1).value.0 != "" && PyTruthy(LoginFields(b1).value.1)
    requires FindByEmail(d.users, LoginFields(b1).value.0).None?
    requires PyTruthy(b2) && LoginFields(b2).Ok? && LoginFields(b2).value.0 != "" && LoginFields(b2).value.1.Str?
    requires LoginFields(b2).value.1.s != ""
    requires FindByEmail(d.users, LoginFields(b2).value.0).Some?
    requires !check(FindByEmail(d.users, LoginFields(b2).value.0).value.passwordHash, LoginFields(b2).value.1.s)
    ensures Login(d, b1, check) == Login(d, b2, check) == Answer(d, 401, InvalidCredentials)
  {
    var f1 := LoginFields(b1).value;
    var f2 := LoginFields(b2).value;
    assert PyTruthy(f2.1);
    assert Login(d, b1, check) == Answer(d, 401, InvalidCredentials);
    assert Login(d, b2, check) == Answer(d, 401, InvalidCredentials);
  }

  /** With a hash check that recognises the hasher's output, a fresh registration can log in with the same body. */
  lemma RegisterThenLogin(d: Data, body: Value, hash: string -> string, check: (string, string) -> bool)
    requires forall p :: check(hash(p), p)
    requires Register(d, body, hash).status == 201
    ensures Login(Register(d, body, hash).data, body, check).status == 200
  {
    var s := RegisterChecks(d, body);
    var u := NewUser(d, s.email, s.password, s.name, hash);
    RegisterChecksAccept(d, body);
    FindByEmailAppend(d.users, u, s.email);
    assert LoginFields(body).value.0 == s.email;
  }

  lemma {:induction false} FindByEmailAppend(users: seq<User>, u: User, email: string)
    requires FindByEmail(users, email).None? && u.email == email
    ensures FindByEmail(users + [u], email) == Some(u)
  {
    if users != [] {
      assert (users + [u])[1..] == users[1..] + [u];
      FindByEmailAppend(users[1..], u, email);
    } else {
      assert users + [u] == [u];
    }
  }
}
