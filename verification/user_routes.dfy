/**
 * The account routes of the server: profile update, password change, the
 * subscription view and its upgrade and downgrade, the dashboard and
 * deactivation. Every route first looks the caller up by identifier and
 * answers 404 when the row is gone.
 */
module UserRoutes {
  import opened Wrappers
  import opened Json
  import opened Text
  import opened Db
  import Seqs
  import AuthRoutes
  import MemoryRoutes
  import ReminderRoutes

  const UserNotFound := "User not found"
  const NoData := "No data provided"
  const EmailInUse := "Email already in use"
  const ProfileUpdated := "Profile updated successfully"
  const ProfileFailed := "Failed to update profile"
  const PasswordsRequired := "Current and new passwords are required"
  const WrongCurrent := "Current password is incorrect"
  const ShortPassword := "New password must be at least 8 characters long"
  const PasswordChanged := "Password changed successfully"
  const PasswordFailed := "Failed to change password"
  const AlreadyPremium := "User already has premium subscription"
  const Upgraded := "Subscription upgraded to Premium successfully"
  const AlreadyFree := "User already has free subscription"
  const Downgraded := "Subscription downgraded to Free successfully"
  const Deactivated := "Account deactivated successfully"

  /** The shortest new password `change_password` accepts. */
  const MinPasswordLength := 8

  /** The user invariants every route keeps: unique addresses and identifiers, owned memories, free accounts within the limit. */
  predicate UsersConsistent(d: Data) {
    UniqueEmails(d.users) && UniqueUserIds(d.users) && MemoryOwnersExist(d) && FreeWithinLimit(d)
  }

  // ---------------------------------------------------------------------------
  // Saving the caller's row

  /** After saving `u2` over an existing row, looking its identifier up finds `u2`. */
  lemma FindSaved(d: Data, u2: User)
    requires FindUser(d.users, u2.id).Some?
    ensures FindUser(SaveUser(d, u2).users, u2.id) == Some(u2)
  {
    var e := SaveUser(d, u2);
    var u := FindUser(d.users, u2.id).value;
    var k :| 0 <= k < |d.users| && d.users[k] == u;
    assert e.users[k] == u2;
  }

  /** In a table with unique addresses, looking up a row's address finds that row. */
  lemma FindByEmailUnique(users: seq<User>, x: User)
    requires UniqueEmails(users) && x in users
    ensures FindByEmail(users, x.email) == Some(x)
  {
    var v := FindByEmail(users, x.email).value;
    var j :| 0 <= j < |users| && users[j] == x;
    var k :| 0 <= k < |users| && users[k] == v;
    assert users[k].email == users[j].email;
  }

  /** With unique identifiers and addresses, a saved row that keeps its address is the one found by that address. */
  lemma FindByEmailAfterSave(d: Data, u2: User)
    requires UniqueEmails(d.users) && UniqueUserIds(d.users)
    requires FindUser(d.users, u2.id).Some? && FindUser(d.users, u2.id).value.email == u2.email
    ensures FindByEmail(SaveUser(d, u2).users, u2.email) == Some(u2)
  {
    var e := SaveUser(d, u2);
    forall k | 0 <= k < |d.users| ensures e.users[k].email == d.users[k].email {
      SavedRowEmail(d, u2, k);
    }
    assert UniqueEmails(e.users);
    var j :| 0 <= j < |d.users| && d.users[j] == FindUser(d.users, u2.id).value;
    assert e.users[j] == u2;
    FindByEmailUnique(e.users, u2);
  }

  /** Saving a row that keeps its address leaves every row's address where it was. */
  lemma SavedRowEmail(d: Data, u2: User, k: int)
    requires UniqueUserIds(d.users)
    requires FindUser(d.users, u2.id).Some? && FindUser(d.users, u2.id).value.email == u2.email
    requires 0 <= k < |d.users|
    ensures SaveUser(d, u2).users[k].email == d.users[k].email
  {
    if d.users[k].id == u2.id {
      MemoryRoutes.SameIdSameUser(d.users, d.users[k], FindUser(d.users, u2.id).value);
    }
  }

  /**
   * Saving a row over an existing one keeps the user invariants when it keeps
   * the identifier, takes an address nobody holds (or keeps its own) and is
   * premium or within the free limit.
   */
  lemma SaveKeepsUsersConsistent(d: Data, u2: User)
    requires UsersConsistent(d)
    requires FindUser(d.users, u2.id).Some?
    requires u2.email == FindUser(d.users, u2.id).value.email || FindByEmail(d.users, u2.email).None?
    requires u2.subscription == Premium || MemoryCount(d, u2.id) <= FreeMemoryLimit
    ensures UsersConsistent(SaveUser(d, u2))
  {
    SaveKeepsEmails(d, u2);
    SaveKeepsOwners(d, u2);
    SaveKeepsFreeLimit(d, u2);
  }

  lemma SaveKeepsEmails(d: Data, u2: User)
    requires UniqueEmails(d.users) && UniqueUserIds(d.users)
    requires FindUser(d.users, u2.id).Some?
    requires u2.email == FindUser(d.users, u2.id).value.email || FindByEmail(d.users, u2.email).None?
    ensures UniqueEmails(SaveUser(d, u2).users)
  {
    var e := SaveUser(d, u2);
    var u := FindUser(d.users, u2.id).value;
    forall i | 0 <= i < |d.users| && d.users[i].id == u2.id ensures d.users[i] == u {
      MemoryRoutes.SameIdSameUser(d.users, d.users[i], u);
    }
    forall i, j | 0 <= i < j < |e.users| ensures e.users[i].email != e.users[j].email {
      assert d.users[i].id != d.users[j].id;
      if d.users[i].id == u2.id {
        assert d.users[j] in d.users;
      } else if d.users[j].id == u2.id {
        assert d.users[i] in d.users;
      }
    }
  }

  lemma SaveKeepsOwners(d: Data, u2: User)
    requires MemoryOwnersExist(d)
    ensures MemoryOwnersExist(SaveUser(d, u2))
  {
    var e := SaveUser(d, u2);
    forall m | m in e.memories ensures exists o | o in e.users :: o.id == m.userId {
      var o :| o in d.users && o.id == m.userId;
      var k :| 0 <= k < |d.users| && d.users[k] == o;
      assert e.users[k] in e.users;
    }
  }

  lemma SaveKeepsFreeLimit(d: Data, u2: User)
    requires FreeWithinLimit(d)
    requires u2.subscription == Premium || MemoryCount(d, u2.id) <= FreeMemoryLimit
    ensures FreeWithinLimit(SaveUser(d, u2))
  {
    var e := SaveUser(d, u2);
    forall x | x in e.users && x.subscription == Free ensures MemoryCount(e, x.id) <= FreeMemoryLimit {
      var k :| 0 <= k < |e.users| && e.users[k] == x;
      assert d.users[k] in d.users;
    }
  }

  // ---------------------------------------------------------------------------
  // Profile

  /** The `name` step of `update_profile`: a present name is stripped and set; nothing else changes. */
  function ProfileName(u: User, body: Value): (s: Step<User>)
    ensures s.Halt? ==> s == Halt(500, ProfileFailed)
    ensures s.Go? ==> s.value.(name := u.name) == u
    ensures body.Obj? ==> (s.Go? <==> TextOrAbsent(body.fields, "name"))
    ensures body.Obj? && s.Go? ==>
      s.value.name == (if "name" in body.fields then PyStrip(TextOr(body.fields, "name")) else u.name)
  {
    match PyRead(body, "name")
    case Raised => Halt(500, ProfileFailed)
    case Ok(None) => Go(u)
    case Ok(Some(v)) =>
      match Strip(Ok(v))
      case Raised => Halt(500, ProfileFailed)
      case Ok(n) => Go(u.(name := n))
  }

  /** A changed address that another row already holds. */
  predicate EmailTaken(d: Data, u: User, email: string) {
    email != u.email && FindByEmail(d.users, email).Some?
  }

  /**
   * The `email` step of `update_profile`: a present address is stripped and
   * lower-cased; a changed one that is taken is refused with 409. The address
   * is not checked against the registration rule.
   */
  function ProfileEmail(d: Data, u: User, body: Value): (s: Step<User>)
    ensures s.Halt? ==> s.status in {409, 500}
    ensures s.Go? ==> s.value.(email := u.email) == u
    ensures s.Go? ==> s.value.email == u.email || FindByEmail(d.users, s.value.email).None?
    ensures (s.Halt? && s.status == 409) <==>
      && body.Obj? && "email" in body.fields && body.fields["email"].Str?
      && EmailTaken(d, u, AsciiLower(PyStrip(body.fields["email"].s)))
    ensures body.Obj? ==> ((s.Halt? && s.status == 500) <==> !TextOrAbsent(body.fields, "email"))
    ensures body.Obj? && s.Go? ==>
      s.value.email == (if "email" in body.fields then AsciiLower(PyStrip(TextOr(body.fields, "email"))) else u.email)
  {
    match PyRead(body, "email")
    case Raised => Halt(500, ProfileFailed)
    case Ok(None) => Go(u)
    case Ok(Some(v)) =>
      match StripLower(Ok(v))
      case Raised => Halt(500, ProfileFailed)
      case Ok(e) =>
        if e != u.email && FindByEmail(d.users, e).Some? then Halt(409, EmailInUse)
        else Go(u.(email := e))
  }

  /** A profile request that reaches the address step with a changed address another row already holds. */
  predicate ProfileEmailConflict(d: Data, uid: int, body: Value) {
    && FindUser(d.users, uid).Some? && PyTruthy(body) && body.Obj?
    && TextOrAbsent(body.fields, "name")
    && "email" in body.fields && body.fields["email"].Str?
    && EmailTaken(d, FindUser(d.users, uid).value, AsciiLower(PyStrip(body.fields["email"].s)))
  }

  /** The decision of `update_profile`: the row to save, or the answer. */
  function ProfileChecks(d: Data, uid: int, body: Value): (s: Step<User>)
    ensures s.Halt? ==> s.status in {400, 404, 409, 500}
    ensures (FindUser(d.users, uid).Some? && PyTruthy(body) && ProfileName(FindUser(d.users, uid).value, body).Go?) ==>
      s == ProfileEmail(d, ProfileName(FindUser(d.users, uid).value, body).value, body)
    ensures (s.Halt? && s.status == 409) <==> ProfileEmailConflict(d, uid, body)
    ensures s.Halt? && s.status == 409 ==> s.message == EmailInUse
    ensures (s.Halt? && s.status == 404) <==> FindUser(d.users, uid).None?
    ensures (s.Halt? && s.status == 400) <==> FindUser(d.users, uid).Some? && !PyTruthy(body)
    ensures s.Go? ==>
      && FindUser(d.users, uid).Some?
      && var u := FindUser(d.users, uid).value;
      && s.value.(name := u.name, email := u.email) == u
      && (s.value.email == u.email || FindByEmail(d.users, s.value.email).None?)
    ensures s.Go? && body.Obj? ==>
      && TextOrAbsent(body.fields, "name") && TextOrAbsent(body.fields, "email")
      && var u := FindUser(d.users, uid).value;
      && s.value.name == (if "name" in body.fields then PyStrip(TextOr(body.fields, "name")) else u.name)
      && s.value.email == (if "email" in body.fields then AsciiLower(PyStrip(TextOr(body.fields, "email"))) else u.email)
  {
    match FindUser(d.users, uid)
    case None => Halt(404, UserNotFound)
    case Some(u) =>
      if !PyTruthy(body) then Halt(400, NoData)
      else
        match ProfileName(u, body)
        case Halt(status, message) => Halt(status, message)
        case Go(u1) => ProfileEmail(d, u1, body)
  }

  /** `update_profile`: a 200 saves the caller's row with a new name or address; any other answer writes nothing. */
  function UpdateProfile(d: Data, uid: int, body: Value): (r: Reply)
    ensures r.status in {200, 400, 404, 409, 500}
    ensures r.status != 200 ==> r.data == d
    ensures r.status == 404 <==> FindUser(d.users, uid).None?
    ensures r.status == 200 <==> ProfileChecks(d, uid, body).Go?
    ensures r.status == 200 ==> r.data == SaveUser(d, ProfileChecks(d, uid, body).value)
    ensures r.status == 409 <==> ProfileEmailConflict(d, uid, body)
    ensures r.status == 409 ==> r.message == EmailInUse
  {
    match ProfileChecks(d, uid, body)
    case Halt(status, message) => Answer(d, status, message)
    case Go(u) => Reply(200, ProfileUpdated, SaveUser(d, u))
  }

  /** A profile update keeps every user invariant; in particular no two users end up with the same address. */
  lemma ProfileKeepsUsersConsistent(d: Data, uid: int, body: Value)
    requires UsersConsistent(d)
    ensures UsersConsistent(UpdateProfile(d, uid, body).data)
  {
    if UpdateProfile(d, uid, body).status == 200 {
      var u := FindUser(d.users, uid).value;
      var v := ProfileChecks(d, uid, body).value;
      assert u in d.users && v.id == u.id;
      SaveKeepsUsersConsistent(d, v);
    }
  }

  /** A body holding only an address that nobody holds once normalised stores that address in the caller's row. */
  lemma ProfileSetsEmail(d: Data, uid: int, email: string)
    requires FindUser(d.users, uid).Some?
    requires FindByEmail(d.users, AsciiLower(PyStrip(email))).None?
    ensures var r := UpdateProfile(d, uid, Obj(map["email" := Str(email)]));
      && r.status == 200
      && r.data == SaveUser(d, FindUser(d.users, uid).value.(email := AsciiLower(PyStrip(email))))
  {
    var body := Obj(map["email" := Str(email)]);
    var u := FindUser(d.users, uid).value;
    assert "name" !in body.fields && "email" in body.fields && body.fields != map[];
    assert ProfileName(u, body) == Go(u);
    var e := AsciiLower(PyStrip(email));
    assert ProfileEmail(d, u, body) == Go(u.(email := e));
    assert ProfileChecks(d, uid, body) == Go(u.(email := e));
  }

  /** The profile route stores an address the registration rule refuses. */
  lemma ProfileSkipsEmailRule(d: Data, uid: int)
    requires FindUser(d.users, uid).Some?
    requires FindByEmail(d.users, "x").None?
    ensures var r := UpdateProfile(d, uid, Obj(map["email" := Str("x")]));
      && r.status == 200
      && r.data == SaveUser(d, FindUser(d.users, uid).value.(email := "x"))
      && !AuthRoutes.ValidateEmail("x")
  {
    assert PyStrip("x") == "x" by {
      assert !IsPySpace('x');
    }
    assert AsciiLower("x") == "x";
    ProfileSetsEmail(d, uid, "x");
    assert !AuthRoutes.EmailShape("x");
  }

  // ---------------------------------------------------------------------------
  // Password change

  /** The body's field, or "" when absent, as `data.get(key, '')` reads it. */
  function FieldOr(fields: map<string, Value>, key: string): Value {
    if key in fields then fields[key] else Str("")
  }

  /** The requests `change_password` accepts: a known caller, the right current password, a new one of eight characters or more. */
  predicate PasswordChangeAccepted(d: Data, uid: int, body: Value, check: (string, string) -> bool) {
    && FindUser(d.users, uid).Some? && body.Obj?
    && var current := FieldOr(body.fields, "current_password");
    && var replacement := FieldOr(body.fields, "new_password");
    && current.Str? && current.s != "" && replacement.Str? && |replacement.s| >= MinPasswordLength
    && check(FindUser(d.users, uid).value.passwordHash, current.s)
  }

  /** A password change naming a known caller whose dictionary body lacks the current or the new password. */
  predicate PasswordsMissing(d: Data, uid: int, body: Value) {
    && FindUser(d.users, uid).Some? && PyTruthy(body) && body.Obj?
    && (!PyTruthy(FieldOr(body.fields, "current_password")) || !PyTruthy(FieldOr(body.fields, "new_password")))
  }

  /** A password change with the right current password and a new one whose length is below the minimum. */
  predicate NewPasswordShort(d: Data, uid: int, body: Value, check: (string, string) -> bool) {
    && FindUser(d.users, uid).Some? && body.Obj?
    && var current := FieldOr(body.fields, "current_password");
    && var replacement := FieldOr(body.fields, "new_password");
    && current.Str? && current.s != "" && PyTruthy(replacement)
    && check(FindUser(d.users, uid).value.passwordHash, current.s)
    && PyLen(replacement).Ok? && PyLen(replacement).value < MinPasswordLength
  }

  /** The checks of `change_password` in order: the caller, the body, both fields present, the current password, then the length of the new one. */
  function PasswordChecks(d: Data, uid: int, body: Value, check: (string, string) -> bool): (s: Step<string>)
    ensures s.Halt? ==> s.status in {400, 401, 404, 500}
    ensures s == Halt(400, NoData) <==> FindUser(d.users, uid).Some? && !PyTruthy(body)
    ensures s == Halt(400, PasswordsRequired) <==> PasswordsMissing(d, uid, body)
    ensures s == Halt(400, ShortPassword) <==> NewPasswordShort(d, uid, body, check)
    ensures s.Halt? && s.status == 400 ==> s.message in {NoData, PasswordsRequired, ShortPassword}
    ensures (s.Halt? && s.status == 404) <==> FindUser(d.users, uid).None?
    ensures s.Go? <==> PasswordChangeAccepted(d, uid, body, check)
    ensures s.Go? ==> FieldOr(body.fields, "new_password") == Str(s.value) && |s.value| >= MinPasswordLength
    ensures (s.Halt? && s.status == 401) <==>
      && FindUser(d.users, uid).Some? && body.Obj?
      && var current := FieldOr(body.fields, "current_password");
      && current.Str? && current.s != "" && PyTruthy(FieldOr(body.fields, "new_password"))
      && !check(FindUser(d.users, uid).value.passwordHash, current.s)
  {
    match FindUser(d.users, uid)
    case None => Halt(404, UserNotFound)
    case Some(u) =>
      if !PyTruthy(body) then Halt(400, NoData)
      else if !body.Obj? then Halt(500, PasswordFailed)
      else
        var current := FieldOr(body.fields, "current_password");
        var replacement := FieldOr(body.fields, "new_password");
        if !PyTruthy(current) || !PyTruthy(replacement) then Halt(400, PasswordsRequired)
        else if !current.Str? then Halt(500, PasswordFailed)
        else if !check(u.passwordHash, current.s) then Halt(401, WrongCurrent)
        else
          match PyLen(replacement)
          case Raised => Halt(500, PasswordFailed)
          case Ok(n) =>
            if n < MinPasswordLength then Halt(400, ShortPassword)
            else if !replacement.Str? then Halt(500, PasswordFailed)
            else Go(replacement.s)
  }

  /** `change_password`: a 200 stores the hash of the new password in the caller's row and changes nothing else. */
  function ChangePassword(d: Data, uid: int, body: Value, check: (string, string) -> bool, hash: string -> string): (r: Reply)
    ensures r.status in {200, 400, 401, 404, 500}
    ensures r.status != 200 ==> r.data == d
    ensures r.status == 200 <==> PasswordChangeAccepted(d, uid, body, check)
    ensures r.status == 200 ==>
      var u := FindUser(d.users, uid).value;
      r.data == SaveUser(d, u.(passwordHash := hash(FieldOr(body.fields, "new_password").s)))
    ensures r.status == 400 && r.message == PasswordsRequired <==> PasswordsMissing(d, uid, body)
    ensures r.status == 400 && r.message == ShortPassword <==> NewPasswordShort(d, uid, body, check)
  {
    match PasswordChecks(d, uid, body, check)
    case Halt(status, message) => Answer(d, status, message)
    case Go(p) =>
      var u := FindUser(d.users, uid).value;
      Reply(200, PasswordChanged, SaveUser(d, u.(passwordHash := hash(p))))
  }

  /** A wrong current password is refused before the new one is measured, so even a short new password gets 401. */
  lemma WrongPasswordBeforeLength(d: Data, uid: int, current: string, replacement: string, check: (string, string) -> bool, hash: string -> string)
    requires FindUser(d.users, uid).Some?
    requires current != "" && replacement != ""
    requires !check(FindUser(d.users, uid).value.passwordHash, current)
    ensures var body := Obj(map["current_password" := Str(current), "new_password" := Str(replacement)]);
      ChangePassword(d, uid, body, check, hash) == Answer(d, 401, WrongCurrent)
  {
  }

  /** With the right current password, a new password of one to seven characters is answered 400 and nothing changes. */
  lemma ShortNewPasswordRefused(d: Data, uid: int, current: string, replacement: string, check: (string, string) -> bool, hash: string -> string)
    requires FindUser(d.users, uid).Some?
    requires current != "" && 0 < |replacement| < MinPasswordLength
    requires check(FindUser(d.users, uid).value.passwordHash, current)
    ensures var body := Obj(map["current_password" := Str(current), "new_password" := Str(replacement)]);
      ChangePassword(d, uid, body, check, hash) == Answer(d, 400, ShortPassword)
  {
  }

  /** With a check that recognises the hasher's output, the new password logs the caller in. */
  lemma ChangePasswordThenLogin(d: Data, uid: int, body: Value, check: (string, string) -> bool, hash: string -> string, login: Value)
    requires forall p :: check(hash(p), p)
    requires UniqueEmails(d.users) && UniqueUserIds(d.users)
    requires ChangePassword(d, uid, body, check, hash).status == 200
    requires FindUser(d.users, uid).value.isActive && FindUser(d.users, uid).value.email != ""
    requires PyTruthy(login)
    requires AuthRoutes.LoginFields(login) == Ok((FindUser(d.users, uid).value.email, FieldOr(body.fields, "new_password")))
    ensures AuthRoutes.Login(ChangePassword(d, uid, body, check, hash).data, login, check).status == 200
  {
    var u := FindUser(d.users, uid).value;
    var p := FieldOr(body.fields, "new_password").s;
    var u2 := u.(passwordHash := hash(p));
    var e := ChangePassword(d, uid, body, check, hash).data;
    FindByEmailAfterSave(d, u2);
    assert FindByEmail(e.users, u.email) == Some(u2);
    assert check(u2.passwordHash, p);
  }

  /** The password route accepts a new password the registration rule refuses: only its length is checked. */
  lemma ChangePasswordSkipsStrengthRule(d: Data, uid: int, check: (string, string) -> bool, hash: string -> string)
    requires FindUser(d.users, uid).Some?
    requires check(FindUser(d.users, uid).value.passwordHash, "old secret")
    ensures var body := Obj(map["current_password" := Str("old secret"), "new_password" := Str("aaaaaaaa")]);
      ChangePassword(d, uid, body, check, hash).status == 200 && !AuthRoutes.ValidatePassword("aaaaaaaa")
  {
    var s := "aaaaaaaa";
    assert forall i | 0 <= i < |s| :: !IsAsciiUpper(s[i]);
  }

  /** A password change keeps every user invariant. */
  lemma PasswordChangeKeepsUsersConsistent(d: Data, uid: int, body: Value, check: (string, string) -> bool, hash: string -> string)
    requires UsersConsistent(d)
    ensures UsersConsistent(ChangePassword(d, uid, body, check, hash).data)
  {
    if ChangePassword(d, uid, body, check, hash).status == 200 {
      var u := FindUser(d.users, uid).value;
      assert u in d.users;
      SaveKeepsUsersConsistent(d, u.(passwordHash := hash(FieldOr(body.fields, "new_password").s)));
    }
  }

  // ---------------------------------------------------------------------------
  // Subscription

  const FeatureNames: seq<string> := ["unlimited_memories", "ai_features", "multimedia_storage", "encryption", "cloud_backup"]

  /** What `get_subscription` reports; an absent limit is JSON `null`. */
  datatype SubscriptionInfo = SubscriptionInfo(
    plan: Subscription,
    memoryCount: nat,
    memoryLimit: Option<nat>,
    reminderCount: nat,
    features: map<string, bool>)

  /** The memory limit shown for a plan: none for premium, the free limit otherwise. */
  function LimitOf(plan: Subscription): (l: Option<nat>)
    ensures l.None? <==> plan == Premium
    ensures l.Some? ==> l.value == FreeMemoryLimit
  {
    if plan == Premium then None else Some(FreeMemoryLimit)
  }

  /** Every listed feature, each enabled exactly on premium. */
  function Features(plan: Subscription): (f: map<string, bool>)
    ensures f.Keys == set n | n in FeatureNames
    ensures forall n | n in f :: f[n] <==> plan == Premium
  {
    map n | n in FeatureNames :: plan == Premium
  }

  /** `get_subscription`: the caller's plan, usage and limit, or nothing for an unknown caller (404). */
  function GetSubscription(d: Data, uid: int): (r: Option<SubscriptionInfo>)
    ensures r.None? <==> FindUser(d.users, uid).None?
    ensures r.Some? ==>
      && r.value.plan == FindUser(d.users, uid).value.subscription
      && r.value.memoryCount == MemoryCount(d, uid)
      && r.value.reminderCount == |UserReminders(d, uid)|
      && (r.value.memoryLimit.None? <==> r.value.plan == Premium)
      && (r.value.memoryLimit.Some? ==> r.value.memoryLimit.value == FreeMemoryLimit)
      && r.value.features.Keys == set n | n in FeatureNames
      && (forall n | n in r.value.features :: r.value.features[n] <==> r.value.plan == Premium)
  {
    match FindUser(d.users, uid)
    case None => None
    case Some(u) =>
      Some(SubscriptionInfo(u.subscription, MemoryCount(d, uid), LimitOf(u.subscription), |UserReminders(d, uid)|, Features(u.subscription)))
  }

  /** The limit the subscription view shows is the one memory creation enforces: 403 exactly when the count has reached a shown limit. */
  lemma LimitShownIsLimitEnforced(d: Data, uid: int, body: Value, types: seq<string>, now: int)
    ensures MemoryRoutes.CreateMemory(d, uid, body, types, now).status == 403 <==>
      && GetSubscription(d, uid).Some?
      && var s := GetSubscription(d, uid).value;
      && s.memoryLimit.Some? && s.memoryCount >= s.memoryLimit.value
  {
  }

  /** `upgrade_subscription`: a free caller becomes premium; a premium one is refused with 400. */
  function Upgrade(d: Data, uid: int): (r: Reply)
    ensures r.status in {200, 400, 404}
    ensures r.status != 200 ==> r.data == d
    ensures r.status == 404 <==> FindUser(d.users, uid).None?
    ensures r.status == 400 <==> FindUser(d.users, uid).Some? && FindUser(d.users, uid).value.subscription == Premium
    ensures r.status == 200 ==> r.data == SaveUser(d, FindUser(d.users, uid).value.(subscription := Premium))
  {
    match FindUser(d.users, uid)
    case None => Answer(d, 404, UserNotFound)
    case Some(u) =>
      if u.subscription == Premium then Answer(d, 400, AlreadyPremium)
      else Reply(200, Upgraded, SaveUser(d, u.(subscription := Premium)))
  }

  /** The refusal of a downgrade over the limit, naming the number of memories. */
  function TooManyMemories(n: nat): string {
    "Cannot downgrade: You have " + DecimalString(n)
      + " memories. Please delete some to get under the 100 memory limit for free accounts."
  }

  /**
   * `downgrade_subscription`: a premium caller with at most the free number of
   * memories becomes free; a free caller, or one over the limit, is refused
   * with 400.
   */
  function Downgrade(d: Data, uid: int): (r: Reply)
    ensures r.status in {200, 400, 404}
    ensures r.status != 200 ==> r.data == d
    ensures r.status == 404 <==> FindUser(d.users, uid).None?
    ensures r.status == 200 <==>
      FindUser(d.users, uid).Some? && FindUser(d.users, uid).value.subscription == Premium && MemoryCount(d, uid) <= FreeMemoryLimit
    ensures r.status == 200 ==> r.data == SaveUser(d, FindUser(d.users, uid).value.(subscription := Free))
    ensures FindUser(d.users, uid).Some? && FindUser(d.users, uid).value.subscription == Premium && MemoryCount(d, uid) > FreeMemoryLimit ==>
      r == Answer(d, 400, TooManyMemories(MemoryCount(d, uid)))
  {
    match FindUser(d.users, uid)
    case None => Answer(d, 404, UserNotFound)
    case Some(u) =>
      if u.subscription == Free then Answer(d, 400, AlreadyFree)
      else
        var n := MemoryCount(d, uid);
        if n > FreeMemoryLimit then Answer(d, 400, TooManyMemories(n))
        else
          assert u.subscription == Premium && n <= FreeMemoryLimit;
          Reply(200, Downgraded, SaveUser(d, u.(subscription := Free)))
  }

  /** Saving the row a unique identifier already holds changes nothing. */
  lemma SaveSameRow(d: Data, u: User)
    requires UniqueUserIds(d.users) && u in d.users
    ensures SaveUser(d, u) == d
  {
    var e := SaveUser(d, u);
    forall i | 0 <= i < |d.users| ensures e.users[i] == d.users[i] {
      if d.users[i].id == u.id {
        MemoryRoutes.SameIdSameUser(d.users, d.users[i], u);
      }
    }
    assert e.users == d.users;
  }

  /** Saving two versions of one row keeps only the second. */
  lemma SaveTwice(d: Data, a: User, b: User)
    requires a.id == b.id
    ensures SaveUser(SaveUser(d, a), b) == SaveUser(d, b)
  {
    var e := SaveUser(SaveUser(d, a), b);
    assert e.users == SaveUser(d, b).users;
  }

  /** An upgrade followed by a downgrade within the limit gives back the data as it was. */
  lemma UpgradeThenDowngrade(d: Data, uid: int)
    requires UniqueUserIds(d.users)
    requires Upgrade(d, uid).status == 200
    requires MemoryCount(d, uid) <= FreeMemoryLimit
    ensures Downgrade(Upgrade(d, uid).data, uid).status == 200
    ensures Downgrade(Upgrade(d, uid).data, uid).data == d
  {
    var u := FindUser(d.users, uid).value;
    var up := u.(subscription := Premium);
    FindSaved(d, up);
    SaveTwice(d, up, up.(subscription := Free));
    assert up.(subscription := Free) == u;
    SaveSameRow(d, u);
  }

  /** A downgrade followed by an upgrade gives back the data as it was. */
  lemma DowngradeThenUpgrade(d: Data, uid: int)
    requires UniqueUserIds(d.users)
    requires Downgrade(d, uid).status == 200
    ensures Upgrade(Downgrade(d, uid).data, uid).status == 200
    ensures Upgrade(Downgrade(d, uid).data, uid).data == d
  {
    var u := FindUser(d.users, uid).value;
    var down := u.(subscription := Free);
    FindSaved(d, down);
    SaveTwice(d, down, down.(subscription := Premium));
    assert down.(subscription := Premium) == u;
    SaveSameRow(d, u);
  }

  /** After an upgrade the caller sees no limit and every feature, and creation is never refused for the count. */
  lemma UpgradeLiftsLimit(d: Data, uid: int, body: Value, types: seq<string>, now: int)
    requires Upgrade(d, uid).status == 200
    ensures var e := Upgrade(d, uid).data;
      && GetSubscription(e, uid).Some?
      && GetSubscription(e, uid).value.memoryLimit.None?
      && (forall n | n in FeatureNames :: GetSubscription(e, uid).value.features[n])
      && MemoryRoutes.CreateMemory(e, uid, body, types, now).status != 403
  {
    var u := FindUser(d.users, uid).value;
    FindSaved(d, u.(subscription := Premium));
  }

  /** Upgrades and downgrades keep every user invariant: a downgraded account is within the free limit. */
  lemma PlanChangesKeepUsersConsistent(d: Data, uid: int)
    requires UsersConsistent(d)
    ensures UsersConsistent(Upgrade(d, uid).data)
    ensures UsersConsistent(Downgrade(d, uid).data)
  {
    if Upgrade(d, uid).status == 200 {
      var u := FindUser(d.users, uid).value;
      SaveKeepsUsersConsistent(d, u.(subscription := Premium));
    }
    if Downgrade(d, uid).status == 200 {
      var u := FindUser(d.users, uid).value;
      SaveKeepsUsersConsistent(d, u.(subscription := Free));
    }
  }

  // ---------------------------------------------------------------------------
  // Dashboard

  /** How many recent memories and upcoming reminders the dashboard shows, and the upcoming window in days. */
  const Shown := 5
  const UpcomingDays := 7

  /** The first `Shown` elements, or all of them. */
  function FirstShown<T>(s: seq<T>): (r: seq<T>)
    ensures |r| == if |s| < Shown then |s| else Shown
    ensures r == s[..|r|]
  {
    s[..if |s| < Shown then |s| else Shown]
  }

  /** An element of an ascending sequence is among its first `Shown`, or no smaller than the last of them. */
  lemma FirstShownBound<T>(all: seq<T>, key: T -> int, x: T)
    requires forall i, j | 0 <= i < j < |all| :: key(all[i]) <= key(all[j])
    requires x in all
    ensures x in FirstShown(all) || (|FirstShown(all)| == Shown && key(FirstShown(all)[Shown - 1]) <= key(x))
  {
    var r := FirstShown(all);
    var k :| 0 <= k < |all| && all[k] == x;
    if k < |r| {
      assert r[k] == x;
    } else {
      assert all[Shown - 1] == r[Shown - 1];
    }
  }

  /** The caller's newest memories: at most five, newest first, none left out that is newer than the last shown. */
  function Recent(d: Data, uid: int): (r: seq<Memory>)
    ensures |r| == if MemoryCount(d, uid) < Shown then MemoryCount(d, uid) else Shown
    ensures forall m | m in r :: m in d.memories && m.userId == uid
    ensures forall i, j | 0 <= i < j < |r| :: r[i].createdAt >= r[j].createdAt
    ensures forall m | m in UserMemories(d, uid) :: m in r || (|r| == Shown && r[Shown - 1].createdAt >= m.createdAt)
  {
    var own := UserMemories(d, uid);
    var all := MemoryRoutes.NewestFirst(own);
    assert |all| == |own| by {
      assert |all| == |multiset(all)| == |multiset(own)| == |own|;
    }
    RecentBounds(own, all);
    assert forall m | m in own :: m in d.memories && m.userId == uid by {
      Seqs.FilterMembers(d.memories, (m: Memory) => m.userId == uid);
    }
    var r := FirstShown(all);
    assert |r| == if MemoryCount(d, uid) < Shown then MemoryCount(d, uid) else Shown;
    r
  }

  /** The newest-first order of `own`, cut at `Shown`, holds only members of `own` and leaves out none newer than its last. */
  lemma RecentBounds(own: seq<Memory>, all: seq<Memory>)
    requires multiset(all) == multiset(own)
    requires forall i, j | 0 <= i < j < |all| :: all[i].createdAt >= all[j].createdAt
    ensures forall m | m in FirstShown(all) :: m in own
    ensures forall m | m in own :: m in FirstShown(all) || (|FirstShown(all)| == Shown && FirstShown(all)[Shown - 1].createdAt >= m.createdAt)
    ensures forall i, j | 0 <= i < j < |FirstShown(all)| :: FirstShown(all)[i].createdAt >= FirstShown(all)[j].createdAt
  {
    var r := FirstShown(all);
    assert forall i | 0 <= i < |r| :: r[i] == all[i];
    Seqs.SameMembers(all, own);
    forall m | m in own ensures m in r || (|r| == Shown && r[Shown - 1].createdAt >= m.createdAt) {
      FirstShownBound(all, (x: Memory) => -x.createdAt, m);
    }
  }

  /** The caller's soonest upcoming reminders within the week: at most five, soonest first, none left out that is sooner than the last shown. */
  function Soonest(d: Data, uid: int, now: int): (r: seq<Reminder>)
    ensures |r| <= Shown
    ensures forall x | x in r :: x in d.reminders && ReminderRoutes.IsUpcoming(x, uid, UpcomingDays, now)
    ensures forall i, j | 0 <= i < j < |r| :: ReminderRoutes.TriggerOrZero(r[i]) <= ReminderRoutes.TriggerOrZero(r[j])
    ensures forall x | x in d.reminders && ReminderRoutes.IsUpcoming(x, uid, UpcomingDays, now) ::
      x in r || (|r| == Shown && ReminderRoutes.TriggerOrZero(r[Shown - 1]) <= ReminderRoutes.TriggerOrZero(x))
  {
    var p := (x: Reminder) => ReminderRoutes.IsUpcoming(x, uid, UpcomingDays, now);
    var all := ReminderRoutes.Upcoming(d, uid, UpcomingDays, now);
    SoonestBounds(d.reminders, p, all);
    FirstShown(all)
  }

  /** An ascending ordering of the rows `p` selects, cut at `Shown`, leaves out none sooner than its last. */
  lemma SoonestBounds(rs: seq<Reminder>, p: Reminder -> bool, all: seq<Reminder>)
    requires multiset(all) == multiset(Seqs.Filter(rs, p))
    requires forall i, j | 0 <= i < j < |all| :: all[i].trigger.Some? && all[j].trigger.Some? && all[i].trigger.value <= all[j].trigger.value
    ensures forall i, j | 0 <= i < j < |FirstShown(all)| :: ReminderRoutes.TriggerOrZero(FirstShown(all)[i]) <= ReminderRoutes.TriggerOrZero(FirstShown(all)[j])
    ensures forall x | x in rs && p(x) ::
      x in FirstShown(all) || (|FirstShown(all)| == Shown && ReminderRoutes.TriggerOrZero(FirstShown(all)[Shown - 1]) <= ReminderRoutes.TriggerOrZero(x))
  {
    var r := FirstShown(all);
    assert forall i, j | 0 <= i < j < |all| :: ReminderRoutes.TriggerOrZero(all[i]) <= ReminderRoutes.TriggerOrZero(all[j]);
    Seqs.FilterMembers(rs, p);
    Seqs.SameMembers(all, Seqs.Filter(rs, p));
    forall x | x in rs && p(x)
      ensures x in r || (|r| == Shown && ReminderRoutes.TriggerOrZero(r[Shown - 1]) <= ReminderRoutes.TriggerOrZero(x))
    {
      FirstShownBound(all, ReminderRoutes.TriggerOrZero, x);
    }
  }

  /** What `get_dashboard` reports. */
  datatype Dashboard = Dashboard(
    memoryCount: nat,
    reminderCount: nat,
    overdueCount: nat,
    memoryLimit: Option<nat>,
    recent: seq<Memory>,
    upcoming: seq<Reminder>)

  /** `get_dashboard` at instant `now`, or nothing for an unknown caller (404). */
  function GetDashboard(d: Data, uid: int, now: int): (r: Option<Dashboard>)
    ensures r.None? <==> FindUser(d.users, uid).None?
    ensures r.Some? ==>
      && r.value.overdueCount == |ReminderRoutes.Overdue(d, uid, now)|
      && r.value.recent == Recent(d, uid)
      && r.value.upcoming == Soonest(d, uid, now)
  {
    match FindUser(d.users, uid)
    case None => None
    case Some(u) =>
      var overdue := Seqs.Filter(d.reminders, (x: Reminder) => ReminderRoutes.IsOverdueRow(x, uid, now));
      assert |ReminderRoutes.Overdue(d, uid, now)| == |multiset(overdue)|;
      Some(Dashboard(MemoryCount(d, uid), |UserReminders(d, uid)|, |overdue|, LimitOf(u.subscription), Recent(d, uid), Soonest(d, uid, now)))
  }

  /** The dashboard's figures are those of the subscription view. */
  lemma DashboardAgreesWithSubscription(d: Data, uid: int, now: int)
    ensures GetDashboard(d, uid, now).Some? <==> GetSubscription(d, uid).Some?
    ensures GetDashboard(d, uid, now).Some? ==>
      && var b := GetDashboard(d, uid, now).value;
      && var s := GetSubscription(d, uid).value;
      && b.memoryCount == s.memoryCount && b.reminderCount == s.reminderCount && b.memoryLimit == s.memoryLimit
  {
  }

  // ---------------------------------------------------------------------------
  // Deactivation

  /** `deactivate_account`: the caller's row is marked inactive and nothing else changes. */
  function Deactivate(d: Data, uid: int): (r: Reply)
    ensures r.status in {200, 404}
    ensures r.status == 404 <==> FindUser(d.users, uid).None?
    ensures r.status == 404 ==> r.data == d
    ensures r.status == 200 ==> r.data == SaveUser(d, FindUser(d.users, uid).value.(isActive := false))
  {
    match FindUser(d.users, uid)
    case None => Answer(d, 404, UserNotFound)
    case Some(u) => Reply(200, Deactivated, SaveUser(d, u.(isActive := false)))
  }

  /** After deactivation no login with the caller's address succeeds, whatever the password. */
  lemma DeactivatedUserCannotLogIn(d: Data, uid: int, login: Value, check: (string, string) -> bool)
    requires UniqueEmails(d.users) && UniqueUserIds(d.users)
    requires Deactivate(d, uid).status == 200
    requires AuthRoutes.LoginFields(login).Ok? && AuthRoutes.LoginFields(login).value.0 == FindUser(d.users, uid).value.email
    ensures AuthRoutes.Login(Deactivate(d, uid).data, login, check).status != 200
  {
    var u := FindUser(d.users, uid).value;
    FindByEmailAfterSave(d, u.(isActive := false));
  }

  /** Deactivation keeps every user invariant. */
  lemma DeactivateKeepsUsersConsistent(d: Data, uid: int)
    requires UsersConsistent(d)
    ensures UsersConsistent(Deactivate(d, uid).data)
  {
    if Deactivate(d, uid).status == 200 {
      var u := FindUser(d.users, uid).value;
      assert u in d.users;
      SaveKeepsUsersConsistent(d, u.(isActive := false));
    }
  }

  /** Registration keeps every user invariant: the new account is free and owns no memory. */
  lemma RegisterKeepsUsersConsistent(d: Data, body: Value, hash: string -> string)
    requires UsersConsistent(d)
    ensures UsersConsistent(AuthRoutes.Register(d, body, hash).data)
  {
    var r := AuthRoutes.Register(d, body, hash);
    AuthRoutes.RegisterKeepsUsersUnique(d, body, hash);
    if r.status == 201 {
      var s := AuthRoutes.RegisterChecks(d, body);
      var n := AuthRoutes.NewUser(d, s.email, s.password, s.name, hash);
      assert r.data == d.(users := d.users + [n]);
      AppendKeepsFreeLimit(d, n);
    }
  }

  /** Adding a user that owns no memory keeps every free account within the limit. */
  lemma AppendKeepsFreeLimit(d: Data, n: User)
    requires FreeWithinLimit(d)
    requires MemoryCount(d, n.id) == 0
    ensures FreeWithinLimit(d.(users := d.users + [n]))
  {
    var e := d.(users := d.users + [n]);
    forall x | x in e.users && x.subscription == Free ensures MemoryCount(e, x.id) <= FreeMemoryLimit {
      assert MemoryCount(e, x.id) == MemoryCount(d, x.id);
      if x != n {
        assert x in d.users;
      }
    }
  }
}
