/** Registration, login, password change and profile read/update. */
module Identity {
  import opened Http
  import opened Seqs
  import opened Schemas
  import opened Db

  /** What a response shows of a user: its id and profile. The type has no
      digest field, so no response can carry the password digest. */
  datatype UserView = UserView(id: nat, profile: Profile)

  const InvalidCredentials := HttpError(Unauthorized, "Invalid credentials")

  /** The store-wide user invariant: emails are unique and every stored
      qualification is on the allow-list. */
  predicate UsersWellFormed(users: seq<User>) {
    && UniqueBy(users, EmailOf)
    && forall i :: 0 <= i < |users| ==> users[i].profile.qualification in AllowedQualifications
  }

  /** POST /auth/register. Body validation (422), then the qualification
      allow-list (403) before the email uniqueness check (400); on success
      exactly one user is appended, holding the digest of the password. */
  function Register(env: Env, st: Store, form: RegisterForm): (out: (Result<UserView>, Store))
    ensures out.0.Err? ==> out.1 == st
    ensures out.0.Err? && out.0.error.status == Unprocessable <==> ValidateRegistration(form).Err?
    ensures ValidateRegistration(form).Ok? && Strip(form.qualification) !in AllowedQualifications ==>
      out.0 == Err(HttpError(Forbidden, "Only IT-related students can register"))
    ensures (ValidateRegistration(form).Ok? && Strip(form.qualification) in AllowedQualifications
             && HasKey(st.users, EmailOf, form.email)) ==>
      out.0 == Err(HttpError(BadRequest, "Email already registered"))
    ensures out.0.Ok? <==>
      ValidateRegistration(form).Ok? && Strip(form.qualification) in AllowedQualifications
      && !HasKey(st.users, EmailOf, form.email)
    ensures out.0.Ok? ==>
      && out.0.value == UserView(|st.users|, ValidateRegistration(form).value.profile)
      && out.1 == st.(users := st.users + [User(out.0.value.profile, env.hash(form.password))])
  {
    match ValidateRegistration(form)
    case Err(e) => (Err(e), st)
    case Ok(reg) =>
      if reg.profile.qualification !in AllowedQualifications then
        (Err(HttpError(Forbidden, "Only IT-related students can register")), st)
      else if IndexOf(st.users, EmailOf, reg.profile.email).Some? then
        (Err(HttpError(BadRequest, "Email already registered")), st)
      else
        var user := User(reg.profile, env.hash(reg.password));
        (Ok(UserView(|st.users|, user.profile)), st.(users := st.users + [user]))
  }

  lemma RegisterPreservesUsersWellFormed(env: Env, st: Store, form: RegisterForm)
    requires UsersWellFormed(st.users)
    ensures UsersWellFormed(Register(env, st, form).1.users)
  {
    var out := Register(env, st, form);
    if out.0.Ok? {
      var users := out.1.users;
      var n := |st.users|;
      forall i, j | 0 <= i < j < |users|
        ensures EmailOf(users[i]) != EmailOf(users[j])
      {
        if j == n {
          assert users[i] == st.users[i];
        }
      }
    }
  }

  /** As written, registration puts no length rule on the password while
      login demands six characters: an account registered with a shorter
      password can never log in with it. */
  lemma ShortPasswordNeverLogsIn(env: Env, st: Store, form: RegisterForm)
    requires Register(env, st, form).0.Ok?
    requires |form.password| < 6
    ensures Login(env, Register(env, st, form).1, Credentials(form.email, form.password)).Err?
  {
  }

  const ShortPasswordForm := RegisterForm("Ada", "Lee", "ada@example.com", "0123456789", "BCA", "abc", None, None)

  lemma ShortPasswordFormFields()
    ensures ValidName("Ada") && ValidName("Lee") && Strip("BCA") == "BCA"
  {
    StripKeepsTrimmed("Ada");
    StripKeepsTrimmed("Lee");
    StripKeepsTrimmed("BCA");
  }

  lemma ShortPasswordFormPhone()
    ensures ValidPhone("0123456789")
  {
    var p := "0123456789";
    forall k | 0 <= k < |p| ensures IsAsciiDigit(p[k]) { }
  }

  lemma ShortPasswordFormValidates()
    ensures ValidateRegistration(ShortPasswordForm).Ok?
    ensures Strip(ShortPasswordForm.qualification) in AllowedQualifications
  {
    ShortPasswordFormFields();
    ShortPasswordFormPhone();
    assert AllowedQualifications[3] == "BCA";
  }

  lemma ShortPasswordRegisters(env: Env)
    ensures |ShortPasswordForm.password| < 6
    ensures Register(env, EmptyStore, ShortPasswordForm).0.Ok?
  {
    ShortPasswordFormValidates();
    assert !HasKey(EmptyStore.users, EmailOf, ShortPasswordForm.email);
  }

  /** Registration with the login's password rule added: a password shorter
      than six characters is refused as a body validation error. */
  function RegisterWithPasswordRule(env: Env, st: Store, form: RegisterForm): (out: (Result<UserView>, Store))
    ensures |form.password| < 6 ==> out.0.Err? && out.0.error.status == Unprocessable && out.1 == st
    ensures |form.password| >= 6 ==> out == Register(env, st, form)
  {
    if |form.password| < 6 then (Err(HttpError(Unprocessable, "Invalid user fields")), st)
    else Register(env, st, form)
  }

  /** With the password rule in place, every successful registration can log
      in with the email and password it registered with. */
  lemma RegisterThenLogin(env: Env, st: Store, form: RegisterForm)
    requires RegisterWithPasswordRule(env, st, form).0.Ok?
    ensures var out := RegisterWithPasswordRule(env, st, form);
      Login(env, out.1, Credentials(form.email, form.password)) == out.0
  {
    var out := RegisterWithPasswordRule(env, st, form);
    assert out == Register(env, st, form);
    var n := |st.users|;
    var user := User(out.0.value.profile, env.hash(form.password));
    var users := st.users + [user];
    assert out.1.users == users;
    assert user.profile.email == form.email;
    assert IndexOf(users, EmailOf, form.email) == Some(n) by {
      assert !HasKey(st.users, EmailOf, form.email);
      forall j | 0 <= j < n
        ensures EmailOf(users[j]) != form.email
      {
        assert users[j] == st.users[j];
      }
      assert EmailOf(users[n]) == form.email;
    }
  }

  /** POST /auth/login. Body validation (422); otherwise the same 401
      "Invalid credentials" whether the email is unknown or the digest
      differs, so a caller cannot tell which. */
  function Login(env: Env, st: Store, c: Credentials): (r: Result<UserView>)
    ensures !ValidLogin(c) ==> r.Err? && r.error.status == Unprocessable
    ensures ValidLogin(c) && r.Err? ==> r.error == InvalidCredentials
    ensures r.Ok? ==>
      && r.value.id < |st.users|
      && st.users[r.value.id].profile.email == c.email
      && st.users[r.value.id].passwordHash == env.hash(c.password)
      && r.value.profile == st.users[r.value.id].profile
    ensures ValidLogin(c) && UniqueBy(st.users, EmailOf) ==>
      (r.Ok? <==> exists i :: 0 <= i < |st.users| && st.users[i].profile.email == c.email
                                && st.users[i].passwordHash == env.hash(c.password))
  {
    if !ValidLogin(c) then
      Err(HttpError(Unprocessable, "Invalid login fields"))
    else match IndexOf(st.users, EmailOf, c.email)
      case None => Err(InvalidCredentials)
      case Some(i) =>
        if st.users[i].passwordHash != env.hash(c.password) then Err(InvalidCredentials)
        else Ok(UserView(i, st.users[i].profile))
  }

  /** Account enumeration is impossible: an unknown email and a wrong
      password for a known email give the identical response. */
  lemma LoginFailuresIndistinguishable(env: Env, unknown: Store, known: Store, c: Credentials)
    requires ValidLogin(c)
    requires !HasKey(unknown.users, EmailOf, c.email)
    requires forall i :: 0 <= i < |known.users| && known.users[i].profile.email == c.email ==>
      known.users[i].passwordHash != env.hash(c.password)
    ensures Login(env, unknown, c) == Login(env, known, c) == Err(InvalidCredentials)
  {
  }

  /** POST /auth/change-password. Body validation (422), malformed id (400),
      unknown user (404), wrong old password (401); otherwise only that
      user's digest changes, to the digest of the new password. */
  function ChangePassword(env: Env, st: Store, f: PasswordChange): (out: (Result<string>, Store))
    ensures out.0.Err? ==> out.1 == st
    ensures !ValidPasswordChange(f) ==> out.0.Err? && out.0.error.status == Unprocessable
    ensures ValidPasswordChange(f) && env.parseId(f.userId).None? ==>
      out.0 == Err(HttpError(BadRequest, "Invalid user id"))
    ensures ValidPasswordChange(f) && env.parseId(f.userId).Some? && env.parseId(f.userId).value >= |st.users| ==>
      out.0 == Err(HttpError(NotFound, "User not found"))
    ensures out.0.Ok? <==>
      && ValidPasswordChange(f)
      && env.parseId(f.userId).Some?
      && env.parseId(f.userId).value < |st.users|
      && st.users[env.parseId(f.userId).value].passwordHash == env.hash(f.oldPassword)
    ensures (ValidPasswordChange(f) && env.parseId(f.userId).Some? && env.parseId(f.userId).value < |st.users|
             && st.users[env.parseId(f.userId).value].passwordHash != env.hash(f.oldPassword)) ==>
      out.0 == Err(HttpError(Unauthorized, "Old password incorrect"))
    ensures out.0.Ok? ==>
      var id := env.parseId(f.userId).value;
      && out.1.(users := st.users) == st
      && |out.1.users| == |st.users|
      && out.1.users[id].passwordHash == env.hash(f.newPassword)
      && (forall j :: 0 <= j < |st.users| ==> out.1.users[j].profile == st.users[j].profile)
      && (forall j :: 0 <= j < |st.users| && j != id ==> out.1.users[j] == st.users[j])
  {
    if !ValidPasswordChange(f) then
      (Err(HttpError(Unprocessable, "Invalid password fields")), st)
    else match env.parseId(f.userId)
      case None => (Err(HttpError(BadRequest, "Invalid user id")), st)
      case Some(id) =>
        if id >= |st.users| then
          (Err(HttpError(NotFound, "User not found")), st)
        else if st.users[id].passwordHash != env.hash(f.oldPassword) then
          (Err(HttpError(Unauthorized, "Old password incorrect")), st)
        else
          var user := st.users[id].(passwordHash := env.hash(f.newPassword));
          (Ok("Password updated"), st.(users := st.users[id := user]))
  }

  lemma ChangePasswordPreservesUsersWellFormed(env: Env, st: Store, f: PasswordChange)
    requires UsersWellFormed(st.users)
    ensures UsersWellFormed(ChangePassword(env, st, f).1.users)
  {
    var users := ChangePassword(env, st, f).1.users;
    forall i, j | 0 <= i < j < |users|
      ensures EmailOf(users[i]) != EmailOf(users[j])
    {
      assert users[i].profile == st.users[i].profile;
      assert users[j].profile == st.users[j].profile;
    }
  }

  /** After a password change the old password stops working (unless the two
      digests coincide) and the new one logs in. */
  lemma ChangePasswordThenLogin(env: Env, st: Store, f: PasswordChange)
    requires UniqueBy(st.users, EmailOf)
    requires ChangePassword(env, st, f).0.Ok?
    ensures var st' := ChangePassword(env, st, f).1;
      var email := st.users[env.parseId(f.userId).value].profile.email;
      Login(env, st', Credentials(email, f.newPassword)).Ok?
    ensures var st' := ChangePassword(env, st, f).1;
      var email := st.users[env.parseId(f.userId).value].profile.email;
      env.hash(f.oldPassword) != env.hash(f.newPassword) ==>
        Login(env, st', Credentials(email, f.oldPassword)) == Err(InvalidCredentials)
  {
    var st' := ChangePassword(env, st, f).1;
    var id := env.parseId(f.userId).value;
    assert EmailOf(st'.users[id]) == EmailOf(st.users[id]);
    assert UniqueBy(st'.users, EmailOf) by {
      forall i, j | 0 <= i < j < |st'.users|
        ensures EmailOf(st'.users[i]) != EmailOf(st'.users[j])
      {
        assert EmailOf(st'.users[i]) == EmailOf(st.users[i]);
        assert EmailOf(st'.users[j]) == EmailOf(st.users[j]);
      }
    }
    IndexOfUnique(st'.users, EmailOf, id);
  }

  /** GET /profile/{id}: malformed id (400), unknown user (404), else the
      stored profile. */
  function GetProfile(env: Env, st: Store, userId: string): (r: Result<UserView>)
    ensures env.parseId(userId).None? ==> r == Err(HttpError(BadRequest, "Invalid user id"))
    ensures r.Ok? <==> env.parseId(userId).Some? && env.parseId(userId).value < |st.users|
    ensures r.Ok? ==> r.value.id == env.parseId(userId).value && r.value.profile == st.users[r.value.id].profile
    ensures env.parseId(userId).Some? && r.Err? ==> r.error == HttpError(NotFound, "User not found")
  {
    match env.parseId(userId)
    case None => Err(HttpError(BadRequest, "Invalid user id"))
    case Some(id) =>
      if id >= |st.users| then Err(HttpError(NotFound, "User not found"))
      else Ok(UserView(id, st.users[id].profile))
  }

  /** PUT /profile/{id}: malformed id (400), then a qualification that is not
      on the allow-list, compared unstripped (400); otherwise names, phone,
      qualification and avatar are overwritten. An id that names no user
      updates nothing and answers with no user rather than an error. */
  function UpdateProfile(env: Env, st: Store, userId: string, u: ProfileUpdate): (out: (Result<Option<UserView>>, Store))
    ensures out.0.Err? || out.0 == Ok(None) ==> out.1 == st
    ensures env.parseId(userId).None? ==> out.0 == Err(HttpError(BadRequest, "Invalid user id"))
    ensures env.parseId(userId).Some? && u.qualification !in AllowedQualifications ==>
      out.0 == Err(HttpError(BadRequest, "Invalid qualification"))
    ensures out.0 == Ok(None) <==>
      env.parseId(userId).Some? && u.qualification in AllowedQualifications
      && env.parseId(userId).value >= |st.users|
    ensures out.0.Ok? && out.0.value.Some? ==>
      env.parseId(userId).Some? && env.parseId(userId).value < |st.users| == |out.1.users|
    ensures out.0.Ok? && out.0.value.Some? ==>
      var id := env.parseId(userId).value;
      var old_ := st.users[id];
      var new_ := out.1.users[id];
      && out.0.value.value == UserView(id, new_.profile)
      && out.1.(users := st.users) == st
      && (forall j :: 0 <= j < |st.users| && j != id ==> out.1.users[j] == st.users[j])
      && new_.passwordHash == old_.passwordHash
      && new_.profile.email == old_.profile.email
      && new_.profile.role == old_.profile.role
      && new_.profile.firstName == u.firstName && new_.profile.lastName == u.lastName
      && new_.profile.phone == u.phone && new_.profile.qualification == u.qualification
      && new_.profile.avatarUrl == u.avatarUrl
  {
    match env.parseId(userId)
    case None => (Err(HttpError(BadRequest, "Invalid user id")), st)
    case Some(id) =>
      if u.qualification !in AllowedQualifications then
        (Err(HttpError(BadRequest, "Invalid qualification")), st)
      else if id >= |st.users| then
        (Ok(None), st)
      else
        var p := st.users[id].profile.(firstName := u.firstName, lastName := u.lastName,
                                       phone := u.phone, qualification := u.qualification,
                                       avatarUrl := u.avatarUrl);
        var st' := st.(users := st.users[id := st.users[id].(profile := p)]);
        (Ok(Some(UserView(id, p))), st')
  }

  lemma UpdateProfilePreservesUsersWellFormed(env: Env, st: Store, userId: string, u: ProfileUpdate)
    requires UsersWellFormed(st.users)
    ensures UsersWellFormed(UpdateProfile(env, st, userId, u).1.users)
  {
    var out := UpdateProfile(env, st, userId, u);
    var users := out.1.users;
    forall i, j | 0 <= i < j < |users|
      ensures EmailOf(users[i]) != EmailOf(users[j])
    {
      assert EmailOf(users[i]) == EmailOf(st.users[i]);
      assert EmailOf(users[j]) == EmailOf(st.users[j]);
    }
  }

  /** The update body skips the user record's checks: a phone that
      registration would reject is stored, and an unstripped qualification
      that registration would accept is refused. */
  lemma UpdateProfileSkipsRecordChecks(env: Env, st: Store, userId: string)
    requires env.parseId(userId).Some? && env.parseId(userId).value < |st.users|
    ensures var u := ProfileUpdate("Al", "Bo", "12-34", "BCA", None);
      && !ValidPhone(u.phone)
      && UpdateProfile(env, st, userId, u).0.Ok?
      && UpdateProfile(env, st, userId, u).1.users[env.parseId(userId).value].profile.phone == "12-34"
    ensures UpdateProfile(env, st, userId, ProfileUpdate("Al", "Bo", "0123456789", " BCA ", None)).0
      == Err(HttpError(BadRequest, "Invalid qualification"))
  {
    assert AllowedQualifications[3] == "BCA";
    assert "12-34"[2] == '-';
    StripBCA();
  }
}
