/** index.php: the login page. A visitor who is already logged in is sent
    to the home page of their role; otherwise a posted address and password
    are checked (empty fields, address format, password length), the
    account is looked up by address, and the SHA-256 of the password is
    compared with the stored one. Success fills the session and redirects
    by role; an unknown address and a wrong password get the same
    message. */
module Login {
  import opened Util
  import opened Php
  import opened Constants
  import opened Schema
  import opened Security
  import opened Accounts

  const AdminHome := "admin/dashboard.php"
  const CustomerHome := "user/home.php"
  const EnterBoth := "❌ Please enter both email and password."
  const BadFormat := "❌ Invalid email format. Please check and try again."
  const BadPassword := "❌ Invalid password format."
  const InvalidCredentials := "❌ Invalid email or password."
  const LoggedOut := "✅ You have been logged out successfully. See you next time!"
  const Expired := "⏱️ Your session has expired due to inactivity. Please log in again."
  const SecurityFailed := "🔒 Security check failed. Please log in again."
  const UnknownIp := "Unknown"

  /** Where a logged-in account goes: administrators to the dashboard,
      every other role to the customer home page. */
  function HomeOf(role: Option<Role>): (r: string)
    ensures r == AdminHome <==> role == Some(Admin)
  {
    if role == Some(Admin) then AdminHome else CustomerHome
  }

  /** The banners the query string asks for: ?logout=success,
      ?session=expired and ?error=security (the last wins for the error). */
  datatype Notice = Notice(logout: Option<string>, session: Option<string>, error: Option<string>)

  function NoticeBanners(n: Notice): (Option<string>, Option<string>) {
    (if n.logout == Some("success") then Some(LoggedOut) else None,
     if n.error == Some("security") then Some(SecurityFailed)
     else if n.session == Some("expired") then Some(Expired)
     else None)
  }

  /** The input checks, in order, on the sanitized address and the raw
      password. */
  function CheckInput(email: string, password: string, php: Builtins): (err: Option<string>)
    ensures err.None? <==> !IsEmpty(email) && !IsEmpty(password) && php.isValidEmail(email)
                           && |password| <= PasswordMaxLength
    ensures IsEmpty(email) || IsEmpty(password) ==> err == Some(EnterBoth)
  {
    if IsEmpty(email) || IsEmpty(password) then Some(EnterBoth)
    else if !php.isValidEmail(email) then Some(BadFormat)
    else if |password| > PasswordMaxLength then Some(BadPassword)
    else None
  }

  /** The result of the credential check. */
  datatype Attempt = Authenticated(user: User) | Rejected(message: string)

  /** SELECT ... WHERE email = ?: success needs exactly one row, whose
      stored hash equals the SHA-256 of the password. */
  function Authenticate(users: seq<User>, email: string, password: string, php: Builtins): (r: Attempt)
    ensures r.Authenticated? <==>
      |UsersWithEmail(users, email)| == 1 && UsersWithEmail(users, email)[0].passwordHash == php.sha256(password)
    ensures r.Authenticated? ==> r.user in users && r.user.email == email
    ensures r.Rejected? ==> r.message == InvalidCredentials
  {
    var rows := UsersWithEmail(users, email);
    if |rows| == 1 && rows[0].passwordHash == php.sha256(password) then
      assert rows[0] in rows;
      Authenticated(rows[0])
    else Rejected(InvalidCredentials)
  }

  /** An unknown address and a wrong password for a known one end in the
      same message. */
  lemma FailuresLookAlike(users: seq<User>, u: User, email: string, password: string, php: Builtins)
    requires EmailsUnique(users) && u in users && u.passwordHash != php.sha256(password)
    requires !EmailTaken(users, email)
    ensures Authenticate(users, email, password, php) == Authenticate(users, u.email, password, php)
    ensures Authenticate(users, email, password, php) == Rejected(InvalidCredentials)
  {
    TakenIffFound(users, email);
    UniqueAccountLogsIn(users, u, password, php);
  }

  /** When addresses are unique, the account with the address logs in with
      exactly the password whose hash it stores. */
  lemma UniqueAccountLogsIn(users: seq<User>, u: User, password: string, php: Builtins)
    requires EmailsUnique(users) && u in users
    ensures Authenticate(users, u.email, password, php).Authenticated? <==> u.passwordHash == php.sha256(password)
    ensures Authenticate(users, u.email, password, php).Authenticated? ==>
      Authenticate(users, u.email, password, php).user == u
  {
    var rows := UsersWithEmail(users, u.email);
    OnlyOneWithEmail(users, u);
    assert u in rows;
  }

  /** With unique addresses, the address selects at most the one account. */
  lemma {:induction false} OnlyOneWithEmail(users: seq<User>, u: User)
    requires EmailsUnique(users) && u in users
    ensures UsersWithEmail(users, u.email) == [u]
  {
    if users[0] == u {
      assert forall v <- users[1..] :: v.email != u.email by {
        forall v <- users[1..]
          ensures v.email != u.email
        {
          var j :| 0 <= j < |users[1..]| && users[1..][j] == v;
          assert users[j + 1] == v;
        }
      }
      NoneWithEmail(users[1..], u.email);
    } else {
      assert users[0].email != u.email by {
        var j :| 0 <= j < |users| && users[j] == u;
        assert j > 0;
      }
      assert EmailsUnique(users[1..]) by {
        forall i, j | 0 <= i < j < |users[1..]|
          ensures users[1..][i].email != users[1..][j].email
        {
          assert users[1..][i] == users[i + 1] && users[1..][j] == users[j + 1];
        }
      }
      OnlyOneWithEmail(users[1..], u);
    }
  }

  lemma {:induction false} NoneWithEmail(users: seq<User>, email: string)
    requires forall v <- users :: v.email != email
    ensures UsersWithEmail(users, email) == []
  {
    if users != [] {
      assert users[0] in users;
      NoneWithEmail(users[1..], email);
    }
  }

  /** The login form: the address goes through sanitizeText with limit
      254. */
  datatype LoginForm = LoginForm(email: Option<string>, password: string)

  /** A posted form: the input error, else the credential check. */
  function TryLogin(users: seq<User>, form: LoginForm, php: Builtins): Attempt {
    var email := SanitizeText(form.email, MaxEmailLength);
    var err := CheckInput(email, form.password, php);
    if err.Some? then Rejected(err.value) else Authenticate(users, email, form.password, php)
  }

  /** The session fields a successful login sets. */
  method SignIn(sess: Session, u: User, req: Request)
    modifies sess`userId, sess`name, sess`role, sess`loginTime, sess`loginIp
    ensures sess.userId == Some(u.id) && sess.name == Some(u.name) && sess.role == Some(u.role)
    ensures sess.loginTime == Some(req.now) && sess.loginIp == Some(req.remoteAddr.GetOr(UnknownIp))
  {
    sess.userId, sess.name, sess.role := Some(u.id), Some(u.name), Some(u.role);
    sess.loginTime, sess.loginIp := Some(req.now), Some(req.remoteAddr.GetOr(UnknownIp));
  }

  /** The whole request. */
  method HandleLogin(sess: Session, db: Db, req: Request, notice: Notice, form: Option<LoginForm>, php: Builtins)
    returns (resp: Response)
    modifies sess`userId, sess`name, sess`role, sess`loginTime, sess`loginIp
    ensures old(sess.userId).Some? ==>
      resp == Redirect(HomeOf(old(sess.role))) && sess.userId == old(sess.userId) && sess.role == old(sess.role)
    ensures old(sess.userId).None? && form.Some? ==>
      match TryLogin(db.users, form.value, php)
      case Authenticated(u) =>
        && sess.userId == Some(u.id) && sess.name == Some(u.name) && sess.role == Some(u.role)
        && sess.loginTime == Some(req.now) && sess.loginIp == Some(req.remoteAddr.GetOr(UnknownIp))
        && resp == Redirect(HomeOf(Some(u.role)))
      case Rejected(m) => sess.userId.None? && resp == Page(NoticeBanners(notice).0, Some(m))
    ensures old(sess.userId).None? && form.None? ==>
      sess.userId.None? && resp == Page(NoticeBanners(notice).0, NoticeBanners(notice).1)
  {
    if sess.userId.Some? {
      return Redirect(HomeOf(sess.role));
    }
    var banners := NoticeBanners(notice);
    if form.None? {
      return Page(banners.0, banners.1);
    }
    match TryLogin(db.users, form.value, php) {
      case Rejected(m) =>
        resp := Page(banners.0, Some(m));
      case Authenticated(u) =>
        SignIn(sess, u, req);
        resp := Redirect(HomeOf(Some(u.role)));
    }
  }
}
