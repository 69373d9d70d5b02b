/** register.php: a visitor creates a customer account. The name and the
    address go through sanitizeText, the form is checked rule by rule
    (the first broken rule is reported), an address already registered is
    refused, and a new account gets role 'user' and the SHA-256 of its
    password; the visitor is then sent to the login page with a flash
    message. */
module Register {
  import opened Util
  import opened Php
  import opened Constants
  import opened Schema
  import opened Security
  import opened Accounts

  /** The rules in the order the page checks them. */
  const RegisterRules: seq<Rule> :=
    [Filled, NameMin, NameMax, EmailFormat, PasswordMin, PasswordUpper, PasswordLower, PasswordDigit, PasswordMax]

  const FillAll := "❌ Please fill in all fields."
  const NameShort := "❌ Name must be at least 2 characters long."
  const NameLong := "❌ Name cannot exceed 100 characters."
  const EmailInvalid := "❌ Please enter a valid email address."
  const PasswordShort := "❌ Password must be at least 8 characters long."
  const NeedsUpper := "❌ Password must contain at least one uppercase letter (A-Z)."
  const NeedsLower := "❌ Password must contain at least one lowercase letter (a-z)."
  const NeedsDigit := "❌ Password must contain at least one number (0-9)."
  const PasswordLong := "❌ Password is too long."
  const EmailRegistered := "❌ This email is already registered. Please <a href=\"index.php\" style=\"color: #ef4444; text-decoration: underline;\">login</a> instead."
  const Registered := "✅ Registration successful! Please log in with your email and password."
  const LoginTarget := "index.php"

  function RuleMessage(rule: Rule): string {
    match rule
    case Filled => FillAll
    case NameMin => NameShort
    case NameMax => NameLong
    case EmailFormat => EmailInvalid
    case PasswordMin => PasswordShort
    case PasswordUpper => NeedsUpper
    case PasswordLower => NeedsLower
    case PasswordDigit => NeedsDigit
    case PasswordMax => PasswordLong
  }

  /** The posted fields: name and email may be missing or not strings
      (None); a missing password is ''. */
  datatype RegisterForm = RegisterForm(name: Option<string>, email: Option<string>, password: string)

  /** The values the rules see: name and email through sanitizeText with
      limits 100 and 254, the password as posted. */
  function Cleaned(form: RegisterForm): Credentials {
    Credentials(SanitizeText(form.name, 100), SanitizeText(form.email, MaxEmailLength), form.password)
  }

  /** The error of the validation chain: the message of the first broken
      rule. */
  function CheckRegistration(c: Credentials, php: Builtins): Option<string> {
    var k := FirstBroken(RegisterRules, c, php);
    if k.None? then None else Some(RuleMessage(RegisterRules[k.value]))
  }

  /** How a posted form ends: the account to insert, or the error shown. */
  datatype Admission = Admit(account: Credentials) | Deny(message: string)

  function Decide(users: seq<User>, form: RegisterForm, php: Builtins): Admission {
    var c := Cleaned(form);
    var err := CheckRegistration(c, php);
    if err.Some? then Deny(err.value)
    else if EmailTaken(users, c.email) then Deny(EmailRegistered)
    else Admit(c)
  }

  // ------------------------------------------------------------------
  // What the chain promises
  // ------------------------------------------------------------------

  /** The chain accepts exactly the forms that keep every rule. */
  lemma AcceptedIffEveryRuleHolds(c: Credentials, php: Builtins)
    ensures CheckRegistration(c, php).None? <==>
      && !IsEmpty(c.name) && !IsEmpty(c.email) && !IsEmpty(c.password)
      && 2 <= |c.name| <= NameLimit
      && php.isValidEmail(c.email)
      && PasswordMinLength <= |c.password| <= PasswordMaxLength
      && HasUpper(c.password) && HasLower(c.password) && HasDigit(c.password)
  {
    var k := FirstBroken(RegisterRules, c, php);
    if k.None? {
      assert forall i :: 0 <= i < |RegisterRules| ==> !Breaks(RegisterRules[i], c, php);
      assert !Breaks(RegisterRules[0], c, php) && !Breaks(RegisterRules[1], c, php) && !Breaks(RegisterRules[2], c, php);
      assert !Breaks(RegisterRules[3], c, php) && !Breaks(RegisterRules[4], c, php) && !Breaks(RegisterRules[5], c, php);
      assert !Breaks(RegisterRules[6], c, php) && !Breaks(RegisterRules[7], c, php) && !Breaks(RegisterRules[8], c, php);
    }
  }

  /** An empty field is reported before anything else is looked at. */
  lemma EmptyFieldReportedFirst(c: Credentials, php: Builtins)
    requires IsEmpty(c.name) || IsEmpty(c.email) || IsEmpty(c.password)
    ensures CheckRegistration(c, php) == Some(FillAll)
  {
    assert Breaks(RegisterRules[0], c, php);
  }

  /** A reported rule is broken and every rule before it holds. */
  lemma ReportedRuleIsTheFirstBroken(c: Credentials, php: Builtins)
    requires CheckRegistration(c, php).Some?
    ensures exists k :: (0 <= k < |RegisterRules|
      && CheckRegistration(c, php) == Some(RuleMessage(RegisterRules[k]))
      && Breaks(RegisterRules[k], c, php)
      && forall i :: 0 <= i < k ==> !Breaks(RegisterRules[i], c, php))
  {
    var k := FirstBroken(RegisterRules, c, php).value;
    assert CheckRegistration(c, php) == Some(RuleMessage(RegisterRules[k]));
  }

  /** A password over 255 characters that also lacks a capital is reported
      as lacking the capital: the length limit is the last rule. */
  lemma LengthLimitComesLast(c: Credentials, php: Builtins)
    requires !IsEmpty(c.name) && !IsEmpty(c.email) && 2 <= |c.name| <= NameLimit && php.isValidEmail(c.email)
    requires |c.password| > PasswordMaxLength && !HasUpper(c.password)
    ensures CheckRegistration(c, php) == Some(NeedsUpper)
  {
    assert !Breaks(RegisterRules[0], c, php) && !Breaks(RegisterRules[1], c, php) && !Breaks(RegisterRules[2], c, php);
    assert !Breaks(RegisterRules[3], c, php) && !Breaks(RegisterRules[4], c, php) && Breaks(RegisterRules[5], c, php);
  }

  // ------------------------------------------------------------------
  // The page
  // ------------------------------------------------------------------

  /** The account row a successful registration appends. */
  function NewAccount(c: Credentials, id: int, php: Builtins, now: int): User {
    User(id, c.name, c.email, php.sha256(c.password), Customer, now)
  }

  /** Registering never gives two accounts the same address. */
  lemma RegistrationKeepsEmailsUnique(users: seq<User>, form: RegisterForm, id: int, php: Builtins, now: int)
    requires EmailsUnique(users)
    requires Decide(users, form, php).Admit?
    ensures EmailsUnique(users + [NewAccount(Cleaned(form), id, php, now)])
    ensures NewAccount(Cleaned(form), id, php, now).role == Customer
  {
    FreshEmailKeepsUnique(users, NewAccount(Cleaned(form), id, php, now));
  }

  /** The whole request: a GET shows the form; a POST is decided, and an
      admitted one inserts the account, sets the flash message and
      redirects to the login page. */
  method HandleRegister(sess: Session, db: Db, form: Option<RegisterForm>, php: Builtins, now: int)
    returns (resp: Response)
    requires db.Valid()
    modifies sess`flashSuccess, db`users, db`nextUserId
    ensures db.Valid()
    ensures form.None? ==> resp == Page(None, None) && db.users == old(db.users)
    ensures form.Some? ==>
      match Decide(old(db.users), form.value, php)
      case Deny(m) => resp == Page(None, Some(m)) && db.users == old(db.users)
      case Admit(c) =>
        && db.users == old(db.users) + [NewAccount(c, old(db.nextUserId), php, now)]
        && resp == Redirect(LoginTarget) && sess.flashSuccess == Some(Registered)
  {
    if form.None? {
      return Page(None, None);
    }
    match Decide(db.users, form.value, php) {
      case Deny(m) =>
        resp := Page(None, Some(m));
      case Admit(c) =>
        var _ := InsertUser(db, c.name, c.email, php.sha256(c.password), Customer, now);
        sess.flashSuccess := Some(Registered);
        resp := Redirect(LoginTarget);
    }
  }
}
