/** admin/create_admin.php: an administrator creates another
    administrator account. Name and address are trimmed (the password is
    not), the form goes through the same kind of rule chain as
    registration but without an upper bound on the password, a taken
    address is refused, and the new row has role 'admin'. */
module CreateAdmin {
  import opened Util
  import opened Php
  import opened Constants
  import opened Schema
  import opened Security
  import opened Accounts

  /** The rules in the order the page checks them; the two name rules
      share one message. */
  const AdminRules: seq<Rule> :=
    [Filled, NameMin, NameMax, EmailFormat, PasswordMin, PasswordUpper, PasswordLower, PasswordDigit]

  const FillAll := "Please fill all fields."
  const NameBetween := "Name must be between 2 and 100 characters."
  const EmailInvalid := "Invalid email address."
  const PasswordShort := "Password must be at least 8 characters long."
  const NeedsUpper := "Password must include at least one uppercase letter."
  const NeedsLower := "Password must include at least one lowercase letter."
  const NeedsDigit := "Password must include at least one number."
  const EmailTakenMessage := "That email is already registered."
  const Created := "✅ Admin account created successfully!"
  const FailedPrefix := "Failed to create admin: "

  function RuleMessage(rule: Rule): string {
    match rule
    case Filled => FillAll
    case NameMin => NameBetween
    case NameMax => NameBetween
    case EmailFormat => EmailInvalid
    case PasswordMin => PasswordShort
    case PasswordUpper => NeedsUpper
    case PasswordLower => NeedsLower
    case PasswordDigit => NeedsDigit
    case PasswordMax => ""
  }

  /** The posted fields ('' when missing). */
  datatype AdminForm = AdminForm(name: string, email: string, password: string)

  /** Name and address trimmed; the password exactly as posted. */
  function Cleaned(form: AdminForm): (c: Credentials)
    ensures c.password == form.password
  {
    Credentials(Trim(form.name), Trim(form.email), form.password)
  }

  function CheckAdmin(c: Credentials, php: Builtins): Option<string> {
    var k := FirstBroken(AdminRules, c, php);
    if k.None? then None else Some(RuleMessage(AdminRules[k.value]))
  }

  /** The chain accepts exactly the forms that keep its rules; no length
      limit applies to the password. */
  lemma AcceptedIffEveryRuleHolds(c: Credentials, php: Builtins)
    ensures CheckAdmin(c, php).None? <==>
      && !IsEmpty(c.name) && !IsEmpty(c.email) && !IsEmpty(c.password)
      && 2 <= |c.name| <= NameLimit
      && php.isValidEmail(c.email)
      && PasswordMinLength <= |c.password|
      && HasUpper(c.password) && HasLower(c.password) && HasDigit(c.password)
  {
    var k := FirstBroken(AdminRules, c, php);
    if k.None? {
      assert forall i :: 0 <= i < |AdminRules| ==> !Breaks(AdminRules[i], c, php);
      assert !Breaks(AdminRules[0], c, php) && !Breaks(AdminRules[1], c, php) && !Breaks(AdminRules[2], c, php);
      assert !Breaks(AdminRules[3], c, php) && !Breaks(AdminRules[4], c, php) && !Breaks(AdminRules[5], c, php);
      assert !Breaks(AdminRules[6], c, php) && !Breaks(AdminRules[7], c, php);
    }
  }

  /** Unlike registration, the page sets no upper bound on the password:
      a long password that keeps the other rules is accepted. */
  lemma NoPasswordUpperBound(c: Credentials, php: Builtins)
    requires !IsEmpty(c.name) && !IsEmpty(c.email) && 2 <= |c.name| <= NameLimit && php.isValidEmail(c.email)
    requires |c.password| > PasswordMaxLength
    requires HasUpper(c.password) && HasLower(c.password) && HasDigit(c.password)
    ensures CheckAdmin(c, php).None?
  {
    AcceptedIffEveryRuleHolds(c, php);
  }

  /** A name that is too short and one that is too long get the same
      message, and an empty field is reported before either. */
  lemma NameBoundsShareAMessage(c: Credentials, php: Builtins)
    requires !IsEmpty(c.name) && !IsEmpty(c.email) && !IsEmpty(c.password)
    requires |c.name| < 2 || |c.name| > NameLimit
    ensures CheckAdmin(c, php) == Some(NameBetween)
  {
    assert !Breaks(AdminRules[0], c, php);
    if |c.name| < 2 {
      assert Breaks(AdminRules[1], c, php);
    } else {
      assert Breaks(AdminRules[2], c, php);
    }
  }

  /** A password shorter than 8 characters is always refused. */
  lemma ShortPasswordRefused(c: Credentials, php: Builtins)
    requires |c.password| < PasswordMinLength
    ensures CheckAdmin(c, php).Some?
  {
    assert Breaks(AdminRules[4], c, php);
  }

  lemma EmptyFieldReportedFirst(c: Credentials, php: Builtins)
    requires IsEmpty(c.name) || IsEmpty(c.email) || IsEmpty(c.password)
    ensures CheckAdmin(c, php) == Some(FillAll)
  {
    assert Breaks(AdminRules[0], c, php);
  }

  /** How a posted form ends: the account to insert, or the error shown. */
  datatype Admission = Admit(account: Credentials) | Deny(message: string)

  function Decide(users: seq<User>, form: AdminForm, php: Builtins): Admission {
    var c := Cleaned(form);
    var err := CheckAdmin(c, php);
    if err.Some? then Deny(err.value)
    else if EmailTaken(users, c.email) then Deny(EmailTakenMessage)
    else Admit(c)
  }

  function NewAdmin(c: Credentials, id: int, php: Builtins, now: int): User {
    User(id, c.name, c.email, php.sha256(c.password), Admin, now)
  }

  /** Creating an administrator never gives two accounts the same
      address. */
  lemma CreationKeepsEmailsUnique(users: seq<User>, form: AdminForm, id: int, php: Builtins, now: int)
    requires EmailsUnique(users)
    requires Decide(users, form, php).Admit?
    ensures EmailsUnique(users + [NewAdmin(Cleaned(form), id, php, now)])
  {
    FreshEmailKeepsUnique(users, NewAdmin(Cleaned(form), id, php, now));
  }

  /** The whole request; `failure` is the statement's error when the
      INSERT does not execute. */
  method HandleCreateAdmin(sess: Session, db: Db, form: Option<AdminForm>, php: Builtins, failure: Option<string>,
                           now: int)
    returns (resp: Response)
    requires db.Valid()
    modifies db`users, db`nextUserId
    ensures db.Valid()
    ensures !sess.IsAdmin() ==> resp == Redirect(LoginPage) && db.users == old(db.users)
    ensures sess.IsAdmin() && form.None? ==> resp == Page(None, None) && db.users == old(db.users)
    ensures sess.IsAdmin() && form.Some? ==>
      match Decide(old(db.users), form.value, php)
      case Deny(m) => resp == Page(None, Some(m)) && db.users == old(db.users)
      case Admit(c) =>
        if failure.Some? then resp == Page(None, Some(FailedPrefix + failure.value)) && db.users == old(db.users)
        else resp == Page(Some(Created), None) && db.users == old(db.users) + [NewAdmin(c, old(db.nextUserId), php, now)]
  {
    if !sess.IsAdmin() {
      return Redirect(LoginPage);
    }
    if form.None? {
      return Page(None, None);
    }
    match Decide(db.users, form.value, php) {
      case Deny(m) =>
        resp := Page(None, Some(m));
      case Admit(c) =>
        if failure.Some? {
          resp := Page(None, Some(FailedPrefix + failure.value));
        } else {
          var _ := InsertUser(db, c.name, c.email, php.sha256(c.password), Admin, now);
          resp := Page(Some(Created), None);
        }
    }
  }
}
