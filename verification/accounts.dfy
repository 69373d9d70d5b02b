/** What the account pages share: looking a user up by e-mail, inserting a
    user row, and the listing order of the users table. */
module Accounts {
  import opened Util
  import opened Php
  import opened Constants
  import opened Schema

  function HasEmail(email: string): User -> bool {
    (u: User) => u.email == email
  }

  /** The rows SELECT ... FROM users WHERE email = ? returns. */
  function UsersWithEmail(users: seq<User>, email: string): (r: seq<User>)
    ensures forall u :: u in r <==> u in users && u.email == email
  {
    Filter(users, HasEmail(email))
  }

  /** num_rows > 0 for that query. */
  predicate EmailTaken(users: seq<User>, email: string) {
    exists u <- users :: u.email == email
  }

  lemma TakenIffFound(users: seq<User>, email: string)
    ensures EmailTaken(users, email) <==> |UsersWithEmail(users, email)| > 0
  {
    var r := UsersWithEmail(users, email);
    if EmailTaken(users, email) {
      var u :| u in users && u.email == email;
      assert u in r;
    }
    if |r| > 0 {
      assert r[0] in r;
    }
  }

  /** No two accounts share an address. */
  ghost predicate EmailsUnique(users: seq<User>) {
    forall i, j :: 0 <= i < j < |users| ==> users[i].email != users[j].email
  }

  /** Adding an account whose address is not taken keeps the addresses
      unique. */
  lemma FreshEmailKeepsUnique(users: seq<User>, u: User)
    requires EmailsUnique(users) && !EmailTaken(users, u.email)
    ensures EmailsUnique(users + [u])
  {
    var after := users + [u];
    forall i, j | 0 <= i < j < |after|
      ensures after[i].email != after[j].email
    {
      if j == |users| {
        assert after[i] in users;
      }
    }
  }

  /** INSERT INTO users: the next id, appended. */
  method InsertUser(db: Db, name: string, email: string, passwordHash: string, role: Role, now: int)
    returns (id: int)
    requires db.Valid()
    modifies db`users, db`nextUserId
    ensures db.Valid()
    ensures id == old(db.nextUserId) && db.nextUserId == id + 1
    ensures db.users == old(db.users) + [User(id, name, email, passwordHash, role, now)]
  {
    id := db.nextUserId;
    db.users := db.users + [User(id, name, email, passwordHash, role, now)];
    db.nextUserId := id + 1;
  }

  function UserCreatedAt(u: User): int {
    u.createdAt
  }

  predicate IsAdminAccount(u: User) {
    u.role == Admin
  }

  // ------------------------------------------------------------------
  // The validation rules of the account forms
  // ------------------------------------------------------------------

  /** The fields an account form is checked on (after the page's own
      trimming or sanitizing). */
  datatype Credentials = Credentials(name: string, email: string, password: string)

  /** One rule of a validation chain. */
  datatype Rule =
    | Filled          // no field is empty()
    | NameMin         // strlen(name) >= 2
    | NameMax         // strlen(name) <= 100
    | EmailFormat     // FILTER_VALIDATE_EMAIL accepts the address
    | PasswordMin     // strlen(password) >= 8
    | PasswordUpper   // /[A-Z]/
    | PasswordLower   // /[a-z]/
    | PasswordDigit   // /[0-9]/
    | PasswordMax     // strlen(password) <= 255

  const NameLimit := 100
  const PasswordMinLength := 8
  const PasswordMaxLength := 255

  /** The form breaks the rule. */
  predicate Breaks(rule: Rule, c: Credentials, php: Builtins) {
    match rule
    case Filled => IsEmpty(c.name) || IsEmpty(c.email) || IsEmpty(c.password)
    case NameMin => |c.name| < 2
    case NameMax => |c.name| > NameLimit
    case EmailFormat => !php.isValidEmail(c.email)
    case PasswordMin => |c.password| < PasswordMinLength
    case PasswordUpper => !HasUpper(c.password)
    case PasswordLower => !HasLower(c.password)
    case PasswordDigit => !HasDigit(c.password)
    case PasswordMax => |c.password| > PasswordMaxLength
  }

  /** The position of the first rule of `rules` (from `from` on) that the
      form breaks: the one an if/elseif chain over `rules` reports. */
  function FirstBroken(rules: seq<Rule>, c: Credentials, php: Builtins, from: nat := 0): (r: Option<nat>)
    requires from <= |rules|
    ensures r.None? <==> forall i :: from <= i < |rules| ==> !Breaks(rules[i], c, php)
    ensures r.Some? ==> from <= r.value < |rules| && Breaks(rules[r.value], c, php)
    ensures r.Some? ==> forall i :: from <= i < r.value ==> !Breaks(rules[i], c, php)
    decreases |rules| - from
  {
    if from == |rules| then None
    else if Breaks(rules[from], c, php) then Some(from)
    else FirstBroken(rules, c, php, from + 1)
  }
}
