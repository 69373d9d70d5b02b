/** admin/manage_admins.php: an administrator deletes other administrator
    accounts (never their own; the database's cascade removes a deleted
    account's notifications), creates administrators from a three-field
    form with no strength rules, and sees the other administrators, newest
    first. */
module ManageAdmins {
  import opened Util
  import opened Php
  import opened Constants
  import opened Schema
  import opened Security
  import opened Accounts
  import CreateAdmin

  const SelfDelete := "You cannot delete your own account."
  const AdminDeleted := "✅ Admin deleted successfully."
  const DeleteFailed := "⚠️ Failed to delete admin."
  const AdminCreated := "✅ New admin created successfully."
  const CreateFailed := "⚠️ Failed to create admin (email may already exist)."
  const FillAll := "Please fill in all fields."

  // ------------------------------------------------------------------
  // delete_admin
  // ------------------------------------------------------------------

  /** The rows DELETE FROM users WHERE id = ? AND role = 'admin' keeps. */
  function OutsideAdmin(id: int): User -> bool {
    (u: User) => !(u.id == id && u.role == Admin)
  }

  function WithoutAdmin(users: seq<User>, id: int): (r: seq<User>)
    ensures forall u :: u in r <==> u in users && !(u.id == id && u.role == Admin)
  {
    Filter(users, OutsideAdmin(id))
  }

  /** The message of the delete branch: the current administrator's own id
      is refused; otherwise the statement's outcome. */
  function DeleteOutcome(current: int, id: int, executes: bool): (o: Outcome)
    ensures o.Done? <==> id != current && executes
  {
    if id == current then Refused(SelfDelete)
    else if executes then Done(AdminDeleted)
    else Refused(DeleteFailed)
  }

  /** The users table after the delete branch. */
  function AfterDelete(users: seq<User>, current: int, id: int, executes: bool): seq<User> {
    if id != current && executes then WithoutAdmin(users, id) else users
  }

  /** An administrator cannot delete their own account, and the table is
      left alone. */
  lemma SelfDeleteIsRefused(users: seq<User>, current: int, executes: bool)
    ensures DeleteOutcome(current, current, executes) == Refused(SelfDelete)
    ensures AfterDelete(users, current, current, executes) == users
  {
  }

  /** The delete removes the administrator rows with the id and nothing
      else: a customer with that id survives, and so does every row with
      another id. */
  lemma DeleteRemovesOnlyThatAdmin(users: seq<User>, current: int, id: int, executes: bool)
    ensures forall u <- users :: u in AfterDelete(users, current, id, executes) <==>
      !(u.id == id && u.role == Admin && id != current && executes)
    ensures forall u <- AfterDelete(users, current, id, executes) :: u in users
    ensures forall u <- users :: u.id == current ==> u in AfterDelete(users, current, id, executes)
  {
  }

  /** The cascade of an executed delete touches only the notifications of
      the id, and removes all of them when it deletes an administrator
      account that no customer shares the id with; with no administrator
      row for the id it removes nothing. */
  lemma AdminDeleteCascades(users: seq<User>, ns: seq<Notification>, id: int)
    ensures var after := AfterCascade(ns, Gone(users, WithoutAdmin(users, id)));
      && (forall n <- ns :: n.userId != Some(id) ==> n in after)
      && ((exists u <- users :: u.id == id && u.role == Admin) && (forall u <- users :: u.id == id ==> u.role == Admin)
          ==> forall n :: n in after <==> n in ns && n.userId != Some(id))
      && ((forall u <- users :: u.id == id ==> u.role != Admin) ==> forall n :: n in after <==> n in ns)
  {
    var rows := WithoutAdmin(users, id);
    GoneIsTheId(users, rows, id);
    if forall u <- users :: u.id == id ==> u.role != Admin {
      assert forall u <- users :: u in rows;
      assert IdsOf(users) <= IdsOf(rows);
    }
  }

  // ------------------------------------------------------------------
  // create_admin
  // ------------------------------------------------------------------

  /** The posted fields ('' when missing). */
  datatype QuickForm = QuickForm(name: string, email: string, password: string)

  /** All three fields trimmed, and accepted when none is empty; no other
      rule applies. */
  function QuickAccount(form: QuickForm): (r: Option<Credentials>)
    ensures r.Some? <==> !IsEmpty(Trim(form.name)) && !IsEmpty(Trim(form.email)) && !IsEmpty(Trim(form.password))
    ensures r.Some? ==> r.value.name == Trim(form.name) && r.value.email == Trim(form.email)
    ensures r.Some? ==> r.value.password == Trim(form.password)
  {
    var c := Credentials(Trim(form.name), Trim(form.email), Trim(form.password));
    if !IsEmpty(c.name) && !IsEmpty(c.email) && !IsEmpty(c.password) then Some(c) else None
  }

  /** The message of the create branch; `stored` is whether the INSERT
      executes (a UNIQUE address would make a duplicate fail). */
  function CreateOutcome(form: QuickForm, stored: bool, created: string): (o: Outcome)
    ensures o == Done(created) <==> QuickAccount(form).Some? && stored
    ensures QuickAccount(form).None? ==> o == Refused(FillAll)
  {
    if QuickAccount(form).None? then Refused(FillAll)
    else if stored then Done(created)
    else Refused(CreateFailed)
  }

  /** The row a successful create appends: role 'admin' and the SHA-256 of
      the trimmed password. */
  function QuickAdmin(c: Credentials, id: int, php: Builtins, now: int): (u: User)
    ensures u.role == Admin && u.passwordHash == php.sha256(c.password)
  {
    User(id, c.name, c.email, php.sha256(c.password), Admin, now)
  }

  function AfterCreate(users: seq<User>, nextId: int, form: QuickForm, stored: bool, php: Builtins, now: int)
    : seq<User>
  {
    var c := QuickAccount(form);
    if c.Some? && stored then users + [QuickAdmin(c.value, nextId, php, now)] else users
  }

  /** The quick form has no strength rules: a short password without
      capitals or digits creates an administrator here, while
      create_admin.php refuses it. */
  lemma NoStrengthRules(name: string, email: string, php: Builtins)
    requires !IsEmpty(Trim(name)) && !IsEmpty(Trim(email))
    ensures QuickAccount(QuickForm(name, email, WeakPassword)).Some?
    ensures CreateAdmin.CheckAdmin(CreateAdmin.Cleaned(CreateAdmin.AdminForm(name, email, WeakPassword)), php).Some?
  {
    WeakPasswordIsKept();
    CreateAdmin.ShortPasswordRefused(CreateAdmin.Cleaned(CreateAdmin.AdminForm(name, email, WeakPassword)), php);
  }

  const WeakPassword := "a"

  lemma WeakPasswordIsKept()
    ensures Trim(WeakPassword) == WeakPassword && !IsEmpty(WeakPassword) && |WeakPassword| < PasswordMinLength
  {
    assert TrimLeft(WeakPassword) == WeakPassword;
    assert TrimRight(WeakPassword) == WeakPassword;
  }

  /** A successful create adds exactly one account, an administrator, at
      the end. */
  lemma CreateAddsOneAdmin(users: seq<User>, nextId: int, form: QuickForm, stored: bool, php: Builtins, now: int)
    ensures var after := AfterCreate(users, nextId, form, stored, php, now);
      && after[..|users|] == users
      && (|after| == |users| + 1 <==> CreateOutcome(form, stored, AdminCreated).Done?)
      && (|after| == |users| + 1 ==> after[|users|].role == Admin && after[|users|].id == nextId)
  {
  }

  // ------------------------------------------------------------------
  // The listing
  // ------------------------------------------------------------------

  /** WHERE role = 'admin' AND id != current. */
  function OtherAdmin(current: int): User -> bool {
    (u: User) => u.role == Admin && u.id != current
  }

  /** The administrators shown, ORDER BY created_at DESC. */
  function OtherAdmins(users: seq<User>, current: int): seq<User> {
    SortDesc(Filter(users, OtherAdmin(current)), UserCreatedAt)
  }

  /** The list holds exactly the administrators other than the current
      one, newest first. */
  lemma OtherAdminsListing(users: seq<User>, current: int)
    ensures forall u :: u in OtherAdmins(users, current) <==> u in users && u.role == Admin && u.id != current
    ensures forall i, j :: 0 <= i < j < |OtherAdmins(users, current)| ==>
      OtherAdmins(users, current)[i].createdAt >= OtherAdmins(users, current)[j].createdAt
  {
    SortedSelection(users, OtherAdmin(current), UserCreatedAt);
  }

  // ------------------------------------------------------------------
  // The page
  // ------------------------------------------------------------------

  /** DELETE FROM users WHERE id = ? AND role = 'admin', with its
      cascade. */
  method DeleteAdminRow(db: Db, id: int)
    requires db.Valid()
    modifies db`users, db`notifications
    ensures db.Valid()
    ensures db.users == WithoutAdmin(old(db.users), id)
    ensures db.notifications == AfterCascade(old(db.notifications), Gone(old(db.users), db.users))
  {
    DeleteAccounts(db, WithoutAdmin(db.users, id));
  }

  /** The delete_admin branch. */
  method DeleteAdmin(db: Db, current: int, id: int, executes: bool) returns (o: Outcome)
    requires db.Valid()
    modifies db`users, db`notifications
    ensures db.Valid()
    ensures o == DeleteOutcome(current, id, executes)
    ensures db.users == AfterDelete(old(db.users), current, id, executes)
    ensures db.notifications
            == if id != current && executes then AfterCascade(old(db.notifications), Gone(old(db.users), db.users))
               else old(db.notifications)
  {
    if id != current {
      if executes {
        DeleteAdminRow(db, id);
        o := Done(AdminDeleted);
      } else {
        o := Refused(DeleteFailed);
      }
    } else {
      o := Refused(SelfDelete);
    }
  }

  /** The create_admin branch, shared with manage_users.php, which differs
      only in its success text. */
  method QuickCreate(db: Db, form: QuickForm, stored: bool, php: Builtins, now: int, created: string)
    returns (o: Outcome)
    requires db.Valid()
    modifies db`users, db`nextUserId
    ensures db.Valid()
    ensures o == CreateOutcome(form, stored, created)
    ensures db.users == AfterCreate(old(db.users), old(db.nextUserId), form, stored, php, now)
  {
    var c := QuickAccount(form);
    if c.None? {
      o := Refused(FillAll);
    } else if stored {
      var _ := InsertUser(db, c.value.name, c.value.email, php.sha256(c.value.password), Admin, now);
      o := Done(created);
    } else {
      o := Refused(CreateFailed);
    }
  }

  /** The whole request: the delete branch, then the create branch, each
      writing `$success` or `$err`. */
  method HandleManageAdmins(sess: Session, db: Db, delete: Option<int>, create: Option<QuickForm>, php: Builtins,
                            deleteExecutes: bool, stored: bool, now: int)
    returns (resp: Response)
    requires db.Valid()
    modifies db`users, db`nextUserId, db`notifications
    ensures db.Valid()
    ensures !sess.IsAdmin() ==>
      resp == Redirect(LoginPage) && db.users == old(db.users) && db.notifications == old(db.notifications)
    ensures sess.IsAdmin() ==>
      var current := sess.userId.value;
      var mid := if delete.Some? then AfterDelete(old(db.users), current, delete.value, deleteExecutes)
                 else old(db.users);
      var b1 := if delete.Some? then Show(Banners(None, None), DeleteOutcome(current, delete.value, deleteExecutes))
                else Banners(None, None);
      var b2 := if create.Some? then Show(b1, CreateOutcome(create.value, stored, AdminCreated)) else b1;
      && db.users == (if create.Some? then AfterCreate(mid, old(db.nextUserId), create.value, stored, php, now) else mid)
      && resp == Page(b2.success, b2.error)
      && db.notifications
         == (if delete.Some? && delete.value != current && deleteExecutes
             then AfterCascade(old(db.notifications), Gone(old(db.users), mid))
             else old(db.notifications))
  {
    if !sess.IsAdmin() {
      return Redirect(LoginPage);
    }
    var current := sess.userId.value;
    var banners := Banners(None, None);
    if delete.Some? {
      var o := DeleteAdmin(db, current, delete.value, deleteExecutes);
      banners := Show(banners, o);
    }
    if create.Some? {
      var o := QuickCreate(db, create.value, stored, php, now, AdminCreated);
      banners := Show(banners, o);
    }
    resp := Page(banners.success, banners.error);
  }
}
