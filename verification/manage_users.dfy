/** admin/manage_users.php: an administrator deletes customer accounts
    (an administrator row is never removed here, and the page shows no
    message for it, and the database's cascade removes a deleted account's
    notifications), creates administrators with the same three-field form
    as the administrator page, and sees the non-administrator accounts,
    newest first. */
module ManageUsers {
  import opened Util
  import opened Php
  import opened Constants
  import opened Schema
  import opened Security
  import opened Accounts
  import opened ManageAdmins

  const AccountCreated := "✅ New admin account created successfully."

  /** The rows DELETE FROM users WHERE id = ? AND role != 'admin' keeps. */
  function OutsideCustomer(id: int): User -> bool {
    (u: User) => !(u.id == id && u.role != Admin)
  }

  function WithoutCustomer(users: seq<User>, id: int): (r: seq<User>)
    ensures forall u :: u in r <==> u in users && !(u.id == id && u.role != Admin)
  {
    Filter(users, OutsideCustomer(id))
  }

  /** Deleting from this page never removes an administrator, and removes
      every non-administrator row with the id. */
  lemma DeleteSparesAdmins(users: seq<User>, id: int)
    ensures Admins(WithoutCustomer(users, id)) == Admins(users)
    ensures forall u <- WithoutCustomer(users, id) :: u.id != id || u.role == Admin
  {
    AdminsOfFiltered(users, id);
  }

  lemma {:induction false} AdminsOfFiltered(users: seq<User>, id: int)
    ensures Admins(WithoutCustomer(users, id)) == Admins(users)
  {
    if users != [] {
      AdminsOfFiltered(users[1..], id);
      assert users == [users[0]] + users[1..];
    }
  }

  /** The cascade of this page's delete touches only the notifications of
      the id, and removes all of them when it deletes a customer account
      that no administrator shares the id with; with no customer row for
      the id it removes nothing. */
  lemma CustomerDeleteCascades(users: seq<User>, ns: seq<Notification>, id: int)
    ensures var after := AfterCascade(ns, Gone(users, WithoutCustomer(users, id)));
      && (forall n <- ns :: n.userId != Some(id) ==> n in after)
      && ((exists u <- users :: u.id == id && u.role != Admin) && (forall u <- users :: u.id == id ==> u.role != Admin)
          ==> forall n :: n in after <==> n in ns && n.userId != Some(id))
      && ((forall u <- users :: u.id == id ==> u.role == Admin) ==> forall n :: n in after <==> n in ns)
  {
    var rows := WithoutCustomer(users, id);
    GoneIsTheId(users, rows, id);
    if forall u <- users :: u.id == id ==> u.role == Admin {
      assert forall u <- users :: u in rows;
      assert IdsOf(users) <= IdsOf(rows);
    }
  }

  /** WHERE role != 'admin'. */
  function NonAdmin(u: User): bool {
    u.role != Admin
  }

  /** The accounts shown, ORDER BY created_at DESC. */
  function CustomerListing(users: seq<User>): seq<User> {
    SortDesc(Filter(users, NonAdmin), UserCreatedAt)
  }

  /** The list holds exactly the non-administrator accounts, newest first. */
  lemma CustomerListingIsTheNonAdmins(users: seq<User>)
    ensures forall u :: u in CustomerListing(users) <==> u in users && u.role != Admin
    ensures forall i, j :: 0 <= i < j < |CustomerListing(users)| ==>
      CustomerListing(users)[i].createdAt >= CustomerListing(users)[j].createdAt
  {
    SortedSelection(users, NonAdmin, UserCreatedAt);
  }

  /** DELETE FROM users WHERE id = ? AND role != 'admin', with its
      cascade. */
  method DeleteCustomerRow(db: Db, id: int)
    requires db.Valid()
    modifies db`users, db`notifications
    ensures db.Valid()
    ensures db.users == WithoutCustomer(old(db.users), id)
    ensures db.notifications == AfterCascade(old(db.notifications), Gone(old(db.users), db.users))
  {
    DeleteAccounts(db, WithoutCustomer(db.users, id));
  }

  /** The whole request: the delete branch (whose outcome is not reported),
      then the create branch. */
  method HandleManageUsers(sess: Session, db: Db, delete: Option<int>, create: Option<QuickForm>, php: Builtins,
                           stored: bool, now: int)
    returns (resp: Response)
    requires db.Valid()
    modifies db`users, db`nextUserId, db`notifications
    ensures db.Valid()
    ensures !sess.IsAdmin() ==>
      resp == Redirect(LoginPage) && db.users == old(db.users) && db.notifications == old(db.notifications)
    ensures sess.IsAdmin() ==>
      var mid := if delete.Some? then WithoutCustomer(old(db.users), delete.value) else old(db.users);
      var b := if create.Some? then Show(Banners(None, None), CreateOutcome(create.value, stored, AccountCreated))
               else Banners(None, None);
      && db.users == (if create.Some? then AfterCreate(mid, old(db.nextUserId), create.value, stored, php, now) else mid)
      && resp == Page(b.success, b.error)
      && db.notifications
         == (if delete.Some? then AfterCascade(old(db.notifications), Gone(old(db.users), mid))
             else old(db.notifications))
  {
    if !sess.IsAdmin() {
      return Redirect(LoginPage);
    }
    if delete.Some? {
      DeleteCustomerRow(db, delete.value);
    }
    var banners := Banners(None, None);
    if create.Some? {
      var o := QuickCreate(db, create.value, stored, php, now, AccountCreated);
      banners := Show(banners, o);
    }
    resp := Page(banners.success, banners.error);
  }
}
