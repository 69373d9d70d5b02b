/** admin/email_settings.php: the e-mail settings are a key/value table
    whose key is UNIQUE. Saving the form runs one upsert for each of the
    same eleven keys every time (an unticked box as 'no', a missing text
    field as ''), ignores whether each ran (`executes`), and reports
    success; the page then reads the table back into a map and shows each
    box ticked when its value is 'yes', with its own default for a key
    never saved. */
module EmailSettings {
  import opened Util
  import opened Php
  import opened Constants
  import opened Schema
  import opened Security

  const EmailEnabled := "email_enabled"
  const SmtpHost := "smtp_host"
  const SmtpPort := "smtp_port"
  const SmtpUsername := "smtp_username"
  const SmtpPassword := "smtp_password"
  const FromEmail := "from_email"
  const FromName := "from_name"
  const NotifyNewOrder := "notify_new_order"
  const NotifyStatusChange := "notify_status_change"
  const NotifyPayment := "notify_payment"
  const DailySummary := "daily_summary"

  /** The keys a save writes, in the page's order. */
  const SettingKeys: seq<string> :=
    [EmailEnabled, SmtpHost, SmtpPort, SmtpUsername, SmtpPassword, FromEmail, FromName,
     NotifyNewOrder, NotifyStatusChange, NotifyPayment, DailySummary]

  /** The keys posted by a checkbox: absent from the form when unticked. */
  const Checkboxes: set<string> := {EmailEnabled, NotifyNewOrder, NotifyStatusChange, NotifyPayment, DailySummary}

  const Yes := "yes"
  const No := "no"
  const Saved := "Email settings saved successfully!"
  const DefaultPort := "587"
  const DefaultFromName := "Laundry Management System"

  /** `$_POST[key] ?? default`: 'no' for a checkbox, '' for a text field. */
  function FormValue(post: map<string, string>, key: string): (v: string)
    ensures key in post ==> v == post[key]
    ensures key !in post && key in Checkboxes ==> v == No
    ensures key !in post && key !in Checkboxes ==> v == ""
  {
    if key in post then post[key] else if key in Checkboxes then No else ""
  }

  function KeySet(): set<string> {
    set i | 0 <= i < |SettingKeys| :: SettingKeys[i]
  }

  /** The setting keys whose upsert the database runs. */
  function RunKeys(executes: string -> bool): set<string> {
    set k | k in KeySet() && executes(k)
  }

  /** The table after one save: every setting key whose statement runs
      holds its form value, every other key is untouched. */
  function Upserted(table: map<string, string>, post: map<string, string>, executes: string -> bool)
    : (r: map<string, string>)
    ensures forall k :: k in r <==> k in table || (k in KeySet() && executes(k))
    ensures forall k <- KeySet() :: executes(k) ==> r[k] == FormValue(post, k)
    ensures forall k <- table.Keys :: !(k in KeySet() && executes(k)) ==> r[k] == table[k]
  {
    map k | k in table.Keys + RunKeys(executes) :: if k in RunKeys(executes) then FormValue(post, k) else table[k]
  }

  /** Saving the same form twice leaves the same table as saving it once. */
  lemma SavingTwiceIsSavingOnce(table: map<string, string>, post: map<string, string>, executes: string -> bool)
    ensures Upserted(Upserted(table, post, executes), post, executes) == Upserted(table, post, executes)
  {
    var once := Upserted(table, post, executes);
    var twice := Upserted(once, post, executes);
    assert twice.Keys == once.Keys;
    forall k | k in twice.Keys
      ensures twice[k] == once[k]
    {
    }
  }

  /** A save touches only the eleven keys, whatever else was posted, and
      of those only the ones whose statement ran. */
  lemma SaveWritesExactlyTheKeys(table: map<string, string>, post: map<string, string>, executes: string -> bool,
                                 k: string)
    ensures !(k in KeySet() && executes(k)) ==>
      (k in Upserted(table, post, executes) <==> k in table)
      && (k in table ==> Upserted(table, post, executes)[k] == table[k])
  {
  }

  // ------------------------------------------------------------------
  // Reading the table back and showing it
  // ------------------------------------------------------------------

  /** One row of SELECT setting_key, setting_value FROM email_settings. */
  datatype SettingRow = SettingRow(key: string, value: string)

  /** `$currentSettings` after the fetch loop: a later row overwrites an
      earlier one with the same key. */
  function Collected(rows: seq<SettingRow>): (m: map<string, string>)
    ensures forall k :: k in m <==> exists i :: 0 <= i < |rows| && rows[i].key == k
  {
    if rows == [] then map[]
    else
      var last := rows[|rows| - 1];
      var m := Collected(rows[..|rows| - 1]);
      assert forall i :: 0 <= i < |rows| - 1 ==> rows[..|rows| - 1][i] == rows[i];
      m[last.key := last.value]
  }

  /** The rows list the table: each is one of its entries, and each of its
      keys has a row. */
  ghost predicate Lists(rows: seq<SettingRow>, table: map<string, string>) {
    && (forall i :: 0 <= i < |rows| ==> rows[i].key in table && table[rows[i].key] == rows[i].value)
    && (forall k <- table :: exists i :: 0 <= i < |rows| && rows[i].key == k)
  }

  /** Reading a table back gives the table itself, in whatever order its
      rows come. */
  lemma ReadBackIsTheTable(rows: seq<SettingRow>, table: map<string, string>)
    requires Lists(rows, table)
    ensures Collected(rows) == table
  {
    CollectedAgrees(rows, table);
  }

  lemma {:induction false} CollectedAgrees(rows: seq<SettingRow>, table: map<string, string>)
    requires forall i :: 0 <= i < |rows| ==> rows[i].key in table && table[rows[i].key] == rows[i].value
    ensures forall k <- Collected(rows) :: k in table && Collected(rows)[k] == table[k]
  {
    if rows != [] {
      var init := rows[..|rows| - 1];
      assert forall i :: 0 <= i < |init| ==> init[i] == rows[i];
      CollectedAgrees(init, table);
    }
  }

  /** The fetch loop. */
  method ReadSettings(rows: seq<SettingRow>) returns (current: map<string, string>)
    ensures current == Collected(rows)
  {
    current := map[];
    var i := 0;
    while i < |rows|
      invariant 0 <= i <= |rows|
      invariant current == Collected(rows[..i])
    {
      assert rows[..i + 1][..i] == rows[..i];
      current := current[rows[i].key := rows[i].value];
      i := i + 1;
    }
    assert rows[..|rows|] == rows;
  }

  /** The value a box is shown with when its key was never saved: the
      notify_* boxes default to ticked, the other two to unticked. */
  function BoxDefault(key: string): (v: string)
    ensures v == Yes <==> key in {NotifyNewOrder, NotifyStatusChange, NotifyPayment}
  {
    if key == NotifyNewOrder || key == NotifyStatusChange || key == NotifyPayment then Yes else No
  }

  /** `($currentSettings[key] ?? default) === 'yes'`. */
  predicate Ticked(current: map<string, string>, key: string) {
    Lookup(current, key).GetOr(BoxDefault(key)) == Yes
  }

  /** On a table never saved, the three notify_* boxes are ticked and
      email_enabled and daily_summary are not. */
  lemma FreshTableDefaults()
    ensures Ticked(map[], NotifyNewOrder) && Ticked(map[], NotifyStatusChange) && Ticked(map[], NotifyPayment)
    ensures !Ticked(map[], EmailEnabled) && !Ticked(map[], DailySummary)
  {
  }

  /** After a save whose statement for a box ran, the box shows ticked
      exactly when the form posted 'yes' for it: an unticked box is stored
      as 'no' and shows unticked, even for the boxes that default to
      ticked. When the statement did not run, the box shows as before. */
  lemma SavedBoxRoundTrip(table: map<string, string>, post: map<string, string>, executes: string -> bool,
                          key: string)
    requires key in Checkboxes
    ensures executes(key) ==> (Ticked(Upserted(table, post, executes), key) <==> key in post && post[key] == Yes)
    ensures !executes(key) ==> (Ticked(Upserted(table, post, executes), key) <==> Ticked(table, key))
  {
    assert key in KeySet() by {
      assert key == SettingKeys[0] || key == SettingKeys[7] || key == SettingKeys[8]
          || key == SettingKeys[9] || key == SettingKeys[10];
    }
  }

  /** The value a text field is shown with when its key was never saved. */
  function TextDefault(key: string): string {
    if key == SmtpPort then DefaultPort else if key == FromName then DefaultFromName else ""
  }

  function Shown(current: map<string, string>, key: string): (v: string)
    ensures key in current ==> v == current[key]
    ensures key !in current ==> v == TextDefault(key)
  {
    Lookup(current, key).GetOr(TextDefault(key))
  }

  // ------------------------------------------------------------------
  // The page
  // ------------------------------------------------------------------

  /** The table after the loop has run the statements for the first `n`
      keys. */
  function UpsertedUpTo(table: map<string, string>, post: map<string, string>, executes: string -> bool, n: nat)
    : map<string, string>
    requires n <= |SettingKeys|
  {
    if n == 0 then table
    else
      var before := UpsertedUpTo(table, post, executes, n - 1);
      var key := SettingKeys[n - 1];
      if executes(key) then before[key := FormValue(post, key)] else before
  }

  /** The keys among the first `n` whose statement ran. */
  function Written(executes: string -> bool, n: nat): set<string>
    requires n <= |SettingKeys|
  {
    set j | 0 <= j < n && executes(SettingKeys[j]) :: SettingKeys[j]
  }

  lemma {:induction false} UpsertedUpToKey(table: map<string, string>, post: map<string, string>,
                                           executes: string -> bool, n: nat, k: string)
    requires n <= |SettingKeys|
    ensures k in UpsertedUpTo(table, post, executes, n) <==> k in table || k in Written(executes, n)
    ensures k in Written(executes, n) ==> UpsertedUpTo(table, post, executes, n)[k] == FormValue(post, k)
    ensures k !in Written(executes, n) && k in table ==> UpsertedUpTo(table, post, executes, n)[k] == table[k]
  {
    if n > 0 {
      UpsertedUpToKey(table, post, executes, n - 1, k);
      var key := SettingKeys[n - 1];
      assert Written(executes, n) == Written(executes, n - 1) + (if executes(key) then {key} else {});
    }
  }

  /** Once every key is done, the loop's table is the upserted one. */
  lemma LoopUpsertsEveryKey(table: map<string, string>, post: map<string, string>, executes: string -> bool)
    ensures UpsertedUpTo(table, post, executes, |SettingKeys|) == Upserted(table, post, executes)
  {
    var done := UpsertedUpTo(table, post, executes, |SettingKeys|);
    var r := Upserted(table, post, executes);
    assert Written(executes, |SettingKeys|) == RunKeys(executes);
    forall k
      ensures k in done <==> k in r
      ensures k in r ==> done[k] == r[k]
    {
      UpsertedUpToKey(table, post, executes, |SettingKeys|, k);
    }
  }

  /** The upsert loop: one INSERT ... ON DUPLICATE KEY UPDATE per key,
      whose result (`executes(key)`) is not looked at. */
  method SaveSettings(db: Db, post: map<string, string>, executes: string -> bool)
    modifies db`emailSettings
    ensures db.emailSettings == Upserted(old(db.emailSettings), post, executes)
  {
    var table := db.emailSettings;
    var i := 0;
    while i < |SettingKeys|
      invariant 0 <= i <= |SettingKeys|
      invariant table == UpsertedUpTo(db.emailSettings, post, executes, i)
    {
      var key := SettingKeys[i];
      if executes(key) {
        table := table[key := FormValue(post, key)];
      }
      i := i + 1;
    }
    LoopUpsertsEveryKey(db.emailSettings, post, executes);
    db.emailSettings := table;
  }

  /** The whole request: a POST saves and reports success, whichever
      statements ran; then the page reads back `rows`, the answer of the
      SELECT, into the map it shows. */
  method HandleEmailSettings(sess: Session, db: Db, post: Option<map<string, string>>, executes: string -> bool,
                             rows: seq<SettingRow>)
    returns (resp: Response, current: map<string, string>)
    requires sess.IsAdmin() ==>
      Lists(rows, if post.Some? then Upserted(db.emailSettings, post.value, executes) else db.emailSettings)
    modifies db`emailSettings
    ensures !sess.IsAdmin() ==> resp == Redirect(LoginPage) && db.emailSettings == old(db.emailSettings)
    ensures sess.IsAdmin() ==> current == db.emailSettings
    ensures sess.IsAdmin() && post.None? ==> resp == Page(None, None) && db.emailSettings == old(db.emailSettings)
    ensures sess.IsAdmin() && post.Some? ==>
      resp == Page(Some(Saved), None) && db.emailSettings == Upserted(old(db.emailSettings), post.value, executes)
  {
    if !sess.IsAdmin() {
      return Redirect(LoginPage), map[];
    }
    resp := Page(None, None);
    if post.Some? {
      SaveSettings(db, post.value, executes);
      resp := Page(Some(Saved), None);
    }
    current := ReadSettings(rows);
    ReadBackIsTheTable(rows, db.emailSettings);
  }
}
