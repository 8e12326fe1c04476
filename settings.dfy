/**
 * app/api/settings/route.ts: `GET` reports the caller's settings, or the
 * defaults when the caller has no row; `PUT` creates the row with those
 * defaults when it is missing, then overwrites one of its two groups of
 * fields.
 */
module SettingsRoute {
  import opened Wrappers
  import opened Seqs
  import opened Store
  import opened Http

  const UnauthorizedError: string := "Unauthorized"
  const InvalidInput: string := "Invalid input data"
  const UpdatedMessage: string := "Settings updated successfully"

  datatype Notifications = Notifications(emailNotifications: bool, transactionAlerts: bool, monthlyReports: bool, budgetAlerts: bool)

  datatype AppPreferences = AppPreferences(currency: string, dateFormat: string, theme: string, language: string)

  /** `{ notifications, app }`, the body of a `GET`. */
  datatype SettingsView = SettingsView(notifications: Notifications, app: AppPreferences)

  /** A `PUT` body that passed `updateSettingsSchema`: the group named by `type`, with its four fields. */
  datatype SettingsChange = NotificationsChange(notifications: Notifications) | AppChange(app: AppPreferences)

  /** The settings `GET` reports for a user without a row. */
  const DefaultView: SettingsView :=
    SettingsView(Notifications(true, true, false, true), AppPreferences("USD", "MM/DD/YYYY", "system", "en"))

  /** The eight columns of a row, grouped as `GET` reports them. */
  function View(s: UserSettings): SettingsView
  {
    SettingsView(Notifications(s.emailNotifications, s.transactionAlerts, s.monthlyReports, s.budgetAlerts),
                 AppPreferences(s.currency, s.dateFormat, s.theme, s.language))
  }

  /** `userSettings.findUnique({ where: { userId } })`. */
  function FindSettings(rows: seq<UserSettings>, userId: nat): (r: Option<nat>)
    ensures r.Some? ==> r.value < |rows| && rows[r.value].userId == userId
    ensures r.None? <==> forall s :: s in rows ==> s.userId != userId
  {
    FirstIndex(rows, SettingsOf(userId))
  }

  /** With `userId` unique, the row found is the user's only row. */
  lemma FindSettingsUnique(rows: seq<UserSettings>, k: nat)
    requires SettingsUnique(rows) && k < |rows|
    ensures FindSettings(rows, rows[k].userId) == Some(k)
  {
    var r := FindSettings(rows, rows[k].userId);
    if r.value < k {
      assert false;
    }
  }

  /** `GET`: 401 without a caller, otherwise 200 with the caller's row or the defaults. */
  function Get(rows: seq<UserSettings>, caller: Option<Claims>): (r: Response<SettingsView>)
    ensures caller.None? ==> r == Response(401, Error(UnauthorizedError))
    ensures caller.Some? && (forall s :: s in rows ==> s.userId != caller.value.userId) ==>
      r == Response(200, Ok(DefaultView))
    ensures caller.Some? && SettingsUnique(rows) ==>
      forall s :: s in rows && s.userId == caller.value.userId ==> r == Response(200, Ok(View(s)))
  {
    if caller.None? then Response(401, Error(UnauthorizedError))
    else
      match FindSettings(rows, caller.value.userId)
      case None => Response(200, Ok(DefaultView))
      case Some(k) =>
        assert forall s :: s in rows && s.userId == caller.value.userId && SettingsUnique(rows) ==> s == rows[k] by {
          forall s | s in rows && s.userId == caller.value.userId && SettingsUnique(rows) ensures s == rows[k] {
            var j :| 0 <= j < |rows| && rows[j] == s;
            FindSettingsUnique(rows, j);
          }
        }
        Response(200, Ok(View(rows[k])))
  }

  /** The row `PUT` creates for a user without one, before `create` gives it an id: it holds the defaults `GET` reports. */
  function DefaultRow(userId: nat): (r: UserSettings)
    ensures r.userId == userId && View(r) == DefaultView
  {
    UserSettings(0, userId, true, true, false, true, "USD", "MM/DD/YYYY", "system", "en")
  }

  /** `updateData` written over a row: only the group of the change moves, and the keys stay. */
  function Patch(s: UserSettings, change: SettingsChange): (r: UserSettings)
    ensures r.id == s.id && r.userId == s.userId
    ensures change.NotificationsChange? ==> View(r) == View(s).(notifications := change.notifications)
    ensures change.AppChange? ==> View(r) == View(s).(app := change.app)
  {
    match change
    case NotificationsChange(n) =>
      s.(emailNotifications := n.emailNotifications, transactionAlerts := n.transactionAlerts,
         monthlyReports := n.monthlyReports, budgetAlerts := n.budgetAlerts)
    case AppChange(a) =>
      s.(currency := a.currency, dateFormat := a.dateFormat, theme := a.theme, language := a.language)
  }

  function Apply(change: SettingsChange): UserSettings -> UserSettings
  {
    (s: UserSettings) => Patch(s, change)
  }

  /** The table once the caller has a row: unchanged, or with a default row under id `nextId`. */
  function WithRowFor(rows: seq<UserSettings>, nextId: nat, userId: nat): seq<UserSettings>
  {
    if FindSettings(rows, userId).Some? then rows else rows + [DefaultRow(userId).(id := nextId)]
  }

  /** The table after a `PUT` of `change` by `userId`. */
  function AfterPut(rows: seq<UserSettings>, nextId: nat, userId: nat, change: SettingsChange): (r: seq<UserSettings>)
    ensures |r| == |rows| + (if FindSettings(rows, userId).Some? then 0 else 1)
    ensures forall k :: 0 <= k < |rows| && rows[k].userId != userId ==> r[k] == rows[k]
    ensures forall k :: 0 <= k < |r| ==> r[k].userId == (if k < |rows| then rows[k].userId else userId)
  {
    UpdateWhere(WithRowFor(rows, nextId, userId), SettingsOf(userId), Apply(change))
  }

  /** What `GET` reports after a change: the earlier report with the changed group replaced. */
  function Changed(view: SettingsView, change: SettingsChange): SettingsView
  {
    match change
    case NotificationsChange(n) => view.(notifications := n)
    case AppChange(a) => view.(app := a)
  }

  /** `GET` for a caller depends only on that caller's rows. */
  lemma {:induction false} GetReadsOwnRows(a: seq<UserSettings>, b: seq<UserSettings>, caller: Claims)
    requires SettingsUnique(a) && SettingsUnique(b)
    requires forall s: UserSettings :: s.userId == caller.userId ==> (s in a <==> s in b)
    ensures Get(a, Some(caller)) == Get(b, Some(caller))
  {
    match FindSettings(a, caller.userId)
    case None =>
    case Some(k) =>
      assert a[k] in a;
  }

  /** Making sure the caller has a row keeps both keys unique and leaves the other users' rows alone. */
  lemma WithRowForShape(rows: seq<UserSettings>, nextId: nat, caller: Claims)
    requires SettingsUnique(rows) && forall s :: s in rows ==> s.id < nextId
    ensures SettingsUnique(WithRowFor(rows, nextId, caller.userId))
    ensures FindSettings(WithRowFor(rows, nextId, caller.userId), caller.userId).Some?
    ensures var mid := WithRowFor(rows, nextId, caller.userId);
      View(mid[FindSettings(mid, caller.userId).value]) == Get(rows, Some(caller)).body.value
    ensures forall s: UserSettings :: s.userId != caller.userId ==> (s in WithRowFor(rows, nextId, caller.userId) <==> s in rows)
  {
    var mid := WithRowFor(rows, nextId, caller.userId);
    if FindSettings(rows, caller.userId).None? {
      PairwiseSnoc(rows, DefaultRow(caller.userId).(id := nextId), DistinctSettings);
      assert mid[|rows|] in mid;
    } else {
      var k := FindSettings(rows, caller.userId).value;
      assert rows[k] in rows;
    }
  }

  /** Writing the change over the caller's row keeps both keys unique and leaves the other users' rows alone. */
  lemma UpdateShape(mid: seq<UserSettings>, userId: nat, change: SettingsChange)
    requires SettingsUnique(mid) && FindSettings(mid, userId).Some?
    ensures SettingsUnique(UpdateWhere(mid, SettingsOf(userId), Apply(change)))
    ensures var after := UpdateWhere(mid, SettingsOf(userId), Apply(change));
      var k := FindSettings(mid, userId).value;
      k < |after| && after[k] == Patch(mid[k], change) && after[k].userId == userId
    ensures forall s: UserSettings :: s.userId != userId ==> (s in UpdateWhere(mid, SettingsOf(userId), Apply(change)) <==> s in mid)
  {
    var after := UpdateWhere(mid, SettingsOf(userId), Apply(change));
    assert forall j :: 0 <= j < |mid| ==> after[j].userId == mid[j].userId && after[j].id == mid[j].id;
    assert SettingsUnique(after) by {
      forall a, b | 0 <= a < b < |after| ensures DistinctSettings(after[a], after[b]) {
        assert DistinctSettings(mid[a], mid[b]);
      }
    }
    forall s: UserSettings | s.userId != userId ensures s in after <==> s in mid {
      if s in after {
        var j :| 0 <= j < |after| && after[j] == s;
        assert mid[j] == s;
      }
      if s in mid {
        var j :| 0 <= j < |mid| && mid[j] == s;
        assert after[j] == s;
      }
    }
  }

  /**
   * A `PUT` followed by a `GET`: the caller sees its earlier settings (or
   * the defaults) with exactly the changed group replaced, and every other
   * user sees what it saw before.
   */
  lemma GetAfterPut(rows: seq<UserSettings>, nextId: nat, caller: Claims, other: Claims, change: SettingsChange)
    requires SettingsUnique(rows) && forall s :: s in rows ==> s.id < nextId
    requires other.userId != caller.userId
    ensures Get(AfterPut(rows, nextId, caller.userId, change), Some(caller)) ==
      Response(200, Ok(Changed(Get(rows, Some(caller)).body.value, change)))
    ensures Get(AfterPut(rows, nextId, caller.userId, change), Some(other)) == Get(rows, Some(other))
  {
    var mid := WithRowFor(rows, nextId, caller.userId);
    var after := AfterPut(rows, nextId, caller.userId, change);
    WithRowForShape(rows, nextId, caller);
    UpdateShape(mid, caller.userId, change);
    var k := FindSettings(mid, caller.userId).value;
    assert after[k] in after;
    GetReadsOwnRows(after, rows, other);
  }

  /**
   * `PUT`: the caller and the body are checked before any write; then the
   * missing row is created and the change written over it.
   */
  method Put(settings: SettingsRows, caller: Option<Claims>, change: Option<SettingsChange>)
    returns (r: Response<Message>)
    requires settings.Valid()
    modifies settings
    ensures settings.Valid()
    ensures caller.None? ==> r == Response(401, Error(UnauthorizedError)) && unchanged(settings)
    ensures caller.Some? && change.None? ==> r == Response(400, Error(InvalidInput)) && unchanged(settings)
    ensures caller.Some? && change.Some? ==>
      && r == Response(200, Ok(Message(UpdatedMessage)))
      && settings.rows == AfterPut(old(settings.rows), old(settings.nextId), caller.value.userId, change.value)
  {
    if caller.None? {
      return Response(401, Error(UnauthorizedError));
    }
    if change.None? {
      return Response(400, Error(InvalidInput));
    }
    var userId := caller.value.userId;
    var existing := FindSettings(settings.rows, userId);
    if existing.None? {
      var _ := settings.Create(DefaultRow(userId));
    }
    settings.Update(userId, Apply(change.value));
    r := Response(200, Ok(Message(UpdatedMessage)));
  }
}
