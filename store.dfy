/**
 * The rows of the database the route handlers use (Prisma over MongoDB),
 * and the tables that only the resource routes and the account deletion
 * touch. Each table is an object holding its rows in insertion order and
 * the next id to hand out, so that a handler's frame names exactly the
 * Prisma models it writes. Ids are natural numbers standing for
 * MongoDB's object ids.
 */
module Store {
  import opened Wrappers
  import opened OtpPurpose
  import opened Seqs

  /** The role a new user row receives; the Prisma schema that sets it is not part of this model. */
  const DefaultRole: string := "USER"

  datatype User = User(
    id: nat,
    email: string,
    password: string,
    name: string,
    role: string,
    emailVerified: bool,
    resetToken: Option<string>,
    resetTokenExpiry: Option<int>,
    createdAt: int)

  /** A row of the `emailOTP` table; `userId` is set only by forgot-password. */
  datatype OtpRow = OtpRow(
    id: nat,
    email: string,
    otp: string,
    purpose: Purpose,
    expiresAt: int,
    verified: bool,
    userId: Option<nat>)

  datatype CategoryType = Income | Expense

  datatype Category = Category(id: nat, name: string, kind: CategoryType, color: string, icon: string, userId: nat)

  /** The data of a category before `create` gives it an id and an owner. */
  datatype CategoryDraft = CategoryDraft(name: string, kind: CategoryType, color: string, icon: string)

  /** The rows `category.createMany` inserts: consecutive ids from `firstId`, all owned by `userId`. */
  function Numbered(drafts: seq<CategoryDraft>, firstId: nat, userId: nat): seq<Category>
  {
    seq(|drafts|, k requires 0 <= k < |drafts| =>
      Category(firstId + k, drafts[k].name, drafts[k].kind, drafts[k].color, drafts[k].icon, userId))
  }

  datatype UserSettings = UserSettings(
    id: nat,
    userId: nat,
    emailNotifications: bool,
    transactionAlerts: bool,
    monthlyReports: bool,
    budgetAlerts: bool,
    currency: string,
    dateFormat: string,
    theme: string,
    language: string)

  datatype TransactionType = IncomeTransaction | ExpenseTransaction | Transfer

  /** A transaction; amounts are integers (for example cents). */
  datatype Transaction = Transaction(
    id: nat,
    userId: nat,
    amount: int,
    description: Option<string>,
    date: int,
    kind: TransactionType,
    categoryId: nat,
    fromAssetId: Option<nat>,
    toAssetId: Option<nat>)

  datatype Asset = Asset(id: nat, userId: nat, name: string, balance: int)

  /** A receivable, payable or liability: only its owner matters here. */
  datatype Owned = Owned(id: nat, userId: nat)

  // The unique columns of each table, as relations every two rows satisfy.

  predicate DistinctUsers(a: User, b: User) { a.id != b.id && a.email != b.email }

  predicate DistinctOtpIds(a: OtpRow, b: OtpRow) { a.id != b.id }

  predicate DistinctSettings(a: UserSettings, b: UserSettings) { a.id != b.id && a.userId != b.userId }

  predicate DistinctCategories(a: Category, b: Category) { a.id != b.id }

  predicate DistinctTransactions(a: Transaction, b: Transaction) { a.id != b.id }

  predicate DistinctAssets(a: Asset, b: Asset) { a.id != b.id }

  /** `id` and `email` of `User` are unique. */
  ghost predicate UsersUnique(users: seq<User>) { Pairwise(users, DistinctUsers) }

  ghost predicate OtpIdsUnique(otps: seq<OtpRow>) { Pairwise(otps, DistinctOtpIds) }

  /** `id` and `userId` of `UserSettings` are unique (`findUnique({ where: { userId } })`). */
  ghost predicate SettingsUnique(settings: seq<UserSettings>) { Pairwise(settings, DistinctSettings) }

  /** The row of one user: the `where: { userId }` of the settings queries. */
  function SettingsOf(userId: nat): UserSettings -> bool
  {
    (s: UserSettings) => s.userId == userId
  }

  ghost predicate AssetsUnique(assets: seq<Asset>) { Pairwise(assets, DistinctAssets) }

  class Categories {
    var rows: seq<Category>
    var nextId: nat

    ghost predicate Valid()
      reads this
    {
      Pairwise(rows, DistinctCategories) && forall c :: c in rows ==> c.id < nextId
    }

    constructor ()
      ensures Valid() && rows == []
    {
      rows, nextId := [], 0;
    }

    /** `category.create`: appends the category under a fresh id. */
    method Create(draft: CategoryDraft, userId: nat) returns (c: Category)
      requires Valid()
      modifies this
      ensures Valid()
      ensures c == Category(old(nextId), draft.name, draft.kind, draft.color, draft.icon, userId)
      ensures rows == old(rows) + [c] && nextId == old(nextId) + 1
    {
      c := Category(nextId, draft.name, draft.kind, draft.color, draft.icon, userId);
      PairwiseSnoc(rows, c, DistinctCategories);
      rows := rows + [c];
      nextId := nextId + 1;
    }

    /** `category.createMany`: appends the drafts, in order, under fresh consecutive ids. */
    method CreateMany(drafts: seq<CategoryDraft>, userId: nat)
      requires Valid()
      modifies this
      ensures Valid()
      ensures rows == old(rows) + Numbered(drafts, old(nextId), userId)
      ensures nextId == old(nextId) + |drafts|
    {
      var added := Numbered(drafts, nextId, userId);
      assert Pairwise(added, DistinctCategories);
      PairwiseConcat(rows, added, DistinctCategories);
      rows := rows + added;
      nextId := nextId + |drafts|;
    }
  }

  class SettingsRows {
    var rows: seq<UserSettings>
    var nextId: nat

    ghost predicate Valid()
      reads this
    {
      SettingsUnique(rows) && forall s :: s in rows ==> s.id < nextId
    }

    constructor ()
      ensures Valid() && rows == []
    {
      rows, nextId := [], 0;
    }

    /** `userSettings.create`; `userId` is a unique column, so only a user without a row gets one. */
    method Create(draft: UserSettings) returns (row: UserSettings)
      requires Valid()
      requires forall s :: s in rows ==> s.userId != draft.userId
      modifies this
      ensures Valid()
      ensures row == draft.(id := old(nextId))
      ensures rows == old(rows) + [row] && nextId == old(nextId) + 1
    {
      row := draft.(id := nextId);
      PairwiseSnoc(rows, row, DistinctSettings);
      rows := rows + [row];
      nextId := nextId + 1;
    }

    /** `userSettings.update({ where: { userId }, data })`, where `change` writes `data` and keeps both keys. */
    method Update(userId: nat, change: UserSettings -> UserSettings)
      requires Valid()
      requires forall s :: change(s).id == s.id && change(s).userId == s.userId
      modifies this
      ensures Valid()
      ensures rows == UpdateWhere(old(rows), SettingsOf(userId), change) && nextId == old(nextId)
    {
      var updated := UpdateWhere(rows, SettingsOf(userId), change);
      assert forall k :: 0 <= k < |rows| ==> updated[k].id == rows[k].id && updated[k].userId == rows[k].userId;
      assert SettingsUnique(updated) by {
        forall a, b | 0 <= a < b < |updated| ensures DistinctSettings(updated[a], updated[b]) {
          assert DistinctSettings(rows[a], rows[b]);
        }
      }
      assert forall s :: s in updated ==> s.id < nextId by {
        forall s | s in updated ensures s.id < nextId {
          var k :| 0 <= k < |updated| && updated[k] == s;
          assert rows[k] in rows;
        }
      }
      rows := updated;
    }
  }

  class Transactions {
    var rows: seq<Transaction>
    var nextId: nat

    ghost predicate Valid()
      reads this
    {
      Pairwise(rows, DistinctTransactions) && forall t :: t in rows ==> t.id < nextId
    }

    constructor ()
      ensures Valid() && rows == []
    {
      rows, nextId := [], 0;
    }

    /** `transaction.create`: appends the row under a fresh id. */
    method Create(draft: Transaction) returns (t: Transaction)
      requires Valid()
      modifies this
      ensures Valid()
      ensures t == draft.(id := old(nextId))
      ensures rows == old(rows) + [t] && nextId == old(nextId) + 1
    {
      t := draft.(id := nextId);
      PairwiseSnoc(rows, t, DistinctTransactions);
      rows := rows + [t];
      nextId := nextId + 1;
    }
  }

  /** Some row carries the id. */
  predicate HasAsset(assets: seq<Asset>, id: nat)
  {
    exists k :: 0 <= k < |assets| && assets[k].id == id
  }

  /**
   * `asset.update({ where: { id }, data: { balance: { increment: delta } } })`
   * on the rows: the row with the id gains `delta`, a decrement being a
   * negative `delta`, and every other row is kept.
   */
  function Adjusted(assets: seq<Asset>, id: nat, delta: int): (r: seq<Asset>)
    ensures |r| == |assets|
    ensures forall k :: 0 <= k < |assets| ==> r[k] == assets[k].(balance := r[k].balance)
    ensures forall k :: 0 <= k < |assets| && assets[k].id == id ==> r[k].balance == assets[k].balance + delta
    ensures forall k :: 0 <= k < |assets| && assets[k].id != id ==> r[k] == assets[k]
  {
    seq(|assets|, k requires 0 <= k < |assets| =>
      if assets[k].id == id then assets[k].(balance := assets[k].balance + delta) else assets[k])
  }

  class Assets {
    var rows: seq<Asset>

    ghost predicate Valid()
      reads this
    {
      AssetsUnique(rows)
    }

    constructor ()
      ensures Valid() && rows == []
    {
      rows := [];
    }

    /** `asset.update({ where: { id }, data: { balance: { increment: delta } } })`; `found` is false when no row has the id. */
    method Adjust(id: nat, delta: int) returns (found: bool)
      requires Valid()
      modifies this
      ensures Valid()
      ensures found == HasAsset(old(rows), id)
      ensures rows == Adjusted(old(rows), id, delta)
    {
      found := HasAsset(rows, id);
      var updated := Adjusted(rows, id, delta);
      assert AssetsUnique(updated) by {
        forall a, b | 0 <= a < b < |updated| ensures DistinctAssets(updated[a], updated[b]) {
          assert DistinctAssets(rows[a], rows[b]);
        }
      }
      rows := updated;
    }
  }

  /** The receivables, payables or liabilities table. */
  class OwnedRows {
    var rows: seq<Owned>

    constructor ()
      ensures rows == []
    {
      rows := [];
    }
  }
}
