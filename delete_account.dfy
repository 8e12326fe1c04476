/**
 * app/api/auth/delete-account/route.ts: `DELETE` removes the caller's
 * rows from the seven tables that hold a `userId`, then the caller's user
 * row, all inside one transaction.
 */
module DeleteAccountRoute {
  import opened Wrappers
  import opened Seqs
  import opened Store
  import opened UserTable
  import opened Http

  const Unauthorized: string := "Unauthorized"
  const InternalError: string := "Internal server error"
  const Deleted: string := "Account deleted successfully"

  /** The statements of the transaction, in the order they run. */
  datatype Step =
    | DeleteSettings
    | DeleteTransactions
    | DeleteReceivables
    | DeletePayables
    | DeleteAssets
    | DeleteLiabilities
    | DeleteCategories
    | DeleteUser

  function SettingsKept(userId: nat): UserSettings -> bool { (s: UserSettings) => s.userId != userId }

  function TransactionKept(userId: nat): Transaction -> bool { (t: Transaction) => t.userId != userId }

  function OwnedKept(userId: nat): Owned -> bool { (o: Owned) => o.userId != userId }

  function AssetKept(userId: nat): Asset -> bool { (a: Asset) => a.userId != userId }

  function CategoryKept(userId: nat): Category -> bool { (c: Category) => c.userId != userId }

  /** The transaction commits: no statement throws, and `user.delete` finds its row. */
  predicate Commits(users: seq<User>, userId: nat, fault: Option<Step>)
  {
    fault.None? && exists u :: u in users && u.id == userId
  }

  /** The tables the transaction writes, as values. */
  datatype Tables = Tables(
    settings: seq<UserSettings>,
    transactions: seq<Transaction>,
    receivables: seq<Owned>,
    payables: seq<Owned>,
    assets: seq<Asset>,
    liabilities: seq<Owned>,
    categories: seq<Category>,
    users: seq<User>)

  /** The tables once every row of `userId`, and then its user row, are gone. */
  function WithoutAccount(t: Tables, userId: nat): (r: Tables)
    ensures forall x :: x in r.settings <==> x in t.settings && x.userId != userId
    ensures forall x :: x in r.transactions <==> x in t.transactions && x.userId != userId
    ensures forall x :: x in r.receivables <==> x in t.receivables && x.userId != userId
    ensures forall x :: x in r.payables <==> x in t.payables && x.userId != userId
    ensures forall x :: x in r.assets <==> x in t.assets && x.userId != userId
    ensures forall x :: x in r.liabilities <==> x in t.liabilities && x.userId != userId
    ensures forall x :: x in r.categories <==> x in t.categories && x.userId != userId
    ensures forall x :: x in r.users <==> x in t.users && x.id != userId
  {
    Tables(
      Filter(t.settings, SettingsKept(userId)),
      Filter(t.transactions, TransactionKept(userId)),
      Filter(t.receivables, OwnedKept(userId)),
      Filter(t.payables, OwnedKept(userId)),
      Filter(t.assets, AssetKept(userId)),
      Filter(t.liabilities, OwnedKept(userId)),
      Filter(t.categories, CategoryKept(userId)),
      WithoutUser(t.users, userId))
  }

  /**
   * The callback of `$transaction`, run against the transaction's own view
   * of the tables: the eight statements in order, stopping at the one that
   * throws. Its result is what the transaction would commit.
   */
  method RunTransaction(before: Tables, userId: nat, fault: Option<Step>) returns (after: Option<Tables>)
    ensures after.None? <==> !Commits(before.users, userId, fault)
    ensures after.Some? ==> after.value == WithoutAccount(before, userId)
  {
    var tx := before;
    if fault == Some(DeleteSettings) {
      return None;
    }
    tx := tx.(settings := Filter(tx.settings, SettingsKept(userId)));
    if fault == Some(DeleteTransactions) {
      return None;
    }
    tx := tx.(transactions := Filter(tx.transactions, TransactionKept(userId)));
    if fault == Some(DeleteReceivables) {
      return None;
    }
    tx := tx.(receivables := Filter(tx.receivables, OwnedKept(userId)));
    if fault == Some(DeletePayables) {
      return None;
    }
    tx := tx.(payables := Filter(tx.payables, OwnedKept(userId)));
    if fault == Some(DeleteAssets) {
      return None;
    }
    tx := tx.(assets := Filter(tx.assets, AssetKept(userId)));
    if fault == Some(DeleteLiabilities) {
      return None;
    }
    tx := tx.(liabilities := Filter(tx.liabilities, OwnedKept(userId)));
    if fault == Some(DeleteCategories) {
      return None;
    }
    tx := tx.(categories := Filter(tx.categories, CategoryKept(userId)));
    // `user.delete` throws when no row has the id.
    var found := FindById(tx.users, userId);
    assert fault.Some? ==> fault.value == DeleteUser;
    if fault == Some(DeleteUser) || found.None? {
      return None;
    }
    assert tx.users[found.value] in before.users;
    tx := tx.(users := WithoutUser(tx.users, userId));
    after := Some(tx);
  }

  /** The commit of the transaction: every table takes the value the transaction computed. */
  method Commit(id: nat, users: Users, settings: SettingsRows, transactions: Transactions, receivables: OwnedRows,
                payables: OwnedRows, assets: Assets, liabilities: OwnedRows, categories: Categories)
    requires users.Valid() && settings.Valid() && transactions.Valid() && assets.Valid() && categories.Valid()
    requires receivables != payables && receivables != liabilities && payables != liabilities
    modifies users, settings, transactions, receivables, payables, assets, liabilities, categories
    ensures users.Valid() && settings.Valid() && transactions.Valid() && assets.Valid() && categories.Valid()
    ensures Tables(settings.rows, transactions.rows, receivables.rows, payables.rows, assets.rows, liabilities.rows,
                   categories.rows, users.rows)
            == WithoutAccount(Tables(old(settings.rows), old(transactions.rows), old(receivables.rows),
                                     old(payables.rows), old(assets.rows), old(liabilities.rows),
                                     old(categories.rows), old(users.rows)), id)
  {
    PairwiseFilter(settings.rows, DistinctSettings, SettingsKept(id));
    PairwiseFilter(transactions.rows, DistinctTransactions, TransactionKept(id));
    PairwiseFilter(assets.rows, DistinctAssets, AssetKept(id));
    PairwiseFilter(categories.rows, DistinctCategories, CategoryKept(id));
    settings.rows := Filter(settings.rows, SettingsKept(id));
    transactions.rows := Filter(transactions.rows, TransactionKept(id));
    receivables.rows := Filter(receivables.rows, OwnedKept(id));
    payables.rows := Filter(payables.rows, OwnedKept(id));
    assets.rows := Filter(assets.rows, AssetKept(id));
    liabilities.rows := Filter(liabilities.rows, OwnedKept(id));
    categories.rows := Filter(categories.rows, CategoryKept(id));
    var _ := users.Delete(id);
  }

  /**
   * `DELETE`; `caller` is the identity `getUserFromRequest` extracts from
   * the request, and `fault` the statement of the transaction that throws,
   * if one does. The tables change only if the transaction commits.
   */
  method Delete(caller: Option<Claims>, fault: Option<Step>, users: Users, settings: SettingsRows,
                transactions: Transactions, receivables: OwnedRows, payables: OwnedRows, assets: Assets,
                liabilities: OwnedRows, categories: Categories)
    returns (r: Response<Message>)
    requires users.Valid() && settings.Valid() && transactions.Valid() && assets.Valid() && categories.Valid()
    requires receivables != payables && receivables != liabilities && payables != liabilities
    modifies users, settings, transactions, receivables, payables, assets, liabilities, categories
    ensures users.Valid() && settings.Valid() && transactions.Valid() && assets.Valid() && categories.Valid()
    ensures caller.None? ==> r == Response(401, Error(Unauthorized))
    ensures caller.Some? && !Commits(old(users.rows), caller.value.userId, fault) ==> r == Response(500, Error(InternalError))
    ensures r.status != 200 ==>
      unchanged(users, settings, transactions, receivables, payables, assets, liabilities, categories)
    ensures caller.Some? && Commits(old(users.rows), caller.value.userId, fault) ==>
      && Tables(settings.rows, transactions.rows, receivables.rows, payables.rows, assets.rows, liabilities.rows,
                categories.rows, users.rows)
         == WithoutAccount(Tables(old(settings.rows), old(transactions.rows), old(receivables.rows), old(payables.rows),
                                  old(assets.rows), old(liabilities.rows), old(categories.rows), old(users.rows)),
                           caller.value.userId)
      && r == Response(200, Ok(Message(Deleted)))
  {
    if caller.None? {
      return Response(401, Error(Unauthorized));
    }
    var id := caller.value.userId;
    var before := Tables(settings.rows, transactions.rows, receivables.rows, payables.rows, assets.rows,
                         liabilities.rows, categories.rows, users.rows);
    var after := RunTransaction(before, id, fault);
    if after.None? {
      return Response(500, Error(InternalError));
    }
    Commit(id, users, settings, transactions, receivables, payables, assets, liabilities, categories);
    r := Response(200, Ok(Message(Deleted)));
  }
}
