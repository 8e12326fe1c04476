/**
 * app/api/transactions/route.ts: `GET` lists one page of the caller's
 * transactions, newest first, under a filter built from the query string;
 * `POST` records a transaction in one of the caller's categories and, for
 * a transfer between two assets, moves the amount from one to the other.
 */
module TransactionsRoute {
  import opened Wrappers
  import opened Seqs
  import opened Strings
  import opened Decimal
  import opened Store
  import opened Http

  const UnauthorizedError: string := "Unauthorized"
  const InvalidData: string := "Invalid data"
  const CategoryNotFound: string := "Category not found"
  const InternalError: string := "Internal server error"

  /** `searchParams.get(name) || fallback`: a missing or empty parameter gives the fallback. */
  function ParamOr(param: Option<string>, fallback: string): string
  {
    if param.None? || param.value == "" then fallback else param.value
  }

  /** The name Prisma gives a `TransactionType`. */
  function KindName(kind: TransactionType): string
  {
    match kind
    case IncomeTransaction => "INCOME"
    case ExpenseTransaction => "EXPENSE"
    case Transfer => "TRANSFER"
  }

  /** The `where` object of `GET`: the owner always, each other key only when its parameter asks for it. */
  datatype Where = Where(userId: nat, search: Option<string>, kind: Option<string>, categoryId: Option<string>)

  function BuildWhere(userId: nat, searchParam: Option<string>, typeParam: Option<string>, categoryParam: Option<string>): (w: Where)
    ensures w.userId == userId
    ensures w.search.Some? <==> searchParam.Some? && searchParam.value != ""
    ensures w.search.Some? ==> w.search == searchParam
    ensures w.kind.Some? <==> typeParam.Some? && typeParam.value !in {"", "ALL"}
    ensures w.kind.Some? ==> w.kind == typeParam
    ensures w.categoryId.Some? <==> categoryParam.Some? && categoryParam.value !in {"", "ALL"}
    ensures w.categoryId.Some? ==> w.categoryId == categoryParam
  {
    var search := ParamOr(searchParam, "");
    var kind := ParamOr(typeParam, "ALL");
    var categoryId := ParamOr(categoryParam, "ALL");
    Where(userId,
          if search != "" then Some(search) else None,
          if kind != "ALL" then Some(kind) else None,
          if categoryId != "ALL" then Some(categoryId) else None)
  }

  /** `contains` with `mode: 'insensitive'`, folding ASCII letters. */
  predicate ContainsInsensitive(s: string, search: string)
  {
    Contains(ToLower(s), ToLower(search))
  }

  /** The transaction's category is a row whose name contains the search. */
  predicate CategoryNameMatches(categories: seq<Category>, categoryId: nat, search: string)
  {
    exists c :: c in categories && c.id == categoryId && ContainsInsensitive(c.name, search)
  }

  /**
   * The rows the `where` selects; the category parameter is compared with
   * the decimal form of the id.
   */
  predicate Selected(w: Where, categories: seq<Category>, t: Transaction)
    ensures Selected(w, categories, t) ==> t.userId == w.userId
    ensures w.search.None? && w.kind.None? && w.categoryId.None? ==> (Selected(w, categories, t) <==> t.userId == w.userId)
  {
    && t.userId == w.userId
    && (w.search.None? ||
        (t.description.Some? && ContainsInsensitive(t.description.value, w.search.value)) ||
        CategoryNameMatches(categories, t.categoryId, w.search.value))
    && (w.kind.None? || KindName(t.kind) == w.kind.value)
    && (w.categoryId.None? || DecimalString(t.categoryId) == w.categoryId.value)
  }

  function Selects(w: Where, categories: seq<Category>): Transaction -> bool
  {
    (t: Transaction) => Selected(w, categories, t)
  }

  /** `orderBy: { date: 'desc' }`. */
  function NewestFirst(): (Transaction, Transaction) -> bool
  {
    (a: Transaction, b: Transaction) => a.date >= b.date
  }

  /** `Math.ceil(total / limit)` for a non-zero `limit`: the least integer at or above the quotient. */
  function CeilDiv(total: nat, limit: int): (r: int)
    requires limit != 0
    ensures limit > 0 ==> (r - 1) * limit < total <= r * limit
    ensures limit < 0 ==> r * limit <= total < (r - 1) * limit
  {
    if limit > 0 then
      var q := (total + limit - 1) / limit;
      assert q * limit <= total + limit - 1 < (q + 1) * limit;
      q
    else
      var q := total / -limit;
      assert q * -limit <= total < (q + 1) * -limit;
      -q
  }

  /** Where the window of `skip`/`take` over `len` rows starts and ends. */
  function WindowBounds(len: nat, skip: nat, take: int): (b: (nat, nat))
    ensures b.0 <= b.1 <= len
  {
    if take >= 0 then
      if skip >= len then (len, len) else (skip, skip + Min(take, len - skip))
    else
      var end := if skip >= len then 0 else len - skip;
      (end - Min(-take, end), end)
  }

  /**
   * `skip` rows passed over, then `take` rows: from the front when `take`
   * is not negative, otherwise `-take` rows counted, like `skip`, from the end.
   */
  function Window<T>(s: seq<T>, skip: nat, take: int): (r: seq<T>)
    ensures take >= 0 ==> |r| == if skip >= |s| then 0 else Min(take, |s| - skip)
    ensures take >= 0 && skip < |s| ==> r == s[skip..skip + |r|]
    ensures take < 0 ==>
      var end := if skip >= |s| then 0 else |s| - skip;
      |r| == Min(-take, end) && r == s[end - |r|..end]
  {
    var (i, j) := WindowBounds(|s|, skip, take);
    s[i..j]
  }

  function Min(a: int, b: int): int { if a <= b then a else b }

  /** The body of a `GET`; `totalPages` is None where `Math.ceil` gives `Infinity` or `NaN` (serialised as `null`). */
  datatype TransactionPage = TransactionPage(transactions: seq<Transaction>, total: nat, page: int, totalPages: Option<int>)

  /** The query string of a `GET`. */
  datatype Query = Query(page: Option<string>, limit: Option<string>, search: Option<string>, kind: Option<string>, category: Option<string>)

  /** `parseInt(page || '1')` and `parseInt(limit || '10')`; None when either is `NaN`. */
  function Paging(q: Query): (r: Option<(int, int)>)
    ensures r.Some? <==> ParseInt(ParamOr(q.page, "1")).Some? && ParseInt(ParamOr(q.limit, "10")).Some?
    ensures r.Some? ==> r.value == (ParseInt(ParamOr(q.page, "1")).value, ParseInt(ParamOr(q.limit, "10")).value)
  {
    match (ParseInt(ParamOr(q.page, "1")), ParseInt(ParamOr(q.limit, "10")))
    case (Some(page), Some(limit)) => Some((page, limit))
    case _ => None
  }

  /** Without `page` and `limit` the first ten rows are listed. */
  lemma PagingDefaults(q: Query)
    requires q.page in {None, Some("")} && q.limit in {None, Some("")}
    ensures Paging(q) == Some((1, 10))
  {
    assert ParamOr(q.page, "1") == "1" && ParamOr(q.limit, "10") == "10";
    assert ParseInt("1") == Some(1) by {
      ParseIntReadsDecimal(1, "");
      assert DecimalString(1) + "" == "1";
    }
    assert ParseInt("10") == Some(10) by {
      ParseIntReadsDecimal(10, "");
      assert DecimalString(10) == DecimalString(1) + [DigitChar(0)];
      assert DecimalString(10) + "" == "10";
    }
  }

  /** `skip = (page - 1) * limit`: page `p` starts after the rows of the `p - 1` pages before it. */
  function Skip(page: int, limit: int): (r: int)
    ensures page == 1 ==> r == 0
    ensures page >= 1 && limit >= 0 ==> r >= 0
    ensures page < 1 && limit > 0 ==> r < 0
  {
    (page - 1) * limit
  }

  /** `Math.ceil(total / limit)`, with None for the non-finite results of a zero `limit`. */
  function TotalPages(total: nat, limit: int): (r: Option<int>)
    ensures r.Some? <==> limit != 0
  {
    if limit == 0 then None else Some(CeilDiv(total, limit))
  }

  /**
   * For a positive `limit`, a page from 1 to `totalPages` starts inside
   * the selected rows and so lists at least one; a later page lists none.
   */
  lemma PagesCover(total: nat, limit: int, page: int)
    requires limit >= 1 && page >= 1
    ensures page <= CeilDiv(total, limit) <==> Skip(page, limit) < total
  {
    var r := CeilDiv(total, limit);
    if page <= r {
      ScaleMonotone(page - 1, r - 1, limit);
    } else {
      ScaleMonotone(r, page - 1, limit);
    }
  }

  lemma ScaleMonotone(a: int, b: int, limit: nat)
    requires a <= b
    ensures a * limit <= b * limit
  {
    assert b * limit - a * limit == (b - a) * limit;
  }

  /** A slice of a sorted list is sorted. */
  lemma SortedSlice<T>(s: seq<T>, le: (T, T) -> bool, i: nat, j: nat)
    requires SortedBy(s, le) && i <= j <= |s|
    ensures SortedBy(s[i..j], le)
  {
    forall k | 0 < k < j - i ensures le(s[i..j][k - 1], s[i..j][k]) {
      assert s[i..j][k - 1] == s[i + k - 1] && s[i..j][k] == s[i + k];
    }
  }

  /** The rows of a slice are rows of the list, none of them more often than there. */
  lemma SliceMembers<T>(s: seq<T>, i: nat, j: nat)
    requires i <= j <= |s|
    ensures multiset(s[i..j]) <= multiset(s)
    ensures forall x :: x in s[i..j] ==> x in s
  {
    assert s == s[..i] + s[i..j] + s[j..];
    assert multiset(s) == multiset(s[..i]) + multiset(s[i..j]) + multiset(s[j..]);
    forall x | x in s[i..j] ensures x in s {
      var k :| 0 <= k < j - i && s[i..j][k] == x;
      assert s[i + k] == x;
    }
  }

  /**
   * The page for rows already selected: their count, a window of them in
   * date order, newest first, and the page count.
   */
  function PageOf(selected: seq<Transaction>, page: int, limit: int): (p: TransactionPage)
    requires Skip(page, limit) >= 0
    ensures p.total == |selected| && p.page == page && p.totalPages == TotalPages(|selected|, limit)
    ensures SortedBy(p.transactions, NewestFirst())
    ensures forall t :: t in p.transactions ==> t in selected
    ensures multiset(p.transactions) <= multiset(selected)
    ensures limit >= 0 ==> |p.transactions| == if Skip(page, limit) >= |selected| then 0 else Min(limit, |selected| - Skip(page, limit))
    ensures limit < 0 ==> |p.transactions| == Min(-limit, if Skip(page, limit) >= |selected| then 0 else |selected| - Skip(page, limit))
    ensures exists sorted ::
              && SortedBy(sorted, NewestFirst())
              && multiset(sorted) == multiset(selected)
              && p.transactions == Window(sorted, Skip(page, limit), limit)
  {
    assert Total(NewestFirst());
    var sorted := SortBy(selected, NewestFirst());
    var skip := Skip(page, limit);
    var listed := Window(sorted, skip, limit);
    var (i, j) := WindowBounds(|sorted|, skip, limit);
    assert listed == sorted[i..j];
    SortedSlice(sorted, NewestFirst(), i, j);
    SliceMembers(sorted, i, j);
    assert forall t :: t in sorted ==> t in multiset(selected);
    TransactionPage(listed, |selected|, page, TotalPages(|selected|, limit))
  }

  /** The answers of `GET` that are not a page: 401 without a caller, and 500 for a query the database refuses. */
  predicate Refused(w: Where, q: Query)
  {
    || Paging(q).None?
    || (w.kind.Some? && w.kind.value !in {"INCOME", "EXPENSE", "TRANSFER"})
    || Skip(Paging(q).value.0, Paging(q).value.1) < 0
  }

  /**
   * `GET`. A `page` or `limit` that does not parse is `NaN`, a `type`
   * outside the enum and a negative `skip` are refused by the query: all
   * three answer 500. Otherwise the response is the page of the rows the
   * `where` selects.
   */
  function List(transactions: seq<Transaction>, categories: seq<Category>, caller: Option<Claims>, q: Query)
    : (r: Response<TransactionPage>)
    ensures caller.None? ==> r == Response(401, Error(UnauthorizedError))
    ensures caller.Some? ==>
      var w := BuildWhere(caller.value.userId, q.search, q.kind, q.category);
      if Refused(w, q) then r == Response(500, Error(InternalError))
      else (
        && r.status == 200 && r.body.Ok?
        && r.body.value.total == |Filter(transactions, Selects(w, categories))|
        && (forall t :: t in r.body.value.transactions ==> t in transactions && Selected(w, categories, t))
        && r.body.value == PageOf(Filter(transactions, Selects(w, categories)), Paging(q).value.0, Paging(q).value.1))
  {
    if caller.None? then Response(401, Error(UnauthorizedError))
    else
      var w := BuildWhere(caller.value.userId, q.search, q.kind, q.category);
      if Refused(w, q) then Response(500, Error(InternalError))
      else
        var (page, limit) := Paging(q).value;
        Response(200, Ok(PageOf(Filter(transactions, Selects(w, categories)), page, limit)))
  }

  /** A `POST` body that parsed as JSON; `date` is the instant of the `datetime` string, in milliseconds. */
  datatype TransactionInput = TransactionInput(
    amount: int,
    description: Option<string>,
    date: int,
    kind: string,
    categoryId: nat,
    fromAssetId: Option<nat>,
    toAssetId: Option<nat>)

  /** `z.enum(['INCOME', 'EXPENSE', 'TRANSFER'])`. */
  function ParseKind(s: string): (r: Option<TransactionType>)
    ensures r.Some? ==> KindName(r.value) == s
    ensures r.None? <==> s !in {"INCOME", "EXPENSE", "TRANSFER"}
  {
    if s == "INCOME" then Some(IncomeTransaction)
    else if s == "EXPENSE" then Some(ExpenseTransaction)
    else if s == "TRANSFER" then Some(Transfer)
    else None
  }

  /** `createTransactionSchema`: a positive amount and a known type. */
  predicate ValidInput(input: TransactionInput)
  {
    input.amount > 0 && ParseKind(input.kind).Some?
  }

  /** The balances move only for a transfer that names both assets. */
  predicate MovesBalances(input: TransactionInput)
  {
    input.kind == "TRANSFER" && input.fromAssetId.Some? && input.toAssetId.Some?
  }

  /** The two `asset.update`s of a transfer: `from` decremented, `to` incremented. */
  function Moved(assets: seq<Asset>, from: nat, to: nat, amount: int): (r: seq<Asset>)
    ensures |r| == |assets|
    ensures forall k :: 0 <= k < |assets| ==> r[k] == assets[k].(balance := r[k].balance)
    ensures forall k :: 0 <= k < |assets| ==>
      r[k].balance == assets[k].balance - (if assets[k].id == from then amount else 0) + (if assets[k].id == to then amount else 0)
    ensures forall k :: 0 <= k < |assets| && assets[k].id != from && assets[k].id != to ==> r[k] == assets[k]
  {
    Adjusted(Adjusted(assets, from, -amount), to, amount)
  }

  function BalanceSum(assets: seq<Asset>): int
  {
    if assets == [] then 0 else assets[0].balance + BalanceSum(assets[1..])
  }

  /** How many rows carry the id. */
  function Count(assets: seq<Asset>, id: nat): nat
  {
    if assets == [] then 0 else (if assets[0].id == id then 1 else 0) + Count(assets[1..], id)
  }

  /** Adding `delta` to the rows with the id adds `delta` once per such row to the sum of the balances. */
  lemma {:induction false} SumAfterAdjust(s: seq<Asset>, id: nat, delta: int)
    ensures BalanceSum(Adjusted(s, id, delta)) == BalanceSum(s) + delta * Count(s, id)
  {
    if s != [] {
      var u := Adjusted(s, id, delta);
      assert u[1..] == Adjusted(s[1..], id, delta);
      SumAfterAdjust(s[1..], id, delta);
    }
  }

  /** A balance update keeps every id, so every count. */
  lemma {:induction false} AdjustKeepsCount(s: seq<Asset>, id: nat, delta: int, other: nat)
    ensures Count(Adjusted(s, id, delta), other) == Count(s, other)
  {
    if s != [] {
      var u := Adjusted(s, id, delta);
      assert u[1..] == Adjusted(s[1..], id, delta);
      AdjustKeepsCount(s[1..], id, delta, other);
    }
  }

  /** With unique ids, an id is carried by one row when it is present and by none otherwise. */
  lemma {:induction false} CountUnique(s: seq<Asset>, id: nat)
    requires AssetsUnique(s)
    ensures Count(s, id) == if HasAsset(s, id) then 1 else 0
  {
    if s != [] {
      assert AssetsUnique(s[1..]) by {
        forall i, j | 0 <= i < j < |s[1..]| ensures DistinctAssets(s[1..][i], s[1..][j]) {
          assert DistinctAssets(s[i + 1], s[j + 1]);
        }
      }
      CountUnique(s[1..], id);
      if s[0].id == id {
        forall k | 0 <= k < |s[1..]| ensures s[1..][k].id != id {
          assert DistinctAssets(s[0], s[k + 1]);
        }
      }
      if HasAsset(s, id) && s[0].id != id {
        var k :| 0 <= k < |s| && s[k].id == id;
        assert s[1..][k - 1].id == id;
      }
      if HasAsset(s[1..], id) {
        var k :| 0 <= k < |s[1..]| && s[1..][k].id == id;
        assert s[k + 1].id == id;
      }
    }
  }

  /**
   * A transfer changes the sum of all balances by what it takes from
   * `from` and adds to `to`; when both assets exist the sum is unchanged.
   */
  lemma TransferKeepsTotal(s: seq<Asset>, from: nat, to: nat, amount: int)
    requires AssetsUnique(s)
    ensures BalanceSum(Moved(s, from, to, amount)) ==
      BalanceSum(s) - (if HasAsset(s, from) then amount else 0) + (if HasAsset(s, to) then amount else 0)
  {
    var mid := Adjusted(s, from, -amount);
    SumAfterAdjust(s, from, -amount);
    SumAfterAdjust(mid, to, amount);
    AdjustKeepsCount(s, from, -amount, to);
    CountUnique(s, from);
    CountUnique(s, to);
    ScaleByPresence(-amount, Count(s, from));
    ScaleByPresence(amount, Count(mid, to));
  }

  lemma ScaleByPresence(amount: int, count: nat)
    requires count <= 1
    ensures amount * count == if count == 1 then amount else 0
  {
  }

  /** A balance update keeps the ids present. */
  lemma AdjustKeepsPresence(s: seq<Asset>, id: nat, delta: int, other: nat)
    ensures HasAsset(Adjusted(s, id, delta), other) <==> HasAsset(s, other)
  {
    var u := Adjusted(s, id, delta);
    if HasAsset(u, other) {
      var k :| 0 <= k < |u| && u[k].id == other;
      assert s[k].id == other;
    }
    if HasAsset(s, other) {
      var k :| 0 <= k < |s| && s[k].id == other;
      assert u[k].id == other;
    }
  }

  /** A transfer between two different assets touches those two rows only, by `amount` each way. */
  lemma TransferMovesTwoRows(s: seq<Asset>, from: nat, to: nat, amount: int)
    requires from != to
    ensures |Moved(s, from, to, amount)| == |s|
    ensures forall k :: 0 <= k < |s| ==> Moved(s, from, to, amount)[k].id == s[k].id
    ensures forall k :: 0 <= k < |s| && s[k].id == from ==> Moved(s, from, to, amount)[k].balance == s[k].balance - amount
    ensures forall k :: 0 <= k < |s| && s[k].id == to ==> Moved(s, from, to, amount)[k].balance == s[k].balance + amount
    ensures forall k :: 0 <= k < |s| && s[k].id != from && s[k].id != to ==> Moved(s, from, to, amount)[k] == s[k]
  {
  }

  /** The second update runs on the rows the first produced: together they are `Moved`, and they find the ids of the original rows. */
  lemma TwoAdjustsMove(before: seq<Asset>, middle: seq<Asset>, after: seq<Asset>, from: nat, to: nat, amount: int)
    requires middle == Adjusted(before, from, -amount) && after == Adjusted(middle, to, amount)
    ensures after == Moved(before, from, to, amount)
    ensures HasAsset(middle, to) == HasAsset(before, to)
  {
    AdjustKeepsPresence(before, from, -amount, to);
  }

  /**
   * The two `asset.update`s of a transfer. Both run; `ok` is false, for a
   * 500, when either id names no row.
   */
  method MoveBalances(assets: Assets, from: nat, to: nat, amount: int) returns (ok: bool)
    requires assets.Valid()
    modifies assets
    ensures assets.Valid()
    ensures assets.rows == Moved(old(assets.rows), from, to, amount)
    ensures ok <==> HasAsset(old(assets.rows), from) && HasAsset(old(assets.rows), to)
  {
    ghost var before := assets.rows;
    var fromFound := assets.Adjust(from, -amount);
    ghost var middle := assets.rows;
    var toFound := assets.Adjust(to, amount);
    ok := fromFound && toFound;
    TwoAdjustsMove(before, middle, assets.rows, from, to, amount);
  }

  /** The caller owns a category with the id: the `findFirst` of `POST`. */
  predicate OwnsCategory(categories: seq<Category>, userId: nat, categoryId: nat)
  {
    exists c :: c in categories && c.id == categoryId && c.userId == userId
  }

  function CategoryOwned(userId: nat, categoryId: nat): Category -> bool
  {
    (c: Category) => c.id == categoryId && c.userId == userId
  }

  /** The row `transaction.create` inserts: the body's fields and the caller as owner. */
  function NewTransaction(id: nat, userId: nat, input: TransactionInput): Transaction
    requires ValidInput(input)
  {
    Transaction(id, userId, input.amount, input.description, input.date, ParseKind(input.kind).value,
                input.categoryId, input.fromAssetId, input.toAssetId)
  }

  /**
   * `POST`: 401, 400 and 404 change nothing. Otherwise the transaction is
   * created; a transfer naming both assets then moves the amount between
   * them, whoever owns them, and answers 500 when either is missing,
   * without undoing the transaction or the other update.
   */
  method Create(transactions: Transactions, assets: Assets, categories: Categories, caller: Option<Claims>, input: TransactionInput)
    returns (r: Response<Transaction>)
    requires transactions.Valid() && assets.Valid()
    modifies transactions, assets
    ensures transactions.Valid() && assets.Valid()
    ensures caller.None? ==> r == Response(401, Error(UnauthorizedError)) && unchanged(transactions, assets)
    ensures caller.Some? && !ValidInput(input) ==> r == Response(400, Error(InvalidData)) && unchanged(transactions, assets)
    ensures caller.Some? && ValidInput(input) && !OwnsCategory(categories.rows, caller.value.userId, input.categoryId) ==>
      r == Response(404, Error(CategoryNotFound)) && unchanged(transactions, assets)
    ensures caller.Some? && ValidInput(input) && OwnsCategory(categories.rows, caller.value.userId, input.categoryId) ==>
      var t := NewTransaction(old(transactions.nextId), caller.value.userId, input);
      && transactions.rows == old(transactions.rows) + [t]
      && transactions.nextId == old(transactions.nextId) + 1
      && assets.rows == (if MovesBalances(input) then Moved(old(assets.rows), input.fromAssetId.value, input.toAssetId.value, input.amount)
                         else old(assets.rows))
      && r == if MovesBalances(input) && !(HasAsset(old(assets.rows), input.fromAssetId.value)
                                          && HasAsset(old(assets.rows), input.toAssetId.value))
              then Response(500, Error(InternalError))
              else Response(201, Ok(t))
  {
    if caller.None? {
      return Response(401, Error(UnauthorizedError));
    }
    if !ValidInput(input) {
      return Response(400, Error(InvalidData));
    }
    var userId := caller.value.userId;
    var category := FirstIndex(categories.rows, CategoryOwned(userId, input.categoryId));
    if category.None? {
      return Response(404, Error(CategoryNotFound));
    }
    assert categories.rows[category.value] in categories.rows;
    var t := transactions.Create(NewTransaction(0, userId, input));
    if MovesBalances(input) {
      var moved := MoveBalances(assets, input.fromAssetId.value, input.toAssetId.value, input.amount);
      if !moved {
        return Response(500, Error(InternalError));
      }
    }
    r := Response(201, Ok(t));
  }
}
