/**
 * app/api/categories/route.ts: `GET` lists the caller's categories, of one
 * type when the query names one, ordered by name; `POST` validates a new
 * category and adds it unless the caller already has one of that name.
 */
module CategoriesRoute {
  import opened Wrappers
  import opened Seqs
  import opened Store
  import opened Http

  const UnauthorizedError: string := "Unauthorized"
  const InvalidData: string := "Invalid data"
  const NameTaken: string := "Category name already exists"

  /** Lexicographic order on names, character by character: the order of `orderBy: { name: 'asc' }`. */
  predicate NameLessEq(a: string, b: string)
    decreases |a|
  {
    a == [] || (b != [] && (a[0] < b[0] || (a[0] == b[0] && NameLessEq(a[1..], b[1..]))))
  }

  /** Any two names are ordered one way or the other. */
  lemma {:induction false} NameLessEqTotal(a: string, b: string)
    ensures NameLessEq(a, b) || NameLessEq(b, a)
    decreases |a|
  {
    if a != [] && b != [] && a[0] == b[0] {
      NameLessEqTotal(a[1..], b[1..]);
    }
  }

  /** Name order is transitive. */
  lemma {:induction false} NameLessEqTransitive(a: string, b: string, c: string)
    requires NameLessEq(a, b) && NameLessEq(b, c)
    ensures NameLessEq(a, c)
    decreases |a|
  {
    if a != [] && a[0] == b[0] && b[0] == c[0] {
      NameLessEqTransitive(a[1..], b[1..], c[1..]);
    }
  }

  /** The order of `orderBy: { name: 'asc' }` on rows. */
  function ByName(): (Category, Category) -> bool
  {
    (a: Category, b: Category) => NameLessEq(a.name, b.name)
  }

  lemma ByNameTotal()
    ensures Total(ByName())
  {
    forall a: Category, b: Category ensures ByName()(a, b) || ByName()(b, a) {
      NameLessEqTotal(a.name, b.name);
    }
  }

  lemma ByNameTransitive()
    ensures Transitive(ByName())
  {
    forall a: Category, b: Category, c: Category | ByName()(a, b) && ByName()(b, c)
      ensures ByName()(a, c)
    {
      NameLessEqTransitive(a.name, b.name, c.name);
    }
  }

  /** The `type` filter: only `INCOME` and `EXPENSE` name one. */
  function TypeFilter(param: Option<string>): (r: Option<CategoryType>)
    ensures r == Some(Income) <==> param == Some("INCOME")
    ensures r == Some(Expense) <==> param == Some("EXPENSE")
  {
    if param == Some("INCOME") then Some(Income)
    else if param == Some("EXPENSE") then Some(Expense)
    else None
  }

  /** The `where` of `GET`: the caller's rows, and of the given type when there is one. */
  function Matches(userId: nat, kind: Option<CategoryType>): Category -> bool
  {
    (c: Category) => c.userId == userId && (kind.None? || c.kind == kind.value)
  }

  /**
   * `GET`: 401 without a caller; otherwise the rows the `where` selects,
   * all of them and nothing else, put in name order. The route calls
   * `getUserFromRequest` without `await`; `caller` is the identity that
   * call is taken to return directly.
   */
  function List(rows: seq<Category>, caller: Option<Claims>, typeParam: Option<string>): (r: Response<seq<Category>>)
    ensures caller.None? ==> r == Response(401, Error(UnauthorizedError))
    ensures caller.Some? ==> r.status == 200 && r.body.Ok? && SortedBy(r.body.value, ByName())
    ensures caller.Some? ==> multiset(r.body.value) == multiset(Filter(rows, Matches(caller.value.userId, TypeFilter(typeParam))))
  {
    if caller.None? then Response(401, Error(UnauthorizedError))
    else
      ByNameTotal();
      Response(200, Ok(SortBy(Filter(rows, Matches(caller.value.userId, TypeFilter(typeParam))), ByName())))
  }

  /**
   * What `GET` returns: exactly the caller's categories, of the requested
   * type when the parameter is `INCOME` or `EXPENSE`, of every type otherwise.
   */
  lemma ListSelects(rows: seq<Category>, caller: Claims, typeParam: Option<string>, c: Category)
    ensures var listed := List(rows, Some(caller), typeParam).body.value;
      c in listed <==>
        && c in rows && c.userId == caller.userId
        && (typeParam == Some("INCOME") ==> c.kind == Income)
        && (typeParam == Some("EXPENSE") ==> c.kind == Expense)
  {
    var listed := List(rows, Some(caller), typeParam).body.value;
    var selected := Filter(rows, Matches(caller.userId, TypeFilter(typeParam)));
    assert c in listed <==> c in multiset(listed);
    assert c in selected <==> c in multiset(selected);
  }

  /** In the list `GET` returns, every earlier name comes no later than every later name. */
  lemma ListOrdered(rows: seq<Category>, caller: Claims, typeParam: Option<string>, i: int, j: int)
    requires 0 <= i < j < |List(rows, Some(caller), typeParam).body.value|
    ensures var listed := List(rows, Some(caller), typeParam).body.value;
      NameLessEq(listed[i].name, listed[j].name)
  {
    ByNameTransitive();
    SortedByAll(List(rows, Some(caller), typeParam).body.value, ByName(), i, j);
  }

  predicate IsHexDigit(c: char)
  {
    '0' <= c <= '9' || 'a' <= c <= 'f' || 'A' <= c <= 'F'
  }

  /** `/^#[0-9A-F]{6}$/i`: a `#` and exactly six hexadecimal digits, in either case. */
  predicate IsHexColor(s: string)
  {
    |s| == 7 && s[0] == '#' && forall i :: 1 <= i < 7 ==> IsHexDigit(s[i])
  }

  /** The colour check on some samples: upper and lower case pass; a short colour, a missing `#` or a `g` do not. */
  lemma HexColorSamples()
    ensures IsHexColor("#22c55e") && IsHexColor("#3B82F6")
    ensures !IsHexColor("#22c55") && !IsHexColor("22c55e0") && !IsHexColor("#22c55g") && !IsHexColor("#22c55e0")
  {
    var a, b := "#22c55e", "#3B82F6";
    assert forall i :: 1 <= i < 7 ==> IsHexDigit(a[i]);
    assert forall i :: 1 <= i < 7 ==> IsHexDigit(b[i]);
    assert !IsHexDigit("#22c55g"[6]);
  }

  /** The body passes `createCategorySchema`: the draft it describes, or None. */
  function ParseDraft(name: string, typeField: string, color: string, icon: string): (r: Option<CategoryDraft>)
    ensures r.Some? <==> |name| >= 1 && typeField in {"INCOME", "EXPENSE"} && IsHexColor(color) && |icon| >= 1
    ensures r.Some? ==> r.value.name == name && r.value.color == color && r.value.icon == icon
    ensures r.Some? ==> (r.value.kind == Income <==> typeField == "INCOME")
  {
    if |name| < 1 || !(typeField == "INCOME" || typeField == "EXPENSE") || !IsHexColor(color) || |icon| < 1 then None
    else Some(CategoryDraft(name, if typeField == "INCOME" then Income else Expense, color, icon))
  }

  /** No user has two categories of the same name. */
  ghost predicate NamesUniquePerUser(rows: seq<Category>)
  {
    forall i, j :: 0 <= i < j < |rows| && rows[i].userId == rows[j].userId ==> rows[i].name != rows[j].name
  }

  function NamedFor(name: string, userId: nat): Category -> bool
  {
    (c: Category) => c.name == name && c.userId == userId
  }

  /**
   * `POST`: 401 without a caller, 400 for a body failing the schema or a
   * name the caller already uses, otherwise 201 with the one row created.
   * Only the caller's own names conflict. As in `GET`, `caller` is the
   * identity the un-awaited `getUserFromRequest` is taken to return.
   */
  method Create(categories: Categories, caller: Option<Claims>, name: string, typeField: string, color: string, icon: string)
    returns (r: Response<Category>)
    requires categories.Valid()
    modifies categories
    ensures categories.Valid()
    ensures NamesUniquePerUser(old(categories.rows)) ==> NamesUniquePerUser(categories.rows)
    ensures caller.None? ==> r == Response(401, Error(UnauthorizedError)) && unchanged(categories)
    ensures caller.Some? && ParseDraft(name, typeField, color, icon).None? ==>
      r == Response(400, Error(InvalidData)) && unchanged(categories)
    ensures caller.Some? && ParseDraft(name, typeField, color, icon).Some? ==>
      var draft := ParseDraft(name, typeField, color, icon).value;
      var c := Category(old(categories.nextId), name, draft.kind, color, icon, caller.value.userId);
      if exists d :: d in old(categories.rows) && d.name == name && d.userId == caller.value.userId then
        r == Response(400, Error(NameTaken)) && unchanged(categories)
      else
        r == Response(201, Ok(c)) && categories.rows == old(categories.rows) + [c] && categories.nextId == old(categories.nextId) + 1
  {
    if caller.None? {
      return Response(401, Error(UnauthorizedError));
    }
    var draft := ParseDraft(name, typeField, color, icon);
    if draft.None? {
      return Response(400, Error(InvalidData));
    }
    var existing := FirstIndex(categories.rows, NamedFor(name, caller.value.userId));
    if existing.Some? {
      assert categories.rows[existing.value] in categories.rows;
      return Response(400, Error(NameTaken));
    }
    ghost var before := categories.rows;
    var c := categories.Create(draft.value, caller.value.userId);
    assert forall d :: d in before ==> !(d.name == name && d.userId == caller.value.userId);
    if NamesUniquePerUser(before) {
      forall i, j | 0 <= i < j < |categories.rows| && categories.rows[i].userId == categories.rows[j].userId
        ensures categories.rows[i].name != categories.rows[j].name
      {
        if j == |before| {
          assert categories.rows[i] in before;
        }
      }
    }
    r := Response(201, Ok(c));
  }
}
