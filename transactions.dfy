/** The transaction routes: a per-user ledger over the transactions collection.
    Records are only ever appended or soft-deleted (their `deleted_at` set); every
    read sees only the caller's records whose `deleted_at` is unset. */
module Transactions {
  import opened Wrappers
  import opened Models
  import opened Collection

  const NotFoundError := HttpError(404, "Transaction not found")

  // ---------------------------------------------------------------- what a user sees

  /** The filter `{"user_public_id": owner, "deleted_at": None}`. */
  predicate VisibleTo(t: TransactionInDB, owner: Uuid) {
    t.userPublicId == owner && t.deletedAt.None?
  }

  function LiveOf(owner: Uuid): TransactionInDB -> bool {
    (t: TransactionInDB) => VisibleTo(t, owner)
  }

  /** The owner's live records, in storage order. */
  function Visible(s: seq<TransactionInDB>, owner: Uuid): seq<TransactionInDB> {
    Filter(s, LiveOf(owner))
  }

  lemma VisibleMembers(s: seq<TransactionInDB>, owner: Uuid)
    ensures forall t :: t in Visible(s, owner) <==> t in s && VisibleTo(t, owner)
  {
    FilterMembers(s, LiveOf(owner));
  }

  /** Appending a record adds it to its owner's view if it is live, and to no other. */
  lemma VisibleAppend(s: seq<TransactionInDB>, t: TransactionInDB, viewer: Uuid)
    ensures Visible(s + [t], viewer) == Visible(s, viewer) + (if VisibleTo(t, viewer) then [t] else [])
  {
    assert (s + [t])[..|s|] == s;
  }

  /** A view splits around any one record. */
  lemma VisibleAround(a: seq<TransactionInDB>, t: TransactionInDB, b: seq<TransactionInDB>, viewer: Uuid)
    ensures Visible(a + [t] + b, viewer) ==
      Visible(a, viewer) + (if VisibleTo(t, viewer) then [t] else []) + Visible(b, viewer)
  {
    FilterConcat(a + [t], b, LiveOf(viewer));
    VisibleAppend(a, t, viewer);
  }

  // ---------------------------------------------------------------- sums

  /** The sum of the amounts of the records of one type. */
  function Total(s: seq<TransactionInDB>, kind: TransactionType): real {
    if s == [] then 0.0
    else Total(s[..|s| - 1], kind) + (if s[|s| - 1].kind == kind then s[|s| - 1].amount else 0.0)
  }

  /** The number of records of one type. */
  function CountOf(s: seq<TransactionInDB>, kind: TransactionType): nat {
    if s == [] then 0
    else CountOf(s[..|s| - 1], kind) + (if s[|s| - 1].kind == kind then 1 else 0)
  }

  lemma {:induction false} TotalConcat(a: seq<TransactionInDB>, b: seq<TransactionInDB>, kind: TransactionType)
    ensures Total(a + b, kind) == Total(a, kind) + Total(b, kind)
    decreases |b|
  {
    if b == [] {
      assert a + b == a;
    } else {
      var b' := b[..|b| - 1];
      assert (a + b)[..|a + b| - 1] == a + b';
      assert (a + b)[|a + b| - 1] == b[|b| - 1];
      TotalConcat(a, b', kind);
    }
  }

  /** Every record is an income or an expense. */
  lemma {:induction false} CountsAddUp(s: seq<TransactionInDB>)
    ensures CountOf(s, Income) + CountOf(s, Expense) == |s|
    decreases |s|
  {
    if s != [] {
      CountsAddUp(s[..|s| - 1]);
    }
  }

  /** With positive amounts, a type's total is positive exactly when a record of
      that type is present, and zero otherwise. */
  lemma {:induction false} TotalPositiveIffPresent(s: seq<TransactionInDB>, kind: TransactionType)
    requires forall i :: 0 <= i < |s| ==> s[i].amount > 0.0
    ensures Total(s, kind) >= 0.0
    ensures Total(s, kind) > 0.0 <==> CountOf(s, kind) > 0
    decreases |s|
  {
    if s != [] {
      TotalPositiveIffPresent(s[..|s| - 1], kind);
    }
  }

  /** A type with no records totals zero, whatever the amounts. */
  lemma {:induction false} AbsentTypeTotalsZero(s: seq<TransactionInDB>, kind: TransactionType)
    requires CountOf(s, kind) == 0
    ensures Total(s, kind) == 0.0
    decreases |s|
  {
    if s != [] {
      AbsentTypeTotalsZero(s[..|s| - 1], kind);
    }
  }

  // ---------------------------------------------------------------- balance

  /** What `get_balance` reports for `owner` over the stored records `s`. */
  function BalanceOf(s: seq<TransactionInDB>, owner: Uuid): BalanceResponse {
    var v := Visible(s, owner);
    BalanceResponse(Total(v, Income), Total(v, Expense), Total(v, Income) - Total(v, Expense), |v|)
  }

  /** One output document of the `$group` stage. */
  datatype Group = Group(id: TransactionType, total: real, count: nat)

  /** The aggregation pipeline: `$match` the owner's live records, then `$group` them
      by type; a type with no records yields no group. */
  function Aggregate(s: seq<TransactionInDB>, owner: Uuid): (groups: seq<Group>)
    ensures forall j :: 0 <= j < |groups| ==>
      groups[j].total == Total(Visible(s, owner), groups[j].id) &&
      groups[j].count == CountOf(Visible(s, owner), groups[j].id)
    ensures forall j, k :: 0 <= j < k < |groups| ==> groups[j].id != groups[k].id
    ensures forall kind :: CountOf(Visible(s, owner), kind) > 0 <==>
      exists j :: 0 <= j < |groups| && groups[j].id == kind
  {
    var v := Visible(s, owner);
    var groups :=
      (if CountOf(v, Income) > 0 then [Group(Income, Total(v, Income), CountOf(v, Income))] else []) +
      (if CountOf(v, Expense) > 0 then [Group(Expense, Total(v, Expense), CountOf(v, Expense))] else []);
    assert CountOf(v, Income) > 0 ==> groups[0].id == Income;
    assert CountOf(v, Expense) > 0 ==> groups[|groups| - 1].id == Expense;
    groups
  }

  /** A balance is recomputed from the stored records: appending a live record adds
      its amount to its type's total and one to the count of its owner, and changes
      nothing for anyone else. */
  lemma BalanceAfterCreate(s: seq<TransactionInDB>, t: TransactionInDB, viewer: Uuid)
    requires t.deletedAt.None?
    ensures viewer != t.userPublicId ==> BalanceOf(s + [t], viewer) == BalanceOf(s, viewer)
    ensures viewer == t.userPublicId ==>
      var before, after := BalanceOf(s, viewer), BalanceOf(s + [t], viewer);
      after.totalIncome == before.totalIncome + (if t.kind == Income then t.amount else 0.0) &&
      after.totalExpenses == before.totalExpenses + (if t.kind == Expense then t.amount else 0.0) &&
      after.transactionCount == before.transactionCount + 1
  {
    VisibleAppend(s, t, viewer);
    var v := Visible(s, viewer);
    if viewer == t.userPublicId {
      assert (v + [t])[..|v|] == v;
    } else {
      assert v + [] == v;
    }
  }

  // ---------------------------------------------------------------- soft delete

  /** The selector of `get_transaction` and `delete_transaction`. */
  predicate Selects(t: TransactionInDB, id: Uuid, owner: Uuid) {
    t.publicId == id && VisibleTo(t, owner)
  }

  /** `find_one` / `update_one` with `{"public_id": id, "user_public_id": owner,
      "deleted_at": None}`: the position of the first such record. */
  function FindOwned(s: seq<TransactionInDB>, id: Uuid, owner: Uuid): Option<nat> {
    FirstMatch(s, (t: TransactionInDB) => Selects(t, id, owner))
  }

  /** The records after `$set: {"deleted_at": now}` on the record at `k`. */
  function SoftDeleted(s: seq<TransactionInDB>, k: nat, now: Timestamp): (r: seq<TransactionInDB>)
    requires k < |s|
    ensures |r| == |s| && r[k].deletedAt == Some(now)
    ensures r[k] == s[k].(deletedAt := Some(now))
    ensures forall j :: 0 <= j < |s| && j != k ==> r[j] == s[j]
  {
    s[k := s[k].(deletedAt := Some(now))]
  }

  /** Public ids are unique in storage. */
  ghost predicate UniqueIds(s: seq<TransactionInDB>) {
    forall i, j :: 0 <= i < j < |s| ==> s[i].publicId != s[j].publicId
  }

  /** Soft-deleting one of the owner's live records takes it out of the owner's view
      and out of the balance, and changes no other user's view. */
  lemma {:induction false} SoftDeleteViews(s: seq<TransactionInDB>, k: nat, now: Timestamp, viewer: Uuid)
    requires k < |s| && s[k].deletedAt.None?
    ensures viewer != s[k].userPublicId ==> Visible(SoftDeleted(s, k, now), viewer) == Visible(s, viewer)
    ensures viewer == s[k].userPublicId ==>
      Visible(s, viewer) == Visible(s[..k], viewer) + [s[k]] + Visible(s[k + 1..], viewer) &&
      Visible(SoftDeleted(s, k, now), viewer) == Visible(s[..k], viewer) + Visible(s[k + 1..], viewer)
  {
    var s' := SoftDeleted(s, k, now);
    assert s == s[..k] + [s[k]] + s[k + 1..];
    assert s' == s[..k] + [s'[k]] + s[k + 1..];
    VisibleAround(s[..k], s[k], s[k + 1..], viewer);
    VisibleAround(s[..k], s'[k], s[k + 1..], viewer);
  }

  lemma BalanceAfterDelete(s: seq<TransactionInDB>, k: nat, now: Timestamp, viewer: Uuid)
    requires k < |s| && s[k].deletedAt.None?
    ensures viewer != s[k].userPublicId ==> BalanceOf(SoftDeleted(s, k, now), viewer) == BalanceOf(s, viewer)
    ensures viewer == s[k].userPublicId ==>
      var before, after := BalanceOf(s, viewer), BalanceOf(SoftDeleted(s, k, now), viewer);
      after.totalIncome == before.totalIncome - (if s[k].kind == Income then s[k].amount else 0.0) &&
      after.totalExpenses == before.totalExpenses - (if s[k].kind == Expense then s[k].amount else 0.0) &&
      after.transactionCount == before.transactionCount - 1
  {
    SoftDeleteViews(s, k, now, viewer);
    if viewer == s[k].userPublicId {
      var a, b := Visible(s[..k], viewer), Visible(s[k + 1..], viewer);
      TotalConcat(a + [s[k]], b, Income);
      TotalConcat(a, [s[k]], Income);
      TotalConcat(a + [s[k]], b, Expense);
      TotalConcat(a, [s[k]], Expense);
      TotalConcat(a, b, Income);
      TotalConcat(a, b, Expense);
      assert [s[k]][..0] == [];
    }
  }

  /** With unique ids, a record once soft-deleted is not found again, so a second
      delete of the same id fails. The record itself stays in storage. */
  lemma SecondDeleteFindsNothing(s: seq<TransactionInDB>, id: Uuid, owner: Uuid, now: Timestamp)
    requires UniqueIds(s)
    requires FindOwned(s, id, owner).Some?
    ensures var k := FindOwned(s, id, owner).value;
      FindOwned(SoftDeleted(s, k, now), id, owner).None? &&
      SoftDeleted(s, k, now)[k].publicId == id
  {
    var k := FindOwned(s, id, owner).value;
    var s' := SoftDeleted(s, k, now);
    forall j | 0 <= j < |s'| ensures !Selects(s'[j], id, owner) {
      if j != k {
        assert s'[j] == s[j];
      }
    }
  }

  // ---------------------------------------------------------------- listing

  /** Newest first. */
  ghost predicate DateDescending(s: seq<TransactionInDB>) {
    forall i, j :: 0 <= i < j < |s| ==> s[i].date >= s[j].date
  }

  /** Inserts `t` before the first record that is not newer than it. */
  function InsertByDate(t: TransactionInDB, s: seq<TransactionInDB>): (r: seq<TransactionInDB>)
    ensures |r| == |s| + 1
  {
    if s == [] || t.date >= s[0].date then [t] + s
    else [s[0]] + InsertByDate(t, s[1..])
  }

  lemma {:induction false} InsertByDateKeeps(t: TransactionInDB, s: seq<TransactionInDB>)
    ensures multiset(InsertByDate(t, s)) == multiset(s) + multiset{t}
    decreases |s|
  {
    if s != [] && t.date < s[0].date {
      InsertByDateKeeps(t, s[1..]);
      assert s == [s[0]] + s[1..];
    }
  }

  lemma {:induction false} InsertByDateSorted(t: TransactionInDB, s: seq<TransactionInDB>)
    requires DateDescending(s)
    ensures DateDescending(InsertByDate(t, s))
    decreases |s|
  {
    if s != [] && t.date < s[0].date {
      var rest := InsertByDate(t, s[1..]);
      InsertByDateSorted(t, s[1..]);
      InsertByDateKeeps(t, s[1..]);
      forall j | 0 <= j < |rest| ensures s[0].date >= rest[j].date {
        assert rest[j] in multiset(rest);
        if rest[j] != t {
          assert rest[j] in multiset(s[1..]);
          var k :| 0 <= k < |s[1..]| && s[1..][k] == rest[j];
          assert s[k + 1] == rest[j];
        }
      }
    }
  }

  /** The intended order of `.sort("date", -1)`: newest first by instant (the source
      sorts the stored text; see `StoredDates`). Records with equal dates may come out
      in any order. */
  function SortByDateDesc(s: seq<TransactionInDB>): (r: seq<TransactionInDB>)
    ensures DateDescending(r)
    ensures multiset(r) == multiset(s)
  {
    if s == [] then []
    else
      var rest := SortByDateDesc(s[1..]);
      InsertByDateKeeps(s[0], rest);
      InsertByDateSorted(s[0], rest);
      assert s == [s[0]] + s[1..];
      InsertByDate(s[0], rest)
  }

  function Abs(n: int): nat {
    if n < 0 then -n else n
  }

  /** `.skip(skip).limit(limit)`: drop `skip` elements, then keep at most `|limit|`;
      a limit of 0 means no limit. */
  function Page<T>(s: seq<T>, skip: nat, limit: int): (r: seq<T>)
    ensures forall i :: 0 <= i < |r| ==> skip + i < |s| && r[i] == s[skip + i]
    ensures limit != 0 ==> |r| <= Abs(limit)
    ensures skip + |r| < |s| ==> limit != 0 && |r| == Abs(limit)
  {
    var rest := if skip <= |s| then s[skip..] else [];
    if limit == 0 || Abs(limit) >= |rest| then rest else rest[..Abs(limit)]
  }

  /** The records `get_transactions` returns, before they are turned into responses. */
  function Listing(s: seq<TransactionInDB>, owner: Uuid, skip: nat, limit: int): seq<TransactionInDB> {
    Page(SortByDateDesc(Visible(s, owner)), skip, limit)
  }

  /** A listing shows only the caller's live records, newest first, at most `|limit|`
      of them; with no skip and no limit it shows every one of them exactly once. */
  lemma ListingProperties(s: seq<TransactionInDB>, owner: Uuid, skip: nat, limit: int)
    ensures forall t :: t in Listing(s, owner, skip, limit) ==> t in s && VisibleTo(t, owner)
    ensures DateDescending(Listing(s, owner, skip, limit))
    ensures limit != 0 ==> |Listing(s, owner, skip, limit)| <= Abs(limit)
    ensures skip == 0 && limit == 0 ==> multiset(Listing(s, owner, 0, 0)) == multiset(Visible(s, owner))
  {
    var v := Visible(s, owner);
    var sorted := SortByDateDesc(v);
    var r := Listing(s, owner, skip, limit);
    VisibleMembers(s, owner);
    forall t | t in r ensures t in s && VisibleTo(t, owner) {
      var i :| 0 <= i < |r| && r[i] == t;
      assert sorted[skip + i] in multiset(sorted);
    }
    if skip == 0 && limit == 0 {
      assert r == sorted;
    }
  }

  /** The query defaults of `get_transactions`: `skip=0`, `limit=100`. */
  const DefaultSkip: nat := 0
  const DefaultLimit := 100

  /** A request without `skip` and `limit` gets the newest 100 of the caller's live
      records: all of them when there are at most 100, otherwise exactly 100. */
  lemma DefaultPage(s: seq<TransactionInDB>, owner: Uuid)
    ensures |Listing(s, owner, DefaultSkip, DefaultLimit)| <= DefaultLimit
    ensures |Visible(s, owner)| <= DefaultLimit ==>
      Listing(s, owner, DefaultSkip, DefaultLimit) == SortByDateDesc(Visible(s, owner))
    ensures |Visible(s, owner)| > DefaultLimit ==>
      Listing(s, owner, DefaultSkip, DefaultLimit) == SortByDateDesc(Visible(s, owner))[..DefaultLimit]
  {
    var sorted := SortByDateDesc(Visible(s, owner));
    assert |sorted| == |Visible(s, owner)| by {
      assert |multiset(sorted)| == |multiset(Visible(s, owner))|;
    }
    assert sorted[0..] == sorted;
  }

  /** A user with no live records sees an empty listing and a zero balance. */
  lemma NothingLiveNothingShown(s: seq<TransactionInDB>, owner: Uuid, skip: nat, limit: int)
    requires forall i :: 0 <= i < |s| ==> !VisibleTo(s[i], owner)
    ensures Listing(s, owner, skip, limit) == []
    ensures BalanceOf(s, owner) == BalanceResponse(0.0, 0.0, 0.0, 0)
  {
    FilterNone(s, LiveOf(owner));
  }

  /** An income of 3000 and an expense of 500 give a balance of 2500 over two records,
      whatever other users store; soft-deleting the expense leaves 3000 over one. */
  lemma {:induction false} BalanceScenario(owner: Uuid, other: Uuid, now: Timestamp, later: Timestamp)
    requires owner != other
    ensures
      var salary := NewTransaction(TransactionCreate(Income, Salary, 3000.0, "", now), owner, "salary", now);
      var rent := NewTransaction(TransactionCreate(Expense, Housing, 500.0, "", now), owner, "rent", now);
      var lunch := NewTransaction(TransactionCreate(Expense, Food, 20.0, "", now), other, "lunch", now);
      BalanceOf([salary, rent, lunch], owner) == BalanceResponse(3000.0, 500.0, 2500.0, 2) &&
      BalanceOf(SoftDeleted([salary, rent, lunch], 1, later), owner) == BalanceResponse(3000.0, 0.0, 3000.0, 1)
  {
    var salary := NewTransaction(TransactionCreate(Income, Salary, 3000.0, "", now), owner, "salary", now);
    var rent := NewTransaction(TransactionCreate(Expense, Housing, 500.0, "", now), owner, "rent", now);
    var lunch := NewTransaction(TransactionCreate(Expense, Food, 20.0, "", now), other, "lunch", now);
    NothingLiveNothingShown([], owner, 0, 0);
    BalanceAfterCreate([], salary, owner);
    assert [] + [salary] == [salary];
    BalanceAfterCreate([salary], rent, owner);
    assert [salary] + [rent] == [salary, rent];
    BalanceAfterCreate([salary, rent], lunch, owner);
    assert [salary, rent] + [lunch] == [salary, rent, lunch];
    BalanceAfterDelete([salary, rent, lunch], 1, later, owner);
  }

  // ---------------------------------------------------------------- the ledger

  /** The transactions collection. */
  class Ledger {
    var records: seq<TransactionInDB>

    /** Public ids are unique, and every stored record passed validation. */
    ghost predicate Valid()
      reads this
    {
      && UniqueIds(records)
      && (forall i :: 0 <= i < |records| ==>
            records[i].amount > 0.0 && |records[i].description| <= DescriptionMaxLength)
    }

    constructor ()
      ensures Valid() && records == []
    {
      records := [];
    }

    /** `create_transaction`: the body is validated, then exactly one live record owned
        by the caller is stored, and its public fields are echoed back. `id` stands for
        the `uuid4()` default and `now` for the clock. */
    method CreateTransaction(input: TransactionInput, owner: Uuid, id: Uuid, now: Timestamp)
      returns (r: Result<TransactionResponse, ApiError>)
      requires Valid()
      requires forall t :: t in records ==> t.publicId != id
      modifies this
      ensures Valid()
      ensures ValidateTransactionCreate(input, now).Err? ==>
        r == Err(Unprocessable(ValidateTransactionCreate(input, now).error)) && records == old(records)
      ensures ValidateTransactionCreate(input, now).Ok? ==>
        var data := ValidateTransactionCreate(input, now).value;
        records == old(records) + [NewTransaction(data, owner, id, now)] &&
        r == Ok(TransactionResponse(id, data.kind, data.category, input.amount, data.description, data.date, now))
    {
      var body := ValidateTransactionCreate(input, now);
      if body.Err? {
        return Err(Unprocessable(body.error));
      }
      var transaction := NewTransaction(body.value, owner, id, now);
      records := records + [transaction];
      r := Ok(ToTransactionResponse(transaction));
    }

    /** `get_transactions`: the caller's live records, newest first, paged. A negative
        `skip` is refused by the database driver with an error the handler does not catch. */
    method GetTransactions(owner: Uuid, skip: int, limit: int) returns (r: Result<seq<TransactionResponse>, ApiError>)
      ensures r.Err? <==> skip < 0
      ensures r.Err? ==> r.error == InternalError
      ensures r.Ok? ==>
        var listed := Listing(records, owner, skip, limit);
        |r.value| == |listed| &&
        forall i :: 0 <= i < |listed| ==> r.value[i] == ToTransactionResponse(listed[i])
      ensures r.Ok? && limit != 0 ==> |r.value| <= Abs(limit)
      ensures r.Ok? ==> forall i, j :: 0 <= i < j < |r.value| ==> r.value[i].date >= r.value[j].date
    {
      if skip < 0 {
        return Err(InternalError);
      }
      var cursor := Listing(records, owner, skip, limit);
      ListingProperties(records, owner, skip, limit);
      var transactions: seq<TransactionResponse> := [];
      var i := 0;
      while i < |cursor|
        invariant 0 <= i <= |cursor|
        invariant |transactions| == i
        invariant forall j :: 0 <= j < i ==> transactions[j] == ToTransactionResponse(cursor[j])
      {
        transactions := transactions + [ToTransactionResponse(cursor[i])];
        i := i + 1;
      }
      r := Ok(transactions);
    }

    /** `get_transaction`: the caller's live record with this id; the same 404 whether
        the id is unknown, deleted or another user's. */
    method GetTransaction(owner: Uuid, id: Uuid) returns (r: Result<TransactionResponse, ApiError>)
      ensures r.Err? ==> r.error == NotFoundError
      ensures r.Ok? <==> exists i :: 0 <= i < |records| && Selects(records[i], id, owner)
      ensures r.Ok? ==>
        exists i :: 0 <= i < |records| && Selects(records[i], id, owner) && r.value == ToTransactionResponse(records[i])
    {
      var found := FindOwned(records, id, owner);
      if found.None? {
        return Err(NotFoundError);
      }
      r := Ok(ToTransactionResponse(records[found.value]));
    }

    /** `delete_transaction`: soft-deletes the caller's live record with this id, or
        fails with the 404 of `get_transaction` and changes nothing. */
    method DeleteTransaction(owner: Uuid, id: Uuid, now: Timestamp) returns (r: Result<(), ApiError>)
      requires Valid()
      modifies this
      ensures Valid()
      ensures FindOwned(old(records), id, owner).None? ==> r == Err(NotFoundError) && records == old(records)
      ensures FindOwned(old(records), id, owner).Some? ==>
        r == Ok(()) && records == SoftDeleted(old(records), FindOwned(old(records), id, owner).value, now)
    {
      var found := FindOwned(records, id, owner);
      if found.None? {
        return Err(NotFoundError);
      }
      records := SoftDeleted(records, found.value, now);
      r := Ok(());
    }

    /** `get_balance`: folds the aggregation's groups into the two totals, their
        difference and the number of records they cover. */
    method GetBalance(owner: Uuid) returns (b: BalanceResponse)
      ensures b.totalIncome == Total(Visible(records, owner), Income)
      ensures b.totalExpenses == Total(Visible(records, owner), Expense)
      ensures b.currentBalance == b.totalIncome - b.totalExpenses
      ensures b.transactionCount == |Visible(records, owner)|
      ensures b == BalanceOf(records, owner)
    {
      var results := Aggregate(records, owner);
      ghost var v := Visible(records, owner);
      var totalIncome, totalExpenses, transactionCount := 0.0, 0.0, 0;
      for i := 0 to |results|
        invariant totalIncome ==
          if exists j :: 0 <= j < i && results[j].id == Income then Total(v, Income) else 0.0
        invariant totalExpenses ==
          if exists j :: 0 <= j < i && results[j].id == Expense then Total(v, Expense) else 0.0
        invariant transactionCount ==
          (if exists j :: 0 <= j < i && results[j].id == Income then CountOf(v, Income) else 0) +
          (if exists j :: 0 <= j < i && results[j].id == Expense then CountOf(v, Expense) else 0)
      {
        if results[i].id == Income {
          totalIncome := results[i].total;
          transactionCount := transactionCount + results[i].count;
        } else if results[i].id == Expense {
          totalExpenses := results[i].total;
          transactionCount := transactionCount + results[i].count;
        }
      }
      if CountOf(v, Income) == 0 {
        AbsentTypeTotalsZero(v, Income);
      }
      if CountOf(v, Expense) == 0 {
        AbsentTypeTotalsZero(v, Expense);
      }
      CountsAddUp(v);
      var currentBalance := totalIncome - totalExpenses;
      b := BalanceResponse(totalIncome, totalExpenses, currentBalance, transactionCount);
    }
  }
}
