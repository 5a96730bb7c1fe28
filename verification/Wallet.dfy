/** backend/internal/credits: the credit wallet. Accounts are a table updated in place,
    the ledger only grows, and one idempotency key is honoured at most once. */
module Wallets {
  import opened Prelude
  import opened Text

  datatype Reason = Purchase | StubGrant | SupportSpend | Refund | Referral | AdminAdjust | Unset

  datatype WalletError = InvalidAmount | InvalidIdempotencyKey | InsufficientCredits | IdempotencyConflict

  datatype ApplyInput = ApplyInput(
    user: UserId, amount: int, reason: Reason, refType: string, refId: string, key: string)

  datatype LedgerRow = LedgerRow(
    user: UserId, delta: int, balanceAfter: int, reason: Reason, refType: string, refId: string, key: string)

  // The two tables a wallet transaction touches.
  datatype Tables = Tables(accounts: map<UserId, int>, ledger: seq<LedgerRow>)

  datatype Posting = Posting(tables: Tables, result: Result<int, WalletError>)

  function BalanceOf(t: Tables, u: UserId): int {
    if u in t.accounts then t.accounts[u] else 0
  }

  // SELECT ... WHERE idempotency_key = $1 (the column is UNIQUE).
  function RowByKey(ledger: seq<LedgerRow>, key: string): (row: Option<LedgerRow>)
    ensures row.Some? ==> row.value in ledger && row.value.key == key
    ensures row.None? ==> forall i :: 0 <= i < |ledger| ==> ledger[i].key != key
  {
    if ledger == [] then None
    else if ledger[0].key == key then Some(ledger[0])
    else RowByKey(ledger[1..], key)
  }

  predicate SameRequest(row: LedgerRow, i: ApplyInput, delta: int) {
    row.user == i.user && row.delta == delta && row.reason == i.reason
  }

  // What one wallet transaction leaves behind. A failed one leaves nothing.
  function Post(t: Tables, i: ApplyInput, delta: int): Posting {
    var key := TrimSpace(i.key);
    var next := BalanceOf(t, i.user) + delta;
    if key == "" then Posting(t, Err(InvalidIdempotencyKey))
    else if i.reason == Unset then Posting(t, Err(InvalidAmount))
    else if next < 0 then Posting(t, Err(InsufficientCredits))
    else match RowByKey(t.ledger, key)
      case Some(row) =>
        if SameRequest(row, i, delta)
        then Posting(t.(accounts := t.accounts[i.user := BalanceOf(t, i.user)]), Ok(row.balanceAfter))
        else Posting(t, Err(IdempotencyConflict))
      case None =>
        var row := LedgerRow(i.user, delta, next, i.reason, i.refType, i.refId, key);
        Posting(Tables(t.accounts[i.user := next], t.ledger + [row]), Ok(next))
  }

  function PostGrant(t: Tables, i: ApplyInput): Posting {
    if i.amount <= 0 then Posting(t, Err(InvalidAmount)) else Post(t, i, i.amount)
  }

  function PostSpend(t: Tables, i: ApplyInput): Posting {
    if i.amount <= 0 then Posting(t, Err(InvalidAmount)) else Post(t, i, -i.amount)
  }

  lemma RefusalChangesNothing(t: Tables, i: ApplyInput, delta: int)
    ensures Post(t, i, delta).result.Err? ==> Post(t, i, delta).tables == t
  {
  }

  // What a request is answered, by what is wrong with it in the order it is looked at: the key,
  // the reason, the balance, and a row that already has the key but is of another request.
  lemma PostAnswers(t: Tables, i: ApplyInput, delta: int)
    ensures
      var r, key := Post(t, i, delta).result, TrimSpace(i.key);
      var balance := if i.user in t.accounts then t.accounts[i.user] else 0;
      && (r == Err(InvalidIdempotencyKey) <==> key == "")
      && (r == Err(InvalidAmount) <==> key != "" && i.reason == Unset)
      && (r == Err(InsufficientCredits) <==> key != "" && i.reason != Unset && balance + delta < 0)
      && (r == Err(IdempotencyConflict) ==>
            exists k :: 0 <= k < |t.ledger| && t.ledger[k].key == key
              && !(t.ledger[k].user == i.user && t.ledger[k].delta == delta && t.ledger[k].reason == i.reason))
      && (r.Ok? && (forall k :: 0 <= k < |t.ledger| ==> t.ledger[k].key != key) ==>
            Post(t, i, delta) == Posting(
              Tables(t.accounts[i.user := balance + delta],
                     t.ledger + [LedgerRow(i.user, delta, balance + delta, i.reason, i.refType, i.refId, key)]),
              Ok(balance + delta)))
  {
    hide TrimSpace;
    var found := RowByKey(t.ledger, TrimSpace(i.key));
    if found.Some? {
      var k :| 0 <= k < |t.ledger| && t.ledger[k] == found.value;
    }
  }

  // ---------------------------------------------------------------- what the ledger means

  // Sum of a user's deltas over the ledger.
  function DeltaSum(ledger: seq<LedgerRow>, u: UserId): int {
    if ledger == [] then 0
    else
      var n := |ledger| - 1;
      DeltaSum(ledger[..n], u) + if ledger[n].user == u then ledger[n].delta else 0
  }

  ghost predicate Valid(t: Tables) {
    && (forall u :: u in t.accounts ==> t.accounts[u] == DeltaSum(t.ledger, u) && t.accounts[u] >= 0)
    && (forall i :: 0 <= i < |t.ledger| ==> t.ledger[i].user in t.accounts)
    && (forall i :: 0 <= i < |t.ledger| ==> RowStands(t.ledger, i))
    && (forall i, j :: 0 <= i < j < |t.ledger| ==> t.ledger[i].key != t.ledger[j].key)
  }

  // Row i records the balance its user had once the row was in, and was never an overdraft.
  ghost predicate RowStands(ledger: seq<LedgerRow>, i: int)
    requires 0 <= i < |ledger|
  {
    && ledger[i].balanceAfter == DeltaSum(ledger[..i + 1], ledger[i].user) >= 0
    && ledger[i].key != "" && Trimmed(ledger[i].key)
    && ledger[i].reason != Unset
  }

  lemma {:induction false} NoRowsNoSum(ledger: seq<LedgerRow>, u: UserId)
    requires forall i :: 0 <= i < |ledger| ==> ledger[i].user != u
    ensures DeltaSum(ledger, u) == 0
  {
    if ledger != [] {
      NoRowsNoSum(ledger[..|ledger| - 1], u);
    }
  }

  lemma DeltaSumAppend(ledger: seq<LedgerRow>, row: LedgerRow, u: UserId)
    ensures DeltaSum(ledger + [row], u) == DeltaSum(ledger, u) + if row.user == u then row.delta else 0
  {
    assert (ledger + [row])[..|ledger|] == ledger;
  }

  lemma BalanceIsSum(t: Tables, u: UserId)
    requires Valid(t)
    ensures BalanceOf(t, u) == DeltaSum(t.ledger, u) >= 0
  {
    if u !in t.accounts {
      NoRowsNoSum(t.ledger, u);
    }
  }

  lemma RowStandsInLonger(ledger: seq<LedgerRow>, more: seq<LedgerRow>, i: nat)
    requires i < |ledger| && RowStands(ledger, i)
    ensures RowStands(ledger + more, i)
  {
    assert (ledger + more)[..i + 1] == ledger[..i + 1];
  }

  lemma AppendKeepsBooks(t: Tables, row: LedgerRow)
    requires Valid(t)
    requires row.balanceAfter == BalanceOf(t, row.user) + row.delta >= 0
    requires row.key != "" && Trimmed(row.key) && row.reason != Unset
    requires forall i :: 0 <= i < |t.ledger| ==> t.ledger[i].key != row.key
    ensures Valid(Tables(t.accounts[row.user := row.balanceAfter], t.ledger + [row]))
  {
    var t' := Tables(t.accounts[row.user := row.balanceAfter], t.ledger + [row]);
    BalanceIsSum(t, row.user);
    forall u | u in t'.accounts ensures t'.accounts[u] == DeltaSum(t'.ledger, u) && t'.accounts[u] >= 0 {
      DeltaSumAppend(t.ledger, row, u);
    }
    forall k | 0 <= k < |t'.ledger| ensures RowStands(t'.ledger, k) {
      if k < |t.ledger| {
        RowStandsInLonger(t.ledger, [row], k);
      } else {
        assert t'.ledger[..k + 1] == t'.ledger;
        DeltaSumAppend(t.ledger, row, row.user);
      }
    }
  }

  // One transaction keeps the books: balances stay non-negative and equal to the ledger,
  // every row keeps its running balance, keys stay unique across users.
  lemma PostKeepsBooks(t: Tables, i: ApplyInput, delta: int)
    requires Valid(t)
    ensures Valid(Post(t, i, delta).tables)
    ensures t.ledger <= Post(t, i, delta).tables.ledger
  {
    var next := BalanceOf(t, i.user) + delta;
    var key := TrimSpace(i.key);
    var t' := Post(t, i, delta).tables;
    if t' != t {
      if RowByKey(t.ledger, key).None? {
        var row := LedgerRow(i.user, delta, next, i.reason, i.refType, i.refId, key);
        assert t' == Tables(t.accounts[row.user := row.balanceAfter], t.ledger + [row]);
        TrimSpaceTrims(i.key);
        AppendKeepsBooks(t, row);
      } else {
        TouchKeepsBooks(t, i.user);
      }
    }
  }

  // Creating the missing zero account changes no book.
  lemma TouchKeepsBooks(t: Tables, u: UserId)
    requires Valid(t)
    ensures Valid(t.(accounts := t.accounts[u := BalanceOf(t, u)]))
  {
    BalanceIsSum(t, u);
  }

  // The book-keeper's reading of the running balance: a user's first row opens at its own
  // delta, and every later row is the user's previous row plus its delta.
  lemma RowsChain(t: Tables, i: nat, j: nat)
    requires Valid(t)
    requires i < j < |t.ledger| && t.ledger[i].user == t.ledger[j].user
    requires forall k :: i < k < j ==> t.ledger[k].user != t.ledger[j].user
    ensures t.ledger[j].balanceAfter == t.ledger[i].balanceAfter + t.ledger[j].delta
  {
    assert RowStands(t.ledger, i) && RowStands(t.ledger, j);
    SumOverGap(t.ledger, t.ledger[j].user, i + 1, j);
    assert t.ledger[..j + 1][..j] == t.ledger[..j];
  }

  lemma {:induction false} SumOverGap(ledger: seq<LedgerRow>, u: UserId, lo: nat, hi: nat)
    requires lo <= hi <= |ledger|
    requires forall k :: lo <= k < hi ==> ledger[k].user != u
    ensures DeltaSum(ledger[..hi], u) == DeltaSum(ledger[..lo], u)
    decreases hi
  {
    if lo < hi {
      assert ledger[..hi][..hi - 1] == ledger[..hi - 1];
      SumOverGap(ledger, u, lo, hi - 1);
    }
  }

  lemma FirstRowOpens(t: Tables, j: nat)
    requires Valid(t) && j < |t.ledger|
    requires forall k :: 0 <= k < j ==> t.ledger[k].user != t.ledger[j].user
    ensures t.ledger[j].balanceAfter == t.ledger[j].delta
  {
    assert RowStands(t.ledger, j);
    SumOverGap(t.ledger, t.ledger[j].user, 0, j);
    assert t.ledger[..j + 1][..j] == t.ledger[..j];
  }

  lemma LatestRowIsBalance(t: Tables, j: nat)
    requires Valid(t) && j < |t.ledger|
    requires forall k :: j < k < |t.ledger| ==> t.ledger[k].user != t.ledger[j].user
    ensures BalanceOf(t, t.ledger[j].user) == t.ledger[j].balanceAfter
  {
    BalanceIsSum(t, t.ledger[j].user);
    assert RowStands(t.ledger, j);
    assert t.ledger[..|t.ledger|] == t.ledger;
    SumOverGap(t.ledger, t.ledger[j].user, j + 1, |t.ledger|);
  }

  // ---------------------------------------------------------------- whole runs

  datatype Op = GrantOp(input: ApplyInput) | SpendOp(input: ApplyInput)

  function Perform(t: Tables, op: Op): Posting {
    match op
    case GrantOp(i) => PostGrant(t, i)
    case SpendOp(i) => PostSpend(t, i)
  }

  function Run(t: Tables, ops: seq<Op>): Tables
    decreases |ops|
  {
    if ops == [] then t else Run(Perform(t, ops[0]).tables, ops[1..])
  }

  const Empty := Tables(map[], [])

  lemma {:induction false} RunKeepsBooks(t: Tables, ops: seq<Op>)
    requires Valid(t)
    ensures Valid(Run(t, ops)) && t.ledger <= Run(t, ops).ledger
    decreases |ops|
  {
    if ops != [] {
      var i := ops[0].input;
      PostKeepsBooks(t, i, i.amount);
      PostKeepsBooks(t, i, -i.amount);
      RunKeepsBooks(Perform(t, ops[0]).tables, ops[1..]);
    }
  }

  // Every run of grants and spends from empty tables keeps the books.
  lemma EveryRunKeepsBooks(ops: seq<Op>)
    ensures Valid(Run(Empty, ops))
  {
    RunKeepsBooks(Empty, ops);
  }

  lemma {:induction false} UniqueRowByKey(ledger: seq<LedgerRow>, k: nat)
    requires k < |ledger|
    requires forall i, j :: 0 <= i < j < |ledger| ==> ledger[i].key != ledger[j].key
    ensures RowByKey(ledger, ledger[k].key) == Some(ledger[k])
    decreases |ledger|
  {
    if k > 0 {
      assert ledger[1..][k - 1] == ledger[k];
      UniqueRowByKey(ledger[1..], k - 1);
    }
  }

  // A successful request leaves its row behind, whether it wrote it or found it.
  lemma SuccessLeavesRow(t: Tables, i: ApplyInput, delta: int) returns (k: nat)
    requires Valid(t) && Post(t, i, delta).result.Ok?
    ensures
      var done := Post(t, i, delta);
      && i.user in done.tables.accounts
      && k < |done.tables.ledger|
      && done.tables.ledger[k].key == TrimSpace(i.key)
      && SameRequest(done.tables.ledger[k], i, delta)
      && done.result == Ok(done.tables.ledger[k].balanceAfter)
  {
    match RowByKey(t.ledger, TrimSpace(i.key))
    case Some(row) => k :| 0 <= k < |t.ledger| && t.ledger[k] == row;
    case None => k := |t.ledger|;
  }

  // A request whose row is already there changes nothing.
  lemma RowAnswersRequest(t: Tables, i: ApplyInput, delta: int, k: nat)
    requires Valid(t) && i.user in t.accounts && i.reason != Unset
    requires k < |t.ledger| && t.ledger[k].key == TrimSpace(i.key) && SameRequest(t.ledger[k], i, delta)
    ensures Post(t, i, delta) == Posting(t,
      if BalanceOf(t, i.user) + delta >= 0 then Ok(t.ledger[k].balanceAfter) else Err(InsufficientCredits))
  {
    assert RowStands(t.ledger, k);
    UniqueRowByKey(t.ledger, k);
    assert t.accounts[i.user := BalanceOf(t, i.user)] == t.accounts;
  }

  function Delta(op: Op): int {
    if op.GrantOp? then op.input.amount else -op.input.amount
  }

  lemma {:induction false} RunKeepsAccounts(t: Tables, ops: seq<Op>)
    ensures t.accounts.Keys <= Run(t, ops).accounts.Keys
    decreases |ops|
  {
    if ops != [] {
      RunKeepsAccounts(Perform(t, ops[0]).tables, ops[1..]);
    }
  }

  // Exactly-once: after a request has succeeded, and after any run of other requests, sending
  // it again writes no row and moves no balance. It returns the first balance_after exactly
  // when the balance check, which comes first, still passes; otherwise it reports too few credits.
  lemma ReplayAfterAnyRun(t: Tables, op: Op, ops: seq<Op>)
    requires Valid(t) && Perform(t, op).result.Ok?
    ensures
      var first := Perform(t, op);
      var later := Run(first.tables, ops);
      Perform(later, op) == Posting(later,
        if BalanceOf(later, op.input.user) + Delta(op) >= 0 then first.result else Err(InsufficientCredits))
  {
    var first := Perform(t, op);
    var later := Run(first.tables, ops);
    assert first == Post(t, op.input, Delta(op));
    PostKeepsBooks(t, op.input, Delta(op));
    var k := SuccessLeavesRow(t, op.input, Delta(op));
    RunKeepsBooks(first.tables, ops);
    RunKeepsAccounts(first.tables, ops);
    assert later.ledger[k] == first.tables.ledger[k];
    RowAnswersRequest(later, op.input, Delta(op), k);
  }

  // Such a run: ten credits granted, ten spent, and the same spend sent again.
  lemma ShortReplayIsRefused(u: UserId)
    ensures
      var grant := GrantOp(ApplyInput(u, 10, Purchase, "", "", "g"));
      var spend := SpendOp(ApplyInput(u, 10, SupportSpend, "", "", "s"));
      var later := Run(Empty, [grant, spend]);
      && Perform(Run(Empty, [grant]), spend).result == Ok(0)
      && Perform(later, spend) == Posting(later, Err(InsufficientCredits))
  {
    var grant := GrantOp(ApplyInput(u, 10, Purchase, "", "", "g"));
    var spend := SpendOp(ApplyInput(u, 10, SupportSpend, "", "", "s"));
    assert TrimSpace("g") == "g" && TrimSpace("s") == "s";
    var granted, spent := Perform(Empty, grant).tables, Perform(Perform(Empty, grant).tables, spend).tables;
    assert [grant, spend][1..] == [spend] && [spend][1..] == [] && [grant][1..] == [];
    assert Run(Empty, [grant]) == granted;
    assert Run(granted, [spend]) == spent;
  }

  // ---------------------------------------------------------------- the service

  class Wallet {
    var accounts: map<UserId, int>
    var ledger: seq<LedgerRow>

    ghost function State(): Tables
      reads this
    {
      Tables(accounts, ledger)
    }

    constructor ()
      ensures State() == Empty && Valid(State())
    {
      accounts, ledger := map[], [];
    }

    method GetBalance(user: UserId) returns (balance: int)
      ensures balance == BalanceOf(State(), user)
    {
      if user in accounts { balance := accounts[user]; } else { balance := 0; }
    }

    method GrantCreditsOnTx(i: ApplyInput) returns (r: Result<int, WalletError>)
      requires Valid(State())
      modifies this
      ensures State() == PostGrant(old(State()), i).tables && r == PostGrant(old(State()), i).result
      ensures Valid(State())
    {
      if i.amount <= 0 { return Err(InvalidAmount); }
      PostKeepsBooks(State(), i, i.amount);
      r := ApplyOnTx(i, i.amount);
    }

    method SpendCreditsOnTx(i: ApplyInput) returns (r: Result<int, WalletError>)
      requires Valid(State())
      modifies this
      ensures State() == PostSpend(old(State()), i).tables && r == PostSpend(old(State()), i).result
      ensures Valid(State())
    {
      if i.amount <= 0 { return Err(InvalidAmount); }
      PostKeepsBooks(State(), i, -i.amount);
      r := ApplyOnTx(i, -i.amount);
    }

    // An error return makes the caller roll the transaction back; the account row that
    // the first statement may have created goes with it.
    method ApplyOnTx(i: ApplyInput, delta: int) returns (r: Result<int, WalletError>)
      modifies this
      ensures State() == Post(old(State()), i, delta).tables && r == Post(old(State()), i, delta).result
    {
      var key := TrimSpace(i.key);
      if key == "" { return Err(InvalidIdempotencyKey); }
      if i.reason == Unset { return Err(InvalidAmount); }

      var before := accounts;
      if i.user !in accounts {
        accounts := accounts[i.user := 0];
      }
      var balance := accounts[i.user];
      var next := balance + delta;
      if next < 0 {
        accounts := before;
        return Err(InsufficientCredits);
      }
      var existing := RowByKey(ledger, key);
      if existing.Some? {
        if !SameRequest(existing.value, i, delta) {
          accounts := before;
          return Err(IdempotencyConflict);
        }
        assert accounts == before[i.user := BalanceOf(old(State()), i.user)];
        return Ok(existing.value.balanceAfter);
      }
      ledger := ledger + [LedgerRow(i.user, delta, next, i.reason, i.refType, i.refId, key)];
      accounts := accounts[i.user := next];
      assert accounts == before[i.user := next];
      r := Ok(next);
    }

    // Puts back the tables a transaction started from.
    method Rollback(accounts0: map<UserId, int>, ledger0: seq<LedgerRow>)
      modifies this
      ensures State() == Tables(accounts0, ledger0)
    {
      accounts, ledger := accounts0, ledger0;
    }
  }
}
