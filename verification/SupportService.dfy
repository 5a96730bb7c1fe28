/** backend/internal/support/spend.go: one support spend as one transaction over the wallet,
    the supports, the scores, the streak and the conquest log, followed by what it publishes.
    Every reachable state of the tables is the state the committed history defines. */
module SupportService {
  import opened Prelude
  import opened Text
  import opened Wallets
  import opened SpendHistory
  import opened Conquest
  import opened ActivityFeed
  import opened Streak
  import Derbies

  datatype Profile = Profile(tribe: Option<TribeId>, shadowBanned: bool)

  datatype SupportError = TribeRequired | InvalidIlCode | InvalidCredits | WalletRefused(why: WalletError) | StorageFailed

  // The statement of the transaction, if any, at which the database fails.
  datatype Fault = NoFault | AtSupportInsert | AtScoreUpsert | AtStreakUpsert | AtFlipInsert | AtAttribution | AtCommit

  datatype SupportResult = SupportResult(
    id: SupportId, city: IlCode, credits: int, multiplier: real, effective: real, tribe: TribeId,
    balanceAfter: int, causedFlip: bool, conquestLog: Option<LogId>)

  function SupportKey(id: SupportId): string { "support:" + IdText(id) }

  lemma SupportKeyIsTrimmed(id: SupportId)
    ensures TrimSpace(SupportKey(id)) == SupportKey(id) != ""
  {
    var k := SupportKey(id);
    assert k[0] == 's' && k[|k| - 1] == IdText(id)[|IdText(id)| - 1];
  }

  lemma SupportKeyInjective(a: SupportId, b: SupportId)
    requires SupportKey(a) == SupportKey(b)
    ensures a == b
  {
    assert SupportKey(a)[8..] == IdText(a) && SupportKey(b)[8..] == IdText(b);
    IdTextInjective(a, b);
  }

  // While only spends write keys of this form, an id that no committed spend has gives a key that
  // no ledger row has.
  lemma FreshIdFreshKey(ledger: seq<LedgerRow>, h: History, id: SupportId)
    requires forall i, other: SupportId :: 0 <= i < |ledger| && ledger[i].key == SupportKey(other) ==>
      exists j :: 0 <= j < |h| && ledger[i].key == SupportKey(h[j].id)
    requires forall j :: 0 <= j < |h| ==> h[j].id != id
    ensures KeyIsFresh(ledger, SupportKey(id))
  {
    forall i | 0 <= i < |ledger| ensures ledger[i].key != SupportKey(id) {
      if ledger[i].key == SupportKey(id) {
        var j :| 0 <= j < |h| && ledger[i].key == SupportKey(h[j].id);
        SupportKeyInjective(h[j].id, id);
      }
    }
  }

  function DebitInput(s: Spend): ApplyInput {
    ApplyInput(s.user, s.credits, SupportSpend, "support", IdText(s.id), SupportKey(s.id))
  }

  // ---------------------------------------------------------------- what the other tables owe a history

  datatype Debit = Debit(user: UserId, delta: int, refId: string)

  // The support_spend rows of the ledger.
  function Debits(ledger: seq<LedgerRow>): seq<Debit> {
    if ledger == [] then []
    else
      var n := |ledger| - 1;
      var rest := Debits(ledger[..n]);
      if ledger[n].reason == SupportSpend then rest + [Debit(ledger[n].user, ledger[n].delta, ledger[n].refId)] else rest
  }

  lemma DebitsAppend(ledger: seq<LedgerRow>, row: LedgerRow)
    ensures Debits(ledger + [row]) ==
      if row.reason == SupportSpend then Debits(ledger) + [Debit(row.user, row.delta, row.refId)] else Debits(ledger)
  {
    assert (ledger + [row])[..|ledger|] == ledger;
  }

  // One row per spend, in order, of opposite amount.
  function DebitsOf(h: History): seq<Debit> {
    seq(|h|, i requires 0 <= i < |h| => Debit(h[i].user, -h[i].credits, IdText(h[i].id)))
  }

  function RowSum(rows: seq<Support>, t: TribeId, c: IlCode): real {
    if rows == [] then 0.0
    else
      var row := rows[|rows| - 1];
      RowSum(rows[..|rows| - 1], t, c) + if row.tribe == t && row.city == c then row.effective else 0.0
  }

  lemma {:induction false} RowsSumLikeSpends(rows: seq<Support>, h: History, t: TribeId, c: IlCode)
    requires |rows| == |h|
    requires forall i :: 0 <= i < |h| ==>
      rows[i].tribe == h[i].tribe && rows[i].city == h[i].city && rows[i].effective == h[i].effective
    ensures RowSum(rows, t, c) == SumOf(h, t, c)
  {
    if h != [] { RowsSumLikeSpends(rows[..|h| - 1], h[..|h| - 1], t, c); }
  }

  // Conservation across tables: a score is the effective support of its pair's support rows (a
  // pair without a score row has none), and each support row has its debit, of opposite amount.
  lemma {:induction false} TablesBalance(h: History, t: TribeId, c: IlCode)
    ensures RowSum(SupportsOf(h), t, c) == if (t, c) in ScoresOf(h) then ScoresOf(h)[(t, c)] else 0.0
    ensures |DebitsOf(h)| == |SupportsOf(h)|
    ensures forall i :: 0 <= i < |h| ==>
      DebitsOf(h)[i] == Debit(SupportsOf(h)[i].user, -SupportsOf(h)[i].credits, IdText(SupportsOf(h)[i].id))
  {
    RowsSumLikeSpends(SupportsOf(h), h, t, c);
    if (t, c) !in ScoresOf(h) { UnpairedIsZero(h, t, c); }
  }

  lemma DebitsOfAppend(h: History, s: Spend)
    ensures DebitsOf(h + [s]) == DebitsOf(h) + [Debit(s.user, -s.credits, IdText(s.id))]
  {
  }

  function TaggedOf(h: History): seq<Derbies.TaggedSpend> {
    if h == [] then []
    else
      var s := h[|h| - 1];
      var rest := TaggedOf(h[..|h| - 1]);
      if s.derby.Some? then rest + [Derbies.TaggedSpend(s.derby.value, s.tribe, s.effective)] else rest
  }

  lemma TaggedOfAppend(h: History, s: Spend)
    ensures TaggedOf(h + [s]) ==
      if s.derby.Some? then TaggedOf(h) + [Derbies.TaggedSpend(s.derby.value, s.tribe, s.effective)] else TaggedOf(h)
  {
    assert (h + [s])[..|h|] == h;
  }

  // What subscribers of support_applied:{city} and region_supported:{city} are sent.
  datatype Applied = Applied(city: IlCode, user: UserId, tribe: TribeId, delta: real, derby: Option<DerbyId>)

  datatype RegionSupported = RegionSupported(
    id: LogId, city: IlCode, cityName: string, previous: Option<TribeId>, newTribe: TribeId,
    winning: real, occurredAt: int, wasDerbiBonus: bool)

  // One per spend, in order.
  function AppliedOf(h: History): seq<Applied> {
    seq(|h|, i requires 0 <= i < |h| => Applied(h[i].city, h[i].user, h[i].tribe, h[i].effective, h[i].derby))
  }

  function RegionOf(e: Entry): RegionSupported {
    RegionSupported(e.id, e.city, e.cityName, e.previous, e.newTribe, e.winning, e.occurredAt, e.wasDerbiBonus)
  }

  // One per row of the conquest log, in order.
  function RegionsOf(log: seq<Entry>): seq<RegionSupported> {
    seq(|log|, i requires 0 <= i < |log| => RegionOf(log[i]))
  }

  lemma EventsAppend(names: CityNames, h: History, s: Spend)
    ensures AppliedOf(h + [s]) == AppliedOf(h) + [Applied(s.city, s.user, s.tribe, s.effective, s.derby)]
    ensures RegionsOf(LogOf(names, h + [s])) == RegionsOf(LogOf(names, h)) +
      match FlipOf(names, h + [s]) case Some(e) => [RegionOf(e)] case None => []
  {
    LogAppend(names, h, s);
  }

  // The calendar days of one user's spends.
  function DaysOf(h: History, u: UserId): seq<int> {
    if h == [] then []
    else
      var s := h[|h| - 1];
      var rest := DaysOf(h[..|h| - 1], u);
      if s.user == u then rest + [CalendarDay(s.at)] else rest
  }

  ghost predicate StreaksOf(rows: map<UserId, StreakState>, h: History) {
    forall u: UserId :: (if u in rows then rows[u] else Zero) == Fold(DaysOf(h, u))
  }

  lemma UpsertKeepsStreaks(rows: map<UserId, StreakState>, h: History, s: Spend)
    requires StreaksOf(rows, h)
    ensures
      var prev := if s.user in rows then rows[s.user] else Zero;
      StreaksOf(rows[s.user := NextStreak(prev, CalendarDay(s.at))], h + [s])
  {
    assert (h + [s])[..|h|] == h;
    forall u: UserId ensures DaysOf(h + [s], u) == if s.user == u then DaysOf(h, u) + [CalendarDay(s.at)] else DaysOf(h, u) {}
    var days := DaysOf(h, s.user);
    assert (days + [CalendarDay(s.at)])[..|days|] == days;
  }

  // A spend with a fresh key is refused exactly when the balance is short, and otherwise adds
  // one row and takes the amount off.
  lemma FreshDebit(t: Tables, s: Spend)
    requires s.credits > 0
    requires KeyIsFresh(t.ledger, SupportKey(s.id))
    ensures
      var next := BalanceOf(t, s.user) - s.credits;
      PostSpend(t, DebitInput(s)) ==
        if next < 0 then Posting(t, Err(InsufficientCredits))
        else Posting(
          Tables(t.accounts[s.user := next],
                 t.ledger + [LedgerRow(s.user, -s.credits, next, SupportSpend, "support", IdText(s.id), SupportKey(s.id))]),
          Ok(next))
  {
    SupportKeyIsTrimmed(s.id);
  }

  // leaderChanged
  predicate LeaderChanged(prev: Option<TribeId>, next: Option<TribeId>) {
    next.Some? && (prev.None? || prev.value != next.value)
  }

  function TribeIn(leader: Option<(TribeId, real)>): Option<TribeId> {
    match leader case Some(l) => Some(l.0) case None => None
  }

  // Re-reading the leader after the bump sees a change exactly when the spend is a capture, and
  // then the new leader is the spender's tribe with the sum the log is to record.
  lemma {:induction false} RereadSeesCapture(h: History, s: Spend)
    requires Positive(h + [s])
    ensures
      var prev := LoadProvinceLeader(ScoresOf(h), s.city);
      var next := LoadProvinceLeader(ScoresOf(h + [s]), s.city);
      && TribeIn(prev) == Holder(h, s.city)
      && (LeaderChanged(TribeIn(prev), TribeIn(next)) <==> IsCapture(h + [s], |h|))
      && (IsCapture(h + [s], |h|) ==>
            next == Some((s.tribe, SumOf(h + [s], s.tribe, s.city))))
  {
    assert (h + [s])[..|h|] == h && (h + [s])[..|h| + 1] == h + [s];
    assert Positive(h) by { assert forall i :: 0 <= i < |h| ==> (h + [s])[i] == h[i]; }
    assert s == (h + [s])[|h|];
    LeaderIsHolder(h, s.city);
    LeaderIsHolder(h + [s], s.city);
    HolderStep(h, s, s.city);
    CaptureIsBySpender(h + [s], |h|);
  }

  // The log row a flip inserts, before its cause is recorded.
  function NewEntry(names: CityNames, s: Spend, prev: Option<TribeId>, winning: real): Entry {
    Entry(s.flipId, s.city, NameOf(names, s.city), prev, s.tribe, winning, s.at, s.derby.Some?, None)
  }

  // Insert and attribution together turn the tables of h, plus the new support row, into those of h + [s].
  lemma FlipKeepsTables(names: CityNames, h: History, s: Spend, e: Entry)
    requires WellFormed(h + [s]) && IsCapture(h + [s], |h|)
    requires e == NewEntry(names, s, Holder(h, s.city), SumOf(h + [s], s.tribe, s.city))
    ensures
      var rec := RecordAt(h + [s], |h|);
      var rows, log := SupportsOf(h) + [Row(s, None)], LogOf(names, h) + [e];
      && |SupportsOf(h + [s])| == |rows| && |LogOf(names, h + [s])| == |log|
      && (forall i :: 0 <= i < |rows| ==> Tagged(rows[i], rec, LastLost(log, rec)) == SupportsOf(h + [s])[i])
      && (forall i :: 0 <= i < |log| ==> Caused(log[i], rec) == LogOf(names, h + [s])[i])
  {
    hide Holder, SumOf, SupportsOf, LogOf, EntryAt, Tagged, Caused, LastLost, WellFormed;
    FlipTagsRows(names, h, s, e);
    FlipFillsCause(names, h, s, e);
  }

  lemma FlipTagsRows(names: CityNames, h: History, s: Spend, e: Entry)
    requires WellFormed(h + [s]) && IsCapture(h + [s], |h|)
    requires e == NewEntry(names, s, Holder(h, s.city), SumOf(h + [s], s.tribe, s.city))
    ensures
      var rec := RecordAt(h + [s], |h|);
      var rows, log := SupportsOf(h) + [Row(s, None)], LogOf(names, h) + [e];
      && |SupportsOf(h + [s])| == |rows|
      && forall i :: 0 <= i < |rows| ==> Tagged(rows[i], rec, LastLost(log, rec)) == SupportsOf(h + [s])[i]
  {
    hide Holder, SumOf, WellFormed, TagOf, InWindow, LogOf;
    var h', n := h + [s], |h|;
    var rec := RecordAt(h', n);
    var rows, log := SupportsOf(h) + [Row(s, None)], LogOf(names, h) + [e];
    NewEntryIsNoLoss(LogOf(names, h), e, rec);
    forall i | 0 <= i < |rows| ensures Tagged(rows[i], rec, LastLost(log, rec)) == SupportsOf(h')[i] {
      AttributionKeepsTags(names, h, s, i);
    }
  }

  // The row just inserted is left out when the last loss is looked up.
  lemma NewEntryIsNoLoss(log: seq<Entry>, e: Entry, rec: Attribution)
    requires e.id == rec.logId
    ensures LastLost(log + [e], rec) == LastLost(log, rec)
  {
    assert (log + [e])[..|log|] == log;
  }

  lemma FlipFillsCause(names: CityNames, h: History, s: Spend, e: Entry)
    requires WellFormed(h + [s]) && IsCapture(h + [s], |h|)
    requires e == NewEntry(names, s, Holder(h, s.city), SumOf(h + [s], s.tribe, s.city))
    ensures
      var rec := RecordAt(h + [s], |h|);
      var log := LogOf(names, h) + [e];
      && |LogOf(names, h + [s])| == |log|
      && forall i :: 0 <= i < |log| ==> Caused(log[i], rec) == LogOf(names, h + [s])[i]
  {
    hide Holder, SumOf, LogOf, Positive, Stamped;
    var h', n := h + [s], |h|;
    LogAppend(names, h, s);
    assert h'[..n] == h && h'[..n + 1] == h';
    forall i | 0 <= i < |LogOf(names, h)| ensures LogOf(names, h)[i].id != s.flipId {
      var j := LogEntryIsCapture(names, h, i);
      assert h'[j].flipId != h'[n].flipId;
    }
  }

  // The new spend fits the history: later than the city's spends so far, with ids of its own.
  ghost predicate Fits(h: History, s: Spend) {
    && s.credits > 0 && s.effective > 0.0
    && (forall i :: 0 <= i < |h| ==> h[i].id != s.id && h[i].flipId != s.flipId)
    && (forall i :: 0 <= i < |h| && h[i].city == s.city ==> h[i].at < s.at)
  }

  lemma FittingKeepsWellFormed(h: History, s: Spend)
    requires WellFormed(h) && Fits(h, s)
    ensures WellFormed(h + [s])
  {
  }

  // ---------------------------------------------------------------- the service

  class Service {
    const wallet: Wallet
    const store: ConquestStore
    const derbies: Derbies.DerbyService
    const streaks: StreakStore
    const cities: CityNames     // admin_boundaries
    const activityMin: int

    var scores: Scores
    var applied: seq<Applied>           // published on support_applied:{city}
    var regions: seq<RegionSupported>   // published on region_supported:{city}
    var feed: seq<FeedItem>             // published on activity:feed

    ghost var history: History  // the spends committed so far

    ghost predicate TablesMatch(h: History)
      reads this`scores, wallet, store, streaks
    {
      && store.supports == SupportsOf(h)
      && store.log == LogOf(cities, h)
      && scores == ScoresOf(h)
      && Debits(wallet.ledger) == DebitsOf(h)
      && StreaksOf(streaks.rows, h)
      && Wallets.Valid(wallet.State())
    }

    ghost predicate Valid()
      reads this, wallet, store, derbies, streaks
    {
      && WellFormed(history) && KnownCities(cities, history)
      && TablesMatch(history)
      && derbies.Valid() && derbies.spends == TaggedOf(history)
      && applied == AppliedOf(history) && regions == RegionsOf(LogOf(cities, history))
      && feed == PublishedOf(cities, history, activityMin)
    }

    constructor (wallet: Wallet, derbies: Derbies.DerbyService, cities: CityNames, activityMin: int)
      requires Wallets.Valid(wallet.State()) && Debits(wallet.ledger) == []
      requires derbies.Valid() && derbies.spends == []
      ensures Valid() && history == [] && this.wallet == wallet && this.derbies == derbies
      ensures this.cities == cities && this.activityMin == activityMin
    {
      this.wallet, this.derbies, this.cities, this.activityMin := wallet, derbies, cities, activityMin;
      store := new ConquestStore();
      streaks := new StreakStore();
      scores, applied, regions, feed, history := map[], [], [], [], [];
    }

    // Any other caller of the wallet: purchases, refunds, referrals, stub grants.
    method PostOther(op: Op) returns (r: Result<int, WalletError>)
      requires Valid() && op.input.reason != SupportSpend
      modifies wallet
      ensures Valid() && wallet.State() == Perform(old(wallet.State()), op).tables
    {
      hide Wallets.Valid, SupportsOf, LogOf, ScoresOf, StreaksOf, Derbies.Books, PublishedOf, AppliedOf, RegionsOf, TaggedOf, Debits;
      ghost var t := wallet.State();
      match op {
        case GrantOp(i) => r := wallet.GrantCreditsOnTx(i);
        case SpendOp(i) => r := wallet.SpendCreditsOnTx(i);
      }
      if wallet.ledger != t.ledger {
        DebitsAppend(t.ledger, wallet.ledger[|t.ledger|]);
      }
    }

    // Every table and key a spend may write.
    ghost function Snap(): Snapshot
      reads this, wallet, store, derbies, streaks
    {
      Snapshot(history, wallet.State(), store.supports, store.log, scores, streaks.rows,
               applied, regions, feed, derbies.counters)
    }

    // The transaction's statements in order. After an error the tables are whatever the
    // statements so far have made of them.
    method Statements(s: Spend, fault: Fault) returns (r: Result<int, SupportError>, flip: Option<Entry>)
      requires TablesMatch(history) && WellFormed(history) && Fits(history, s)
      requires KeyIsFresh(wallet.ledger, SupportKey(s.id))
      modifies this`scores, wallet, store, streaks
      ensures r.Ok? ==> TablesMatch(history + [s])
      ensures r.Ok? ==> flip == FlipOf(cities, history + [s])
      ensures r.Ok? ==> r.value == BalanceOf(old(wallet.State()), s.user) - s.credits
      ensures r == Err(WalletRefused(InsufficientCredits)) <==> BalanceOf(old(wallet.State()), s.user) < s.credits
      ensures r.Err? ==> r.error in {WalletRefused(InsufficientCredits), StorageFailed}
      ensures fault == NoFault ==> r != Err(StorageFailed)
    {
      hide Wallets.Valid, SupportsOf, LogOf, ScoresOf, DebitsOf, StreaksOf, Stamped, Fresh, Debits, KeyIsFresh, Trimmed,
           Leads, LoadProvinceLeader, Bumped, SupportKey, IdText, EntryAt, SumOf, Holder, BalanceOf, NextStreak;
      flip := None;
      var prevLeader := TribeIn(LoadProvinceLeader(scores, s.city));
      var balance := Debited(s);
      if balance.Err? { return Err(WalletRefused(balance.error)), None; }
      if fault == AtSupportInsert { return Err(StorageFailed), None; }
      store.InsertSupport(Support(s.id, s.user, s.tribe, s.city, s.credits, s.multiplier, s.effective, s.derby, s.at, None));

      if fault == AtScoreUpsert { return Err(StorageFailed), None; }
      BumpKeepsScores(history, s);
      scores := Bumped(scores, s.tribe, s.city, s.effective);

      if fault == AtStreakUpsert { return Err(StorageFailed), None; }
      UpsertKeepsStreaks(streaks.rows, history, s);
      var _, _ := streaks.UpsertOnSupport(s.user, s.at);

      FittingKeepsWellFormed(history, s);
      RereadSeesCapture(history, s);
      var newLeader := LoadProvinceLeader(scores, s.city);
      if LeaderChanged(prevLeader, TribeIn(newLeader)) {
        if fault == AtFlipInsert || fault == AtAttribution { return Err(StorageFailed), None; }
        flip := RecordFlip(s, prevLeader, newLeader.value.1);
      } else {
        NoFlipKeepsTags(history, s);
        LogAppend(cities, history, s);
      }
      if fault == AtCommit { return Err(StorageFailed), None; }
      r := Ok(balance.value);
    }

    method Debited(s: Spend) returns (r: Result<int, WalletError>)
      requires Wallets.Valid(wallet.State()) && Debits(wallet.ledger) == DebitsOf(history)
      requires s.credits > 0 && KeyIsFresh(wallet.ledger, SupportKey(s.id))
      modifies wallet
      ensures Wallets.Valid(wallet.State())
      ensures
        var next := BalanceOf(old(wallet.State()), s.user) - s.credits;
        r == if next < 0 then Err(InsufficientCredits) else Ok(next)
      ensures r.Ok? ==> Debits(wallet.ledger) == DebitsOf(history + [s])
    {
      hide Wallets.Valid, Trimmed, Post, PostSpend, Debits, SupportKey, IdText, KeyIsFresh, DebitsOf;
      FreshDebit(wallet.State(), s);
      ghost var ledger0 := wallet.ledger;
      r := wallet.SpendCreditsOnTx(DebitInput(s));
      if r.Ok? {
        DebitsAppend(ledger0, wallet.ledger[|ledger0|]);
        DebitsOfAppend(history, s);
      }
    }

    // Commits all tables for one more spend, or leaves every one of them alone.
    method Transact(s: Spend, fault: Fault) returns (r: Result<int, SupportError>, flip: Option<Entry>)
      requires TablesMatch(history) && WellFormed(history) && Fits(history, s)
      requires KeyIsFresh(wallet.ledger, SupportKey(s.id))
      modifies this`scores, wallet, store, streaks
      ensures r.Ok? ==> TablesMatch(history + [s])
      ensures r.Ok? ==> flip == FlipOf(cities, history + [s])
      ensures r.Ok? ==> r.value == BalanceOf(old(wallet.State()), s.user) - s.credits
      ensures r.Err? ==> TablesMatch(history)
      ensures r.Err? ==> wallet.State() == old(wallet.State()) && scores == old(scores) && streaks.rows == old(streaks.rows)
      ensures r.Err? ==> store.supports == old(store.supports) && store.log == old(store.log)
      ensures r == Err(WalletRefused(InsufficientCredits)) <==> BalanceOf(old(wallet.State()), s.user) < s.credits
      ensures r.Err? ==> r.error in {WalletRefused(InsufficientCredits), StorageFailed}
      ensures fault == NoFault ==> r != Err(StorageFailed)
    {
      var accounts0, ledger0 := wallet.accounts, wallet.ledger;
      var supports0, log0, scores0, rows0 := store.supports, store.log, scores, streaks.rows;
      r, flip := Statements(s, fault);
      if r.Err? {
        wallet.Rollback(accounts0, ledger0);
        store.Rollback(supports0, log0);
        streaks.Rollback(rows0);
        scores := scores0;
      }
    }

    // RecordFlip and AttributeFlip, as production wires them.
    method RecordFlip(s: Spend, prev: Option<TribeId>, winning: real) returns (flip: Option<Entry>)
      requires WellFormed(history + [s]) && IsCapture(history + [s], |history|)
      requires store.supports == SupportsOf(history) + [Row(s, None)] && store.log == LogOf(cities, history)
      requires prev == Holder(history, s.city) && winning == SumOf(history + [s], s.tribe, s.city)
      modifies store
      ensures store.supports == SupportsOf(history + [s]) && store.log == LogOf(cities, history + [s])
      ensures flip == FlipOf(cities, history + [s])
    {
      var e := NewEntry(cities, s, prev, winning);
      store.InsertOnTx(e);
      FlipKeepsTables(cities, history, s, e);
      store.AttributeSupportsOnTx(Attribution(e.id, s.city, s.tribe, s.id, s.at));
      assert store.supports == SupportsOf(history + [s]);
      assert store.log == LogOf(cities, history + [s]);
      LogAppend(cities, history, s);
      flip := Some(store.log[|store.log| - 1]);
    }

    // The Redis side of a committed spend: the derby counter, the events and the activity feed.
    method Announce(s: Spend, side: Option<Derbies.Side>, flip: Option<Entry>)
      requires derbies.Valid() && derbies.spends == TaggedOf(history)
      requires applied == AppliedOf(history) && regions == RegionsOf(LogOf(cities, history))
      requires feed == PublishedOf(cities, history, activityMin) && flip == FlipOf(cities, history + [s])
      requires SideStands(derbies.State(), s, side)
      modifies this`applied, this`regions, this`feed, derbies
      ensures derbies.Valid() && derbies.spends == TaggedOf(history + [s])
      ensures applied == AppliedOf(history + [s]) && regions == RegionsOf(LogOf(cities, history + [s]))
      ensures feed == PublishedOf(cities, history + [s], activityMin)
    {
      hide AppliedOf, RegionsOf, LogOf, PublishedOf, IsCapture, Derbies.Books;
      TaggedOfAppend(history, s);
      EventsAppend(cities, history, s);
      applied := applied + [Applied(s.city, s.user, s.tribe, s.effective, s.derby)];
      if s.derby.Some? && side.Some? {
        derbies.IncrScore(s.derby.value, side.value, s.effective, s.tribe);
      }
      if flip.Some? {
        var e := flip.value;
        regions := regions + [RegionSupported(e.id, e.city, e.cityName, e.previous, e.newTribe, e.winning,
                                              e.occurredAt, e.wasDerbiBonus)];
      }
      PublishedAppend(cities, history, s, activityMin);
      // publishActivityFeed
      var item := LiveItem(flip, s.id, s.tribe, s.city, NameOf(cities, s.city), s.credits, s.derby, s.at, activityMin);
      if item.Some? { feed := feed + [item.value]; }
    }

    // What follows the multiplier lookup: the transaction, then Redis.
    method Commit(s: Spend, side: Option<Derbies.Side>, fault: Fault) returns (r: Result<SupportResult, SupportError>)
      requires Valid() && Fits(history, s) && s.city in cities
      requires KeyIsFresh(wallet.ledger, SupportKey(s.id))
      requires SideStands(derbies.State(), s, side)
      modifies this, wallet, store, derbies, streaks
      ensures Valid()
      ensures r.Err? ==> Snap() == old(Snap())
      ensures r.Ok? ==> history == old(history) + [s]
      ensures r.Ok? ==> Answers(r.value, history, BalanceOf(old(wallet.State()), s.user) - s.credits)
      ensures r == Err(WalletRefused(InsufficientCredits)) <==> BalanceOf(old(wallet.State()), s.user) < s.credits
      ensures r.Err? ==> r.error in {WalletRefused(InsufficientCredits), StorageFailed}
      ensures fault == NoFault ==> r != Err(StorageFailed)
    {
      hide TablesMatch, Derbies.Books, PublishedOf, AppliedOf, RegionsOf, LogOf, TaggedOf, Positive, Stamped, Fresh, Trimmed, SideStands;
      var balance, flip := Transact(s, fault);
      if balance.Err? { return Err(balance.error); }
      Announce(s, side, flip);
      FittingKeepsWellFormed(history, s);
      history := history + [s];
      r := Ok(SupportResult(s.id, s.city, s.credits, s.multiplier, s.effective, s.tribe, balance.value, flip.Some?,
                            if flip.Some? then Some(flip.value.id) else None));
    }

    // Apply. `now` is the stamp taken under the city lock; id and flipId are freshly drawn.
    method Apply(user: UserId, profile: Option<Profile>, ilCode: IlCode, credits: int,
                 now: int, id: SupportId, flipId: LogId, fault: Fault)
      returns (r: Result<SupportResult, SupportError>)
      requires Valid() && KeyIsFresh(wallet.ledger, SupportKey(id))
      requires forall i :: 0 <= i < |history| ==> history[i].id != id && history[i].flipId != flipId
      requires forall i :: 0 <= i < |history| && history[i].city == NormalizeIlCode(ilCode) ==> history[i].at < now
      modifies this, wallet, store, derbies, streaks
      ensures Valid()
      // a refused, failed or shadow-banned spend changes no table
      ensures r.Err? || Shadow(profile) ==> Snap() == old(Snap())
      // a committed one is the history plus one spend, and its answer says what it did
      ensures r.Ok? && !Shadow(profile) ==>
        && |history| == |old(history)| + 1 && old(history) <= history
        && Requested(history[|history| - 1], user, profile, NormalizeIlCode(ilCode), credits, now, id, flipId)
        && Answers(r.value, history, BalanceOf(old(wallet.State()), user) - credits)
      // which requests are refused
      ensures Refusal(cities, profile, NormalizeIlCode(ilCode), credits).Some? ==>
        r == Err(Refusal(cities, profile, NormalizeIlCode(ilCode), credits).value)
      ensures Refusal(cities, profile, NormalizeIlCode(ilCode), credits).None? ==>
        && (r == Err(WalletRefused(InsufficientCredits))
            <==> !Shadow(profile) && BalanceOf(old(wallet.State()), user) < credits)
        && (r.Err? ==> r.error in {WalletRefused(InsufficientCredits), StorageFailed})
        && (fault == NoFault || Shadow(profile) ==> r != Err(StorageFailed))
    {
      hide TablesMatch, PublishedOf, AppliedOf, RegionsOf, LogOf, TaggedOf, Derbies.Books, Derbies.LookupStep, Wallets.Valid, IsCapture,
           SupportKey, IdText, NormalizeIlCode, Trimmed;
      if credits <= 0 { return Err(InvalidCredits); }
      var city := NormalizeIlCode(ilCode);
      if city == "" || city !in cities { return Err(InvalidIlCode); }
      if profile.None? || profile.value.tribe.None? { return Err(TribeRequired); }
      var tribe := profile.value.tribe.value;

      var m := derbies.ResolveSupportMultiplier(tribe, city);
      NormalizeIlCodeIdempotent(ilCode);
      var effective := credits as real * m.factor;
      DoubledIsPositive(credits, m.factor);

      if profile.value.shadowBanned {
        var balance := wallet.GetBalance(user);
        return Ok(SupportResult(id, city, credits, m.factor, effective, tribe, balance, false, None));
      }
      var s := SpendHistory.Spend(id, user, tribe, city, credits, m.factor, effective, m.derby, now, flipId);
      r := Commit(s, m.side, fault);
    }
  }

  lemma DoubledIsPositive(credits: int, factor: real)
    requires credits > 0 && factor > 0.0
    ensures credits as real * factor > 0.0
  {
  }

  datatype Snapshot = Snapshot(
    history: History, wallet: Tables, supports: seq<Support>, log: seq<Entry>, scores: Scores,
    streaks: map<UserId, StreakState>, applied: seq<Applied>, regions: seq<RegionSupported>, feed: seq<FeedItem>, counters: map<(DerbyId, Derbies.Side), real>)

  // A spend tagged with a derby is by a tribe playing it, on the side it plays, while it is on.
  ghost predicate SideStands(w: Derbies.World, s: Spend, side: Option<Derbies.Side>) {
    s.derby.Some? ==>
      && s.derby.value in w.derbies && w.derbies[s.derby.value].status == Derbies.Active
      && side.Some? && s.tribe == Derbies.TribeOn(w.derbies[s.derby.value], side.value)
  }

  ghost predicate KeyIsFresh(ledger: seq<LedgerRow>, key: string) {
    forall i :: 0 <= i < |ledger| ==> ledger[i].key != key
  }

  // The log row of the last spend of h, if that spend flipped its city.
  ghost function FlipOf(names: CityNames, h: History): Option<Entry>
    requires h != []
  {
    if IsCapture(h, |h| - 1) then Some(EntryAt(names, h, |h| - 1)) else None
  }

  // The checks before the transaction, in the order they are made.
  function Refusal(cities: CityNames, profile: Option<Profile>, city: IlCode, credits: int): Option<SupportError> {
    if credits <= 0 then Some(InvalidCredits)
    else if city == "" || city !in cities then Some(InvalidIlCode)
    else if profile.None? || profile.value.tribe.None? then Some(TribeRequired)
    else None
  }

  ghost predicate Requested(s: Spend, user: UserId, profile: Option<Profile>, city: IlCode, credits: int,
                            now: int, id: SupportId, flipId: LogId)
  {
    && s.id == id && s.user == user && s.city == city && s.credits == credits && s.at == now && s.flipId == flipId
    && profile.Some? && profile.value.tribe == Some(s.tribe)
    && s.multiplier == (if s.derby.Some? then 2.0 else 1.0)
    && s.effective == credits as real * s.multiplier
  }

  predicate Shadow(profile: Option<Profile>) {
    profile.Some? && profile.value.tribe.Some? && profile.value.shadowBanned
  }

  // What the caller is told about the last spend of a history.
  ghost predicate Answers(a: SupportResult, h: History, balance: int)
    requires h != []
  {
    var n := |h| - 1;
    && a.id == h[n].id && a.city == h[n].city && a.credits == h[n].credits && a.tribe == h[n].tribe
    && a.multiplier == h[n].multiplier && a.effective == h[n].effective
    && a.balanceAfter == balance
    && a.causedFlip == IsCapture(h, n)
    && a.conquestLog == if IsCapture(h, n) then Some(h[n].flipId) else None
  }
}
