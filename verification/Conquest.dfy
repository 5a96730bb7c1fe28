/** backend/internal/conquest: the supports and conquest_log tables, the row a flip inserts
    and the UPDATE that attributes supports to it; and what those tables hold after any
    history of spends. */
module Conquest {
  import opened Prelude
  import opened SpendHistory

  datatype Support = Support(
    id: SupportId, user: UserId, tribe: TribeId, city: IlCode, credits: int,
    multiplier: real, effective: real, derby: Option<DerbyId>, createdAt: int,
    conquestLog: Option<LogId>)

  datatype Entry = Entry(
    id: LogId, city: IlCode, cityName: string, previous: Option<TribeId>, newTribe: TribeId,
    winning: real, occurredAt: int, wasDerbiBonus: bool, causing: Option<SupportId>)

  datatype Attribution = Attribution(
    logId: LogId, city: IlCode, tribe: TribeId, causing: SupportId, occurredAt: int)

  // ---------------------------------------------------------------- attribution.go

  predicate LostBy(e: Entry, rec: Attribution) {
    e.city == rec.city && e.previous == Some(rec.tribe) && e.id != rec.logId
  }

  // SELECT MAX(occurred_at) over the rows in which the winner lost this city.
  function LastLost(log: seq<Entry>, rec: Attribution): (r: Option<int>)
    ensures r.None? <==> forall i :: 0 <= i < |log| ==> !LostBy(log[i], rec)
    ensures r.Some? ==> exists i :: 0 <= i < |log| && LostBy(log[i], rec) && log[i].occurredAt == r.value
    ensures r.Some? ==> forall i :: 0 <= i < |log| && LostBy(log[i], rec) ==> log[i].occurredAt <= r.value
  {
    if log == [] then None
    else
      var n := |log| - 1;
      var rest := LastLost(log[..n], rec);
      assert forall i :: 0 <= i < n ==> log[..n][i] == log[i];
      if !LostBy(log[n], rec) then rest
      else if rest.Some? && rest.value > log[n].occurredAt then rest
      else Some(log[n].occurredAt)
  }

  // The WHERE clause of the attribution UPDATE.
  predicate InWindow(row: Support, rec: Attribution, lastLost: Option<int>) {
    && row.tribe == rec.tribe
    && row.city == rec.city
    && row.conquestLog.None?
    && (lastLost.None? || row.createdAt > lastLost.value)
    && row.createdAt <= rec.occurredAt
  }

  function Tagged(row: Support, rec: Attribution, lastLost: Option<int>): Support {
    if InWindow(row, rec, lastLost) then row.(conquestLog := Some(rec.logId)) else row
  }

  function Caused(e: Entry, rec: Attribution): Entry {
    if e.id == rec.logId then e.(causing := Some(rec.causing)) else e
  }

  class ConquestStore {
    var supports: seq<Support>
    var log: seq<Entry>

    constructor ()
      ensures supports == [] && log == []
    {
      supports, log := [], [];
    }

    method InsertSupport(row: Support)
      modifies this`supports
      ensures supports == old(supports) + [row]
    {
      supports := supports + [row];
    }

    // log.go
    method InsertOnTx(e: Entry)
      modifies this`log
      ensures log == old(log) + [e]
    {
      log := log + [e];
    }

    method AttributeSupportsOnTx(rec: Attribution)
      modifies this
      ensures |supports| == |old(supports)| && |log| == |old(log)|
      ensures forall i :: 0 <= i < |supports| ==>
        supports[i] == Tagged(old(supports)[i], rec, LastLost(old(log), rec))
      ensures forall i :: 0 <= i < |log| ==> log[i] == Caused(old(log)[i], rec)
    {
      var lastLost := LastLost(log, rec);
      var i := 0;
      while i < |supports|
        invariant 0 <= i <= |supports| == |old(supports)| && log == old(log)
        invariant forall k :: 0 <= k < i ==> supports[k] == Tagged(old(supports)[k], rec, lastLost)
        invariant forall k :: i <= k < |supports| ==> supports[k] == old(supports)[k]
      {
        if InWindow(supports[i], rec, lastLost) {
          supports := supports[i := supports[i].(conquestLog := Some(rec.logId))];
        }
        i := i + 1;
      }
      var j := 0;
      while j < |log|
        invariant 0 <= j <= |log| == |old(log)|
        invariant |supports| == |old(supports)|
        invariant forall k :: 0 <= k < |supports| ==> supports[k] == Tagged(old(supports)[k], rec, lastLost)
        invariant forall k :: 0 <= k < j ==> log[k] == Caused(old(log)[k], rec)
        invariant forall k :: j <= k < |log| ==> log[k] == old(log)[k]
      {
        if log[j].id == rec.logId {
          log := log[j := log[j].(causing := Some(rec.causing))];
        }
        j := j + 1;
      }
    }

    // A transaction that fails puts both tables back.
    method Rollback(supports0: seq<Support>, log0: seq<Entry>)
      modifies this
      ensures supports == supports0 && log == log0
    {
      supports, log := supports0, log0;
    }
  }

  // ---------------------------------------------------------------- the tables of a history

  type CityNames = map<IlCode, string>

  function NameOf(names: CityNames, c: IlCode): string {
    if c in names then names[c] else ""
  }

  // Which capture spend i counts towards: none if its tribe held the city already, otherwise
  // that tribe's first capture from i on.
  ghost function TagOf(h: History, i: nat): Option<LogId>
    requires i < |h|
  {
    if Holder(h[..i], h[i].city) == Some(h[i].tribe) then None
    else match FirstTake(h, i, h[i].city, h[i].tribe)
      case Some(j) => Some(h[j].flipId)
      case None => None
  }

  function Row(s: Spend, tag: Option<LogId>): Support {
    Support(s.id, s.user, s.tribe, s.city, s.credits, s.multiplier, s.effective, s.derby, s.at, tag)
  }

  ghost function SupportsOf(h: History): seq<Support> {
    seq(|h|, i requires 0 <= i < |h| => Row(h[i], TagOf(h, i)))
  }

  ghost function EntryAt(names: CityNames, h: History, j: nat): Entry
    requires j < |h|
  {
    var s := h[j];
    Entry(s.flipId, s.city, NameOf(names, s.city), Holder(h[..j], s.city), s.tribe,
          SumOf(h[..j + 1], s.tribe, s.city), s.at, s.derby.Some?, Some(s.id))
  }

  // One entry per capture, in order.
  ghost function LogOf(names: CityNames, h: History): seq<Entry> {
    if h == [] then []
    else
      var n := |h| - 1;
      if IsCapture(h, n) then LogOf(names, h[..n]) + [EntryAt(names, h, n)] else LogOf(names, h[..n])
  }

  lemma LogAppend(names: CityNames, h: History, s: Spend)
    ensures LogOf(names, h + [s]) ==
      if IsCapture(h + [s], |h|) then LogOf(names, h) + [EntryAt(names, h + [s], |h|)] else LogOf(names, h)
  {
    assert (h + [s])[..|h|] == h;
  }

  lemma {:induction false} LogEntryIsCapture(names: CityNames, h: History, i: nat) returns (j: nat)
    requires i < |LogOf(names, h)|
    ensures j < |h| && IsCapture(h, j) && LogOf(names, h)[i] == EntryAt(names, h, j)
    decreases |h|
  {
    var n := |h| - 1;
    var p := h[..n];
    assert h == p + [h[n]];
    if i < |LogOf(names, p)| {
      j := LogEntryIsCapture(names, p, i);
      OldCapturesStand(p, h[n], j);
      assert p[..j + 1] == h[..j + 1];
    } else {
      j := n;
    }
  }

  lemma {:induction false} CaptureIsLogged(names: CityNames, h: History, j: nat) returns (i: nat)
    requires j < |h| && IsCapture(h, j)
    ensures i < |LogOf(names, h)| && LogOf(names, h)[i] == EntryAt(names, h, j)
    decreases |h|
  {
    var n := |h| - 1;
    var p := h[..n];
    assert h == p + [h[n]];
    if j < n {
      OldCapturesStand(p, h[n], j);
      assert p[..j + 1] == h[..j + 1];
      i := CaptureIsLogged(names, p, j);
    } else {
      i := |LogOf(names, p)|;
    }
  }

  // ---------------------------------------------------------------- the window is right

  // What AttributeFlip is called with when spend n of h flips its city.
  function RecordAt(h: History, n: nat): Attribution
    requires n < |h|
  {
    Attribution(h[n].flipId, h[n].city, h[n].tribe, h[n].id, h[n].at)
  }

  // A loss of the city by the winner, as the log has it, is an earlier spend that flipped it away.
  lemma LossInLog(names: CityNames, h: History, n: nat, k: nat) returns (j: nat)
    requires WellFormed(h) && n < |h| && k < |LogOf(names, h[..n])|
    requires LostBy(LogOf(names, h[..n])[k], RecordAt(h, n))
    ensures j < n && h[j].city == h[n].city && h[j].at == LogOf(names, h[..n])[k].occurredAt
    ensures Holder(h[..j], h[n].city) == Some(h[n].tribe) && IsCapture(h, j)
  {
    j := LogEntryIsCapture(names, h[..n], k);
    assert h[..n][..j] == h[..j] && h[..n][..j + 1] == h[..j + 1];
  }

  // The incremental UPDATE keeps the tags right: run on the tables of a history plus the new
  // untagged row, it yields the tables of the longer history.
  lemma AttributionKeepsTags(names: CityNames, h: History, s: Spend, i: nat)
    requires WellFormed(h + [s]) && i <= |h| && IsCapture(h + [s], |h|)
    ensures
      var rec := RecordAt(h + [s], |h|);
      var row := if i < |h| then Row(h[i], TagOf(h, i)) else Row(s, None);
      Tagged(row, rec, LastLost(LogOf(names, h), rec)) == Row((h + [s])[i], TagOf(h + [s], i))
  {
    if i < |h| {
      OldRowKeepsTag(names, h, s, i);
    } else {
      NewRowGetsTag(names, h, s);
    }
  }

  // One more spend adds a tag to an uncredited support only, and only by taking its city.
  lemma TagAppend(h: History, s: Spend, i: nat)
    requires i < |h|
    ensures TagOf(h + [s], i) ==
      if TagOf(h, i).Some? || Holder(h[..i], h[i].city) == Some(h[i].tribe) then TagOf(h, i)
      else if Takes(h + [s], |h|, h[i].city, h[i].tribe) then Some(s.flipId) else None
  {
    assert (h + [s])[..i] == h[..i];
    FirstTakeAppend(h, s, i, h[i].city, h[i].tribe);
  }

  lemma OldRowKeepsTag(names: CityNames, h: History, s: Spend, i: nat)
    requires WellFormed(h + [s]) && i < |h| && IsCapture(h + [s], |h|)
    ensures
      var rec := RecordAt(h + [s], |h|);
      Tagged(Row(h[i], TagOf(h, i)), rec, LastLost(LogOf(names, h), rec)) == Row(h[i], TagOf(h + [s], i))
  {
    var h', n := h + [s], |h|;
    TagAppend(h, s, i);
    if h[i].city == s.city && h[i].tribe == s.tribe && TagOf(h, i).None? {
      assert h'[..n] == h && h'[..i] == h[..i] && h'[i] == h[i];
      assert h'[i].at < h'[n].at;
      CaptureIsBySpender(h', n);
      if Holder(h[..i], s.city) == Some(s.tribe) {
        HeldSupportIsOutside(names, h', n, i);
      } else {
        FreshSupportIsInside(names, h', n, i);
      }
    }
  }

  // A support made while holding the city is older than the holder's next loss.
  lemma HeldSupportIsOutside(names: CityNames, h: History, n: nat, i: nat)
    requires WellFormed(h) && i < n < |h| && IsCapture(h, n)
    requires h[i].city == h[n].city && h[i].tribe == h[n].tribe
    requires Holder(h[..i], h[n].city) == Some(h[n].tribe)
    ensures
      var lastLost := LastLost(LogOf(names, h[..n]), RecordAt(h, n));
      lastLost.Some? && h[i].at <= lastLost.value
  {
    var c, t := h[n].city, h[n].tribe;
    var log := LogOf(names, h[..n]);
    CaptureIsBySpender(h, n);
    var j := HeldThenLost(h, i, n, c, t);
    assert h[..n][..j] == h[..j] && h[..n][..j + 1] == h[..j + 1];
    var k := CaptureIsLogged(names, h[..n], j);
    assert LostBy(log[k], RecordAt(h, n));
  }

  // A support made after its tribe's losses and before this capture is newer than any of them.
  lemma FreshSupportIsInside(names: CityNames, h: History, n: nat, i: nat)
    requires WellFormed(h) && i <= n < |h| && IsCapture(h, n)
    requires h[i].city == h[n].city && h[i].tribe == h[n].tribe
    requires Holder(h[..i], h[n].city) != Some(h[n].tribe)
    requires FirstTake(h[..n], i, h[n].city, h[n].tribe).None?
    ensures
      var lastLost := LastLost(LogOf(names, h[..n]), RecordAt(h, n));
      lastLost.None? || h[i].at > lastLost.value
  {
    hide SumOf, NameOf;
    var c, t := h[n].city, h[n].tribe;
    var log := LogOf(names, h[..n]);
    var lastLost := LastLost(log, RecordAt(h, n));
    if lastLost.Some? {
      var k :| 0 <= k < |log| && LostBy(log[k], RecordAt(h, n)) && log[k].occurredAt == lastLost.value;
      var j := LossInLog(names, h, n, k);
      if i <= j {
        forall m | i <= m < j ensures !Takes(h, m, c, t) {
          assert !Takes(h[..n], m, c, t);
          assert h[..n][..m] == h[..m] && h[..n][..m + 1] == h[..m + 1];
        }
        NotTakenNotHeld(h, i, j, c, t);
      }
    }
  }

  lemma NewRowGetsTag(names: CityNames, h: History, s: Spend)
    requires WellFormed(h + [s]) && IsCapture(h + [s], |h|)
    ensures
      var rec := RecordAt(h + [s], |h|);
      Tagged(Row(s, None), rec, LastLost(LogOf(names, h), rec)) == Row(s, TagOf(h + [s], |h|))
  {
    var h', n := h + [s], |h|;
    assert h'[..n] == h && h'[n] == s;
    CaptureIsBySpender(h', n);
    assert Takes(h', n, s.city, s.tribe);
    assert FirstTake(h', n, s.city, s.tribe) == Some(n);
    FreshSupportIsInside(names, h', n, n);
  }

  // A spend that flips nothing leaves every earlier tag alone and is itself untagged.
  lemma NoFlipKeepsTags(h: History, s: Spend)
    requires !IsCapture(h + [s], |h|)
    ensures SupportsOf(h + [s]) == SupportsOf(h) + [Row(s, None)]
  {
    forall i | 0 <= i < |h| ensures TagOf(h + [s], i) == TagOf(h, i) {
      TagAppend(h, s, i);
    }
    assert FirstTake(h + [s], |h|, s.city, s.tribe) == None;
  }

  // ---------------------------------------------------------------- what a reader gets

  // A support is tagged with a capture exactly when its tribe did not hold the city just before
  // it and this is the first capture of the city by that tribe from the support on. In
  // particular supports made while holding the city stay untagged, whatever follows.
  lemma TagMeaning(h: History, i: nat, j: nat)
    requires WellFormed(h) && i < |h| && j < |h|
    ensures SupportsOf(h)[i].conquestLog == Some(h[j].flipId) <==>
      && i <= j
      && Holder(h[..i], h[i].city) != Some(h[i].tribe)
      && Takes(h, j, h[i].city, h[i].tribe)
      && forall k :: i <= k < j ==> !Takes(h, k, h[i].city, h[i].tribe)
  {
    assert forall a, b :: 0 <= a < |h| && 0 <= b < |h| && h[a].flipId == h[b].flipId ==> a == b;
  }

  // Product rule, from the capture's side: the tagged set of a capture is exactly the winner's
  // supports in an unbroken stretch, up to the capture, during which the winner did not hold it.
  lemma TaggedSetIsWindow(h: History, i: nat, j: nat)
    requires WellFormed(h) && i < |h| && j < |h| && IsCapture(h, j)
    ensures SupportsOf(h)[i].conquestLog == Some(h[j].flipId) <==>
      && i <= j && h[i].city == h[j].city && h[i].tribe == h[j].tribe
      && forall k :: i <= k <= j ==> Holder(h[..k], h[j].city) != Some(h[j].tribe)
  {
    var c, t := h[j].city, h[j].tribe;
    TagMeaning(h, i, j);
    CaptureIsBySpender(h, j);
    if i <= j && h[i].city == c && h[i].tribe == t {
      if SupportsOf(h)[i].conquestLog == Some(h[j].flipId) {
        forall k | i <= k <= j ensures Holder(h[..k], c) != Some(t) {
          NotTakenNotHeld(h, i, k, c, t);
        }
      } else if Holder(h[..i], c) != Some(t) {
        var k :| i <= k < j && Takes(h, k, c, t);
        CaptureIsBySpender(h, k);
      }
    }
  }

  // The spend that flips a city is always in the tagged set of its own flip.
  lemma CausingSupportIsTagged(h: History, j: nat)
    requires WellFormed(h) && j < |h| && IsCapture(h, j)
    ensures SupportsOf(h)[j].conquestLog == Some(h[j].flipId)
  {
    CaptureIsBySpender(h, j);
  }

  // ---------------------------------------------------------------- the chain

  function CityLog(log: seq<Entry>, c: IlCode): seq<Entry> {
    if log == [] then []
    else
      var n := |log| - 1;
      if log[n].city == c then CityLog(log[..n], c) + [log[n]] else CityLog(log[..n], c)
  }

  lemma CityLogAppend(log: seq<Entry>, e: Entry, c: IlCode)
    ensures CityLog(log + [e], c) == if e.city == c then CityLog(log, c) + [e] else CityLog(log, c)
  {
    assert (log + [e])[..|log|] == log;
  }

  ghost predicate IsChain(log: seq<Entry>) {
    && (log != [] ==> log[0].previous == None)
    && (forall i :: 0 < i < |log| ==> log[i].previous == Some(log[i - 1].newTribe))
    && (forall i :: 0 <= i < |log| ==> log[i].previous != Some(log[i].newTribe) && log[i].winning > 0.0)
  }

  // Per city the log is a chain of owners that starts from nobody and ends at whoever leads now.
  lemma {:induction false} CityLogIsChain(names: CityNames, h: History, c: IlCode)
    requires Positive(h)
    ensures ChainsTo(CityLog(LogOf(names, h), c), Holder(h, c))
    decreases |h|
  {
    if h != [] {
      var n := |h| - 1;
      assert h[..n + 1] == h;
      CityLogIsChain(names, h[..n], c);
      CaptureIsBySpender(h, n);
      StepAt(h, n, c);
      if IsCapture(h, n) {
        EntryIsPositive(names, h, n);
        CityLogAppend(LogOf(names, h[..n]), EntryAt(names, h, n), c);
        if h[n].city == c {
          LinkExtendsChain(CityLog(LogOf(names, h[..n]), c), EntryAt(names, h, n));
        }
      }
    }
  }

  ghost predicate ChainsTo(log: seq<Entry>, holder: Option<TribeId>) {
    IsChain(log) && holder == if log == [] then None else Some(log[|log| - 1].newTribe)
  }

  lemma EntryIsPositive(names: CityNames, h: History, n: nat)
    requires Positive(h) && n < |h|
    ensures EntryAt(names, h, n).winning > 0.0
  {
    var s := h[n];
    assert h[..n + 1] == h[..n] + [s];
    SumNonNegative(h[..n], s.tribe, s.city);
    SumAppend(h[..n], s, s.tribe, s.city);
  }

  lemma LinkExtendsChain(log: seq<Entry>, e: Entry)
    requires IsChain(log) && e.winning > 0.0
    requires e.previous == if log == [] then None else Some(log[|log| - 1].newTribe)
    requires e.previous != Some(e.newTribe)
    ensures IsChain(log + [e])
  {
  }

  ghost predicate SpentAt(h: History, c: IlCode, at: int) {
    exists k :: 0 <= k < |h| && h[k].city == c && h[k].at == at
  }

  ghost predicate InOrder(log: seq<Entry>) {
    forall i, j :: 0 <= i < j < |log| ==> log[i].occurredAt < log[j].occurredAt
  }

  ghost predicate StampedBy(log: seq<Entry>, h: History, c: IlCode) {
    forall i :: 0 <= i < |log| ==> SpentAt(h, c, log[i].occurredAt)
  }

  // Within a city the entries carry strictly increasing times, each the time of a spend there.
  lemma {:induction false} CityLogIsOrdered(names: CityNames, h: History, c: IlCode)
    requires Stamped(h)
    ensures InOrder(CityLog(LogOf(names, h), c)) && StampedBy(CityLog(LogOf(names, h), c), h, c)
    decreases |h|
  {
    if h != [] {
      var n := |h| - 1;
      CityLogIsOrdered(names, h[..n], c);
      LaterThanAll(CityLog(LogOf(names, h[..n]), c), h, c);
      if IsCapture(h, n) {
        var e := EntryAt(names, h, n);
        CityLogAppend(LogOf(names, h[..n]), e, c);
        if h[n].city == c {
          assert SpentAt(h, c, e.occurredAt);
          LaterEntryKeepsOrder(CityLog(LogOf(names, h[..n]), c), e, h, c);
        }
      }
    }
  }

  lemma LaterEntryKeepsOrder(log: seq<Entry>, e: Entry, h: History, c: IlCode)
    requires InOrder(log) && StampedBy(log, h, c) && SpentAt(h, c, e.occurredAt)
    requires forall i :: 0 <= i < |log| ==> log[i].occurredAt < e.occurredAt
    ensures InOrder(log + [e]) && StampedBy(log + [e], h, c)
  {
  }

  lemma LaterThanAll(log: seq<Entry>, h: History, c: IlCode)
    requires Stamped(h) && h != [] && StampedBy(log, h[..|h| - 1], c)
    ensures StampedBy(log, h, c)
    ensures h[|h| - 1].city == c ==> forall i :: 0 <= i < |log| ==> log[i].occurredAt < h[|h| - 1].at
  {
    var p := h[..|h| - 1];
    forall i | 0 <= i < |log|
      ensures SpentAt(h, c, log[i].occurredAt)
      ensures h[|h| - 1].city == c ==> log[i].occurredAt < h[|h| - 1].at
    {
      assert SpentAt(p, c, log[i].occurredAt);
      var k :| 0 <= k < |p| && p[k].city == c && p[k].at == log[i].occurredAt;
      assert h[k].city == c && h[k].at == log[i].occurredAt;
    }
  }

  // ---------------------------------------------------------------- the score table

  type Scores = map<(TribeId, IlCode), real>

  ghost function Pairs(h: History): set<(TribeId, IlCode)> {
    set i | 0 <= i < |h| :: (h[i].tribe, h[i].city)
  }

  ghost function ScoresOf(h: History): Scores {
    map k | k in Pairs(h) :: SumOf(h, k.0, k.1)
  }

  // INSERT ... ON CONFLICT DO UPDATE SET sum = sum + EXCLUDED.sum
  function Bumped(scores: Scores, t: TribeId, c: IlCode, delta: real): Scores {
    scores[(t, c) := (if (t, c) in scores then scores[(t, c)] else 0.0) + delta]
  }

  lemma {:induction false} UnpairedIsZero(h: History, t: TribeId, c: IlCode)
    requires (t, c) !in Pairs(h)
    ensures SumOf(h, t, c) == 0.0
  {
    if h != [] {
      var p, s := h[..|h| - 1], h[|h| - 1];
      assert (s.tribe, s.city) in Pairs(h);
      forall k | k in Pairs(p) ensures k in Pairs(h) {
        var i :| 0 <= i < |p| && (p[i].tribe, p[i].city) == k;
        assert h[i] == p[i];
      }
      UnpairedIsZero(p, t, c);
    }
  }

  // Each score is the effective support of that pair's rows, kept up one bump at a time.
  lemma BumpKeepsScores(h: History, s: Spend)
    ensures Bumped(ScoresOf(h), s.tribe, s.city, s.effective) == ScoresOf(h + [s])
  {
    var h' := h + [s];
    forall k ensures k in Pairs(h') <==> k in Pairs(h) || k == (s.tribe, s.city) {
      if k in Pairs(h) {
        var i :| 0 <= i < |h| && (h[i].tribe, h[i].city) == k;
        assert h'[i] == h[i];
      }
      assert h'[|h|] == s;
    }
    forall k | k in Pairs(h') ensures Bumped(ScoresOf(h), s.tribe, s.city, s.effective)[k] == SumOf(h', k.0, k.1) {
      SumAppend(h, s, k.0, k.1);
      if k !in Pairs(h) { UnpairedIsZero(h, k.0, k.1); }
    }
  }

  // support/spend.go loadProvinceLeader: ORDER BY sum DESC, tribe_id ASC LIMIT 1.
  predicate Leads(scores: Scores, c: IlCode, t: TribeId) {
    && (t, c) in scores && scores[(t, c)] > 0.0
    && forall k | k in scores :: k.1 == c && k.0 != t && scores[k] > 0.0 ==>
         Ahead(scores[(t, c)], t, scores[k], k.0)
  }

  lemma LeaderIsUnique(scores: Scores, c: IlCode, t: TribeId, u: TribeId)
    requires Leads(scores, c, t) && Leads(scores, c, u)
    ensures t == u
  {
    assert (t, c) in scores && (u, c) in scores;
  }

  lemma SomeLeaderLeads(scores: Scores, rows: set<TribeId>, c: IlCode) returns (t: TribeId)
    requires rows != {} && forall u | u in rows :: (u, c) in scores
    ensures t in rows
    ensures forall u | u in rows && u != t :: Ahead(scores[(t, c)], t, scores[(u, c)], u)
    decreases rows
  {
    t :| t in rows;
    var rest := rows - {t};
    if rest == {} {
      assert rows == {t};
    } else {
      var u := SomeLeaderLeads(scores, rest, c);
      if !Ahead(scores[(t, c)], t, scores[(u, c)], u) { t := u; }
    }
  }

  lemma LeaderExists(scores: Scores, c: IlCode, k: (TribeId, IlCode))
    requires k in scores && k.1 == c && scores[k] > 0.0
    ensures exists k' :: k' in scores && k'.1 == c && Leads(scores, c, k'.0)
  {
    var rows := set k' | k' in scores && k'.1 == c && scores[k'] > 0.0 :: k'.0;
    assert k.0 in rows;
    forall u | u in rows ensures (u, c) in scores && scores[(u, c)] > 0.0 {
      var k' :| k' in scores && k'.1 == c && scores[k'] > 0.0 && k'.0 == u;
      assert k' == (u, c);
    }
    var t := SomeLeaderLeads(scores, rows, c);
    forall k' | k' in scores && k'.1 == c && k'.0 != t && scores[k'] > 0.0
      ensures Ahead(scores[(t, c)], t, scores[k'], k'.0)
    {
      assert k' == (k'.0, c) && k'.0 in rows;
    }
    assert Leads(scores, c, (t, c).0);
  }

  lemma OneLeader(scores: Scores, c: IlCode)
    ensures forall k, k' | k in scores && k' in scores && k.1 == c && k'.1 == c
              && Leads(scores, c, k.0) && Leads(scores, c, k'.0) :: k == k'
  {
    forall k, k' | k in scores && k' in scores && k.1 == c && k'.1 == c
                   && Leads(scores, c, k.0) && Leads(scores, c, k'.0)
      ensures k == k'
    {
      LeaderIsUnique(scores, c, k.0, k'.0);
    }
  }

  function LoadProvinceLeader(scores: Scores, c: IlCode): (r: Option<(TribeId, real)>)
    ensures r.Some? ==> Leads(scores, c, r.value.0) && r.value.1 == scores[(r.value.0, c)]
    ensures r.None? <==> forall k | k in scores :: k.1 == c ==> scores[k] <= 0.0
  {
    if exists k | k in scores :: k.1 == c && scores[k] > 0.0 then
      assert exists k :: k in scores && k.1 == c && Leads(scores, c, k.0) by {
        var k :| k in scores && k.1 == c && scores[k] > 0.0;
        LeaderExists(scores, c, k);
      }
      OneLeader(scores, c);
      var k :| k in scores && k.1 == c && Leads(scores, c, k.0);
      Some((k.0, scores[k]))
    else None
  }

  // The leader has more than every other row of the city, or as much with a smaller id.
  lemma LeaderMeaning(scores: Scores, c: IlCode)
    ensures
      var leader := LoadProvinceLeader(scores, c);
      leader.Some? ==>
        && leader.value.1 > 0.0 && (leader.value.0, c) in scores && scores[(leader.value.0, c)] == leader.value.1
        && forall k | k in scores :: k.1 == c ==>
             scores[k] < leader.value.1 || (scores[k] == leader.value.1 && leader.value.0 <= k.0)
  {
    hide LoadProvinceLeader;
  }

  // Ranking the score table finds the holder that the history defines.
  lemma LeaderIsHolder(h: History, c: IlCode)
    requires Positive(h)
    ensures
      var leader := LoadProvinceLeader(ScoresOf(h), c);
      && Holder(h, c) == (if leader.None? then None else Some(leader.value.0))
      && (leader.Some? ==> leader.value.1 == SumOf(h, leader.value.0, c))
  {
    var scores := ScoresOf(h);
    var leader := LoadProvinceLeader(scores, c);
    match leader
    case Some((t, x)) =>
      forall u: TribeId | u != t ensures Ahead(SumOf(h, t, c), t, SumOf(h, u, c), u) {
        if (u, c) in scores { SumNonNegative(h, u, c); } else { UnpairedIsZero(h, u, c); }
      }
      HolderIs(h, c, t);
    case None =>
      forall t: TribeId ensures !Holds(h, c, t) {
        if (t, c) !in scores { UnpairedIsZero(h, t, c); }
      }
  }
}
