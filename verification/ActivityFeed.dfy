/** backend/internal/conquest/activity.go and the live half in support/spend.go: the ticker
    items a spend publishes, and the stored feed a late client reads instead. */
module ActivityFeed {
  import opened Prelude
  import opened SpendHistory
  import opened Conquest

  datatype Kind = ConquestKind | LargeSupport | DerbySupport

  // An id of either table: a client that sends one back does not say which.
  type FeedId = nat

  datatype FeedItem = FeedItem(
    id: FeedId, kind: Kind, city: IlCode, cityName: string, tribe: TribeId,
    previous: Option<TribeId>, credits: real, wasDerbiBonus: bool, occurredAt: int)

  // ---------------------------------------------------------------- live publishing

  // publishActivityFeed: the flip if there was one, else a derby support, else a large one.
  function LiveItem(flip: Option<Entry>, id: SupportId, tribe: TribeId, city: IlCode, cityName: string,
                    credits: int, derby: Option<DerbyId>, now: int, min: int): Option<FeedItem>
  {
    if flip.Some? then
      var e := flip.value;
      Some(FeedItem(e.id, ConquestKind, e.city, e.cityName, e.newTribe, e.previous, e.winning,
                    e.wasDerbiBonus, e.occurredAt))
    else if derby.Some? then
      Some(FeedItem(id, DerbySupport, city, cityName, tribe, None, credits as real, true, now))
    else if credits >= min then
      Some(FeedItem(id, LargeSupport, city, cityName, tribe, None, credits as real, false, now))
    else None
  }

  ghost function ItemAt(names: CityNames, h: History, j: nat, min: int): Option<FeedItem>
    requires j < |h|
  {
    var s := h[j];
    LiveItem(if IsCapture(h, j) then Some(EntryAt(names, h, j)) else None,
             s.id, s.tribe, s.city, NameOf(names, s.city), s.credits, s.derby, s.at, min)
  }

  // Everything published over a history, in order.
  ghost function PublishedOf(names: CityNames, h: History, min: int): seq<FeedItem> {
    if h == [] then []
    else
      var n := |h| - 1;
      var rest := PublishedOf(names, h[..n], min);
      match ItemAt(names, h, n, min)
      case Some(item) => rest + [item]
      case None => rest
  }

  lemma PublishedAppend(names: CityNames, h: History, s: Spend, min: int)
    ensures PublishedOf(names, h + [s], min) ==
      match ItemAt(names, h + [s], |h|, min)
      case Some(item) => PublishedOf(names, h, min) + [item]
      case None => PublishedOf(names, h, min)
  {
    assert (h + [s])[..|h|] == h;
  }

  // What spend j puts on the ticker, read off the spends. A capture tells who took the city, from
  // whom, and with how much support; any other spend is told if it counts for a derby or is large.
  lemma {:induction false} ItemMeaning(names: CityNames, h: History, j: nat, min: int)
    requires Positive(h) && j < |h| && h[j].city in names
    ensures IsCapture(h, j) ==> Holder(h[..j + 1], h[j].city) == Some(h[j].tribe)
    ensures
      var s := h[j];
      ItemAt(names, h, j, min) ==
        if Holder(h[..j + 1], s.city) != Holder(h[..j], s.city) then
          Some(FeedItem(s.flipId, ConquestKind, s.city, names[s.city], s.tribe, Holder(h[..j], s.city),
                        SumOf(h[..j + 1], s.tribe, s.city), s.derby.Some?, s.at))
        else if s.derby.Some? then
          Some(FeedItem(s.id, DerbySupport, s.city, names[s.city], s.tribe, None, s.credits as real, true, s.at))
        else if s.credits >= min then
          Some(FeedItem(s.id, LargeSupport, s.city, names[s.city], s.tribe, None, s.credits as real, false, s.at))
        else None
  {
    CaptureIsBySpender(h, j);
  }

  lemma ItemOfPrefix(names: CityNames, h: History, n: nat, j: nat, min: int)
    requires j < n <= |h|
    ensures ItemAt(names, h[..n], j, min) == ItemAt(names, h, j, min)
  {
    assert h[..n][..j] == h[..j] && h[..n][..j + 1] == h[..j + 1];
  }

  // The feed is these items and no others: an item is in it exactly when some spend puts it there.
  lemma {:induction false} PublishedMeaning(names: CityNames, h: History, min: int, item: FeedItem)
    ensures item in PublishedOf(names, h, min) <==> exists j :: 0 <= j < |h| && ItemAt(names, h, j, min) == Some(item)
    decreases |h|
  {
    hide ItemAt;
    if h != [] {
      var n := |h| - 1;
      var p := h[..n];
      PublishedMeaning(names, p, min, item);
      forall j | 0 <= j < n ensures ItemAt(names, p, j, min) == ItemAt(names, h, j, min) {
        ItemOfPrefix(names, h, n, j, min);
      }
      assert item in PublishedOf(names, h, min) <==>
        item in PublishedOf(names, p, min) || ItemAt(names, h, n, min) == Some(item);
    }
  }

  // ---------------------------------------------------------------- the stored query

  // SELECT id, 'conquest', il_code, city_name, new_tribe_id, ... FROM conquest_log
  function ConquestItem(e: Entry): FeedItem {
    FeedItem(e.id, ConquestKind, e.city, e.cityName, e.newTribe, e.previous, e.winning,
             e.wasDerbiBonus, e.occurredAt)
  }

  function ConquestRows(log: seq<Entry>): seq<FeedItem> {
    seq(|log|, i requires 0 <= i < |log| => ConquestItem(log[i]))
  }

  predicate CausedSome(log: seq<Entry>, id: SupportId) {
    exists i :: 0 <= i < |log| && log[i].causing == Some(id)
  }

  predicate OnTicker(row: Support, log: seq<Entry>, min: int) {
    (row.derby.Some? || row.credits >= min) && !CausedSome(log, row.id)
  }

  // ... JOIN admin_boundaries
  predicate Eligible(row: Support, log: seq<Entry>, names: CityNames, min: int) {
    OnTicker(row, log, min) && row.city in names
  }

  function SupportItem(row: Support, names: CityNames): FeedItem {
    FeedItem(row.id, if row.derby.Some? then DerbySupport else LargeSupport, row.city,
             NameOf(names, row.city), row.tribe, None, row.credits as real, row.derby.Some?, row.createdAt)
  }

  function SupportRows(rows: seq<Support>, log: seq<Entry>, names: CityNames, min: int): seq<FeedItem> {
    if rows == [] then []
    else
      var n := |rows| - 1;
      var rest := SupportRows(rows[..n], log, names, min);
      if Eligible(rows[n], log, names, min) then rest + [SupportItem(rows[n], names)] else rest
  }

  // The UNION ALL, before ordering and LIMIT.
  function FeedQuery(log: seq<Entry>, rows: seq<Support>, names: CityNames, min: int): seq<FeedItem> {
    ConquestRows(log) + SupportRows(rows, log, names, min)
  }

  // ---------------------------------------------------------------- the two agree

  // Tags are invisible to the feed, and an entry hides only the support that caused it.
  lemma {:induction false} RowsSurvive(rows: seq<Support>, rows': seq<Support>, log: seq<Entry>, log': seq<Entry>,
                                       names: CityNames, min: int)
    requires |rows| == |rows'|
    requires forall i :: 0 <= i < |rows| ==> rows'[i] == rows[i].(conquestLog := rows'[i].conquestLog)
    requires forall i :: 0 <= i < |rows| ==> CausedSome(log, rows[i].id) == CausedSome(log', rows[i].id)
    ensures SupportRows(rows', log', names, min) == SupportRows(rows, log, names, min)
    decreases |rows|
  {
    if rows != [] {
      var n := |rows| - 1;
      RowsSurvive(rows[..n], rows'[..n], log, log', names, min);
    }
  }

  lemma EntryHidesOnlyItsCause(log: seq<Entry>, e: Entry, id: SupportId)
    ensures CausedSome(log + [e], id) <==> CausedSome(log, id) || e.causing == Some(id)
  {
    if CausedSome(log, id) {
      var i :| 0 <= i < |log| && log[i].causing == Some(id);
      assert (log + [e])[i].causing == Some(id);
    }
    if e.causing == Some(id) {
      assert (log + [e])[|log|].causing == Some(id);
    }
  }

  lemma LogCausesArePast(names: CityNames, h: History, id: SupportId)
    ensures CausedSome(LogOf(names, h), id) ==> exists j :: 0 <= j < |h| && h[j].id == id
  {
    if CausedSome(LogOf(names, h), id) {
      var i :| 0 <= i < |LogOf(names, h)| && LogOf(names, h)[i].causing == Some(id);
      var j := LogEntryIsCapture(names, h, i);
      assert h[j].id == id;
    }
  }

  ghost predicate KnownCities(names: CityNames, h: History) {
    forall i :: 0 <= i < |h| ==> h[i].city in names
  }

  // The support half of the query over a history grown by one spend.
  lemma SupportRowsAppend(names: CityNames, h: History, s: Spend, min: int)
    requires Fresh(h + [s]) && s.city in names
    ensures
      var rows := SupportRows(SupportsOf(h), LogOf(names, h), names, min);
      var rows' := SupportRows(SupportsOf(h + [s]), LogOf(names, h + [s]), names, min);
      rows' == if !IsCapture(h + [s], |h|) && (s.derby.Some? || s.credits >= min)
               then rows + [SupportItem(Row(s, None), names)] else rows
  {
    hide Holder, SumOf, IsCapture, FirstTake, NameOf;
    var h' := h + [s];
    var log, log' := LogOf(names, h), LogOf(names, h');
    LogAppend(names, h, s);
    forall i | 0 <= i < |h| ensures CausedSome(log, h[i].id) == CausedSome(log', h[i].id) {
      assert h'[i].id != h'[|h|].id;
      if IsCapture(h', |h|) { EntryHidesOnlyItsCause(log, EntryAt(names, h', |h|), h[i].id); }
    }
    forall j | 0 <= j < |h| ensures h[j].id != s.id {
      assert h'[j].id != h'[|h|].id;
    }
    LogCausesArePast(names, h, s.id);
    if IsCapture(h', |h|) { EntryHidesOnlyItsCause(log, EntryAt(names, h', |h|), s.id); }
    assert SupportsOf(h')[..|h|][..] == SupportsOf(h')[..|h|];
    RowsSurvive(SupportsOf(h), SupportsOf(h')[..|h|], log, log', names, min);
  }

  lemma EmptyFeed(names: CityNames, min: int)
    ensures PublishedOf(names, [], min) == FeedQuery(LogOf(names, []), SupportsOf([]), names, min) == []
  {
  }

  // Whatever happened, a client that reads the stored feed sees exactly the items that were
  // published live, each as often: no spend shows up both as a conquest and as a support.
  lemma {:induction false} LiveIsStored(names: CityNames, h: History, min: int)
    requires Fresh(h) && KnownCities(names, h)
    ensures multiset(PublishedOf(names, h, min)) ==
            multiset(FeedQuery(LogOf(names, h), SupportsOf(h), names, min))
    decreases |h|
  {
    hide LogOf, SupportsOf, FeedQuery, PublishedOf;
    if h == [] {
      EmptyFeed(names, min);
    } else {
      var n := |h| - 1;
      assert h == h[..n] + [h[n]];
      LiveIsStored(names, h[..n], min);
      SpendKeepsAgreement(names, h[..n], h[n], min);
    }
  }

  lemma SpendKeepsAgreement(names: CityNames, h: History, s: Spend, min: int)
    requires Fresh(h + [s]) && s.city in names
    requires multiset(PublishedOf(names, h, min)) == multiset(FeedQuery(LogOf(names, h), SupportsOf(h), names, min))
    ensures multiset(PublishedOf(names, h + [s], min)) ==
            multiset(FeedQuery(LogOf(names, h + [s]), SupportsOf(h + [s]), names, min))
  {
    hide SupportsOf, LogOf, EntryAt, IsCapture, SupportRows, PublishedOf, Fresh;
    PublishedAppend(names, h, s, min);
    SupportRowsAppend(names, h, s, min);
    LogAppend(names, h, s);
    if IsCapture(h + [s], |h|) {
      var e := EntryAt(names, h + [s], |h|);
      assert ConquestRows(LogOf(names, h) + [e]) == ConquestRows(LogOf(names, h)) + [ConquestItem(e)];
    }
  }

  // ---------------------------------------------------------------- the since_id cursor

  // resolveCursor: a conquest_log id, else a support on the ticker, else unknown.
  function ResolveCursor(log: seq<Entry>, rows: seq<Support>, id: FeedId, min: int): Option<int> {
    match First(log, (e: Entry) => e.id == id)
    case Some(k) => Some(log[k].occurredAt)
    case None =>
      match First(rows, (row: Support) => row.id == id && OnTicker(row, log, min))
      case Some(k) => Some(rows[k].createdAt)
      case None => None
  }

  // An item with this id and time, from the conquest log or from the supports.
  ghost predicate Shows(items: seq<FeedItem>, conquest: bool, id: FeedId, at: int) {
    exists k :: 0 <= k < |items| && (items[k].kind == ConquestKind <==> conquest)
                && items[k].id == id && items[k].occurredAt == at
  }

  lemma {:induction false} EligibleRowIsListed(rows: seq<Support>, i: nat, log: seq<Entry>, names: CityNames, min: int)
    requires i < |rows| && Eligible(rows[i], log, names, min)
    ensures SupportItem(rows[i], names) in SupportRows(rows, log, names, min)
    decreases |rows|
  {
    var n := |rows| - 1;
    if i < n {
      EligibleRowIsListed(rows[..n], i, log, names, min);
    }
  }

  lemma {:induction false} ListedRowIsEligible(rows: seq<Support>, item: FeedItem, log: seq<Entry>, names: CityNames, min: int)
    returns (i: nat)
    requires item in SupportRows(rows, log, names, min)
    ensures i < |rows| && Eligible(rows[i], log, names, min) && item == SupportItem(rows[i], names)
    decreases |rows|
  {
    var n := |rows| - 1;
    if Eligible(rows[n], log, names, min) && item == SupportItem(rows[n], names) {
      i := n;
    } else {
      i := ListedRowIsEligible(rows[..n], item, log, names, min);
    }
  }

  // The join leaves out supports of cities that are not on the map.
  lemma ListedCitiesAreKnown(rows: seq<Support>, log: seq<Entry>, names: CityNames, min: int, item: FeedItem)
    requires item in SupportRows(rows, log, names, min)
    ensures item.city in names && item.cityName == names[item.city]
  {
    var i := ListedRowIsEligible(rows, item, log, names, min);
  }

  lemma StoredIdsAreUnique(names: CityNames, h: History)
    requires Fresh(h)
    ensures
      var rows := SupportsOf(h);
      forall i, j :: 0 <= i < |rows| && 0 <= j < |rows| && rows[i].id == rows[j].id ==> i == j
    ensures
      var log := LogOf(names, h);
      forall i, j :: 0 <= i < |log| && 0 <= j < |log| && log[i].id == log[j].id ==> log[i] == log[j]
  {
    var log := LogOf(names, h);
    forall i, j | 0 <= i < |log| && 0 <= j < |log| && log[i].id == log[j].id ensures log[i] == log[j] {
      var a := LogEntryIsCapture(names, h, i);
      var b := LogEntryIsCapture(names, h, j);
      assert a == b;
    }
  }

  lemma SameItemsShow(a: seq<FeedItem>, b: seq<FeedItem>, conquest: bool, id: FeedId, at: int)
    requires multiset(a) == multiset(b)
    ensures Shows(a, conquest, id, at) ==> Shows(b, conquest, id, at)
  {
    if k :| 0 <= k < |a| && (a[k].kind == ConquestKind <==> conquest) && a[k].id == id && a[k].occurredAt == at {
      assert a[k] in multiset(b);
      var m :| 0 <= m < |b| && b[m] == a[k];
    }
  }

  lemma StoredShows(names: CityNames, h: History, min: int, conquest: bool, id: FeedId, at: int)
    requires Fresh(h) && KnownCities(names, h)
    ensures Shows(PublishedOf(names, h, min), conquest, id, at)
            <==> Shows(FeedQuery(LogOf(names, h), SupportsOf(h), names, min), conquest, id, at)
  {
    hide PublishedOf, FeedQuery, LogOf, SupportsOf, Shows, Fresh;
    LiveIsStored(names, h, min);
    SameItemsShow(PublishedOf(names, h, min), FeedQuery(LogOf(names, h), SupportsOf(h), names, min), conquest, id, at);
    SameItemsShow(FeedQuery(LogOf(names, h), SupportsOf(h), names, min), PublishedOf(names, h, min), conquest, id, at);
  }

  ghost predicate LoggedAt(log: seq<Entry>, id: FeedId, at: int) {
    exists i :: 0 <= i < |log| && log[i].id == id && log[i].occurredAt == at
  }

  ghost predicate TickedAt(rows: seq<Support>, log: seq<Entry>, names: CityNames, min: int, id: FeedId, at: int) {
    exists i :: 0 <= i < |rows| && Eligible(rows[i], log, names, min) && rows[i].id == id && rows[i].createdAt == at
  }

  lemma ConquestShown(log: seq<Entry>, rows: seq<Support>, names: CityNames, min: int, id: FeedId, at: int)
    ensures Shows(FeedQuery(log, rows, names, min), true, id, at)
            <==> LoggedAt(log, id, at)
  {
    var items := FeedQuery(log, rows, names, min);
    forall i | 0 <= i < |log| ensures items[i] == ConquestItem(log[i]) {}
    if Shows(items, true, id, at) {
      var k :| 0 <= k < |items| && items[k].kind == ConquestKind && items[k].id == id && items[k].occurredAt == at;
      if k >= |log| {
        assert items[k] in SupportRows(rows, log, names, min);
        var i := ListedRowIsEligible(rows, items[k], log, names, min);
        assert false;
      }
      assert log[k].id == id;
    }
  }

  lemma SupportShown(log: seq<Entry>, rows: seq<Support>, names: CityNames, min: int, id: FeedId, at: int)
    ensures Shows(FeedQuery(log, rows, names, min), false, id, at)
            <==> TickedAt(rows, log, names, min, id, at)
  {
    var items := FeedQuery(log, rows, names, min);
    if Shows(items, false, id, at) {
      var k :| 0 <= k < |items| && items[k].kind != ConquestKind && items[k].id == id && items[k].occurredAt == at;
      assert k >= |log|;
      assert items[k] in SupportRows(rows, log, names, min);
      var i := ListedRowIsEligible(rows, items[k], log, names, min);
    }
    if i :| 0 <= i < |rows| && Eligible(rows[i], log, names, min) && rows[i].id == id && rows[i].createdAt == at {
      EligibleRowIsListed(rows, i, log, names, min);
      var k :| 0 <= k < |SupportRows(rows, log, names, min)|
               && SupportRows(rows, log, names, min)[k] == SupportItem(rows[i], names);
      assert items[|log| + k] == SupportItem(rows[i], names);
    }
  }

  // A since_id is accepted exactly when an item with that id was published, and it stands for
  // the time that item carried. Should a conquest and a support share an id, the conquest is meant.
  lemma CursorAcceptsExactlyPublished(names: CityNames, h: History, min: int, id: FeedId, at: int)
    requires Fresh(h) && KnownCities(names, h)
    ensures
      var live := PublishedOf(names, h, min);
      ResolveCursor(LogOf(names, h), SupportsOf(h), id, min) == Some(at)
      <==> Shows(live, true, id, at) || (Shows(live, false, id, at) && forall t :: !Shows(live, true, id, t))
  {
    hide PublishedOf, FeedQuery, LogOf, Shows, Fresh, LoggedAt, TickedAt, TagOf, Eligible, ResolveCursor;
    var log, rows := LogOf(names, h), SupportsOf(h);
    StoredIdsAreUnique(names, h);
    assert forall i :: 0 <= i < |rows| ==> rows[i].city in names;
    forall t ensures Shows(PublishedOf(names, h, min), true, id, t) <==> LoggedAt(log, id, t) {
      StoredShows(names, h, min, true, id, t);
      ConquestShown(log, rows, names, min, id, t);
    }
    StoredShows(names, h, min, false, id, at);
    SupportShown(log, rows, names, min, id, at);
    CursorReads(log, rows, names, min, id, at);
  }

  // What the two queries of resolveCursor find when ids are unique within each table.
  lemma CursorReads(log: seq<Entry>, rows: seq<Support>, names: CityNames, min: int, id: FeedId, at: int)
    requires forall i, j :: 0 <= i < |log| && 0 <= j < |log| && log[i].id == log[j].id ==> log[i] == log[j]
    requires forall i, j :: 0 <= i < |rows| && 0 <= j < |rows| && rows[i].id == rows[j].id ==> i == j
    requires forall i :: 0 <= i < |rows| ==> rows[i].city in names
    ensures ResolveCursor(log, rows, id, min) == Some(at) <==>
      LoggedAt(log, id, at) || (TickedAt(rows, log, names, min, id, at) && forall t :: !LoggedAt(log, id, t))
  {
    var k := First(log, (e: Entry) => e.id == id);
    var m := First(rows, (row: Support) => row.id == id && OnTicker(row, log, min));
    if k.Some? {
      assert LoggedAt(log, id, log[k.value].occurredAt);
    }
  }

  // ---------------------------------------------------------------- polling

  // Row comparison on (occurred_at, id).
  predicate Newer(at: int, id: FeedId, item: FeedItem) {
    item.occurredAt > at || (item.occurredAt == at && item.id > id)
  }

  predicate NewerItem(a: FeedItem, b: FeedItem) { Newer(b.occurredAt, b.id, a) }

  predicate NewestFirst(items: seq<FeedItem>) {
    forall i, j :: 0 <= i < j < |items| ==> NewerItem(items[i], items[j])
  }

  function Insert(items: seq<FeedItem>, x: FeedItem): seq<FeedItem> {
    if items == [] || NewerItem(x, items[0]) then [x] + items else [items[0]] + Insert(items[1..], x)
  }

  // WHERE (occurred_at, id) > cursor ORDER BY occurred_at DESC, id DESC
  function Sorted(items: seq<FeedItem>, cursor: Option<(int, FeedId)>): seq<FeedItem> {
    if items == [] then []
    else
      var rest := Sorted(items[1..], cursor);
      if cursor.Some? && !Newer(cursor.value.0, cursor.value.1, items[0]) then rest else Insert(rest, items[0])
  }

  function ClampActivityLimit(limit: int): nat {
    if limit <= 0 then 50 else if limit > 100 then 100 else limit
  }

  lemma PageSizes(limit: int)
    ensures limit < 1 ==> ClampActivityLimit(limit) == 50
    ensures 1 <= limit <= 100 ==> ClampActivityLimit(limit) == limit
    ensures limit > 100 ==> ClampActivityLimit(limit) == 100
  {
  }

  function Page(items: seq<FeedItem>, cursor: Option<(int, FeedId)>, limit: int): seq<FeedItem> {
    var sorted := Sorted(items, cursor);
    if |sorted| <= ClampActivityLimit(limit) then sorted else sorted[..ClampActivityLimit(limit)]
  }

  // List; an unknown since_id is refused.
  function List(log: seq<Entry>, rows: seq<Support>, names: CityNames, min: int, since: Option<FeedId>, limit: int)
    : Option<seq<FeedItem>>
  {
    var items := FeedQuery(log, rows, names, min);
    match since
    case None => Some(Page(items, None, limit))
    case Some(id) =>
      match ResolveCursor(log, rows, id, min)
      case None => None
      case Some(at) => Some(Page(items, Some((at, id)), limit))
  }

  predicate DistinctIds(items: seq<FeedItem>) {
    forall i, j :: 0 <= i < j < |items| ==> items[i].id != items[j].id
  }

  lemma {:induction false} InsertKeepsOrder(items: seq<FeedItem>, x: FeedItem)
    requires NewestFirst(items) && forall y :: y in items ==> y.id != x.id
    ensures NewestFirst(Insert(items, x)) && forall y :: y in Insert(items, x) <==> y in items || y == x
    decreases |items|
  {
    if items != [] && !NewerItem(x, items[0]) {
      InsertKeepsOrder(items[1..], x);
      assert items == [items[0]] + items[1..];
      assert forall y :: y in Insert(items[1..], x) ==> NewerItem(items[0], y);
    } else {
      assert forall y :: y in items ==> NewerItem(x, y);
    }
  }

  lemma {:induction false} SortedIsOrdered(items: seq<FeedItem>, cursor: Option<(int, FeedId)>)
    requires DistinctIds(items)
    ensures NewestFirst(Sorted(items, cursor))
    ensures forall y :: y in Sorted(items, cursor) <==>
      y in items && (cursor.Some? ==> Newer(cursor.value.0, cursor.value.1, y))
    decreases |items|
  {
    if items != [] {
      SortedIsOrdered(items[1..], cursor);
      assert items == [items[0]] + items[1..];
      InsertKeepsOrder(Sorted(items[1..], cursor), items[0]);
    }
  }

  function NewerThan(items: seq<FeedItem>, x: FeedItem): set<FeedItem> {
    set y | y in items && NewerItem(y, x)
  }

  // In newest-first order an item stands behind exactly the newer ones.
  lemma {:induction false} PlaceIsCount(r: seq<FeedItem>, k: nat)
    requires NewestFirst(r) && k < |r|
    ensures |NewerThan(r, r[k])| == k
  {
    var x := r[k];
    if k == 0 {
      assert NewerThan(r, x) == {};
    } else {
      PlaceIsCount(r[1..], k - 1);
      assert r == [r[0]] + r[1..];
      assert r[0] !in r[1..] by { assert forall i :: 0 < i < |r| ==> NewerItem(r[0], r[i]); }
      forall y ensures y in NewerThan(r, x) <==> y == r[0] || y in NewerThan(r[1..], x) {
        hide NewerItem;
      }
      assert NewerThan(r, x) == {r[0]} + NewerThan(r[1..], x);
    }
  }

  // What a poll delivers: exactly the items newer than the cursor with fewer than `limit` newer
  // ones, wherever they stand in the two tables.
  lemma PollDeliversExactly(items: seq<FeedItem>, cursor: Option<(int, FeedId)>, limit: int, x: FeedItem)
    requires DistinctIds(items)
    ensures x in Page(items, cursor, limit) <==>
      && x in items
      && (cursor.Some? ==> Newer(cursor.value.0, cursor.value.1, x))
      && |NewerThan(items, x)| < ClampActivityLimit(limit)
  {
    var r := Sorted(items, cursor);
    SortedIsOrdered(items, cursor);
    if x in r {
      var k :| 0 <= k < |r| && r[k] == x;
      PlaceIsCount(r, k);
      assert NewerThan(items, x) == NewerThan(r, x);
      assert forall i :: 0 <= i < |r| && r[i] == x ==> i == k;
    }
  }

  // Ids are drawn from one space, so no support shares one with a conquest.
  ghost predicate Apart(h: History) {
    forall i, j :: 0 <= i < |h| && 0 <= j < |h| ==> h[i].id != h[j].flipId
  }

  lemma {:induction false} SupportRowIds(rows: seq<Support>, log: seq<Entry>, names: CityNames, min: int)
    requires forall i, j :: 0 <= i < j < |rows| ==> rows[i].id != rows[j].id
    ensures DistinctIds(SupportRows(rows, log, names, min))
    decreases |rows|
  {
    if rows != [] {
      var n := |rows| - 1;
      var rest := SupportRows(rows[..n], log, names, min);
      SupportRowIds(rows[..n], log, names, min);
      forall item | item in rest ensures item.id != rows[n].id {
        var i := ListedRowIsEligible(rows[..n], item, log, names, min);
      }
    }
  }

  lemma {:induction false} LogIdsDiffer(names: CityNames, h: History)
    requires Fresh(h)
    ensures forall i, j :: 0 <= i < j < |LogOf(names, h)| ==> LogOf(names, h)[i].id != LogOf(names, h)[j].id
    decreases |h|
  {
    if h != [] {
      var n := |h| - 1;
      LogIdsDiffer(names, h[..n]);
      forall i | 0 <= i < |LogOf(names, h[..n])| ensures LogOf(names, h[..n])[i].id != h[n].flipId {
        var j := LogEntryIsCapture(names, h[..n], i);
      }
    }
  }

  lemma FeedIdsDiffer(names: CityNames, h: History, min: int)
    requires Fresh(h) && Apart(h)
    ensures DistinctIds(FeedQuery(LogOf(names, h), SupportsOf(h), names, min))
  {
    var log, rows := LogOf(names, h), SupportsOf(h);
    LogIdsDiffer(names, h);
    SupportRowIds(rows, log, names, min);
    forall i, item | 0 <= i < |log| && item in SupportRows(rows, log, names, min) ensures log[i].id != item.id {
      var j := LogEntryIsCapture(names, h, i);
      var k := ListedRowIsEligible(rows, item, log, names, min);
    }
  }

  // A client that polls with an id it was sent receives exactly the published items newer than
  // it, by time and then id, short of those with `limit` newer ones. What it misses for good is
  // the rest of a longer page, and whatever is published later with an older stamp.
  lemma PollingFromLastId(names: CityNames, h: History, min: int, since: FeedItem, limit: int, x: FeedItem)
    requires Fresh(h) && Apart(h) && KnownCities(names, h)
    requires since in PublishedOf(names, h, min)
    ensures
      var live := PublishedOf(names, h, min);
      var page := List(LogOf(names, h), SupportsOf(h), names, min, Some(since.id), limit);
      && page.Some?
      && (x in page.value <==>
            && x in live
            && (x.occurredAt > since.occurredAt || (x.occurredAt == since.occurredAt && x.id > since.id))
            && |set y | y in live && (y.occurredAt > x.occurredAt || (y.occurredAt == x.occurredAt && y.id > x.id))|
               < ClampActivityLimit(limit))
  {
    hide PublishedOf, FeedQuery, LogOf, SupportsOf, Page, Fresh;
    var live, stored := PublishedOf(names, h, min), FeedQuery(LogOf(names, h), SupportsOf(h), names, min);
    LiveIsStored(names, h, min);
    SameItems(live, stored);
    FeedIdsDiffer(names, h, min);
    SentIdResolves(names, h, min, since);
    PollDeliversExactly(stored, Some((since.occurredAt, since.id)), limit, x);
    assert NewerThan(live, x) == NewerThan(stored, x);
    NewerWrittenOut(live, x);
  }

  lemma NewerWrittenOut(items: seq<FeedItem>, x: FeedItem)
    ensures NewerThan(items, x)
            == set y | y in items && (y.occurredAt > x.occurredAt || (y.occurredAt == x.occurredAt && y.id > x.id))
  {
  }

  lemma SameItems(a: seq<FeedItem>, b: seq<FeedItem>)
    requires multiset(a) == multiset(b)
    ensures forall x :: x in a <==> x in b
  {
    forall x ensures x in a <==> x in b {
      assert x in multiset(a) <==> x in multiset(b);
    }
  }

  // The id of a published item resolves to that item's time.
  lemma SentIdResolves(names: CityNames, h: History, min: int, item: FeedItem)
    requires Fresh(h) && Apart(h) && KnownCities(names, h) && item in PublishedOf(names, h, min)
    ensures ResolveCursor(LogOf(names, h), SupportsOf(h), item.id, min) == Some(item.occurredAt)
  {
    hide PublishedOf, FeedQuery, LogOf, SupportsOf, Fresh, Apart, ResolveCursor;
    var live, stored := PublishedOf(names, h, min), FeedQuery(LogOf(names, h), SupportsOf(h), names, min);
    LiveIsStored(names, h, min);
    SameItems(live, stored);
    FeedIdsDiffer(names, h, min);
    CursorAcceptsExactlyPublished(names, h, min, item.id, item.occurredAt);
    var k :| 0 <= k < |live| && live[k] == item;
    assert Shows(live, item.kind == ConquestKind, item.id, item.occurredAt);
    forall t | Shows(live, true, item.id, t) ensures item.kind == ConquestKind {
      var m :| 0 <= m < |live| && live[m].kind == ConquestKind && live[m].id == item.id;
      assert live[m] in stored && item in stored;
      SameId(stored, live[m], item);
    }
  }

  lemma SameId(items: seq<FeedItem>, a: FeedItem, b: FeedItem)
    requires DistinctIds(items) && a in items && b in items && a.id == b.id
    ensures a == b
  {
  }

  const EarlyCommit := Spend(1, 7, 1, "06", 50, 1.0, 50.0, None, 10, 2)
  const LateCommit := Spend(3, 8, 2, "34", 50, 1.0, 50.0, None, 5, 4)

  // A spend that commits after another city's but carries an older stamp is published, and a
  // client already past that other item never sees it by polling.
  lemma LateItemIsMissed(names: CityNames, min: int, limit: int)
    requires "06" in names && "34" in names && min <= 50
    ensures
      var h := [EarlyCommit, LateCommit];
      var live := PublishedOf(names, h, min);
      && WellFormed(h) && Apart(h) && KnownCities(names, h)
      && |live| == 2 && PublishedOf(names, [EarlyCommit], min) == live[..1]
      && var page := List(LogOf(names, h), SupportsOf(h), names, min, Some(live[0].id), limit);
         page.Some? && live[1] !in page.value
  {
    var h := [EarlyCommit, LateCommit];
    assert h[..1] == [EarlyCommit] && h[..1][..0] == [] && [EarlyCommit][..0] == [];
    var first := ItemAt(names, [EarlyCommit], 0, min).value;
    var late := ItemAt(names, h, 1, min).value;
    assert PublishedOf(names, [EarlyCommit], min) == [first];
    assert PublishedOf(names, h, min) == [first, late];
    PollingFromLastId(names, h, min, first, limit, late);
  }
}
