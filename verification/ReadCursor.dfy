/** backend/internal/conquest/log.go: the conquest log as players read it, with one last-read
    marker per user. */
module ReadCursor {
  import opened Prelude
  import opened Conquest

  // ORDER BY occurred_at, id
  predicate After(a: Entry, b: Entry) {
    a.occurredAt > b.occurredAt || (a.occurredAt == b.occurredAt && a.id > b.id)
  }

  predicate DistinctIds(log: seq<Entry>) {
    forall i, j :: 0 <= i < j < |log| ==> log[i].id != log[j].id
  }

  predicate Logged(log: seq<Entry>, id: LogId) {
    exists i :: 0 <= i < |log| && log[i].id == id
  }

  function EntryOf(log: seq<Entry>, id: LogId): (e: Entry)
    requires Logged(log, id)
    ensures e in log && e.id == id
  {
    log[First(log, (e: Entry) => e.id == id).value]
  }

  // ORDER BY occurred_at DESC, id DESC LIMIT 1
  function Newest(log: seq<Entry>): (e: Entry)
    requires log != []
    ensures e in log && forall other :: other in log ==> !After(other, e)
  {
    if |log| == 1 then log[0]
    else
      var rest := Newest(log[1..]);
      assert log == [log[0]] + log[1..];
      if After(log[0], rest) then log[0] else rest
  }

  // The entry comes after everything the user has marked.
  ghost predicate Unread(log: seq<Entry>, marked: set<LogId>, e: Entry) {
    forall id :: id in marked && Logged(log, id) ==> After(e, EntryOf(log, id))
  }

  ghost function UnreadRows(log: seq<Entry>, marked: set<LogId>): set<nat> {
    set i: nat | i < |log| && Unread(log, marked, log[i])
  }

  // The marker stands at the last of the entries marked so far, in whatever order they were.
  ghost predicate MarkerStands(log: seq<Entry>, marker: Option<LogId>, marked: set<LogId>) {
    && (forall id :: id in marked ==> Logged(log, id))
    && (marker.None? <==> marked == {})
    && (marker.Some? ==>
          && marker.value in marked
          && forall id :: id in marked && id != marker.value ==> After(EntryOf(log, marker.value), EntryOf(log, id)))
  }

  lemma SameEntry(log: seq<Entry>, a: Entry, b: Entry)
    requires DistinctIds(log) && a in log && b in log && a.id == b.id
    ensures a == b
  {
  }

  // Behind the marker is behind everything marked.
  lemma UnreadIsAfterMarker(log: seq<Entry>, marker: Option<LogId>, marked: set<LogId>, e: Entry)
    requires MarkerStands(log, marker, marked)
    ensures Unread(log, marked, e) <==> IsAhead(log, marker, e)
  {
  }

  predicate IsAhead(log: seq<Entry>, marker: Option<LogId>, e: Entry) {
    marker.None? || (Logged(log, marker.value) && After(e, EntryOf(log, marker.value)))
  }

  // Unread, written out: every entry for a user without a marker, and for any other user the
  // entries that happened after the marker's, or at the same time with a larger id.
  lemma UnreadMeaning(log: seq<Entry>, marker: Option<LogId>, marked: set<LogId>, i: nat)
    requires MarkerStands(log, marker, marked) && DistinctIds(log) && i < |log|
    ensures i in UnreadRows(log, marked) <==>
      || marker.None?
      || (exists j :: 0 <= j < |log| && log[j].id == marker.value && (log[i].occurredAt > log[j].occurredAt
            || (log[i].occurredAt == log[j].occurredAt && log[i].id > log[j].id)))
  {
    UnreadIsAfterMarker(log, marker, marked, log[i]);
    if marker.Some? {
      var j :| 0 <= j < |log| && log[j] == EntryOf(log, marker.value);
      assert forall k :: 0 <= k < |log| && log[k].id == marker.value ==> k == j;
    }
  }

  // Two cities: a user has read the one entry, stamped 10, when a flip stamped 5 commits in the
  // other. It was never unread.
  lemma OlderStampStartsRead()
    ensures
      var seen := Entry(1, "06", "", None, 7, 1.0, 10, false, None);
      var late := Entry(2, "34", "", None, 8, 1.0, 5, false, None);
      && MarkerStands([seen], Some(1), {1})
      && MarkerStands([seen, late], Some(1), {1})
      && UnreadRows([seen, late], {1}) == {}
  {
    var seen := Entry(1, "06", "", None, 7, 1.0, 10, false, None);
    var late := Entry(2, "34", "", None, 8, 1.0, 5, false, None);
    assert [seen][0].id == 1 && [seen, late][0].id == 1;
    assert EntryOf([seen], 1) == seen && EntryOf([seen, late], 1) == seen;
  }

  lemma MarkMovesMarker(log: seq<Entry>, marker: Option<LogId>, marked: set<LogId>, target: LogId)
    requires DistinctIds(log) && MarkerStands(log, marker, marked) && Logged(log, target)
    ensures
      var moves := marker.None? || After(EntryOf(log, target), EntryOf(log, marker.value));
      MarkerStands(log, if moves then Some(target) else marker, marked + {target})
  {
    if marker.Some? && target != marker.value {
      assert Logged(log, marker.value);
    }
  }

  lemma LongerLogKeepsMarker(log: seq<Entry>, e: Entry, marker: Option<LogId>, marked: set<LogId>)
    requires DistinctIds(log + [e]) && MarkerStands(log, marker, marked)
    ensures MarkerStands(log + [e], marker, marked)
    ensures forall id :: id in marked ==> EntryOf(log + [e], id) == EntryOf(log, id)
  {
    forall id | Logged(log, id) ensures Logged(log + [e], id) && EntryOf(log + [e], id) == EntryOf(log, id) {
      var i :| 0 <= i < |log| && log[i].id == id;
      assert (log + [e])[i].id == id;
      SameEntry(log + [e], EntryOf(log, id), EntryOf(log + [e], id));
    }
  }

  datatype MarkError = MissingId | UnknownLog

  class Cursors {
    var log: seq<Entry>
    var lastRead: map<UserId, Option<LogId>>   // users.last_read_conquest_log_id

    ghost var marked: map<UserId, set<LogId>>  // every entry a user has marked up to

    ghost predicate Valid()
      reads this
    {
      && DistinctIds(log) && lastRead.Keys == marked.Keys
      && forall u :: u in lastRead ==> MarkerStands(log, lastRead[u], marked[u])
    }

    constructor (users: set<UserId>)
      ensures Valid() && log == [] && lastRead.Keys == users && forall u :: u in users ==> marked[u] == {}
    {
      log, lastRead, marked := [], map u | u in users :: None, map u | u in users :: {};
    }

    // A new flip is unread for exactly the users without a marker and those whose marker's entry
    // it comes after: one that carries an older stamp than the marker starts out read.
    method InsertOnTx(e: Entry)
      requires Valid() && DistinctIds(log + [e])
      modifies this`log
      ensures Valid() && log == old(log) + [e]
      ensures forall u :: u in lastRead ==>
        UnreadRows(log, marked[u])
        == UnreadRows(old(log), marked[u]) + if IsAhead(old(log), lastRead[u], e) then {|old(log)|} else {}
    {
      forall u | u in lastRead
        ensures MarkerStands(log + [e], lastRead[u], marked[u])
        ensures UnreadRows(log + [e], marked[u])
                == UnreadRows(log, marked[u]) + if IsAhead(log, lastRead[u], e) then {|log|} else {}
      {
        LongerLogKeepsMarker(log, e, lastRead[u], marked[u]);
        LongerLogKeepsUnread(log, e, lastRead[u], marked[u]);
        UnreadIsAfterMarker(log, lastRead[u], marked[u], e);
      }
      log := log + [e];
    }

    // What is unread is what comes after everything the user has marked.
    method UnreadCount(u: UserId) returns (n: nat)
      requires Valid()
      ensures n == if u in lastRead then |UnreadRows(log, marked[u])| else 0
    {
      hide DistinctIds, MarkerStands, EntryOf, Unread, After;
      n := 0;
      if u !in lastRead { return; }
      MarkerIsLogged(log, lastRead[u], marked[u]);
      ghost var rows: set<nat> := {};
      for i := 0 to |log|
        invariant rows == set k: nat | k < i && Unread(log, marked[u], log[k])
        invariant n == |rows|
      {
        UnreadIsAfterMarker(log, lastRead[u], marked[u], log[i]);
        if lastRead[u].None? || After(log[i], EntryOf(log, lastRead[u].value)) {
          n, rows := n + 1, rows + {i};
        }
      }
      assert rows == UnreadRows(log, marked[u]);
    }

    // The number of rows updated. The marker goes to the later of where it is and what is
    // marked, so marks may come in any order.
    method MarkRead(u: UserId, upTo: Option<LogId>, all: bool) returns (r: Result<nat, MarkError>)
      requires Valid()
      modifies this`lastRead, this`marked
      ensures Valid()
      ensures r == Err(MissingId) <==> !all && upTo.None?
      ensures r == Err(UnknownLog) <==> !all && upTo.Some? && !Logged(log, upTo.value)
      ensures
        var target := if all then (if log == [] then None else Some(Newest(log).id)) else upTo;
        if r.Err? || target.None? || u !in old(lastRead) then
          marked == old(marked) && lastRead == old(lastRead) && (r.Ok? ==> r.value == 0)
        else
          && marked == old(marked)[u := old(marked)[u] + {target.value}]
          && lastRead.Keys == old(lastRead).Keys
          && (forall v :: v in lastRead && v != u ==> lastRead[v] == old(lastRead)[v])
          && r.value == (if lastRead == old(lastRead) then 0 else 1)
      ensures all && r.Ok? && u in lastRead ==> UnreadRows(log, marked[u]) == {}
    {
      hide MarkerStands, UnreadRows, EntryOf, Newest, DistinctIds, Logged, After;
      r := Ok(0);
      if all {
        if log == [] {
          NothingUnread(if u in marked then marked[u] else {});
          return;
        }
        if u !in lastRead { return; }
        var newest := Newest(log).id;
        MarkingNewestReadsAll(log, lastRead[u], marked[u]);
        marked := marked[u := marked[u] + {newest}];
        if lastRead[u] != Some(newest) {
          lastRead, r := lastRead[u := Some(newest)], Ok(1);
        }
        return;
      }
      if upTo.None? { return Err(MissingId); }
      var id := upTo.value;
      if !Logged(log, id) { return Err(UnknownLog); }
      if u !in lastRead { return; }
      MarkMovesMarker(log, lastRead[u], marked[u], id);
      MarkerIsLogged(log, lastRead[u], marked[u]);
      if lastRead[u].None? || After(EntryOf(log, id), EntryOf(log, lastRead[u].value)) {
        AfterIsOther(log, id, lastRead[u]);
        lastRead, r := lastRead[u := Some(id)], Ok(1);
      }
      marked := marked[u := marked[u] + {id}];
    }
  }

  lemma NothingUnread(marked: set<LogId>)
    ensures UnreadRows([], marked) == {}
  {
  }

  lemma MarkerIsLogged(log: seq<Entry>, marker: Option<LogId>, marked: set<LogId>)
    requires MarkerStands(log, marker, marked)
    ensures marker.Some? ==> Logged(log, marker.value)
  {
  }

  lemma AfterIsOther(log: seq<Entry>, id: LogId, marker: Option<LogId>)
    requires Logged(log, id) && (marker.Some? ==> Logged(log, marker.value))
    requires marker.None? || After(EntryOf(log, id), EntryOf(log, marker.value))
    ensures marker != Some(id)
  {
  }

  // Marking the newest entry leaves nothing unread, wherever the marker was.
  lemma MarkingNewestReadsAll(log: seq<Entry>, marker: Option<LogId>, marked: set<LogId>)
    requires log != [] && DistinctIds(log) && MarkerStands(log, marker, marked)
    ensures
      var newest := Newest(log).id;
      && Logged(log, newest)
      && MarkerStands(log, Some(newest), marked + {newest})
      && UnreadRows(log, marked + {newest}) == {}
  {
    var newest := Newest(log);
    NewestIsLast(log, marker, marked);
    MarkMovesMarker(log, marker, marked, newest.id);
    forall e | e in log ensures !Unread(log, marked + {newest.id}, e) {
      assert !After(e, newest) && newest.id in marked + {newest.id};
    }
  }

  // The newest entry is either where the marker is or ahead of it.
  lemma NewestIsLast(log: seq<Entry>, marker: Option<LogId>, marked: set<LogId>)
    requires log != [] && DistinctIds(log) && MarkerStands(log, marker, marked)
    ensures Logged(log, Newest(log).id) && EntryOf(log, Newest(log).id) == Newest(log)
    ensures marker.Some? && marker.value != Newest(log).id ==> After(Newest(log), EntryOf(log, marker.value))
  {
    var i :| 0 <= i < |log| && log[i] == Newest(log);
    assert Logged(log, log[i].id);
    SameEntry(log, EntryOf(log, Newest(log).id), Newest(log));
    if marker.Some? && marker.value != Newest(log).id {
      assert EntryOf(log, marker.value) in log;
    }
  }

  lemma LongerLogKeepsUnread(log: seq<Entry>, e: Entry, marker: Option<LogId>, marked: set<LogId>)
    requires DistinctIds(log + [e]) && MarkerStands(log, marker, marked)
    ensures UnreadRows(log + [e], marked)
            == UnreadRows(log, marked) + if Unread(log, marked, e) then {|log|} else {}
  {
    LongerLogKeepsMarker(log, e, marker, marked);
    forall x: Entry ensures Unread(log + [e], marked, x) <==> Unread(log, marked, x) {
    }
    forall i: nat | i < |log| + 1
      ensures i in UnreadRows(log + [e], marked)
              <==> i in UnreadRows(log, marked) || (i == |log| && Unread(log, marked, e))
    {
    }
  }
}
