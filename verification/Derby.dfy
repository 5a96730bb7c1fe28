/** backend/internal/derby: the derby table, its Redis score counters and by-city cache, the
    activate/resolve transitions, and the multiplier a support spend looks up. */
module Derbies {
  import opened Prelude
  import opened Text

  datatype Status = Scheduled | Active | Resolved

  datatype Side = HostSide | GuestSide

  datatype Derby = Derby(
    host: TribeId, guest: TribeId, city: IlCode, startsAt: int, endsAt: int,
    status: Status, hostTotal: real, guestTotal: real)

  // The JSON payload of active_derby_by_il:{city}.
  datatype Cached = Cached(id: DerbyId, host: TribeId, guest: TribeId)

  // The derbies table, and the Redis keys beside it.
  datatype World = World(
    derbies: map<DerbyId, Derby>,
    cache: map<IlCode, Cached>,
    counters: map<(DerbyId, Side), real>,
    live: set<DerbyId>)

  datatype CreateInput = CreateInput(
    host: Option<TribeId>, guest: Option<TribeId>, city: IlCode, startsAt: int, endsAt: int)

  datatype DerbyError = InvalidInput | TribeNotFound | NotFound | SameTribe | InvalidWindow | InvalidIlCode | InactiveTribe
                      | AlreadyResolved | InvalidStatus

  // ---------------------------------------------------------------- transitions

  function CounterOf(w: World, id: DerbyId, side: Side): real {
    if (id, side) in w.counters then w.counters[(id, side)] else 0.0
  }

  function TribeOn(d: Derby, side: Side): TribeId {
    match side case HostSide => d.host case GuestSide => d.guest
  }

  // store.go TransitionToActive (compare-and-set), then InitScores and SetCachedActiveByIl.
  function ActivateStep(w: World, id: DerbyId): World {
    if id in w.derbies && w.derbies[id].status == Scheduled then
      var d := w.derbies[id];
      World(w.derbies[id := d.(status := Active)],
            w.cache[d.city := Cached(id, d.host, d.guest)],
            w.counters[(id, HostSide) := 0.0][(id, GuestSide) := 0.0],
            w.live + {id})
    else w
  }

  // GetScores, store.go Resolve (compare-and-set), ExpireScores and InvalidateActiveByIl.
  function ResolveStep(w: World, id: DerbyId): World {
    if id in w.derbies && w.derbies[id].status != Resolved then
      var d := w.derbies[id];
      World(w.derbies[id := d.(status := Resolved, hostTotal := CounterOf(w, id, HostSide),
                               guestTotal := CounterOf(w, id, GuestSide))],
            w.cache - {d.city},
            w.counters,
            w.live - {id})
    else w
  }

  // The TTL that ExpireScores put on a resolved derby's counters runs out.
  function ExpireStep(w: World, id: DerbyId): World {
    if id in w.derbies && w.derbies[id].status == Resolved
    then w.(counters := w.counters - {(id, HostSide), (id, GuestSide)})
    else w
  }

  function CreateStep(w: World, id: DerbyId, d: Derby): World {
    if id !in w.derbies && d.host != d.guest && d.endsAt > d.startsAt
    then w.(derbies := w.derbies[id := d.(status := Scheduled, hostTotal := 0.0, guestTotal := 0.0)])
    else w
  }

  // ORDER BY starts_at DESC LIMIT 1 among a city's active derbies; ties fall either way.
  predicate NewestActive(w: World, city: IlCode, id: DerbyId) {
    && id in w.derbies && w.derbies[id].status == Active && w.derbies[id].city == city
    && forall k | k in w.derbies :: w.derbies[k].status == Active && w.derbies[k].city == city ==>
         w.derbies[k].startsAt <= w.derbies[id].startsAt
  }

  // The by-city read: the cache, or the table (and then the cache is filled).
  predicate LookupStep(w: World, city: IlCode, w': World, found: Option<Cached>) {
    if city in w.cache then w' == w && found == Some(w.cache[city])
    else match found
      case Some(c) =>
        && NewestActive(w, city, c.id)
        && c == Cached(c.id, w.derbies[c.id].host, w.derbies[c.id].guest)
        && w' == w.(cache := w.cache[city := c])
      case None =>
        && w' == w
        && forall k | k in w.derbies :: !(w.derbies[k].status == Active && w.derbies[k].city == city)
  }

  // multiplier.go: competing tribes get 2.0, everybody else 1.0 and no derby.
  function SideIn(c: Cached, tribe: TribeId): Option<Side> {
    if tribe == c.host then Some(HostSide) else if tribe == c.guest then Some(GuestSide) else None
  }

  function IncrStep(w: World, id: DerbyId, side: Side, delta: real): World {
    if delta == 0.0 then w
    else w.(counters := w.counters[(id, side) := CounterOf(w, id, side) + delta])
  }

  // ---------------------------------------------------------------- the books

  // A committed spend that carries a derby id.
  datatype TaggedSpend = TaggedSpend(derby: DerbyId, tribe: TribeId, effective: real)

  function SumFor(spends: seq<TaggedSpend>, id: DerbyId, tribe: TribeId): real {
    if spends == [] then 0.0
    else
      var s := spends[|spends| - 1];
      SumFor(spends[..|spends| - 1], id, tribe) + if s.derby == id && s.tribe == tribe then s.effective else 0.0
  }

  lemma SumForAppend(spends: seq<TaggedSpend>, s: TaggedSpend, id: DerbyId, tribe: TribeId)
    ensures SumFor(spends + [s], id, tribe) ==
      SumFor(spends, id, tribe) + if s.derby == id && s.tribe == tribe then s.effective else 0.0
  {
    assert (spends + [s])[..|spends|] == spends;
  }

  lemma {:induction false} UntaggedSumsToZero(spends: seq<TaggedSpend>, id: DerbyId, tribe: TribeId)
    requires forall k :: 0 <= k < |spends| ==> spends[k].derby != id
    ensures SumFor(spends, id, tribe) == 0.0
  {
    if spends != [] { UntaggedSumsToZero(spends[..|spends| - 1], id, tribe); }
  }

  // The cache only ever names a derby active in that city.
  ghost predicate CacheIsActive(w: World) {
    forall c :: c in w.cache ==> NamesActive(w, c, w.cache[c])
  }

  ghost predicate NamesActive(w: World, city: IlCode, c: Cached) {
    && c.id in w.derbies
    && w.derbies[c.id].status == Active && w.derbies[c.id].city == city
    && c == Cached(c.id, w.derbies[c.id].host, w.derbies[c.id].guest)
  }

  // What the spends tagged with a derby have to say about it, stage by stage.
  ghost predicate Balanced(w: World, spends: seq<TaggedSpend>, id: DerbyId)
    requires id in w.derbies
  {
    var d := w.derbies[id];
    var host, guest := SumFor(spends, id, d.host), SumFor(spends, id, d.guest);
    && d.host != d.guest
    && match d.status
       case Scheduled =>
         && (forall k :: 0 <= k < |spends| ==> spends[k].derby != id)
         && (id, HostSide) !in w.counters && (id, GuestSide) !in w.counters
       case Active =>
         && (id, HostSide) in w.counters && w.counters[(id, HostSide)] == host
         && (id, GuestSide) in w.counters && w.counters[(id, GuestSide)] == guest
       case Resolved => d.hostTotal == host && d.guestTotal == guest
  }

  ghost predicate SpendsAreDerby(w: World, spends: seq<TaggedSpend>) {
    forall k :: 0 <= k < |spends| ==>
      && spends[k].derby in w.derbies
      && spends[k].tribe in {w.derbies[spends[k].derby].host, w.derbies[spends[k].derby].guest}
  }

  ghost predicate Books(w: World, spends: seq<TaggedSpend>) {
    && CacheIsActive(w)
    && (forall id :: id in w.derbies ==> Balanced(w, spends, id))
    && SpendsAreDerby(w, spends)
    && (forall k :: k in w.counters ==> k.0 in w.derbies)
    && (forall id :: id in w.live <==> id in w.derbies && w.derbies[id].status == Active)
  }

  // Once resolved, a derby row never changes again.
  ghost predicate ResolvedFrozen(w: World, w': World) {
    forall id :: id in w.derbies && w.derbies[id].status == Resolved ==>
      id in w'.derbies && w'.derbies[id] == w.derbies[id]
  }

  lemma ActivateKeepsBooks(w: World, spends: seq<TaggedSpend>, id: DerbyId)
    requires Books(w, spends)
    ensures Books(ActivateStep(w, id), spends) && ResolvedFrozen(w, ActivateStep(w, id))
  {
    if id in w.derbies && w.derbies[id].status == Scheduled {
      var d := w.derbies[id];
      var w' := ActivateStep(w, id);
      assert Balanced(w, spends, id);
      UntaggedSumsToZero(spends, id, d.host);
      UntaggedSumsToZero(spends, id, d.guest);
      forall k | k in w'.derbies ensures Balanced(w', spends, k) {
        assert Balanced(w, spends, k);
      }
    }
  }

  lemma ResolveKeepsBooks(w: World, spends: seq<TaggedSpend>, id: DerbyId)
    requires Books(w, spends)
    ensures Books(ResolveStep(w, id), spends) && ResolvedFrozen(w, ResolveStep(w, id))
  {
    if id in w.derbies && w.derbies[id].status != Resolved {
      var d := w.derbies[id];
      var w' := ResolveStep(w, id);
      assert Balanced(w, spends, id);
      if d.status == Scheduled {
        UntaggedSumsToZero(spends, id, d.host);
        UntaggedSumsToZero(spends, id, d.guest);
      }
      forall k | k in w'.derbies ensures Balanced(w', spends, k) {
        assert Balanced(w, spends, k);
      }
      forall c | c in w'.cache ensures NamesActive(w', c, w'.cache[c]) {
        assert NamesActive(w, c, w.cache[c]);
      }
    }
  }

  lemma CreateKeepsBooks(w: World, spends: seq<TaggedSpend>, id: DerbyId, d: Derby)
    requires Books(w, spends)
    ensures Books(CreateStep(w, id, d), spends) && ResolvedFrozen(w, CreateStep(w, id, d))
  {
    var w' := CreateStep(w, id, d);
    if w' != w {
      forall k | k in w'.derbies ensures Balanced(w', spends, k) {
        if k != id { assert Balanced(w, spends, k); }
      }
    }
  }

  lemma ExpireKeepsBooks(w: World, spends: seq<TaggedSpend>, id: DerbyId)
    requires Books(w, spends)
    ensures Books(ExpireStep(w, id), spends) && ResolvedFrozen(w, ExpireStep(w, id))
  {
    var w' := ExpireStep(w, id);
    forall k | k in w'.derbies ensures Balanced(w', spends, k) {
      assert Balanced(w, spends, k);
    }
  }

  lemma LookupKeepsBooks(w: World, spends: seq<TaggedSpend>, city: IlCode, w': World, found: Option<Cached>)
    requires Books(w, spends) && LookupStep(w, city, w', found)
    ensures Books(w', spends) && ResolvedFrozen(w, w')
    ensures found.Some? ==> NamesActive(w', city, found.value)
  {
    forall k | k in w'.derbies ensures Balanced(w', spends, k) {
      assert Balanced(w, spends, k);
    }
  }

  predicate ActiveIn(w: World, city: IlCode, id: DerbyId) {
    id in w.derbies && w.derbies[id].status == Active && w.derbies[id].city == city
  }

  // The cache names this derby or, with no cached name, every other active derby of the city
  // started before it.
  predicate IsPreferred(w: World, city: IlCode, id: DerbyId)
    requires id in w.derbies
  {
    if city in w.cache then w.cache[city].id == id
    else forall k | k in w.derbies :: ActiveIn(w, city, k) && k != id ==> w.derbies[k].startsAt < w.derbies[id].startsAt
  }

  ghost predicate AlwaysFound(w: World, city: IlCode, id: DerbyId)
    requires id in w.derbies
  {
    forall w', found :: LookupStep(w, city, w', found) ==>
      found == Some(Cached(id, w.derbies[id].host, w.derbies[id].guest))
  }

  lemma {:induction false} SomeNewest(w: World, city: IlCode, rows: set<DerbyId>) returns (id: DerbyId)
    requires rows != {} && forall k | k in rows :: ActiveIn(w, city, k)
    ensures id in rows
    ensures forall k | k in rows :: ActiveIn(w, city, k) && ActiveIn(w, city, id) ==> w.derbies[k].startsAt <= w.derbies[id].startsAt
    decreases rows
  {
    id :| id in rows;
    var rest := rows - {id};
    if rest == {} {
      assert rows == {id};
    } else {
      var other := SomeNewest(w, city, rest);
      if w.derbies[other].startsAt > w.derbies[id].startsAt { id := other; }
    }
  }

  // The newest active derby of a city is what a lookup without a cached name may find.
  lemma NewestIsFound(w: World, city: IlCode, id: DerbyId)
    requires city !in w.cache && NewestActive(w, city, id)
    ensures
      var c := Cached(id, w.derbies[id].host, w.derbies[id].guest);
      LookupStep(w, city, w.(cache := w.cache[city := c]), Some(c))
  {
  }

  // With several derbies active in one city, a lookup is sure to find this one exactly when the
  // cache names it or, with no cached name, every other one started before it.
  lemma LookupFindsIff(w: World, spends: seq<TaggedSpend>, city: IlCode, id: DerbyId)
    requires Books(w, spends) && ActiveIn(w, city, id)
    ensures AlwaysFound(w, city, id) <==> IsPreferred(w, city, id)
  {
    hide Balanced;
    var rows := set k | k in w.derbies && ActiveIn(w, city, k);
    if city in w.cache {
      assert LookupStep(w, city, w, Some(w.cache[city]));
      assert NamesActive(w, city, w.cache[city]);
    } else if k :| k in w.derbies && ActiveIn(w, city, k) && k != id && w.derbies[k].startsAt >= w.derbies[id].startsAt {
      assert id in rows;
      var newest := SomeNewest(w, city, rows);
      var other := if newest == id then k else newest;
      assert forall m | m in w.derbies && ActiveIn(w, city, m) :: m in rows;
      NewestIsFound(w, city, other);
    } else {
      assert forall k | k in w.derbies && ActiveIn(w, city, k) && k != id :: w.derbies[k].startsAt < w.derbies[id].startsAt;
    }
  }

  // A spend by a tribe playing a derby counts double, and for that derby, exactly then.
  lemma PlayingTribeCountsIff(w: World, spends: seq<TaggedSpend>, city: IlCode, id: DerbyId, side: Side)
    requires Books(w, spends) && ActiveIn(w, city, id)
    ensures
      var tribe := TribeOn(w.derbies[id], side);
      (forall w', found :: LookupStep(w, city, w', found) ==> MultiplierFor(found, tribe) == Multiplier(2.0, Some(id), Some(side)))
      <==> IsPreferred(w, city, id)
  {
    hide Balanced;
    LookupFindsIff(w, spends, city, id);
    var tribe := TribeOn(w.derbies[id], side);
    assert w.derbies[id].host != w.derbies[id].guest by { HostIsNotGuest(w, spends, id); }
    if forall w', found :: LookupStep(w, city, w', found) ==> MultiplierFor(found, tribe) == Multiplier(2.0, Some(id), Some(side)) {
      forall w', found | LookupStep(w, city, w', found)
        ensures found == Some(Cached(id, w.derbies[id].host, w.derbies[id].guest))
      {
        assert MultiplierFor(found, tribe).derby == Some(id);
        LookupKeepsBooks(w, spends, city, w', found);
      }
    }
  }

  lemma HostIsNotGuest(w: World, spends: seq<TaggedSpend>, id: DerbyId)
    requires Books(w, spends) && id in w.derbies
    ensures w.derbies[id].host != w.derbies[id].guest
  {
    assert Balanced(w, spends, id);
  }

  // While a city has one active derby, every lookup finds that derby, cached or not.
  lemma LookupFindsTheDerby(w: World, spends: seq<TaggedSpend>, city: IlCode, id: DerbyId, w': World, found: Option<Cached>)
    requires Books(w, spends) && LookupStep(w, city, w', found)
    requires ActiveIn(w, city, id) && forall k | k in w.derbies :: ActiveIn(w, city, k) ==> k == id
    ensures found == Some(Cached(id, w.derbies[id].host, w.derbies[id].guest))
  {
    assert IsPreferred(w, city, id);
    LookupFindsIff(w, spends, city, id);
  }

  // Counting a committed spend on the side its tribe plays for.
  lemma SpendKeepsBooks(w: World, spends: seq<TaggedSpend>, city: IlCode, c: Cached, tribe: TribeId, delta: real)
    requires Books(w, spends) && NamesActive(w, city, c) && SideIn(c, tribe).Some?
    ensures
      var w' := IncrStep(w, c.id, SideIn(c, tribe).value, delta);
      Books(w', spends + [TaggedSpend(c.id, tribe, delta)]) && ResolvedFrozen(w, w')
  {
    var s := TaggedSpend(c.id, tribe, delta);
    var w' := IncrStep(w, c.id, SideIn(c, tribe).value, delta);
    forall k | k in w'.derbies ensures Balanced(w', spends + [s], k) {
      assert Balanced(w, spends, k);
      SumForAppend(spends, s, k, w.derbies[k].host);
      SumForAppend(spends, s, k, w.derbies[k].guest);
    }
  }

  // ---------------------------------------------------------------- whole runs

  datatype Snapshot = Snapshot(world: World, spends: seq<TaggedSpend>)

  // Any of the service's calls, or a support spend that looked the derby up and, if it was
  // committed, counted.
  ghost predicate Next(s: Snapshot, s': Snapshot) {
    || (exists id, d :: s' == Snapshot(CreateStep(s.world, id, d), s.spends))
    || (exists id :: s' == Snapshot(ActivateStep(s.world, id), s.spends))
    || (exists id :: s' == Snapshot(ResolveStep(s.world, id), s.spends))
    || (exists id :: s' == Snapshot(ExpireStep(s.world, id), s.spends))
    || (exists city, tribe, delta, committed :: SpendNext(s, s', city, tribe, delta, committed))
  }

  ghost predicate SpendNext(s: Snapshot, s': Snapshot, city: IlCode, tribe: TribeId, delta: real, committed: bool) {
    exists w, found :: LookupStep(s.world, city, w, found) && s' == AfterLookup(s, w, found, tribe, delta, committed)
  }

  function AfterLookup(s: Snapshot, w: World, found: Option<Cached>, tribe: TribeId, delta: real, committed: bool): Snapshot {
    if committed && found.Some? && SideIn(found.value, tribe).Some?
    then Snapshot(IncrStep(w, found.value.id, SideIn(found.value, tribe).value, delta),
                  s.spends + [TaggedSpend(found.value.id, tribe, delta)])
    else Snapshot(w, s.spends)
  }

  lemma NextKeepsBooks(s: Snapshot, s': Snapshot)
    requires Books(s.world, s.spends) && Next(s, s')
    ensures Books(s'.world, s'.spends) && ResolvedFrozen(s.world, s'.world) && s.spends <= s'.spends
  {
    if id, d :| s' == Snapshot(CreateStep(s.world, id, d), s.spends) {
      CreateKeepsBooks(s.world, s.spends, id, d);
    } else if id :| s' == Snapshot(ActivateStep(s.world, id), s.spends) {
      ActivateKeepsBooks(s.world, s.spends, id);
    } else if id :| s' == Snapshot(ResolveStep(s.world, id), s.spends) {
      ResolveKeepsBooks(s.world, s.spends, id);
    } else if id :| s' == Snapshot(ExpireStep(s.world, id), s.spends) {
      ExpireKeepsBooks(s.world, s.spends, id);
    } else {
      var city, tribe, delta, committed :| SpendNext(s, s', city, tribe, delta, committed);
      var w, found :| LookupStep(s.world, city, w, found) && s' == AfterLookup(s, w, found, tribe, delta, committed);
      LookupKeepsBooks(s.world, s.spends, city, w, found);
      if committed && found.Some? && SideIn(found.value, tribe).Some? {
        SpendKeepsBooks(w, s.spends, city, found.value, tribe, delta);
      }
    }
  }

  ghost predicate IsRun(run: seq<Snapshot>) {
    && run != [] && run[0] == Snapshot(World(map[], map[], map[], {}), [])
    && forall i :: 0 < i < |run| ==> Next(run[i - 1], run[i])
  }

  lemma {:induction false} RunKeepsBooks(run: seq<Snapshot>, i: nat)
    requires IsRun(run) && i < |run|
    ensures Books(run[i].world, run[i].spends)
  {
    if i > 0 {
      RunKeepsBooks(run, i - 1);
      NextKeepsBooks(run[i - 1], run[i]);
    }
  }

  // In every run each derby has two tribes and a window that ends after it starts.
  lemma {:induction false} WindowsStand(run: seq<Snapshot>, i: nat, id: DerbyId)
    requires IsRun(run) && i < |run| && id in run[i].world.derbies
    ensures
      var d := run[i].world.derbies[id];
      d.host != d.guest && d.startsAt < d.endsAt
    decreases i
  {
    hide LookupStep;
    if i > 0 {
      NextKeepsWindow(run[i - 1], run[i], id);
      if id in run[i - 1].world.derbies { WindowsStand(run, i - 1, id); }
    }
  }

  lemma NextKeepsWindow(s: Snapshot, s': Snapshot, id: DerbyId)
    requires Next(s, s') && id in s'.world.derbies
    ensures
      var d := s'.world.derbies[id];
      if id in s.world.derbies
      then d == s.world.derbies[id].(status := d.status, hostTotal := d.hostTotal, guestTotal := d.guestTotal)
      else d.host != d.guest && d.startsAt < d.endsAt
  {
    if k, d :| s' == Snapshot(CreateStep(s.world, k, d), s.spends) {
    } else if k :| s' == Snapshot(ActivateStep(s.world, k), s.spends) {
    } else if k :| s' == Snapshot(ResolveStep(s.world, k), s.spends) {
    } else if k :| s' == Snapshot(ExpireStep(s.world, k), s.spends) {
    } else {
      var c, tribe, delta, committed :| SpendNext(s, s', c, tribe, delta, committed);
      var w, found :| LookupStep(s.world, c, w, found) && s' == AfterLookup(s, w, found, tribe, delta, committed);
      LookupKeepsRows(s.world, c, w, found);
    }
  }

  lemma LookupKeepsRows(w: World, city: IlCode, w': World, found: Option<Cached>)
    requires LookupStep(w, city, w', found)
    ensures w'.derbies == w.derbies
  {
  }

  lemma {:induction false} ResolvedStays(run: seq<Snapshot>, i: nat, j: nat, id: DerbyId)
    requires IsRun(run) && i <= j < |run|
    requires id in run[i].world.derbies && run[i].world.derbies[id].status == Resolved
    ensures id in run[j].world.derbies && run[j].world.derbies[id] == run[i].world.derbies[id]
    decreases j
  {
    if i < j {
      ResolvedStays(run, i, j - 1, id);
      StepFreezes(run, j);
    }
  }

  lemma StepFreezes(run: seq<Snapshot>, j: nat)
    requires IsRun(run) && 0 < j < |run|
    ensures ResolvedFrozen(run[j - 1].world, run[j].world)
  {
    RunKeepsBooks(run, j - 1);
    NextKeepsBooks(run[j - 1], run[j]);
  }

  // The totals a derby was resolved with are, at every later moment of any run, the effective
  // support of all spends ever tagged with it, side by side.
  lemma TotalsAreFinal(run: seq<Snapshot>, i: nat, j: nat, id: DerbyId)
    requires IsRun(run) && i <= j < |run|
    requires id in run[i].world.derbies && run[i].world.derbies[id].status == Resolved
    ensures
      var d := run[i].world.derbies[id];
      && id in run[j].world.derbies && run[j].world.derbies[id] == d
      && d.hostTotal == SumFor(run[j].spends, id, d.host)
      && d.guestTotal == SumFor(run[j].spends, id, d.guest)
  {
    ResolvedStays(run, i, j, id);
    RunKeepsBooks(run, j);
    assert Balanced(run[j].world, run[j].spends, id);
  }

  // No derby of the city changes its status from one moment to the next.
  ghost predicate Quiet(w: World, w': World, city: IlCode) {
    forall k :: k in w.derbies && w.derbies[k].city == city ==>
      k in w'.derbies && w'.derbies[k].status == w.derbies[k].status
  }

  lemma QuietKeepsName(s: Snapshot, s': Snapshot, city: IlCode)
    requires Next(s, s') && Quiet(s.world, s'.world, city) && city in s.world.cache
    ensures city in s'.world.cache && s'.world.cache[city] == s.world.cache[city]
  {
    hide LookupStep, AfterLookup, SideIn;
    if id, d :| s' == Snapshot(CreateStep(s.world, id, d), s.spends) {
    } else if id :| s' == Snapshot(ActivateStep(s.world, id), s.spends) {
    } else if id :| s' == Snapshot(ResolveStep(s.world, id), s.spends) {
    } else if id :| s' == Snapshot(ExpireStep(s.world, id), s.spends) {
    } else {
      var c, tribe, delta, committed :| SpendNext(s, s', c, tribe, delta, committed);
      var w, found :| LookupStep(s.world, c, w, found) && s' == AfterLookup(s, w, found, tribe, delta, committed);
      SpendKeepsNames(s, w, found, tribe, delta, committed, c);
    }
  }

  // A lookup fills the cache at most where it names nothing, and counting leaves it alone.
  lemma SpendKeepsNames(s: Snapshot, w: World, found: Option<Cached>, tribe: TribeId, delta: real, committed: bool, c: IlCode)
    requires LookupStep(s.world, c, w, found)
    ensures
      var cache := AfterLookup(s, w, found, tribe, delta, committed).world.cache;
      forall city :: city in s.world.cache ==> city in cache && cache[city] == s.world.cache[city]
  {
    hide NewestActive;
  }

  // From its activation until the next activation or resolution of a derby in its city, every
  // lookup there finds the derby activated last, whatever else is active.
  lemma {:induction false} LastActivatedIsFound(run: seq<Snapshot>, i: nat, j: nat, id: DerbyId)
    requires IsRun(run) && i < j < |run|
    requires id in run[i].world.derbies && run[i].world.derbies[id].status == Scheduled
    requires run[i + 1].world == ActivateStep(run[i].world, id)
    requires forall m :: i < m < j ==> Quiet(run[m].world, run[m + 1].world, run[i].world.derbies[id].city)
    ensures
      var city := run[i].world.derbies[id].city;
      && ActiveIn(run[j].world, city, id)
      && city in run[j].world.cache && run[j].world.cache[city].id == id
      && AlwaysFound(run[j].world, city, id)
    decreases j
  {
    hide Balanced, Next;
    var city := run[i].world.derbies[id].city;
    if i + 1 < j {
      LastActivatedIsFound(run, i, j - 1, id);
      assert Quiet(run[j - 1].world, run[j].world, city);
      QuietKeepsName(run[j - 1], run[j], city);
    }
    RunKeepsBooks(run, j);
    assert NamesActive(run[j].world, city, run[j].world.cache[city]);
    LookupFindsIff(run[j].world, run[j].spends, city, id);
  }

  // Two derbies of one city, both active: a spend by the host of the first counts single and for
  // no derby.
  lemma SecondDerbyHidesFirst() returns (run: seq<Snapshot>)
    ensures IsRun(run) && |run| == 5
    ensures
      var w := run[4].world;
      && ActiveIn(w, "34", 0) && ActiveIn(w, "34", 1) && w.derbies[0].host == 10
      && forall w', found :: LookupStep(w, "34", w', found) ==> MultiplierFor(found, 10) == Multiplier(1.0, None, None)
  {
    var w0 := World(map[], map[], map[], {});
    var w1 := CreateStep(w0, 0, Derby(10, 11, "34", 0, 100, Scheduled, 0.0, 0.0));
    var w2 := CreateStep(w1, 1, Derby(12, 13, "34", 0, 100, Scheduled, 0.0, 0.0));
    var w3 := ActivateStep(w2, 0);
    var w4 := ActivateStep(w3, 1);
    run := [Snapshot(w0, []), Snapshot(w1, []), Snapshot(w2, []), Snapshot(w3, []), Snapshot(w4, [])];
    assert Next(run[0], run[1]) && Next(run[1], run[2]) && Next(run[2], run[3]) && Next(run[3], run[4]);
    assert w4.cache["34"] == Cached(1, 12, 13);
  }

  // ---------------------------------------------------------------- the service

  // What one scheduler pass at `now` owes each derby.
  function DueStatus(d: Derby, now: int): Status {
    match d.status
    case Scheduled =>
      if d.startsAt > now then Scheduled else if d.endsAt > now then Active else Resolved
    case Active => if d.endsAt > now then Active else Resolved
    case Resolved => Resolved
  }

  datatype Multiplier = Multiplier(factor: real, derby: Option<DerbyId>, side: Option<Side>)

  class DerbyService {
    var derbies: map<DerbyId, Derby>
    var cache: map<IlCode, Cached>
    var counters: map<(DerbyId, Side), real>
    var live: set<DerbyId>

    // every committed spend that was counted, and every derby that has been active
    ghost var spends: seq<TaggedSpend>
    ghost var visited: set<DerbyId>

    ghost function State(): World
      reads this
    {
      World(derbies, cache, counters, live)
    }

    ghost predicate Valid()
      reads this
    {
      && Books(State(), spends)
      && forall id :: id in derbies && derbies[id].status == Scheduled ==> id !in visited
    }

    constructor ()
      ensures Valid() && State() == World(map[], map[], map[], {}) && spends == [] && visited == {}
    {
      derbies, cache, counters, live := map[], map[], map[], {};
      spends, visited := [], {};
    }

    // `provinces` are the known cities; `tribes` says of each tribe whether it is active.
    method Create(id: DerbyId, input: CreateInput, provinces: set<IlCode>, tribes: map<TribeId, bool>)
      returns (r: Result<Derby, DerbyError>)
      requires Valid() && id !in derbies && id !in visited
      modifies this
      ensures Valid() && spends == old(spends) && visited == old(visited)
      ensures r.Err? ==> State() == old(State())
      ensures r.Ok? <==> MayCreate(input, provinces, tribes)
      ensures r == Err(InvalidInput) <==> input.host.None? || input.guest.None?
      ensures r == Err(SameTribe) <==> input.host.Some? && input.host == input.guest
      ensures r.Err? && r.error == TribeNotFound ==>
        input.host.value !in tribes || (tribes[input.host.value] && input.guest.value !in tribes)
      ensures r.Err? && r.error == InactiveTribe ==>
        exists t :: t in tribes && !tribes[t] && (Some(t) == input.host || Some(t) == input.guest)
      ensures r.Ok? ==>
        && id in derbies && derbies == old(derbies)[id := r.value] && r.value.status == Scheduled
        && Some(r.value.host) == input.host && Some(r.value.guest) == input.guest
        && r.value.city == NormalizeIlCode(input.city)
        && r.value.startsAt == input.startsAt && r.value.endsAt == input.endsAt
        && State() == CreateStep(old(State()), id, r.value)
    {
      if input.host.None? || input.guest.None? { return Err(InvalidInput); }
      var host, guest := input.host.value, input.guest.value;
      if host == guest { return Err(SameTribe); }
      if input.endsAt <= input.startsAt { return Err(InvalidWindow); }
      var city := NormalizeIlCode(input.city);
      if city == "" || city !in provinces { return Err(InvalidIlCode); }
      if host !in tribes { return Err(TribeNotFound); }
      if !tribes[host] { return Err(InactiveTribe); }
      if guest !in tribes { return Err(TribeNotFound); }
      if !tribes[guest] { return Err(InactiveTribe); }
      var d := Derby(host, guest, city, input.startsAt, input.endsAt, Scheduled, 0.0, 0.0);
      CreateKeepsBooks(State(), spends, id, d);
      derbies := derbies[id := d];
      r := Ok(d);
    }

    method Activate(id: DerbyId) returns (r: Result<Derby, DerbyError>)
      requires Valid()
      modifies this
      ensures Valid() && State() == ActivateStep(old(State()), id) && spends == old(spends)
      ensures r.Ok? <==> id in old(derbies) && old(derbies)[id].status == Scheduled
      ensures r.Ok? ==> derbies == old(derbies)[id := r.value] && r.value == old(derbies)[id].(status := Active)
      ensures r.Ok? ==> visited == old(visited) + {id}
      ensures r.Err? ==> visited == old(visited)
    {
      hide Books;
      if id !in derbies || derbies[id].status != Scheduled { return Err(InvalidStatus); }
      ghost var w := State();
      ActivateKeepsBooks(w, spends, id);
      var d := derbies[id].(status := Active);
      derbies := derbies[id := d];
      visited := visited + {id};
      InitScores(id);
      cache := cache[d.city := Cached(id, d.host, d.guest)];
      assert State() == ActivateStep(w, id);
      r := Ok(d);
    }

    method InitScores(id: DerbyId)
      modifies this`counters, this`live
      ensures counters == old(counters)[(id, HostSide) := 0.0][(id, GuestSide) := 0.0]
      ensures live == old(live) + {id}
    {
      counters := counters[(id, HostSide) := 0.0];
      counters := counters[(id, GuestSide) := 0.0];
      live := live + {id};
    }

    method GetScores(id: DerbyId) returns (host: real, guest: real)
      ensures host == CounterOf(State(), id, HostSide) && guest == CounterOf(State(), id, GuestSide)
      // the scores of an active derby are what was spent for each side; before it starts, nothing
      ensures Valid() && id in derbies && derbies[id].status == Active ==>
        host == SumFor(spends, id, derbies[id].host) && guest == SumFor(spends, id, derbies[id].guest)
      ensures Valid() && id in derbies && derbies[id].status == Scheduled ==> host == 0.0 && guest == 0.0
    {
      assert Valid() && id in derbies ==> Balanced(State(), spends, id);
      host := if (id, HostSide) in counters then counters[(id, HostSide)] else 0.0;
      guest := if (id, GuestSide) in counters then counters[(id, GuestSide)] else 0.0;
    }

    method Resolve(id: DerbyId) returns (r: Result<Derby, DerbyError>)
      requires Valid()
      modifies this
      ensures Valid() && State() == ResolveStep(old(State()), id) && spends == old(spends) && visited == old(visited)
      ensures r.Ok? <==> id in old(derbies) && old(derbies)[id].status != Resolved
      ensures r.Ok? ==>
        && derbies == old(derbies)[id := r.value]
        && r.value.status == Resolved && r.value.endsAt == old(derbies)[id].endsAt
        && r.value.hostTotal == SumFor(spends, id, r.value.host)
        && r.value.guestTotal == SumFor(spends, id, r.value.guest)
    {
      var host, guest := GetScores(id);
      if id !in derbies { return Err(NotFound); }
      if derbies[id].status == Resolved { return Err(AlreadyResolved); }
      ghost var w := State();
      ResolveKeepsBooks(w, spends, id);
      var d := derbies[id].(status := Resolved, hostTotal := host, guestTotal := guest);
      derbies := derbies[id := d];
      live := live - {id};
      cache := cache - {d.city};
      assert State() == ResolveStep(w, id);
      assert Balanced(State(), spends, id);
      r := Ok(d);
    }

    method ForceResolve(id: DerbyId) returns (r: Result<Derby, DerbyError>)
      requires Valid()
      modifies this
      ensures Valid() && State() == ResolveStep(old(State()), id) && spends == old(spends) && visited == old(visited)
      ensures r == Err(NotFound) <==> id !in old(derbies)
      ensures r == Err(AlreadyResolved) <==> id in old(derbies) && old(derbies)[id].status == Resolved
    {
      if id !in derbies { return Err(NotFound); }
      if derbies[id].status == Resolved { return Err(AlreadyResolved); }
      r := Resolve(id);
    }

    // The scores of a resolved derby outlive it by the TTL, then go.
    method ExpireCounters(id: DerbyId)
      requires Valid()
      modifies this`counters
      ensures Valid() && State() == ExpireStep(old(State()), id)
    {
      ExpireKeepsBooks(State(), spends, id);
      if id in derbies && derbies[id].status == Resolved {
        counters := counters - {(id, HostSide), (id, GuestSide)};
      }
    }

    method GetActiveByIl(city: IlCode) returns (found: Option<DerbyId>)
      ensures found.Some? ==> NewestActive(State(), city, found.value)
      ensures found.None? ==> forall k | k in derbies :: !(derbies[k].status == Active && derbies[k].city == city)
    {
      found := None;
      var rest := derbies.Keys;
      while rest != {}
        invariant rest <= derbies.Keys
        invariant found.Some? ==>
          && found.value in derbies.Keys - rest
          && derbies[found.value].status == Active && derbies[found.value].city == city
        invariant forall k | k in derbies.Keys - rest :: derbies[k].status == Active && derbies[k].city == city ==>
          found.Some? && derbies[k].startsAt <= derbies[found.value].startsAt
        decreases rest
      {
        var k :| k in rest;
        rest := rest - {k};
        var d := derbies[k];
        if d.status == Active && d.city == city
           && (found.None? || d.startsAt > derbies[found.value].startsAt) {
          found := Some(k);
        }
      }
    }

    // A competing tribe's spend counts double for exactly the derby the city is playing.
    method ResolveSupportMultiplier(tribe: TribeId, ilCode: IlCode) returns (m: Multiplier)
      requires Valid()
      modifies this`cache
      ensures Valid()
      ensures
        var city := NormalizeIlCode(ilCode);
        if city == "" then m == Multiplier(1.0, None, None) && State() == old(State())
        else exists found :: LookupStep(old(State()), city, State(), found) && m == MultiplierFor(found, tribe)
      ensures m.derby.Some? ==>
        && m.derby.value in derbies && derbies[m.derby.value].status == Active
        && derbies[m.derby.value].city == NormalizeIlCode(ilCode)
        && m.side.Some? && tribe == TribeOn(derbies[m.derby.value], m.side.value)
        && m.factor == 2.0
      ensures m.derby.None? ==> m == Multiplier(1.0, None, None)
    {
      var city := NormalizeIlCode(ilCode);
      if city == "" { return Multiplier(1.0, None, None); }
      ghost var before := State();
      var found: Option<Cached> := None;
      if city in cache {
        found := Some(cache[city]);
      } else {
        var id := GetActiveByIl(city);
        if id.Some? {
          var d := derbies[id.value];
          found := Some(Cached(id.value, d.host, d.guest));
          cache := cache[city := found.value];
        }
      }
      assert LookupStep(before, city, State(), found);
      LookupKeepsBooks(before, spends, city, State(), found);
      m := MultiplierFor(found, tribe);
    }

    // scores.go IncrScore, for a spend that has just been committed.
    method IncrScore(id: DerbyId, side: Side, delta: real, ghost tribe: TribeId)
      requires Valid() && id in derbies && derbies[id].status == Active && tribe == TribeOn(derbies[id], side)
      modifies this`counters, this`spends
      ensures Valid() && State() == IncrStep(old(State()), id, side, delta)
      ensures spends == old(spends) + [TaggedSpend(id, tribe, delta)]
    {
      hide Books;
      ghost var w, c := State(), Cached(id, derbies[id].host, derbies[id].guest);
      HostIsNotGuest(w, spends, id);
      SpendKeepsBooks(w, spends, derbies[id].city, c, tribe, delta);
      if delta != 0.0 {
        var cur := if (id, side) in counters then counters[(id, side)] else 0.0;
        counters := counters[(id, side) := cur + delta];
      }
      assert State() == IncrStep(w, id, side, delta);
      spends := spends + [TaggedSpend(id, tribe, delta)];
    }
  
    // ListDueToActivate and ListDueToResolve: rows of one status whose time has come, oldest first.
    method ListDue(status: Status, now: int) returns (ids: seq<DerbyId>)
      ensures forall k :: k in ids <==> k in derbies && IsDue(derbies[k], status, now)
      ensures forall i, j :: 0 <= i < j < |ids| ==> ids[i] != ids[j]
      ensures forall i, j :: 0 <= i < j < |ids| ==>
        ids[i] in derbies && ids[j] in derbies && DueAt(derbies[ids[i]]) <= DueAt(derbies[ids[j]])
    {
      hide DueAt, IsDue;
      ids := [];
      var rest := set k | k in derbies && IsDue(derbies[k], status, now);
      while rest != {}
        invariant rest <= derbies.Keys
        invariant forall k :: k in ids || k in rest <==> k in derbies && IsDue(derbies[k], status, now)
        invariant forall k :: k in ids ==> k !in rest
        invariant forall i, j :: 0 <= i < j < |ids| ==> ids[i] != ids[j]
        invariant forall i, j :: 0 <= i < j < |ids| ==>
          ids[i] in derbies && ids[j] in derbies && DueAt(derbies[ids[i]]) <= DueAt(derbies[ids[j]])
        invariant forall i, k :: 0 <= i < |ids| && k in rest ==>
          ids[i] in derbies && DueAt(derbies[ids[i]]) <= DueAt(derbies[k])
        decreases rest
      {
        var k := Oldest(rest);
        ids := ids + [k];
        rest := rest - {k};
      }
    }

    method Oldest(rows: set<DerbyId>) returns (k: DerbyId)
      requires rows != {} && rows <= derbies.Keys
      ensures k in rows && forall j | j in rows :: DueAt(derbies[k]) <= DueAt(derbies[j])
    {
      k :| k in rows;
      var rest := rows - {k};
      while rest != {}
        invariant rest <= rows && k in rows
        invariant forall j | j in rows - rest :: DueAt(derbies[k]) <= DueAt(derbies[j])
        decreases rest
      {
        var j :| j in rest;
        rest := rest - {j};
        if DueAt(derbies[j]) < DueAt(derbies[k]) { k := j; }
      }
    }

    // One scheduler pass: everything due moves to where it belongs, and nothing is resolved
    // that has not been active, even when its whole window has already passed.
    method ProcessDue(now: int)
      requires Valid()
      modifies this
      ensures Valid() && spends == old(spends)
      ensures derbies.Keys == old(derbies).Keys
      ensures forall k :: k in derbies ==> derbies[k].status == DueStatus(old(derbies)[k], now)
      ensures forall k :: k in derbies && old(derbies)[k].status == Scheduled && derbies[k].status == Resolved ==>
        k in visited
      ensures visited == old(visited) + set k | k in old(derbies) && IsDue(old(derbies)[k], Scheduled, now)
    {
      hide Books;
      var due := ListDue(Scheduled, now);
      ActivateDue(due, now);
      var overdue := ListDue(Active, now);
      ResolveDue(overdue);
    }

    method ActivateDue(due: seq<DerbyId>, now: int)
      requires Valid()
      requires forall i, j :: 0 <= i < j < |due| ==> due[i] != due[j]
      requires forall k :: k in due ==> k in derbies && derbies[k].status == Scheduled
      modifies this
      ensures Valid() && spends == old(spends)
      ensures MovedTo(old(derbies), derbies, (set k | k in due), now)
      ensures visited == old(visited) + set k | k in due
    {
      hide Books;
      ghost var done: set<DerbyId> := {};
      for i := 0 to |due|
        invariant Valid() && spends == old(spends)
        invariant forall j :: 0 <= j < i ==> due[j] in done
        invariant forall j :: i <= j < |due| ==> due[j] !in done
        invariant done <= set k | k in due
        invariant MovedTo(old(derbies), derbies, done, now)
        invariant visited == old(visited) + done
      {
        ActivateOne(due[i], now);
        done := done + {due[i]};
      }
      assert done == set k | k in due;
    }

    // In the same pass: a derby already past its end is resolved after its brief active visit.
    method ActivateOne(id: DerbyId, now: int)
      requires Valid() && id in derbies && derbies[id].status == Scheduled
      modifies this
      ensures Valid() && spends == old(spends) && id in derbies
      ensures derbies == old(derbies)[id := derbies[id]] && derbies[id].endsAt == old(derbies)[id].endsAt
      ensures derbies[id].status == if derbies[id].endsAt <= now then Resolved else Active
      ensures visited == old(visited) + {id}
    {
      hide Books;
      var r := Activate(id);
      if r.value.endsAt <= now {
        var _ := Resolve(id);
      }
    }

    method ResolveDue(due: seq<DerbyId>)
      requires Valid()
      requires forall k :: k in due ==> k in derbies
      modifies this
      ensures Valid() && spends == old(spends) && visited == old(visited)
      ensures ClosedTo(old(derbies), derbies, set k | k in due)
    {
      hide Books;
      ghost var done: set<DerbyId> := {};
      for i := 0 to |due|
        invariant Valid() && spends == old(spends) && visited == old(visited)
        invariant forall j :: 0 <= j < i ==> due[j] in done
        invariant done <= set k | k in due
        invariant ClosedTo(old(derbies), derbies, done)
      {
        var _ := Resolve(due[i]);
        done := done + {due[i]};
      }
      assert done == set k | k in due;
    }
  }

  // The derbies in `done` are resolved; no other has moved.
  ghost predicate ClosedTo(before: map<DerbyId, Derby>, after: map<DerbyId, Derby>, done: set<DerbyId>) {
    && after.Keys == before.Keys
    && forall k :: k in after ==> if k in done then after[k].status == Resolved else after[k] == before[k]
  }

  // The derbies in `done` have been activated, and resolved if they were over; no other has moved.
  ghost predicate MovedTo(before: map<DerbyId, Derby>, after: map<DerbyId, Derby>, done: set<DerbyId>, now: int) {
    && after.Keys == before.Keys
    && forall k :: k in after ==>
         if k in done then
           && after[k].endsAt == before[k].endsAt
           && after[k].status == if after[k].endsAt <= now then Resolved else Active
         else after[k] == before[k]
  }

  // A scheduled derby is due when it starts, an active one when it ends.
  function DueAt(d: Derby): int {
    if d.status == Scheduled then d.startsAt else d.endsAt
  }

  predicate IsDue(d: Derby, status: Status, now: int) {
    d.status == status && DueAt(d) <= now
  }

  predicate MayCreate(input: CreateInput, provinces: set<IlCode>, tribes: map<TribeId, bool>) {
    && input.host.Some? && input.guest.Some? && input.host != input.guest
    && input.endsAt > input.startsAt
    && NormalizeIlCode(input.city) != "" && NormalizeIlCode(input.city) in provinces
    && input.host.value in tribes && tribes[input.host.value]
    && input.guest.value in tribes && tribes[input.guest.value]
  }

  function MultiplierFor(found: Option<Cached>, tribe: TribeId): Multiplier {
    match found
    case None => Multiplier(1.0, None, None)
    case Some(c) =>
      match SideIn(c, tribe)
      case None => Multiplier(1.0, None, None)
      case Some(side) => Multiplier(2.0, Some(c.id), Some(side))
  }
}
