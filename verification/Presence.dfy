/** backend/internal/presence/tracker.go: TTL heartbeat keys, the companion sets that index
    them, and the lazy pruning that keeps what readers see equal to the live keys. */
module Presence {
  import opened Prelude

  // online:{user}: the tribe it was stored with, and when it expires.
  datatype Beat = Beat(tribe: Option<TribeId>, expiresAt: int)

  // The heartbeat keys, online:users and the online:tribe:{id} sets.
  datatype Redis = Redis(keys: map<UserId, Beat>, users: set<UserId>, tribes: map<TribeId, set<UserId>>)

  const Empty := Redis(map[], {}, map[])

  predicate Live(r: Redis, u: UserId, now: int) {
    u in r.keys && now <= r.keys[u].expiresAt
  }

  predicate LiveIn(r: Redis, u: UserId, t: TribeId, now: int) {
    Live(r, u, now) && r.keys[u].tribe == Some(t)
  }

  function TribeSet(r: Redis, t: TribeId): set<UserId> {
    if t in r.tribes then r.tribes[t] else {}
  }

  // ---------------------------------------------------------------- the commands

  // A refresh keeps the tribe the key was stored with; a new key takes the current membership.
  function HeartbeatStep(r: Redis, u: UserId, now: int, ttl: int, membership: Option<TribeId>): Redis {
    var tribe := if Live(r, u, now) then r.keys[u].tribe else membership;
    Redis(r.keys[u := Beat(tribe, now + ttl)], r.users + {u},
          match tribe case Some(t) => r.tribes[t := TribeSet(r, t) + {u}] case None => r.tribes)
  }

  function PruneUsersStep(r: Redis, now: int): Redis {
    r.(users := set u | u in r.users && Live(r, u, now))
  }

  function PruneTribeStep(r: Redis, t: TribeId, now: int): Redis {
    r.(tribes := r.tribes[t := set u | u in TribeSet(r, t) && LiveIn(r, u, t, now)])
  }

  function ClearStep(r: Redis, u: UserId, now: int): Redis {
    Redis(r.keys - {u}, r.users - {u},
          if Live(r, u, now) && r.keys[u].tribe.Some?
          then r.tribes[r.keys[u].tribe.value := TribeSet(r, r.keys[u].tribe.value) - {u}] else r.tribes)
  }

  // ---------------------------------------------------------------- the index is never behind

  // Every live key's user is in the global set and in the set of its stored tribe.
  ghost predicate Indexed(r: Redis, now: int) {
    forall u :: Live(r, u, now) ==>
      u in r.users && (r.keys[u].tribe.Some? ==> u in TribeSet(r, r.keys[u].tribe.value))
  }

  lemma TickKeepsIndex(r: Redis, now: int, later: int)
    requires Indexed(r, now) && now <= later
    ensures Indexed(r, later)
  {
    forall u | Live(r, u, later) ensures Live(r, u, now) {}
  }

  datatype Event =
    | Heartbeat(user: UserId, now: int, membership: Option<TribeId>)
    | CountOnline(now: int)
    | ListTribe(tribe: TribeId, now: int)
    | Clear(user: UserId, now: int)

  function Step(r: Redis, ttl: int, e: Event): Redis {
    match e
    case Heartbeat(u, now, m) => HeartbeatStep(r, u, now, ttl, m)
    case CountOnline(now) => PruneUsersStep(r, now)
    case ListTribe(t, now) => PruneTribeStep(r, t, now)
    case Clear(u, now) => ClearStep(r, u, now)
  }

  lemma StepKeepsIndex(r: Redis, ttl: int, e: Event)
    requires Indexed(r, e.now) && ttl >= 0
    ensures Indexed(Step(r, ttl, e), e.now)
  {
    var r' := Step(r, ttl, e);
    forall u | Live(r', u, e.now)
      ensures u in r'.users && (r'.keys[u].tribe.Some? ==> u in TribeSet(r', r'.keys[u].tribe.value))
    {
      if !(e.Heartbeat? && e.user == u) { assert Live(r, u, e.now); }
    }
  }

  predicate Clock(events: seq<Event>) {
    forall i, j :: 0 <= i <= j < |events| ==> events[i].now <= events[j].now
  }

  function Run(ttl: int, events: seq<Event>): Redis {
    if events == [] then Empty else Step(Run(ttl, events[..|events| - 1]), ttl, events[|events| - 1])
  }

  lemma {:induction false} RunKeepsIndex(ttl: int, events: seq<Event>, now: int)
    requires ttl >= 0 && Clock(events)
    requires events != [] ==> events[|events| - 1].now <= now
    ensures Indexed(Run(ttl, events), now)
    decreases |events|
  {
    if events != [] {
      var e := events[|events| - 1];
      RunKeepsIndex(ttl, events[..|events| - 1], e.now);
      StepKeepsIndex(Run(ttl, events[..|events| - 1]), ttl, e);
      TickKeepsIndex(Run(ttl, events), e.now, now);
    }
  }

  // After any history, the members that survive pruning are exactly the live keys, and per
  // tribe exactly the live keys that store that tribe: a read misses nobody and shows no ghost.
  lemma ReadersSeeLiveKeys(ttl: int, events: seq<Event>, now: int, t: TribeId)
    requires ttl >= 0 && Clock(events)
    requires events != [] ==> events[|events| - 1].now <= now
    ensures
      var r := Run(ttl, events);
      && PruneUsersStep(r, now).users == (set u | u in r.keys && Live(r, u, now))
      && TribeSet(PruneTribeStep(r, t, now), t) == (set u | u in r.keys && LiveIn(r, u, t, now))
  {
    RunKeepsIndex(ttl, events, now);
  }

  // ---------------------------------------------------------------- the tracker

  class Tracker {
    const ttl: int
    var keys: map<UserId, Beat>
    var users: set<UserId>
    var tribes: map<TribeId, set<UserId>>

    ghost var clock: int   // latest time seen

    ghost function State(): Redis
      reads this
    {
      Redis(keys, users, tribes)
    }

    ghost predicate Valid()
      reads this
    {
      ttl > 0 && Indexed(State(), clock)
    }

    constructor (ttl: int, ghost now: int)
      ensures Valid() && State() == Empty && clock == now && this.ttl == if ttl > 0 then ttl else 60_000
    {
      this.ttl := if ttl > 0 then ttl else 60_000;
      keys, users, tribes, clock := map[], {}, map[], now;
    }

    method Heartbeat(u: UserId, now: int, membership: Option<TribeId>)
      requires Valid() && clock <= now
      modifies this
      ensures Valid() && clock == now
      ensures State() == HeartbeatStep(old(State()), u, now, ttl, membership)
      ensures forall later :: Live(State(), u, later) <==> later <= now + ttl
      ensures keys[u].tribe == if Live(old(State()), u, now) then old(keys)[u].tribe else membership
    {
      ghost var r := State();
      TickKeepsIndex(r, clock, now);
      StepKeepsIndex(r, ttl, Event.Heartbeat(u, now, membership));
      var tribe := membership;
      if u in keys && now <= keys[u].expiresAt { tribe := keys[u].tribe; }
      keys := keys[u := Beat(tribe, now + ttl)];
      users := users + {u};
      if tribe.Some? {
        var t := tribe.value;
        tribes := tribes[t := (if t in tribes then tribes[t] else {}) + {u}];
      }
      clock := now;
      assert State() == HeartbeatStep(r, u, now, ttl, membership);
    }

    // pruneSet: checks every member against its TTL key, keeping the live ones (of the expected
    // tribe, when one is given).
    method PruneSet(members: set<UserId>, expected: Option<TribeId>, now: int) returns (live: seq<UserId>, ghosts: set<UserId>)
      ensures forall u :: u in live <==> u in members && Live(State(), u, now)
                                         && (expected.Some? ==> keys[u].tribe == expected)
      ensures forall i, j :: 0 <= i < j < |live| ==> live[i] != live[j]
      ensures ghosts == members - set u | u in live
    {
      live, ghosts := [], {};
      var rest := members;
      while rest != {}
        invariant rest <= members
        invariant forall u :: u in live <==> u in members - rest && Live(State(), u, now)
                                             && (expected.Some? ==> keys[u].tribe == expected)
        invariant forall i, j :: 0 <= i < j < |live| ==> live[i] != live[j]
        invariant ghosts == (members - rest) - set u | u in live
        decreases rest
      {
        var u :| u in rest;
        rest := rest - {u};
        if u !in keys || now > keys[u].expiresAt || (expected.Some? && keys[u].tribe != expected) {
          ghosts := ghosts + {u};
        } else {
          live := live + [u];
        }
      }
    }

    method OnlineCount(now: int) returns (n: int)
      requires Valid() && clock <= now
      modifies this
      ensures Valid() && clock == now && State() == PruneUsersStep(old(State()), now)
      ensures n == |set u | u in keys && Live(State(), u, now)|
    {
      ghost var r := State();
      TickKeepsIndex(r, clock, now);
      StepKeepsIndex(r, ttl, CountOnline(now));
      var live, ghosts := PruneSet(users, None, now);
      users := users - ghosts;
      clock := now;
      assert State() == PruneUsersStep(r, now);
      assert users == set u | u in keys && Live(State(), u, now);
      DistinctCount(live, users);
      n := |live|;
    }

    method OnlineMembers(t: TribeId, now: int) returns (live: seq<UserId>)
      requires Valid() && clock <= now
      modifies this
      ensures Valid() && clock == now && State() == PruneTribeStep(old(State()), t, now)
      ensures forall u :: u in live <==> LiveIn(State(), u, t, now)
      ensures forall i, j :: 0 <= i < j < |live| ==> live[i] != live[j]
    {
      ghost var r := State();
      TickKeepsIndex(r, clock, now);
      StepKeepsIndex(r, ttl, ListTribe(t, now));
      var members := if t in tribes then tribes[t] else {};
      var ghosts;
      live, ghosts := PruneSet(members, Some(t), now);
      tribes := tribes[t := members - ghosts];
      clock := now;
      assert members - ghosts == set u | u in TribeSet(r, t) && LiveIn(r, u, t, now);
      assert State() == PruneTribeStep(r, t, now);
    }

    method ClearUser(u: UserId, now: int)
      requires Valid() && clock <= now
      modifies this
      ensures Valid() && clock == now && State() == ClearStep(old(State()), u, now)
      ensures u !in keys && u !in users && forall t :: LiveIn(old(State()), u, t, now) ==> u !in TribeSet(State(), t)
      ensures forall v :: v != u ==> (v in users <==> v in old(users))
      ensures forall v :: v != u && v in old(keys) ==> v in keys && keys[v] == old(keys)[v]
      ensures forall t, v :: v != u ==> (v in TribeSet(State(), t) <==> v in TribeSet(old(State()), t))
    {
      ghost var r := State();
      TickKeepsIndex(r, clock, now);
      StepKeepsIndex(r, ttl, Clear(u, now));
      if u in keys && now <= keys[u].expiresAt && keys[u].tribe.Some? {
        var t := keys[u].tribe.value;
        tribes := tribes[t := (if t in tribes then tribes[t] else {}) - {u}];
      }
      keys := keys - {u};
      users := users - {u};
      clock := now;
      assert State() == ClearStep(r, u, now);
    }
  }

  lemma {:induction false} DistinctCount(xs: seq<UserId>, s: set<UserId>)
    requires forall i, j :: 0 <= i < j < |xs| ==> xs[i] != xs[j]
    requires forall u :: u in xs <==> u in s
    ensures |xs| == |s|
    decreases |xs|
  {
    if xs == [] {
      assert s == {};
    } else {
      var x := xs[|xs| - 1];
      assert forall u :: u in xs[..|xs| - 1] <==> u in s && u != x;
      DistinctCount(xs[..|xs| - 1], s - {x});
    }
  }
}
