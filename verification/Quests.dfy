/** backend/internal/progression: quest progress, one event at a time. ApplyEvent writes into
    the province map its caller still holds, so the map is an object here. */
module Quests {
  import opened Prelude

  datatype CriteriaType = SupportCount | DerbySupport | StreakQuest | UnknownType

  datatype Criteria = Criteria(kind: CriteriaType, target: int, byProvince: bool)

  datatype EventKind = SupportApplied | StreakUpdated | OtherEvent

  datatype QuestEvent = QuestEvent(kind: EventKind, ilCode: string, derbySet: bool, currentStreak: int)

  // criteriaMatchesEvent, the engine's filter
  predicate Matches(c: Criteria, ev: QuestEvent) {
    match c.kind
    case SupportCount => ev.kind == SupportApplied
    case DerbySupport => ev.kind == SupportApplied
    case StreakQuest => ev.kind == StreakUpdated
    case UnknownType => false
  }

  // ---------------------------------------------------------------- ApplyEvent

  // The Go map behind ProgressState.Provinces: copying the struct shares it.
  class ProvinceMap {
    var keys: set<string>

    constructor (keys: set<string>)
      ensures this.keys == keys
    {
      this.keys := keys;
    }
  }

  datatype ProgressState = ProgressState(progress: int, provinces: ProvinceMap)

  // The value ApplyEvent computes, without the sharing.
  datatype Progress = Progress(count: int, cities: set<string>)

  function Advance(c: Criteria, p: Progress, ev: QuestEvent): Progress {
    match c.kind
    case SupportCount =>
      if ev.kind != SupportApplied then p
      else if !c.byProvince then p.(count := p.count + 1)
      else if ev.ilCode == "" || ev.ilCode in p.cities then p
      else Progress(|p.cities + {ev.ilCode}|, p.cities + {ev.ilCode})
    case DerbySupport =>
      if ev.kind != SupportApplied || !ev.derbySet then p else p.(count := p.count + 1)
    case StreakQuest =>
      if ev.kind != StreakUpdated || ev.currentStreak <= p.count then p else p.(count := ev.currentStreak)
    case UnknownType => p
  }

  // The second result is only ever raised by an event that reached the end of its case.
  function Reached(c: Criteria, p: Progress, ev: QuestEvent): bool {
    Matches(c, ev)
    && (c.kind == SupportCount && c.byProvince ==> ev.ilCode != "" && ev.ilCode !in p.cities)
    && (c.kind == DerbySupport ==> ev.derbySet)
    && Advance(c, p, ev).count >= c.target
  }

  method ApplyEvent(c: Criteria, state: ProgressState, ev: QuestEvent) returns (out: ProgressState, complete: bool)
    modifies state.provinces
    ensures out.provinces == state.provinces
    ensures Progress(out.progress, out.provinces.keys) ==
            Advance(c, Progress(state.progress, old(state.provinces.keys)), ev)
    ensures complete == Reached(c, Progress(state.progress, old(state.provinces.keys)), ev)
  {
    out := state;
    match c.kind {
      case SupportCount =>
        if ev.kind != SupportApplied { return out, false; }
        if c.byProvince {
          if ev.ilCode == "" { return out, false; }
          if ev.ilCode in out.provinces.keys { return out, false; }
          out.provinces.keys := out.provinces.keys + {ev.ilCode};
          out := out.(progress := |out.provinces.keys|);
        } else {
          out := out.(progress := out.progress + 1);
        }
      case DerbySupport =>
        if ev.kind != SupportApplied || !ev.derbySet { return out, false; }
        out := out.(progress := out.progress + 1);
      case StreakQuest =>
        if ev.kind != StreakUpdated { return out, false; }
        if ev.currentStreak > out.progress { out := out.(progress := ev.currentStreak); }
      case UnknownType =>
        return out, false;
    }
    complete := out.progress >= c.target;
  }

  // ---------------------------------------------------------------- progress_meta

  method MetaFromProvinces(provinces: set<string>) returns (list: seq<string>)
    ensures forall p :: p in list <==> p in provinces
    ensures |list| == |provinces|
  {
    list := [];
    var rest := provinces;
    while rest != {}
      invariant rest <= provinces
      invariant forall p :: p in list <==> p in provinces - rest
      invariant |list| + |rest| == |provinces|
      decreases rest
    {
      var p :| p in rest;
      rest := rest - {p};
      list := list + [p];
    }
  }

  // Reading meta back drops empty codes: the round trip is exact on sets without one.
  method ProvincesFromMeta(list: seq<string>) returns (provinces: set<string>)
    ensures forall p :: p in provinces <==> p in list && p != ""
  {
    provinces := {};
    for i := 0 to |list|
      invariant forall p :: p in provinces <==> p in list[..i] && p != ""
    {
      if list[i] != "" { provinces := provinces + {list[i]}; }
    }
  }

  method SameProvinceSet(a: ProvinceMap, b: ProvinceMap) returns (same: bool)
    ensures same <==> a.keys == b.keys
  {
    same := |a.keys| == |b.keys|;
    var rest := a.keys;
    while same && rest != {}
      invariant rest <= a.keys
      invariant same ==> |a.keys| == |b.keys| && a.keys - rest <= b.keys
      invariant !same ==> a.keys != b.keys
      decreases rest
    {
      var k :| k in rest;
      rest := rest - {k};
      if k !in b.keys { same := false; }
    }
    if same { SubsetOfSameSize(a.keys, b.keys); }
  }

  lemma {:induction false} SubsetOfSameSize(a: set<string>, b: set<string>)
    requires a <= b && |a| == |b|
    ensures a == b
  {
    if x :| x in b && x !in a {
      SubsetIsSmaller(a, b - {x});
    }
  }

  lemma {:induction false} SubsetIsSmaller(a: set<string>, b: set<string>)
    requires a <= b
    ensures |a| <= |b|
    decreases a
  {
    if x :| x in a {
      SubsetIsSmaller(a - {x}, b - {x});
    }
  }

  // ---------------------------------------------------------------- the stored row

  datatype Row = Row(progress: int, provinces: set<string>, completed: bool)

  const Fresh := Row(0, {}, false)

  // One applyOneQuest transaction on one user's row for one quest and period.
  function StepRow(c: Criteria, row: Row, ev: QuestEvent): Row {
    var p := Progress(row.progress, row.provinces);
    var p' := Advance(c, p, ev);
    if row.completed || (p'.count == row.progress && !(Reached(c, p, ev) && row.progress < c.target)) then row
    else Row(p'.count, if c.kind == SupportCount && c.byProvince then p'.cities else row.provinces, Reached(c, p, ev))
  }

  // The reward goes out with the step that completes the quest.
  function Rewards(c: Criteria, row: Row, ev: QuestEvent): (n: nat)
    ensures n <= 1
  {
    if !row.completed && Reached(c, Progress(row.progress, row.provinces), ev) && row.progress < c.target then 1 else 0
  }

  function Fold(c: Criteria, evs: seq<QuestEvent>): Row {
    if evs == [] then Fresh else StepRow(c, Fold(c, evs[..|evs| - 1]), evs[|evs| - 1])
  }

  function RewardsOver(c: Criteria, evs: seq<QuestEvent>): nat {
    if evs == [] then 0
    else RewardsOver(c, evs[..|evs| - 1]) + Rewards(c, Fold(c, evs[..|evs| - 1]), evs[|evs| - 1])
  }

  // ---------------------------------------------------------------- what the row means

  predicate Counts(c: Criteria, ev: QuestEvent) {
    Matches(c, ev) && (c.kind == DerbySupport ==> ev.derbySet)
  }

  function Qualifying(c: Criteria, evs: seq<QuestEvent>): nat {
    if evs == [] then 0
    else Qualifying(c, evs[..|evs| - 1]) + if Counts(c, evs[|evs| - 1]) then 1 else 0
  }

  function Cities(evs: seq<QuestEvent>): set<string> {
    if evs == [] then {}
    else
      var ev := evs[|evs| - 1];
      Cities(evs[..|evs| - 1]) + if ev.kind == SupportApplied && ev.ilCode != "" then {ev.ilCode} else {}
  }

  function MinInt(a: int, b: int): int { if a <= b then a else b }

  // A count quest stores min(target, qualifying events), is completed exactly at its target, and
  // is rewarded once, by then.
  lemma {:induction false} CountQuestMeaning(c: Criteria, evs: seq<QuestEvent>)
    requires c.target > 0 && (c.kind == DerbySupport || (c.kind == SupportCount && !c.byProvince))
    ensures
      var row := Fold(c, evs);
      && row.progress == MinInt(c.target, Qualifying(c, evs))
      && (row.completed <==> row.progress == c.target)
      && RewardsOver(c, evs) == if row.completed then 1 else 0
    decreases |evs|
  {
    if evs != [] { CountQuestMeaning(c, evs[..|evs| - 1]); }
  }

  // A province quest stores min(target, distinct cities), which is the size of its stored set;
  // until it completes that set is exactly the cities seen.
  lemma {:induction false} ProvinceQuestMeaning(c: Criteria, evs: seq<QuestEvent>)
    requires c.target > 0 && c.kind == SupportCount && c.byProvince
    ensures
      var row := Fold(c, evs);
      && row.progress == |row.provinces| == MinInt(c.target, |Cities(evs)|)
      && row.provinces <= Cities(evs) && "" !in row.provinces
      && (row.completed <==> row.progress == c.target)
      && (!row.completed ==> row.provinces == Cities(evs))
      && RewardsOver(c, evs) == if row.completed then 1 else 0
    decreases |evs|
  {
    if evs != [] {
      var p, ev := evs[..|evs| - 1], evs[|evs| - 1];
      ProvinceQuestMeaning(c, p);
      if ev.kind == SupportApplied && ev.ilCode != "" {
        SetGrows(Cities(p), ev.ilCode);
        SetGrows(Fold(c, p).provinces, ev.ilCode);
      } else {
        assert Cities(evs) == Cities(p);
      }
    }
  }

  lemma SetGrows(s: set<string>, x: string)
    ensures |s + {x}| == |s| + if x in s then 0 else 1
  {
    if x in s { assert s + {x} == s; }
  }

  // A streak quest is completed exactly when some streak reached its target; until then it
  // stores the longest streak reported.
  lemma {:induction false} StreakQuestMeaning(c: Criteria, evs: seq<QuestEvent>)
    requires c.target > 0 && c.kind == StreakQuest
    ensures
      var row := Fold(c, evs);
      && (row.completed <==> exists i :: 0 <= i < |evs| && Matches(c, evs[i]) && evs[i].currentStreak >= c.target)
      && (row.completed <==> row.progress >= c.target)
      && (!row.completed ==>
            && (forall i :: 0 <= i < |evs| && Matches(c, evs[i]) ==> evs[i].currentStreak <= row.progress)
            && (row.progress == 0
                || exists i :: 0 <= i < |evs| && Matches(c, evs[i]) && evs[i].currentStreak == row.progress))
      && RewardsOver(c, evs) == if row.completed then 1 else 0
    decreases |evs|
  {
    if evs != [] {
      var n := |evs| - 1;
      var p := evs[..n];
      StreakQuestMeaning(c, p);
      forall i | 0 <= i < n ensures p[i] == evs[i] {}
      assert evs[n].kind == StreakUpdated <==> Matches(c, evs[n]);
    }
  }

  // ---------------------------------------------------------------- the engine

  datatype Key = Key(user: UserId, template: nat, period: string)

  datatype Stored = Stored(progress: int, meta: seq<string>, completed: bool)

  datatype Award = Award(key: Key, xp: int)

  // quest_templates, those that are active
  datatype Template = Template(criteria: Criteria, xp: int)

  function AwardsFor(awards: seq<Award>, k: Key): nat {
    if awards == [] then 0
    else AwardsFor(awards[..|awards| - 1], k) + if awards[|awards| - 1].key == k then 1 else 0
  }

  lemma AwardsForAppend(awards: seq<Award>, a: Award, k: Key)
    ensures AwardsFor(awards + [a], k) == AwardsFor(awards, k) + if a.key == k then 1 else 0
  {
    assert (awards + [a])[..|awards|] == awards;
  }

  lemma AdvanceAddsNoBlank(c: Criteria, p: Progress, ev: QuestEvent)
    ensures "" in Advance(c, p, ev).cities ==> "" in p.cities
  {
  }

  lemma FoldAppend(c: Criteria, evs: seq<QuestEvent>, ev: QuestEvent)
    ensures Fold(c, evs + [ev]) == StepRow(c, Fold(c, evs), ev)
    ensures RewardsOver(c, evs + [ev]) == RewardsOver(c, evs) + Rewards(c, Fold(c, evs), ev)
  {
    assert (evs + [ev])[..|evs|] == evs;
  }

  class Engine {
    const templates: seq<Template>
    var rows: map<Key, Stored>   // user_quest_progress
    var awards: seq<Award>       // XP handed out for quests

    ghost var seen: map<Key, seq<QuestEvent>>   // the events applied to each row

    constructor (templates: seq<Template>)
      ensures Valid() && this.templates == templates && rows == map[] && awards == [] && seen == map[]
    {
      this.templates := templates;
      rows, awards, seen := map[], [], map[];
    }

    // The stored row, with progress_meta read as the set it stands for.
    function RowOf(k: Key): Row
      reads this`rows
    {
      if k in rows then Row(rows[k].progress, (set p | p in rows[k].meta && p != ""), rows[k].completed) else Fresh
    }

    ghost function Seen(k: Key): seq<QuestEvent>
      reads this`seen
    {
      if k in seen then seen[k] else []
    }

    // The row is the fold of the events applied to it, and was rewarded as often as that fold says.
    ghost predicate Faithful(k: Key)
      reads this
    {
      if k.template >= |templates| then AwardsFor(awards, k) == 0
      else
        var t := templates[k.template];
        && RowOf(k) == Fold(t.criteria, Seen(k))
        && AwardsFor(awards, k) == if t.xp > 0 then RewardsOver(t.criteria, Seen(k)) else 0
    }

    ghost predicate Valid()
      reads this
    {
      forall k: Key :: Faithful(k)
    }

    method ApplyOneQuest(k: Key, ev: QuestEvent)
      requires Valid() && k.template < |templates|
      modifies this
      ensures Valid() && seen == old(seen)[k := old(Seen(k)) + [ev]]
      ensures RowOf(k) == StepRow(templates[k.template].criteria, old(RowOf(k)), ev)
      ensures forall j :: j != k ==> RowOf(j) == old(RowOf(j))
      ensures
        var t := templates[k.template];
        awards == old(awards)
                  + if Rewards(t.criteria, old(RowOf(k)), ev) == 1 && t.xp > 0 then [Award(k, t.xp)] else []
    {
      hide Fold, StepRow, RewardsOver, Rewards, AwardsFor, RowOf;
      var t := templates[k.template];
      assert Faithful(k);
      FoldAppend(t.criteria, Seen(k), ev);
      Update(k, t.criteria, t.xp, ev);
      if awards != old(awards) {
        forall j ensures AwardsFor(awards, j) == AwardsFor(old(awards), j) + if j == k then 1 else 0 {
          AwardsForAppend(old(awards), Award(k, t.xp), j);
        }
      }
      seen := seen[k := Seen(k) + [ev]];
      forall j: Key ensures Faithful(j) {
        assert old(Faithful(j));
      }
    }

    // One event of one user, for every active quest it is about; `periods` gives the current
    // period of each.
    method ApplyQuests(user: UserId, ev: QuestEvent, periods: seq<string>)
      requires Valid() && |periods| == |templates|
      modifies this
      ensures Valid()
      ensures forall k: Key :: Seen(k) == old(Seen(k)) + Told(k, user, ev, periods, |templates|)
    {
      hide Fold, RewardsOver, AwardsFor, Faithful, StepRow, Rewards, Matches;
      for i := 0 to |templates|
        invariant Valid()
        invariant forall k: Key :: Seen(k) == old(Seen(k)) + Told(k, user, ev, periods, i)
      {
        if !Matches(templates[i].criteria, ev) { continue; }
        ApplyOneQuest(Key(user, i, periods[i]), ev);
      }
    }

    // The event, if among the first n quests it is about the one this row belongs to.
    function Told(k: Key, user: UserId, ev: QuestEvent, periods: seq<string>, n: nat): seq<QuestEvent>
      requires n <= |templates| == |periods|
    {
      if k.user == user && k.template < n && k.period == periods[k.template]
         && Matches(templates[k.template].criteria, ev)
      then [ev] else []
    }

    // The transaction on one row, and the reward after it.
    method Update(k: Key, c: Criteria, xpReward: int, ev: QuestEvent)
      modifies this`rows, this`awards
      ensures RowOf(k) == StepRow(c, old(RowOf(k)), ev)
      ensures forall j :: j != k ==> RowOf(j) == old(RowOf(j))
      ensures awards == old(awards) + if Rewards(c, old(RowOf(k)), ev) == 1 && xpReward > 0 then [Award(k, xpReward)] else []
    {
      hide Advance, Reached, Matches;
      ghost var row0 := RowOf(k);
      AdvanceAddsNoBlank(c, Progress(row0.progress, row0.provinces), ev);
      if k !in rows {
        rows := rows[k := Stored(0, [], false)];
      }
      var stored := rows[k];
      if stored.completed { return; }

      var read := ProvincesFromMeta(stored.meta);
      assert read == row0.provinces;
      var provinces := new ProvinceMap(read);
      var state := ProgressState(stored.progress, provinces);
      var next, complete := ApplyEvent(c, state, ev);

      var wasComplete := stored.progress >= c.target;
      var progressChanged := next.progress != stored.progress;
      // both sides are the one map ApplyEvent wrote into, so this never sees a change
      var same := SameProvinceSet(state.provinces, next.provinces);
      if !progressChanged && same && !(complete && !wasComplete) { return; }

      var meta := stored.meta;
      if c.kind == SupportCount && c.byProvince {
        meta := MetaFromProvinces(next.provinces.keys);
      }
      rows := rows[k := Stored(next.progress, meta, complete)];
      assert RowOf(k).provinces == StepRow(c, row0, ev).provinces;
      if complete && !wasComplete && xpReward > 0 {
        awards := awards + [Award(k, xpReward)];
      }
    }
  }

  // What any run of events leaves in the tables, quest by quest.
  lemma StoredProgressMeans(e: Engine, k: Key)
    requires e.Valid() && k.template < |e.templates| && e.templates[k.template].criteria.target > 0
    ensures
      var c, row := e.templates[k.template].criteria, e.RowOf(k);
      && ((c.kind == DerbySupport || (c.kind == SupportCount && !c.byProvince)) ==> row.progress == MinInt(c.target, Qualifying(c, e.Seen(k))))
      && ((c.kind == SupportCount && c.byProvince) ==> row.progress == |row.provinces| == MinInt(c.target, |Cities(e.Seen(k))|))
      && (c.kind != UnknownType ==>
            && (row.completed <==> row.progress >= c.target)
            && AwardsFor(e.awards, k) == if row.completed && e.templates[k.template].xp > 0 then 1 else 0)
  {
    var c := e.templates[k.template].criteria;
    assert e.Faithful(k);
    if c.kind == DerbySupport || (c.kind == SupportCount && !c.byProvince) { CountQuestMeaning(c, e.Seen(k)); }
    if c.kind == SupportCount && c.byProvince { ProvinceQuestMeaning(c, e.Seen(k)); }
    if c.kind == StreakQuest { StreakQuestMeaning(c, e.Seen(k)); }
  }
}
