/** backend/internal/engagement/streak.go: the daily support streak, updated one spend at a
    time, and what it says about the days a user was active. */
module Streak {
  import opened Prelude

  datatype StreakState = StreakState(current: int, longest: int, last: Option<int>)

  const Zero := StreakState(0, 0, None)

  const MS_PER_DAY := 86_400_000
  const ISTANBUL_OFFSET := 10_800_000

  // Istanbul calendar day of a millisecond stamp, with the fixed +3h zone the code falls back to.
  function CalendarDay(at: int): int {
    (at + ISTANBUL_OFFSET) / MS_PER_DAY
  }

  // The day runs from midnight in Istanbul, 21:00 UTC of the day before, for 24 hours.
  lemma CalendarDayBounds(at: int)
    ensures CalendarDay(at) * 86_400_000 - 10_800_000 <= at < CalendarDay(at) * 86_400_000 + 75_600_000
  {
  }

  function NextStreak(prev: StreakState, today: int): StreakState {
    if prev.last == Some(today) then prev
    else
      var current := if prev.last == Some(today - 1) then prev.current + 1 else 1;
      StreakState(current, if current > prev.longest then current else prev.longest, Some(today))
  }

  function Fold(days: seq<int>): StreakState {
    if days == [] then Zero else NextStreak(Fold(days[..|days| - 1]), days[|days| - 1])
  }

  // ---------------------------------------------------------------- what a streak is

  // The len days from start on are all active days.
  predicate Unbroken(days: seq<int>, start: int, len: int) {
    forall d :: start <= d < start + len ==> d in days
  }

  ghost predicate IsCurrentStreak(days: seq<int>, len: int)
    requires days != []
  {
    var today := days[|days| - 1];
    len >= 1 && Unbroken(days, today - len + 1, len) && today - len !in days
  }

  ghost predicate IsLongestStreak(days: seq<int>, len: int) {
    && (exists start :: Unbroken(days, start, len))
    && (forall start, k :: k > len ==> !Unbroken(days, start, k))
  }

  predicate NonDecreasing(days: seq<int>) {
    forall i, j :: 0 <= i < j < |days| ==> days[i] <= days[j]
  }

  ghost predicate Measures(s: StreakState, days: seq<int>)
    requires days != []
  {
    && s.last == Some(days[|days| - 1])
    && IsCurrentStreak(days, s.current)
    && IsLongestStreak(days, s.longest)
  }

  // Folding the one-step update over the days of a user's spends gives the length of the run of
  // consecutive days that ends at the last one, and the length of the longest such run.
  lemma {:induction false} FoldMeasuresStreaks(days: seq<int>)
    requires days != [] && NonDecreasing(days)
    ensures Measures(Fold(days), days)
    decreases |days|
  {
    if |days| == 1 {
      FirstDayMeasures(days);
    } else {
      var p, today := days[..|days| - 1], days[|days| - 1];
      FoldMeasuresStreaks(p);
      LatestIsMax(days);
      LatestIsMax(p);
      assert p[|p| - 1] in days;
      NextMeasures(Fold(p), p, today);
      assert days == p + [today];
    }
  }

  lemma FirstDayMeasures(days: seq<int>)
    requires |days| == 1
    ensures Measures(NextStreak(Zero, days[0]), days)
    ensures Fold(days) == NextStreak(Zero, days[0])
  {
    assert days[..0] == [];
    assert Fold([]) == Zero;
    assert Unbroken(days, days[0], 1);
    OneDayRuns(days);
  }

  lemma LatestIsMax(days: seq<int>)
    requires days != [] && NonDecreasing(days)
    ensures forall d :: d in days ==> d <= days[|days| - 1]
  {
    forall d | d in days ensures d <= days[|days| - 1] {
      var i :| 0 <= i < |days| && days[i] == d;
    }
  }

  lemma NextMeasures(s: StreakState, p: seq<int>, today: int)
    requires p != [] && Measures(s, p) && p[|p| - 1] <= today
    requires forall d :: d in p ==> d <= p[|p| - 1]
    ensures Measures(NextStreak(s, today), p + [today])
  {
    if p[|p| - 1] == today {
      SameDaysSameRuns(p, p + [today], s.current, s.longest);
    } else {
      NewDayRuns(p, today, s.current, s.longest);
    }
  }

  lemma OneDayRuns(days: seq<int>)
    requires |days| == 1
    ensures forall start, k :: k > 1 ==> !Unbroken(days, start, k)
  {
    forall start, k | k > 1 ensures !Unbroken(days, start, k) {
      assert start !in days || start + 1 !in days;
    }
  }

  lemma SameDaysSameRuns(p: seq<int>, days: seq<int>, current: int, longest: int)
    requires p != [] && days == p + [p[|p| - 1]]
    requires IsCurrentStreak(p, current) && IsLongestStreak(p, longest)
    ensures IsCurrentStreak(days, current) && IsLongestStreak(days, longest)
  {
    assert forall d :: d in p <==> d in days;
    assert forall start, k :: Unbroken(p, start, k) <==> Unbroken(days, start, k);
  }

  // A new latest day either extends the current run or starts one; a run of the longer list
  // that misses the new day was there before, and one that has it ends with it.
  lemma NewDayRuns(p: seq<int>, today: int, current: int, longest: int)
    requires p != [] && p[|p| - 1] < today && forall d :: d in p ==> d <= p[|p| - 1]
    requires IsCurrentStreak(p, current) && IsLongestStreak(p, longest)
    ensures
      var c := if p[|p| - 1] == today - 1 then current + 1 else 1;
      && IsCurrentStreak(p + [today], c)
      && IsLongestStreak(p + [today], if c > longest then c else longest)
  {
    var days := p + [today];
    var c := if p[|p| - 1] == today - 1 then current + 1 else 1;
    var best := if c > longest then c else longest;
    assert Unbroken(days, today - c + 1, c);
    assert today - c !in days;
    var s :| Unbroken(p, s, longest);
    assert Unbroken(days, s, longest);
    forall start, k | k > best ensures !Unbroken(days, start, k) {
      var end := start + k - 1;
      if end > today {
        assert end !in days;
      } else if end == today {
        assert start <= today - c < start + k;
      } else {
        assert !Unbroken(p, start, k);
        var d :| start <= d < start + k && d !in p;
        assert d !in days;
      }
    }
  }

  class StreakStore {
    var rows: map<UserId, StreakState>

    constructor ()
      ensures rows == map[]
    {
      rows := map[];
    }

    function RowOf(u: UserId): StreakState
      reads this
    {
      if u in rows then rows[u] else Zero
    }

    method UpsertOnSupport(u: UserId, now: int) returns (prev: StreakState, next: StreakState)
      modifies this
      ensures prev == old(RowOf(u)) && next == NextStreak(prev, CalendarDay(now))
      ensures rows == old(rows)[u := next]
    {
      prev := RowOf(u);
      next := NextStreak(prev, CalendarDay(now));
      rows := rows[u := next];
    }

    method Rollback(rows0: map<UserId, StreakState>)
      modifies this
      ensures rows == rows0
    {
      rows := rows0;
    }
  }
}
