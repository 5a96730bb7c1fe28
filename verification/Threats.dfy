/** backend/internal/conquest/threats.go and ContestTension of momentum.go: after a spend, the
    scores before it are reconstructed, both are ranked, and the holder is warned about alert
    levels the contest has newly reached. */
module Threats {
  import opened Prelude
  import opened SpendHistory

  datatype TribeScore = TribeScore(tribe: TribeId, sum: real)

  // ---------------------------------------------------------------- tension and levels

  function ContestTension(first: real, second: real): (t: real)
    ensures 0.0 <= t <= 1.0
  {
    if first <= 0.0 || second <= 0.0 then 0.0
    else if second / first > 1.0 then 1.0 else second / first
  }

  // The challenger's share of what the leader has, at most all of it.
  lemma TensionIsShare(first: real, second: real)
    ensures 0.0 < second <= first ==> ContestTension(first, second) * first == second
    ensures second > first > 0.0 ==> ContestTension(first, second) == 1.0
    ensures first <= 0.0 || second <= 0.0 ==> ContestTension(first, second) == 0.0
  {
    if first > 0.0 && second > 0.0 {
      var t := second / first;
      assert t * first == second;
      if t > 1.0 { ScaleByMore(t, first); } else if second > first { ScaleByLess(t, first); }
    }
  }

  lemma ScaleByMore(t: real, x: real)
    requires t > 1.0 && x > 0.0
    ensures t * x > x
  {
  }

  lemma ScaleByLess(t: real, x: real)
    requires t <= 1.0 && x > 0.0
    ensures t * x <= x
  {
  }

  // Reaching a level is reaching that share of the leader's support.
  lemma ReachesIff(first: real, second: real, th: real)
    requires first > 0.0 && 0.0 <= second <= first && th > 0.0
    ensures ContestTension(first, second) >= th <==> second >= th * first
  {
    TensionIsShare(first, second);
    var t := ContestTension(first, second);
    assert t * first == second;
    if t >= th { ScaleMore(th, t, first); } else { Scale(t, th, first); }
  }

  lemma ScaleMore(a: real, b: real, c: real)
    requires a <= b && c > 0.0
    ensures a * c <= b * c
  {
  }

  predicate Crosses(pre: real, post: real, th: real) {
    th > 0.0 && pre < th <= post
  }

  function Crossings(pre: real, post: real, thresholds: seq<real>): seq<real> {
    if thresholds == [] then []
    else
      var rest := Crossings(pre, post, thresholds[..|thresholds| - 1]);
      var th := thresholds[|thresholds| - 1];
      if Crosses(pre, post, th) then rest + [th] else rest
  }

  method TensionLevelCrossings(pre: real, post: real, thresholds: seq<real>) returns (out: seq<real>)
    ensures out == Crossings(pre, post, thresholds)
  {
    if post <= pre {
      NoCrossingDownwards(pre, post, thresholds);
      return [];
    }
    out := [];
    for i := 0 to |thresholds|
      invariant out == Crossings(pre, post, thresholds[..i])
    {
      assert thresholds[..i + 1][..i] == thresholds[..i];
      var th := thresholds[i];
      if th <= 0.0 { continue; }
      if pre < th && post >= th { out := out + [th]; }
    }
    assert thresholds[..|thresholds|] == thresholds;
  }

  lemma {:induction false} NoCrossingDownwards(pre: real, post: real, thresholds: seq<real>)
    requires post <= pre
    ensures Crossings(pre, post, thresholds) == []
    decreases |thresholds|
  {
    if thresholds != [] { NoCrossingDownwards(pre, post, thresholds[..|thresholds| - 1]); }
  }

  lemma {:induction false} CrossingsAreThresholds(pre: real, post: real, thresholds: seq<real>)
    ensures forall i :: 0 <= i < |Crossings(pre, post, thresholds)| ==> Crossings(pre, post, thresholds)[i] in thresholds
    decreases |thresholds|
  {
    if thresholds != [] { CrossingsAreThresholds(pre, post, thresholds[..|thresholds| - 1]); }
  }

  // How often a level is reported: as often as it is configured if the move newly meets it, else never.
  lemma {:induction false} CrossingsCount(pre: real, post: real, thresholds: seq<real>, th: real)
    ensures multiset(Crossings(pre, post, thresholds))[th]
            == if Crosses(pre, post, th) then multiset(thresholds)[th] else 0
    decreases |thresholds|
  {
    if thresholds != [] {
      var n := |thresholds| - 1;
      CrossingsCount(pre, post, thresholds[..n], th);
      assert thresholds == thresholds[..n] + [thresholds[n]];
    }
  }

  // Two upward moves cross, between them, what the whole move crosses.
  lemma {:induction false} CrossingsCompose(a: real, b: real, c: real, thresholds: seq<real>)
    requires a <= b <= c
    ensures multiset(Crossings(a, b, thresholds)) + multiset(Crossings(b, c, thresholds))
            == multiset(Crossings(a, c, thresholds))
    decreases |thresholds|
  {
    if thresholds != [] { CrossingsCompose(a, b, c, thresholds[..|thresholds| - 1]); }
  }

  // The crossings of each step of a tension sequence, one after the other.
  function StepCrossings(tensions: seq<real>, thresholds: seq<real>): seq<real> {
    if |tensions| < 2 then []
    else
      var n := |tensions| - 1;
      StepCrossings(tensions[..n], thresholds) + Crossings(tensions[n - 1], tensions[n], thresholds)
  }

  // While tension only rises, step by step every threshold in (first, last] is crossed exactly
  // once, and no other is.
  lemma EachLevelOnce(tensions: seq<real>, thresholds: seq<real>, th: real)
    requires tensions != [] && forall i, j :: 0 <= i <= j < |tensions| ==> tensions[i] <= tensions[j]
    ensures multiset(StepCrossings(tensions, thresholds))[th]
            == if Crosses(tensions[0], tensions[|tensions| - 1], th) then multiset(thresholds)[th] else 0
  {
    StepsCrossTheWhole(tensions, thresholds);
    CrossingsCount(tensions[0], tensions[|tensions| - 1], thresholds, th);
  }

  lemma {:induction false} StepsCrossTheWhole(tensions: seq<real>, thresholds: seq<real>)
    requires tensions != [] && forall i, j :: 0 <= i <= j < |tensions| ==> tensions[i] <= tensions[j]
    ensures multiset(StepCrossings(tensions, thresholds))
            == multiset(Crossings(tensions[0], tensions[|tensions| - 1], thresholds))
    decreases |tensions|
  {
    var n := |tensions| - 1;
    if n == 0 {
      NoCrossingDownwards(tensions[0], tensions[0], thresholds);
    } else {
      StepsCrossTheWhole(tensions[..n], thresholds);
      CrossingsCompose(tensions[0], tensions[n - 1], tensions[n], thresholds);
    }
  }

  // ---------------------------------------------------------------- ranking

  predicate Before(a: TribeScore, b: TribeScore) {
    Ahead(a.sum, a.tribe, b.sum, b.tribe)
  }

  predicate Sorted(r: seq<TribeScore>) {
    forall i, j :: 0 <= i < j < |r| ==> Before(r[i], r[j])
  }

  predicate DistinctTribes(scores: seq<TribeScore>) {
    forall i, j :: 0 <= i < j < |scores| ==> scores[i].tribe != scores[j].tribe
  }

  // The tribes with support, best first.
  ghost predicate IsRanking(r: seq<TribeScore>, scores: seq<TribeScore>) {
    Sorted(r) && forall s :: s in r <==> s in scores && s.sum > 0.0
  }

  method Insert(r: seq<TribeScore>, s: TribeScore) returns (out: seq<TribeScore>)
    requires Sorted(r) && forall x :: x in r ==> x.tribe != s.tribe
    ensures Sorted(out) && forall x :: x in out <==> x in r || x == s
  {
    var i := 0;
    while i < |r| && Before(r[i], s)
      invariant 0 <= i <= |r|
      invariant forall k :: 0 <= k < i ==> Before(r[k], s)
    {
      i := i + 1;
    }
    out := r[..i] + [s] + r[i..];
    Inserted(r, s, i);
  }

  lemma Inserted(r: seq<TribeScore>, s: TribeScore, i: nat)
    requires Sorted(r) && i <= |r| && forall x :: x in r ==> x.tribe != s.tribe
    requires (forall k :: 0 <= k < i ==> Before(r[k], s)) && (i < |r| ==> !Before(r[i], s))
    ensures Sorted(r[..i] + [s] + r[i..]) && forall x :: x in r[..i] + [s] + r[i..] <==> x in r || x == s
  {
    var out := r[..i] + [s] + r[i..];
    forall k | i <= k < |r| ensures Before(s, r[k]) {
      assert r[i] in r;
      assert k > i ==> Before(r[i], r[k]);
    }
    forall x, y | 0 <= x < y < |out| ensures Before(out[x], out[y]) {
      hide Before;
    }
    assert r == r[..i] + r[i..];
  }

  method RankScores(scores: seq<TribeScore>) returns (out: seq<TribeScore>)
    requires DistinctTribes(scores)
    ensures IsRanking(out, scores)
    ensures forall i, j :: 0 <= i < j < |out| ==>
      out[i].sum > out[j].sum || (out[i].sum == out[j].sum && out[i].tribe < out[j].tribe)
  {
    out := [];
    for i := 0 to |scores|
      invariant IsRanking(out, scores[..i])
    {
      assert scores[..i + 1] == scores[..i] + [scores[i]];
      if scores[i].sum > 0.0 {
        forall x | x in out ensures x.tribe != scores[i].tribe {
          assert x in scores[..i];
        }
        out := Insert(out, scores[i]);
      }
    }
    assert scores[..|scores|] == scores;
  }

  // A set of tribes has one ranking.
  lemma {:induction false} RankingIsUnique(r: seq<TribeScore>, q: seq<TribeScore>)
    requires Sorted(r) && Sorted(q) && forall s :: s in r <==> s in q
    ensures r == q
    decreases |r|
  {
    assert q != [] ==> q[0] in r;
    if r != [] {
      assert r[0] in q && q != [];
      assert q[0] in r;
      HeadIsFirst(r, q[0]);
      HeadIsFirst(q, r[0]);
      assert r[0] == q[0];
      TailsAgree(r, q);
      RankingIsUnique(r[1..], q[1..]);
      assert r == [r[0]] + r[1..] && q == [q[0]] + q[1..];
    }
  }

  lemma HeadIsFirst(r: seq<TribeScore>, s: TribeScore)
    requires Sorted(r) && s in r
    ensures s == r[0] || Before(r[0], s)
  {
    var i :| 0 <= i < |r| && r[i] == s;
  }

  lemma TailsAgree(r: seq<TribeScore>, q: seq<TribeScore>)
    requires r != [] && q != [] && Sorted(r) && Sorted(q) && r[0] == q[0] && forall s :: s in r <==> s in q
    ensures forall s :: s in r[1..] <==> s in q[1..]
  {
    forall s ensures s in r[1..] <==> s in r && s != r[0] { TailMember(r, s); }
    forall s ensures s in q[1..] <==> s in q && s != q[0] { TailMember(q, s); }
  }

  lemma TailMember(r: seq<TribeScore>, s: TribeScore)
    requires r != [] && Sorted(r)
    ensures s in r[1..] <==> s in r && s != r[0]
  {
    if s in r[1..] {
      var i :| 0 <= i < |r| - 1 && r[1..][i] == s;
      assert Before(r[0], r[i + 1]);
    }
    if s in r && s != r[0] {
      var i :| 0 <= i < |r| && r[i] == s;
      assert r[1..][i - 1] == s;
    }
  }

  // ---------------------------------------------------------------- the scores before the spend

  function Undone(s: TribeScore, tribe: TribeId, delta: real): TribeScore {
    if s.tribe != tribe then s
    else s.(sum := if s.sum - delta < 0.0 then 0.0 else s.sum - delta)
  }

  method ReconstructPreScores(post: seq<TribeScore>, tribe: TribeId, delta: real) returns (out: seq<TribeScore>)
    requires DistinctTribes(post)
    ensures UndoneFrom(post, out, tribe, delta)
  {
    out := post;
    for i := 0 to |out|
      invariant |out| == |post|
      invariant forall k :: 0 <= k < i ==> out[k] == Undone(post[k], tribe, delta) && post[k].tribe != tribe
      invariant forall k :: i <= k < |post| ==> out[k] == post[k]
    {
      if out[i].tribe == tribe {
        var sum := out[i].sum - delta;
        out := out[i := out[i].(sum := if sum < 0.0 then 0.0 else sum)];
        break;
      }
    }
  }

  ghost predicate UndoneFrom(post: seq<TribeScore>, pre: seq<TribeScore>, tribe: TribeId, delta: real) {
    |pre| == |post| && forall i :: 0 <= i < |post| ==> pre[i] == Undone(post[i], tribe, delta)
  }

  lemma {:induction false} UndoneKeepsTribes(post: seq<TribeScore>, pre: seq<TribeScore>, tribe: TribeId, delta: real)
    requires UndoneFrom(post, pre, tribe, delta) && DistinctTribes(post)
    ensures DistinctTribes(pre)
  {
  }

  // The rows of one city's score table.
  ghost predicate Lists(rows: seq<TribeScore>, table: map<TribeId, real>) {
    && DistinctTribes(rows)
    && (forall i :: 0 <= i < |rows| ==> rows[i].tribe in table && rows[i].sum == table[rows[i].tribe])
    && (forall t :: t in table ==> TribeScore(t, table[t]) in rows)
  }

  function AfterSpend(table: map<TribeId, real>, tribe: TribeId, delta: real): map<TribeId, real> {
    table[tribe := (if tribe in table then table[tribe] else 0.0) + delta]
  }

  ghost predicate RanksTable(r: seq<TribeScore>, table: map<TribeId, real>) {
    Sorted(r) && forall s: TribeScore :: s in r <==> s.tribe in table && s.sum == table[s.tribe] && s.sum > 0.0
  }

  lemma ListedRanking(r: seq<TribeScore>, rows: seq<TribeScore>, table: map<TribeId, real>)
    requires IsRanking(r, rows) && Lists(rows, table)
    ensures RanksTable(r, table)
  {
    forall s: TribeScore ensures s in rows <==> s.tribe in table && s.sum == table[s.tribe] {
      if s in rows {
        var i :| 0 <= i < |rows| && rows[i] == s;
      }
      if s.tribe in table && s.sum == table[s.tribe] {
        assert TribeScore(s.tribe, table[s.tribe]) == s;
      }
    }
  }

  // Taking the spend back out of the scores read after it and ranking what is left gives exactly
  // the ranking there was before the spend, a tribe new to the city included.
  lemma ReconstructionRecoversRanking(table: map<TribeId, real>, tribe: TribeId, delta: real,
                                      post: seq<TribeScore>, pre: seq<TribeScore>, r: seq<TribeScore>)
    requires delta > 0.0 && forall t :: t in table ==> table[t] >= 0.0
    requires Lists(post, AfterSpend(table, tribe, delta))
    requires UndoneFrom(post, pre, tribe, delta) && IsRanking(r, pre)
    ensures RanksTable(r, table)
  {
    forall s: TribeScore | s.sum > 0.0
      ensures s in pre <==> s.tribe in table && s.sum == table[s.tribe]
    {
      if s in pre { UndoneRowIsOld(table, tribe, delta, post, pre, s); }
      if s.tribe in table && s.sum == table[s.tribe] { OldRowIsUndone(table, tribe, delta, post, pre, s); }
    }
  }

  lemma UndoneRowIsOld(table: map<TribeId, real>, tribe: TribeId, delta: real,
                       post: seq<TribeScore>, pre: seq<TribeScore>, s: TribeScore)
    requires delta > 0.0 && Lists(post, AfterSpend(table, tribe, delta)) && UndoneFrom(post, pre, tribe, delta)
    requires s in pre && s.sum > 0.0
    ensures s.tribe in table && s.sum == table[s.tribe]
  {
    var i :| 0 <= i < |pre| && pre[i] == s;
    assert post[i].sum == AfterSpend(table, tribe, delta)[post[i].tribe];
  }

  lemma OldRowIsUndone(table: map<TribeId, real>, tribe: TribeId, delta: real,
                       post: seq<TribeScore>, pre: seq<TribeScore>, s: TribeScore)
    requires delta > 0.0 && Lists(post, AfterSpend(table, tribe, delta)) && UndoneFrom(post, pre, tribe, delta)
    requires s.tribe in table && s.sum == table[s.tribe] && s.sum > 0.0
    ensures s in pre
  {
    var row := TribeScore(s.tribe, AfterSpend(table, tribe, delta)[s.tribe]);
    assert row in post;
    var i :| 0 <= i < |post| && post[i] == row;
    assert pre[i] == s;
  }

  // ---------------------------------------------------------------- which spends alert

  function SecondSum(r: seq<TribeScore>): real { if |r| < 2 then 0.0 else r[1].sum }

  // The decision part of DetectAndEnqueue, on the two rankings.
  function Detected(pre: seq<TribeScore>, post: seq<TribeScore>, thresholds: seq<real>): seq<real> {
    if |post| < 2 || pre == [] || pre[0].tribe != post[0].tribe then []
    else Crossings(ContestTension(pre[0].sum, SecondSum(pre)), ContestTension(post[0].sum, post[1].sum), thresholds)
  }

  ghost predicate PositiveSums(r: seq<TribeScore>) {
    forall i :: 0 <= i < |r| ==> r[i].sum > 0.0
  }

  // Which levels a spend brings about: those whose share of the leader's support the runner-up
  // had not reached before and has reached now, the leader being the same.
  lemma DetectedIff(pre: seq<TribeScore>, post: seq<TribeScore>, thresholds: seq<real>, th: real)
    requires Sorted(pre) && Sorted(post) && PositiveSums(pre) && PositiveSums(post)
    ensures th in Detected(pre, post, thresholds) <==>
      && th in thresholds && th > 0.0
      && pre != [] && |post| >= 2 && pre[0].tribe == post[0].tribe
      && (if |pre| >= 2 then pre[1].sum else 0.0) < th * pre[0].sum
      && post[1].sum >= th * post[0].sum
  {
    if |post| >= 2 && pre != [] && pre[0].tribe == post[0].tribe {
      var before := ContestTension(pre[0].sum, SecondSum(pre));
      var after := ContestTension(post[0].sum, post[1].sum);
      CrossingsCount(before, after, thresholds, th);
      assert th in Crossings(before, after, thresholds) <==> multiset(Crossings(before, after, thresholds))[th] > 0;
      assert th in thresholds <==> multiset(thresholds)[th] > 0;
      assert Before(post[0], post[1]) && (|pre| >= 2 ==> Before(pre[0], pre[1]));
      if th > 0.0 {
        ReachesIff(pre[0].sum, SecondSum(pre), th);
        ReachesIff(post[0].sum, post[1].sum, th);
      }
    }
  }

  // What a table's ranking looks like without its leader.
  lemma TailRanksOthers(r: seq<TribeScore>, table: map<TribeId, real>)
    requires RanksTable(r, table) && r != []
    ensures RanksTable(r[1..], table - {r[0].tribe})
  {
    forall s: TribeScore ensures s in r[1..] <==> s in r && s != r[0] { TailMember(r, s); }
    assert r[0] in r;
  }

  lemma OneRankingPerTable(r: seq<TribeScore>, q: seq<TribeScore>, table: map<TribeId, real>)
    requires RanksTable(r, table) && RanksTable(q, table)
    ensures r == q
  {
    RankingIsUnique(r, q);
  }

  // A spend by the tribe that holds the city never raises an alert, whatever the levels.
  lemma LeaderSpendNeverAlerts(table: map<TribeId, real>, tribe: TribeId, delta: real,
                               pre: seq<TribeScore>, post: seq<TribeScore>, thresholds: seq<real>)
    requires delta > 0.0
    requires RanksTable(pre, table) && RanksTable(post, AfterSpend(table, tribe, delta))
    requires pre != [] && pre[0].tribe == tribe
    ensures Detected(pre, post, thresholds) == []
  {
    if |post| >= 2 && post[0].tribe == tribe {
      assert pre[0] in pre && post[0] in post;
      TailRanksOthers(pre, table);
      TailRanksOthers(post, AfterSpend(table, tribe, delta));
      assert table - {tribe} == AfterSpend(table, tribe, delta) - {tribe};
      OneRankingPerTable(pre[1..], post[1..], table - {tribe});
      assert pre[1..][0] == post[1..][0];
      var y := post[1].sum;
      assert post[1] in post;
      LargerLeadLowersTension(pre[0].sum, post[0].sum, y);
      NoCrossingDownwards(ContestTension(pre[0].sum, y), ContestTension(post[0].sum, y), thresholds);
    }
  }

  lemma LargerLeadLowersTension(x: real, x': real, y: real)
    requires 0.0 < x <= x' && y > 0.0
    ensures ContestTension(x', y) <= ContestTension(x, y)
  {
    var a, b := y / x, y / x';
    assert a * x == y && b * x' == y;
    if b > a {
      assert b * x' > a * x' by { Scale(a, b, x'); }
      assert a * x' >= a * x;
    }
  }

  lemma Scale(a: real, b: real, c: real)
    requires a < b && c > 0.0
    ensures a * c < b * c
  {
  }

  // The tribe that leads the city's scores.
  predicate LeadsTable(table: map<TribeId, real>, tribe: TribeId) {
    && tribe in table && table[tribe] > 0.0
    && forall u | u in table :: u != tribe && table[u] > 0.0 ==> Ahead(table[tribe], tribe, table[u], u)
  }

  lemma LeaderRanksFirst(r: seq<TribeScore>, table: map<TribeId, real>, tribe: TribeId)
    requires RanksTable(r, table) && LeadsTable(table, tribe)
    ensures r != [] && r[0].tribe == tribe
  {
    assert TribeScore(tribe, table[tribe]) in r;
    assert r[0] in r;
    HeadIsFirst(r, TribeScore(tribe, table[tribe]));
  }

  lemma FirstLeads(r: seq<TribeScore>, table: map<TribeId, real>)
    requires RanksTable(r, table) && r != []
    ensures LeadsTable(table, r[0].tribe)
  {
    var tribe := r[0].tribe;
    assert r[0] in r;
    forall u | u in table && u != tribe && table[u] > 0.0 ensures Ahead(table[tribe], tribe, table[u], u) {
      assert TribeScore(u, table[u]) in r;
      HeadIsFirst(r, TribeScore(u, table[u]));
    }
  }

  // A spend as the alerter meets it: `post` lists the city's rows after it. The two rankings it
  // works with are those of the table before and after the spend, and if the spender led the
  // table there is nothing to detect.
  lemma RankingsAreTheTables(table: map<TribeId, real>, tribe: TribeId, delta: real, post: seq<TribeScore>,
                             undone: seq<TribeScore>, before: seq<TribeScore>, after: seq<TribeScore>, thresholds: seq<real>)
    requires delta > 0.0 && (forall t :: t in table ==> table[t] >= 0.0) && Lists(post, AfterSpend(table, tribe, delta))
    requires UndoneFrom(post, undone, tribe, delta) && IsRanking(before, undone) && IsRanking(after, post)
    ensures RanksTable(before, table) && RanksTable(after, AfterSpend(table, tribe, delta))
    ensures LeadsTable(table, tribe) <==> before != [] && before[0].tribe == tribe
    ensures LeadsTable(table, tribe) ==> Detected(before, after, thresholds) == []
  {
    hide Lists, UndoneFrom, IsRanking, RanksTable, Detected;
    ReconstructionRecoversRanking(table, tribe, delta, post, undone, before);
    ListedRanking(after, post, AfterSpend(table, tribe, delta));
    if LeadsTable(table, tribe) {
      LeaderRanksFirst(before, table, tribe);
      LeaderSpendNeverAlerts(table, tribe, delta, before, after, thresholds);
    } else if before != [] {
      FirstLeads(before, table);
    }
  }

  // `post` lists the table after a spend by the tribe that led it.
  ghost predicate SpenderLed(table: map<TribeId, real>, tribe: TribeId, delta: real, post: seq<TribeScore>) {
    && delta > 0.0 && (forall t :: t in table ==> table[t] >= 0.0)
    && LeadsTable(table, tribe)
    && Lists(post, AfterSpend(table, tribe, delta))
  }

  lemma SpenderLedMeans(table: map<TribeId, real>, tribe: TribeId, delta: real, post: seq<TribeScore>)
    requires SpenderLed(table, tribe, delta, post)
    ensures delta > 0.0 && (forall t :: t in table ==> table[t] >= 0.0)
    ensures LeadsTable(table, tribe) && Lists(post, AfterSpend(table, tribe, delta))
  {
  }

  // ---------------------------------------------------------------- cooldowns

  // One alert level of one city, with the number of flips the city had seen.
  datatype Alert = Alert(city: IlCode, level: int, at: int, epoch: nat)

  // math.Round(th * 100): to the nearest whole percent, halves away from zero.
  function Level(th: real): int {
    if th < 0.0 then -((0.5 - th * 100.0).Floor) else (th * 100.0 + 0.5).Floor
  }

  lemma LevelIsNearest(th: real)
    ensures th * 100.0 - 0.5 <= Level(th) as real <= th * 100.0 + 0.5
    ensures th >= 0.0 ==> Level(th) as real > th * 100.0 - 0.5
    ensures th <= 0.0 ==> Level(th) as real < th * 100.0 + 0.5
  {
  }

  predicate SameWatch(a: Alert, b: Alert) {
    a.city == b.city && a.level == b.level && a.epoch == b.epoch
  }

  // No level of a city is alerted twice within a cooldown unless the city flipped in between.
  ghost predicate Spaced(sent: seq<Alert>, cooldown: int) {
    forall i, j :: 0 <= i < j < |sent| && SameWatch(sent[i], sent[j]) ==> sent[j].at > sent[i].at + cooldown
  }

  // An alert of the current epoch still has its cooldown key, and only thresholds are alerted.
  ghost predicate Accounted(a: Alert, keys: map<(IlCode, int), int>, epoch: nat, cooldown: int, thresholds: seq<real>) {
    && a.epoch <= epoch
    && (a.epoch == epoch ==> (a.city, a.level) in keys && keys[(a.city, a.level)] >= a.at + cooldown)
    && exists k :: 0 <= k < |thresholds| && Level(thresholds[k]) == a.level
  }

  // Who hears of it: a level is alerted exactly when it is that of a detected threshold and is not
  // cooling down, and no level twice.
  lemma {:induction false} AlertedIff(keys: map<(IlCode, int), int>, city: IlCode, crossed: seq<real>, now: int, level: int)
    ensures level in Alerted(keys, city, crossed, now) <==>
      (exists th :: th in crossed && Level(th) == level) && !CoolingDown(keys, city, level, now)
    ensures multiset(Alerted(keys, city, crossed, now))[level] <= 1
    decreases |crossed|
  {
    if crossed != [] {
      var n := |crossed| - 1;
      AlertedIff(keys, city, crossed[..n], now, level);
      assert crossed == crossed[..n] + [crossed[n]];
      assert forall th :: th in crossed <==> th in crossed[..n] || th == crossed[n];
    }
  }

  // A warned city, from the contract of DetectAndEnqueue alone: the levels it alerts.
  lemma WarnedIff(keys: map<(IlCode, int), int>, city: IlCode, now: int, pre: seq<TribeScore>, post: seq<TribeScore>,
                  thresholds: seq<real>, level: int)
    requires Sorted(pre) && Sorted(post) && PositiveSums(pre) && PositiveSums(post)
    ensures level in Alerted(keys, city, Detected(pre, post, thresholds), now) <==>
      && !CoolingDown(keys, city, level, now)
      && pre != [] && |post| >= 2 && pre[0].tribe == post[0].tribe
      && exists th :: th in thresholds && Level(th) == level && th > 0.0
           && (if |pre| >= 2 then pre[1].sum else 0.0) < th * pre[0].sum && post[1].sum >= th * post[0].sum
  {
    hide Level, Detected, Alerted, Sorted;
    AlertedIff(keys, city, Detected(pre, post, thresholds), now, level);
    forall th
      ensures th in Detected(pre, post, thresholds) <==>
        && th in thresholds && th > 0.0 && pre != [] && |post| >= 2 && pre[0].tribe == post[0].tribe
        && (if |pre| >= 2 then pre[1].sum else 0.0) < th * pre[0].sum && post[1].sum >= th * post[0].sum
    {
      DetectedIff(pre, post, thresholds, th);
    }
  }

  lemma AlertedAppend(keys: map<(IlCode, int), int>, city: IlCode, crossed: seq<real>, i: nat, now: int)
    requires i < |crossed|
    ensures
      var levels, level := Alerted(keys, city, crossed[..i], now), Level(crossed[i]);
      Alerted(keys, city, crossed[..i + 1], now)
      == if level in levels || CoolingDown(keys, city, level, now) then levels else levels + [level]
  {
    assert crossed[..i + 1][..i] == crossed[..i];
  }

  lemma NoneAlerted(keys: map<(IlCode, int), int>, city: IlCode, now: int, epoch: nat)
    ensures Alerted(keys, city, [], now) == [] && AlertsFor(city, [], now, epoch) == []
  {
  }

  predicate CoolingDown(keys: map<(IlCode, int), int>, city: IlCode, level: int, now: int) {
    (city, level) in keys && now <= keys[(city, level)]
  }

  // From before to after, exactly these levels have started to cool down.
  ghost predicate Cooled(before: map<(IlCode, int), int>, after: map<(IlCode, int), int>, city: IlCode, levels: seq<int>, now: int) {
    forall level :: CoolingDown(after, city, level, now) <==> level in levels || CoolingDown(before, city, level, now)
  }

  lemma CooledStarts(keys: map<(IlCode, int), int>, city: IlCode, now: int)
    ensures Cooled(keys, keys, city, [], now)
  {
  }

  lemma CooledTells(before: map<(IlCode, int), int>, after: map<(IlCode, int), int>, city: IlCode,
                    levels: seq<int>, level: int, now: int)
    requires Cooled(before, after, city, levels, now)
    ensures CoolingDown(after, city, level, now) <==> level in levels || CoolingDown(before, city, level, now)
  {
  }

  lemma CooledCompose(k0: map<(IlCode, int), int>, k1: map<(IlCode, int), int>, k2: map<(IlCode, int), int>,
                      city: IlCode, levels: seq<int>, level: int, now: int)
    requires Cooled(k0, k1, city, levels, now) && Cooled(k1, k2, city, [level], now)
    ensures Cooled(k0, k2, city, levels + [level], now)
  {
  }

  // The levels of one batch that get their alert: each once, if its cooldown was over.
  function Alerted(keys: map<(IlCode, int), int>, city: IlCode, crossed: seq<real>, now: int): seq<int> {
    if crossed == [] then []
    else
      var rest := Alerted(keys, city, crossed[..|crossed| - 1], now);
      var level := Level(crossed[|crossed| - 1]);
      if level in rest || CoolingDown(keys, city, level, now) then rest else rest + [level]
  }

  function AlertsFor(city: IlCode, levels: seq<int>, now: int, epoch: nat): seq<Alert> {
    seq(|levels|, i requires 0 <= i < |levels| => Alert(city, levels[i], now, epoch))
  }

  lemma AlertsForAppend(city: IlCode, levels: seq<int>, level: int, now: int, epoch: nat)
    ensures AlertsFor(city, levels + [level], now, epoch) == AlertsFor(city, levels, now, epoch) + [Alert(city, level, now, epoch)]
  {
  }

  // Notifications for n levels.
  function Notified(members: nat, n: nat): nat { members * n }

  lemma NotifiedOneMore(members: nat, n: nat)
    ensures Notified(members, n + 1) == Notified(members, n) + members && Notified(members, 0) == 0
  {
  }

  lemma NotifiedIsProduct(members: nat, n: nat)
    ensures Notified(members, n) == members * n
  {
  }

  class ThreatAlerter {
    const thresholds: seq<real>
    const cooldown: int
    var keys: map<(IlCode, int), int>     // threat_alert:{city}:{level} and when it expires

    ghost var sent: seq<Alert>
    ghost var flips: map<IlCode, nat>

    constructor (thresholds: seq<real>, cooldown: int)
      ensures Valid() && sent == []
      ensures this.thresholds == if thresholds == [] then [0.70, 0.90] else thresholds
      ensures this.cooldown == if cooldown <= 0 then 600_000 else cooldown
    {
      this.thresholds := if thresholds == [] then [0.70, 0.90] else thresholds;
      this.cooldown := if cooldown <= 0 then 600_000 else cooldown;
      keys, sent, flips := map[], [], map[];
    }

    ghost function Epoch(city: IlCode): nat
      reads this
    {
      if city in flips then flips[city] else 0
    }

    ghost predicate Valid()
      reads this
    {
      && cooldown > 0
      && Spaced(sent, cooldown)
      && forall i :: 0 <= i < |sent| ==> Accounted(sent[i], keys, Epoch(sent[i].city), cooldown, thresholds)
    }

    // SETNX with a TTL
    method TryCooldown(city: IlCode, level: int, now: int) returns (ok: bool)
      modifies this`keys
      ensures ok <==> !CoolingDown(old(keys), city, level, now)
      ensures keys == if ok then old(keys)[(city, level) := now + cooldown] else old(keys)
    {
      if (city, level) in keys && now <= keys[(city, level)] { return false; }
      keys := keys[(city, level) := now + cooldown];
      return true;
    }

    // One level of one city, if its cooldown is over.
    method AlertLevel(city: IlCode, level: int, now: int) returns (ok: bool)
      requires Valid() && exists k :: 0 <= k < |thresholds| && Level(thresholds[k]) == level
      modifies this`keys, this`sent
      ensures Valid()
      ensures Epoch(city) == old(Epoch(city))
      ensures ok <==> !CoolingDown(old(keys), city, level, now)
      ensures ok ==> Cooled(old(keys), keys, city, [level], now)
      ensures !ok ==> keys == old(keys)
      ensures sent == if ok then old(sent) + [Alert(city, level, now, Epoch(city))] else old(sent)
    {
      ghost var n := |sent|;
      ok := TryCooldown(city, level, now);
      if ok {
        sent := sent + [Alert(city, level, now, Epoch(city))];
        assert forall i :: 0 <= i < n ==> sent[i] == old(sent)[i];
        assert sent[n] == Alert(city, level, now, Epoch(city));
      }
    }

    // One notification per member for every level crossed whose cooldown is over.
    method Enqueue(city: IlCode, crossed: seq<real>, members: nat, now: int) returns (enqueued: nat)
      requires Valid() && forall i :: 0 <= i < |crossed| ==> crossed[i] in thresholds
      modifies this`keys, this`sent
      ensures Valid()
      ensures
        var levels := if members == 0 then [] else Alerted(old(keys), city, crossed, now);
        sent == old(sent) + AlertsFor(city, levels, now, Epoch(city)) && enqueued == members * |levels|
    {
      hide Spaced, Accounted, Level, CoolingDown, Cooled, Alerted, AlertsFor, Notified;
      CooledStarts(keys, city, now);
      NoneAlerted(keys, city, now, Epoch(city));
      enqueued := 0;
      if members == 0 { return; }
      ghost var levels: seq<int> := [];
      NotifiedOneMore(members, 0);
      for i := 0 to |crossed|
        invariant Valid() && Epoch(city) == old(Epoch(city)) && levels == Alerted(old(keys), city, crossed[..i], now)
        invariant sent == old(sent) + AlertsFor(city, levels, now, Epoch(city))
        invariant enqueued == Notified(members, |levels|)
        invariant Cooled(old(keys), keys, city, levels, now)
      {
        AlertedAppend(old(keys), city, crossed, i, now);
        assert crossed[i] in thresholds;
        var level := Level(crossed[i]);
        CooledTells(old(keys), keys, city, levels, level, now);
        ghost var keys1 := keys;
        var ok := AlertLevel(city, level, now);
        if ok {
          CooledCompose(old(keys), keys1, keys, city, levels, level, now);
          enqueued := enqueued + members;
          NotifiedOneMore(members, |levels|);
          AlertsForAppend(city, levels, level, now, Epoch(city));
          levels := levels + [level];
        }
      }
      assert crossed[..|crossed|] == crossed;
      NotifiedIsProduct(members, |levels|);
    }

    // post: the city's rows as read after the spend.
    method DetectAndEnqueue(city: IlCode, post: seq<TribeScore>, tribe: TribeId, delta: real, members: nat, now: int)
      returns (enqueued: nat)
      requires Valid() && DistinctTribes(post)
      modifies this`keys, this`sent
      ensures Valid()
      ensures delta == 0.0 || city == "" || members == 0 ==> sent == old(sent) && enqueued == 0
      // whatever ranking the scores have before and after the spend, its crossings are alerted
      ensures forall before, after, undone {:trigger IsRanking(before, undone), IsRanking(after, post)} ::
        delta != 0.0 && city != "" && members > 0 &&
        UndoneFrom(post, undone, tribe, delta) && IsRanking(before, undone) && IsRanking(after, post) ==>
          var levels := Alerted(old(keys), city, Detected(before, after, thresholds), now);
          sent == old(sent) + AlertsFor(city, levels, now, Epoch(city)) && enqueued == members * |levels|
      // a spend by the tribe that led the city's scores alerts nobody
      ensures forall table :: SpenderLed(table, tribe, delta, post) ==> sent == old(sent) && enqueued == 0
    {
      hide Level, Alerted, Crossings, Sorted, SpenderLed;
      if delta == 0.0 || city == "" { return 0; }
      var pre := ReconstructPreScores(post, tribe, delta);
      UndoneKeepsTribes(post, pre, tribe, delta);
      var preRanked := RankScores(pre);
      var postRanked := RankScores(post);
      forall before, after, undone |
        UndoneFrom(post, undone, tribe, delta) && IsRanking(before, undone) && IsRanking(after, post)
        ensures before == preRanked && after == postRanked
      {
        assert undone == pre;
        RankingIsUnique(before, preRanked);
        RankingIsUnique(after, postRanked);
      }
      NoneAlerted(old(keys), city, now, Epoch(city));
      forall table | SpenderLed(table, tribe, delta, post) ensures Detected(preRanked, postRanked, thresholds) == [] {
        SpenderLedMeans(table, tribe, delta, post);
        RankingsAreTheTables(table, tribe, delta, post, pre, preRanked, postRanked, thresholds);
      }
      if |postRanked| < 2 { return 0; }
      if |preRanked| == 0 || preRanked[0].tribe != postRanked[0].tribe { return 0; }
      var preTension := ContestTension(preRanked[0].sum, SecondSum(preRanked));
      var postTension := ContestTension(postRanked[0].sum, postRanked[1].sum);
      var crossed := TensionLevelCrossings(preTension, postTension, thresholds);
      CrossingsAreThresholds(preTension, postTension, thresholds);
      enqueued := Enqueue(city, crossed, members, now);
    }

    // Called when the city flips: the next holder starts with a clean slate.
    method ClearCooldown(city: IlCode)
      requires Valid()
      modifies this
      ensures Valid() && sent == old(sent) && Epoch(city) == old(Epoch(city)) + 1
      ensures forall k :: 0 <= k < |thresholds| ==> (city, Level(thresholds[k])) !in keys
      ensures forall k :: k in old(keys) && k.0 != city ==> k in keys && keys[k] == old(keys)[k]
    {
      var dead: set<(IlCode, int)> := {};
      for i := 0 to |thresholds|
        invariant forall k :: k in dead <==> exists j :: 0 <= j < i && k == (city, Level(thresholds[j]))
      {
        dead := dead + {(city, Level(thresholds[i]))};
      }
      keys := keys - dead;
      flips := flips[city := Epoch(city) + 1];
      forall a: Alert, epoch: nat | a.city != city && Accounted(a, old(keys), epoch, cooldown, thresholds)
        ensures Accounted(a, keys, epoch, cooldown, thresholds)
      {
      }
    }
  }
}
