/** backend/internal/ratelimit/tokenbucket.go: the Lua refill/take/expire script, what it
    admits over any stretch of time, and why letting the key expire cannot be noticed. */
module TokenBucket {
  import opened Prelude

  datatype Limit = Limit(rate: real, burst: int)

  // The HASH fields of a bucket key.
  datatype Hash = Hash(tokens: real, lastMs: int)

  datatype Answer = Answer(allowed: bool, retryAfter: int)

  predicate ValidLimit(lim: Limit) { lim.rate > 0.0 && lim.burst >= 1 }

  function Ceil(x: real): (n: int)
    ensures (n - 1) as real < x <= n as real
  {
    -((-x).Floor)
  }

  function Min(x: real, y: real): real { if x <= y then x else y }

  // Milliseconds to seconds; a clock that went back counts as no time.
  function Elapsed(fromMs: int, nowMs: int): real {
    if nowMs < fromMs then 0.0 else (nowMs - fromMs) as real / 1000.0
  }

  // Tokens on hand once the elapsed time has been credited.
  function Refilled(lim: Limit, h: Option<Hash>, nowMs: int): real {
    match h
    case None => lim.burst as real
    case Some(b) => Min(lim.burst as real, b.tokens + Elapsed(b.lastMs, nowMs) * lim.rate)
  }

  function Take(lim: Limit, h: Option<Hash>, nowMs: int): (Hash, Answer)
    requires ValidLimit(lim)
  {
    var tokens := Refilled(lim, h, nowMs);
    if tokens >= 1.0 then (Hash(tokens - 1.0, nowMs), Answer(true, 0))
    else
      var retry := Ceil((1.0 - tokens) / lim.rate);
      (Hash(tokens, nowMs), Answer(false, if retry < 1 then 1 else retry))
  }

  // Seconds a key lives: a full refill, plus a minute.
  function Ttl(lim: Limit): int
    requires ValidLimit(lim)
  {
    var ttl := Ceil(lim.burst as real / lim.rate) + 60;
    if ttl < 60 then 60 else ttl
  }

  // A key outlives the time a full refill takes, in whole seconds, by exactly a minute.
  lemma TtlMeaning(lim: Limit)
    requires ValidLimit(lim)
    ensures (Ttl(lim) - 61) as real < lim.burst as real / lim.rate <= (Ttl(lim) - 60) as real
  {
    PositiveQuotient(lim.burst as real, lim.rate);
  }

  // ---------------------------------------------------------------- a run of calls on one key

  // The bucket after the first k calls.
  function After(lim: Limit, times: seq<int>, k: nat): Option<Hash>
    requires ValidLimit(lim) && k <= |times|
  {
    if k == 0 then None else Some(Take(lim, After(lim, times, k - 1), times[k - 1]).0)
  }

  // Tokens on hand when call j is decided.
  function Level(lim: Limit, times: seq<int>, j: nat): real
    requires ValidLimit(lim) && j < |times|
  {
    Refilled(lim, After(lim, times, j), times[j])
  }

  // Whether call j is admitted; AnswerAt ties it to what the script returns.
  predicate AllowedAt(lim: Limit, times: seq<int>, j: nat)
    requires ValidLimit(lim) && j < |times|
  {
    Level(lim, times, j) >= 1.0
  }

  // Tokens earned over a stretch of time.
  function Credit(lim: Limit, fromMs: int, toMs: int): real {
    lim.rate * ((toMs - fromMs) as real / 1000.0)
  }

  // Calls admitted among i .. j-1.
  function Admitted(lim: Limit, times: seq<int>, i: nat, j: nat): nat
    requires ValidLimit(lim) && i <= j <= |times|
    decreases j
  {
    if i == j then 0 else Admitted(lim, times, i, j - 1) + if AllowedAt(lim, times, j - 1) then 1 else 0
  }

  // What the policy still has to give, at call j, to the window that opened with call i.
  function Slack(lim: Limit, times: seq<int>, i: nat, j: nat): real
    requires ValidLimit(lim) && i <= j < |times|
  {
    lim.burst as real - Admitted(lim, times, i, j) as real + Credit(lim, times[i], times[j])
  }

  predicate Clock(times: seq<int>) {
    forall i, j :: 0 <= i <= j < |times| ==> times[i] <= times[j]
  }

  lemma {:induction false} TokensInRange(lim: Limit, times: seq<int>, k: nat)
    requires ValidLimit(lim) && Clock(times) && 0 < k <= |times|
    ensures
      var b := After(lim, times, k).value;
      0.0 <= b.tokens <= lim.burst as real && b.lastMs == times[k - 1]
    decreases k
  {
    if k > 1 {
      TokensInRange(lim, times, k - 1);
      var b := After(lim, times, k - 1).value;
      CreditIsNonNegative(lim, b.lastMs, times[k - 1]);
    }
  }

  lemma CreditIsNonNegative(lim: Limit, fromMs: int, nowMs: int)
    requires ValidLimit(lim)
    ensures Elapsed(fromMs, nowMs) * lim.rate >= 0.0
  {
  }

  // From one call to the next the level loses what was admitted, gains the elapsed time and is
  // capped at the burst.
  lemma LevelStep(lim: Limit, times: seq<int>, j: nat)
    requires ValidLimit(lim) && Clock(times) && 0 < j < |times|
    ensures
      var spent := if AllowedAt(lim, times, j - 1) then 1.0 else 0.0;
      Level(lim, times, j) == Min(lim.burst as real,
        Level(lim, times, j - 1) - spent + Credit(lim, times[j - 1], times[j]))
  {
    assert times[j - 1] <= times[j];
  }

  lemma SlackStep(lim: Limit, times: seq<int>, i: nat, j: nat)
    requires ValidLimit(lim) && i < j < |times|
    ensures
      var spent := if AllowedAt(lim, times, j - 1) then 1.0 else 0.0;
      Slack(lim, times, i, j) == Slack(lim, times, i, j - 1) - spent + Credit(lim, times[j - 1], times[j])
  {
    hide Credit, AllowedAt;
    CreditAdds(lim, times[i], times[j - 1], times[j]);
  }

  lemma CreditAdds(lim: Limit, x: int, y: int, z: int)
    ensures Credit(lim, x, z) == Credit(lim, x, y) + Credit(lim, y, z)
  {
    var a, b := (y - x) as real / 1000.0, (z - y) as real / 1000.0;
    assert (z - x) as real / 1000.0 == a + b;
    Distribute(lim.rate, a, b);
  }

  lemma Distribute(a: real, x: real, y: real)
    ensures a * (x + y) == a * x + a * y
  {
  }

  // The level is exactly the smallest slack over all windows ending at this call.
  lemma {:induction false} LevelIsLeastSlack(lim: Limit, times: seq<int>, j: nat) returns (w: nat)
    requires ValidLimit(lim) && Clock(times) && j < |times|
    ensures w <= j && Level(lim, times, j) == Slack(lim, times, w, j)
    ensures forall i :: 0 <= i <= j ==> Level(lim, times, j) <= Slack(lim, times, i, j)
    decreases j
  {
    hide Credit, AllowedAt;
    w := j;
    assert Slack(lim, times, j, j) == lim.burst as real by { NoTimeNoCredit(lim, times[j]); }
    if j > 0 {
      var v := LevelIsLeastSlack(lim, times, j - 1);
      LevelStep(lim, times, j);
      forall i | 0 <= i < j ensures Level(lim, times, j) <= Slack(lim, times, i, j) {
        SlackStep(lim, times, i, j);
      }
      SlackStep(lim, times, v, j);
      if Level(lim, times, j) != Slack(lim, times, j, j) { w := v; }
    }
  }

  lemma NoTimeNoCredit(lim: Limit, t: int)
    ensures Credit(lim, t, t) == 0.0
  {
  }

  // The script is the policy, no looser and no tighter: call j is admitted exactly when, with
  // it, every window ending at j stays within burst + rate * length.
  lemma AdmitsExactlyThePolicy(lim: Limit, times: seq<int>, j: nat)
    requires ValidLimit(lim) && Clock(times) && j < |times|
    ensures AllowedAt(lim, times, j) <==> forall i :: 0 <= i <= j ==>
      Admitted(lim, times, i, j) as real + 1.0 <= lim.burst as real + Credit(lim, times[i], times[j])
  {
    hide Credit, Level;
    var w := LevelIsLeastSlack(lim, times, j);
    forall i | 0 <= i <= j
      ensures Slack(lim, times, i, j) >= 1.0 <==>
        Admitted(lim, times, i, j) as real + 1.0 <= lim.burst as real + Credit(lim, times[i], times[j])
    {
    }
  }

  // Over any window of calls i .. j at most burst + rate * seconds are admitted.
  lemma WindowBound(lim: Limit, times: seq<int>, i: nat, j: nat)
    requires ValidLimit(lim) && Clock(times) && i <= j < |times|
    ensures Admitted(lim, times, i, j + 1) as real <= lim.burst as real + Credit(lim, times[i], times[j])
  {
    hide Credit, Level;
    var _ := LevelIsLeastSlack(lim, times, j);
    assert Level(lim, times, j) <= Slack(lim, times, i, j);
    LevelIsNonNegative(lim, times, j);
  }

  lemma LevelIsNonNegative(lim: Limit, times: seq<int>, j: nat)
    requires ValidLimit(lim) && Clock(times) && j < |times|
    ensures 0.0 <= Level(lim, times, j) <= lim.burst as real
  {
    if j > 0 {
      TokensInRange(lim, times, j);
      CreditIsNonNegative(lim, After(lim, times, j).value.lastMs, times[j]);
    }
  }

  // ---------------------------------------------------------------- retry_after

  // A denied caller who comes back d seconds later, with no call in between, is admitted
  // exactly when d is at least the advertised retry_after.
  lemma RetryAfterIsExact(lim: Limit, h: Option<Hash>, nowMs: int, d: nat)
    requires ValidLimit(lim) && !Take(lim, h, nowMs).1.allowed
    ensures
      var (after, answer) := Take(lim, h, nowMs);
      Take(lim, Some(after), nowMs + 1000 * d).1.allowed <==> d >= answer.retryAfter
  {
    var tokens := Refilled(lim, h, nowMs);
    var need := (1.0 - tokens) / lim.rate;
    var retry := Ceil(need);
    assert (1000 * d) as real / 1000.0 == d as real;
    QuotientBounds(1.0 - tokens, lim.rate, d as real);
    assert d as real * lim.rate >= 1.0 - tokens <==> d >= retry;
    assert need > 0.0 by { PositiveQuotient(1.0 - tokens, lim.rate); }
  }

  lemma QuotientBounds(x: real, rate: real, d: real)
    requires rate > 0.0
    ensures d * rate >= x <==> d >= x / rate
  {
    assert x / rate * rate == x;
    if d >= x / rate { ScaleUp(x / rate, d, rate); } else { ScaleUpStrict(d, x / rate, rate); }
  }

  lemma ScaleUp(x: real, y: real, a: real)
    requires x <= y && a > 0.0
    ensures x * a <= y * a
  {
  }

  lemma ScaleUpStrict(x: real, y: real, a: real)
    requires x < y && a > 0.0
    ensures x * a < y * a
  {
  }

  lemma PositiveQuotient(x: real, rate: real)
    requires x > 0.0 && rate > 0.0
    ensures x / rate > 0.0
  {
  }

  // ---------------------------------------------------------------- expiry

  // A key as Redis holds it. It is gone once its deadline has passed.
  datatype Slot = Slot(hash: Hash, expiresAt: int)

  function Read(slot: Option<Slot>, nowMs: int): Option<Hash> {
    if slot.Some? && nowMs <= slot.value.expiresAt then Some(slot.value.hash) else None
  }

  function TakeExpiring(lim: Limit, slot: Option<Slot>, nowMs: int): (Slot, Answer)
    requires ValidLimit(lim)
  {
    var (h, answer) := Take(lim, Read(slot, nowMs), nowMs);
    (Slot(h, nowMs + 1000 * Ttl(lim)), answer)
  }

  function Answers(lim: Limit, h: Option<Hash>, times: seq<int>): seq<Answer>
    requires ValidLimit(lim)
    decreases |times|
  {
    if times == [] then []
    else
      var (h', answer) := Take(lim, h, times[0]);
      [answer] + Answers(lim, Some(h'), times[1..])
  }

  function AnswersExpiring(lim: Limit, slot: Option<Slot>, times: seq<int>): seq<Answer>
    requires ValidLimit(lim)
    decreases |times|
  {
    if times == [] then []
    else
      var (slot', answer) := TakeExpiring(lim, slot, times[0]);
      [answer] + AnswersExpiring(lim, Some(slot'), times[1..])
  }

  // The slot holds what the everlasting bucket holds, and its deadline is a full TTL after it was written.
  predicate Mirrors(lim: Limit, slot: Option<Slot>, h: Option<Hash>)
    requires ValidLimit(lim)
  {
    match slot
    case None => h.None?
    case Some(s) => h == Some(s.hash) && s.hash.tokens >= 0.0 && s.expiresAt == s.hash.lastMs + 1000 * Ttl(lim)
  }

  // By the time the key may be gone, the bucket would have been full again anyway.
  lemma ExpiredIsFull(lim: Limit, h: Hash, nowMs: int)
    requires ValidLimit(lim) && h.tokens >= 0.0 && nowMs > h.lastMs + 1000 * Ttl(lim)
    ensures Refilled(lim, Some(h), nowMs) == lim.burst as real
  {
    var need := lim.burst as real / lim.rate;
    var ttl := Ttl(lim);
    assert (nowMs - h.lastMs) as real / 1000.0 >= ttl as real >= need;
    QuotientBounds(lim.burst as real, lim.rate, Elapsed(h.lastMs, nowMs));
  }

  lemma TakeKeepsMirror(lim: Limit, slot: Option<Slot>, h: Option<Hash>, nowMs: int)
    requires ValidLimit(lim) && Mirrors(lim, slot, h)
    ensures
      var (slot', a) := TakeExpiring(lim, slot, nowMs);
      var (h', b) := Take(lim, h, nowMs);
      a == b && Mirrors(lim, Some(slot'), Some(h'))
  {
    if slot.Some? {
      CreditIsNonNegative(lim, slot.value.hash.lastMs, nowMs);
      if nowMs > slot.value.expiresAt { ExpiredIsFull(lim, slot.value.hash, nowMs); }
    }
  }

  lemma {:induction false} MirrorsAnswerAlike(lim: Limit, slot: Option<Slot>, h: Option<Hash>, times: seq<int>)
    requires ValidLimit(lim) && Mirrors(lim, slot, h)
    ensures AnswersExpiring(lim, slot, times) == Answers(lim, h, times)
    decreases |times|
  {
    if times != [] {
      TakeKeepsMirror(lim, slot, h, times[0]);
      MirrorsAnswerAlike(lim, Some(TakeExpiring(lim, slot, times[0]).0), Some(Take(lim, h, times[0]).0), times[1..]);
    }
  }

  // Whatever the clock does, the bucket with EXPIRE answers every run of calls exactly like one
  // that never forgets.
  lemma {:induction false} ExpiryIsUnobservable(lim: Limit, times: seq<int>)
    requires ValidLimit(lim)
    ensures AnswersExpiring(lim, None, times) == Answers(lim, None, times)
  {
    MirrorsAnswerAlike(lim, None, None, times);
  }

  lemma {:induction false} AnswersAreAllowedAt(lim: Limit, times: seq<int>, k: nat)
    requires ValidLimit(lim) && k <= |times|
    ensures Answers(lim, After(lim, times, k), times[k..]) ==
      seq(|times| - k, j requires 0 <= j < |times| - k => Take(lim, After(lim, times, k + j), times[k + j]).1)
    decreases |times| - k
  {
    if k < |times| {
      AnswersAreAllowedAt(lim, times, k + 1);
      assert times[k..][1..] == times[k + 1..];
    }
  }

  // The two accounts of a run agree: answer j of the sequence is the decision at call j.
  lemma AnswerAt(lim: Limit, times: seq<int>, j: nat)
    requires ValidLimit(lim) && j < |times|
    ensures |Answers(lim, None, times)| == |times|
    ensures Answers(lim, None, times)[j].allowed == AllowedAt(lim, times, j)
  {
    AnswersAreAllowedAt(lim, times, 0);
    assert times[0..] == times;
    assert After(lim, times, 0) == None;
    assert Answers(lim, None, times)[j] == Take(lim, After(lim, times, 0 + j), times[0 + j]).1;
  }

  // Calls let through among answers i .. j-1.
  function CountAllowed(answers: seq<Answer>, i: nat, j: nat): nat
    requires i <= j <= |answers|
    decreases j
  {
    if i == j then 0 else CountAllowed(answers, i, j - 1) + if answers[j - 1].allowed then 1 else 0
  }

  lemma {:induction false} AdmittedIsCount(lim: Limit, times: seq<int>, i: nat, j: nat)
    requires ValidLimit(lim) && i <= j <= |times| == |Answers(lim, None, times)|
    ensures Admitted(lim, times, i, j) == CountAllowed(Answers(lim, None, times), i, j)
    decreases j
  {
    if i < j {
      AdmittedIsCount(lim, times, i, j - 1);
      AnswerAt(lim, times, j - 1);
    }
  }

  // The script as deployed, key expiry included: whether it lets call j through is decided by
  // its own earlier answers alone. It does so exactly when every window of calls ending at j then
  // holds at most burst + rate * length admitted calls.
  lemma {:induction false} ScriptEnforcesPolicy(lim: Limit, times: seq<int>, j: nat)
    requires ValidLimit(lim) && Clock(times) && j < |times|
    ensures
      var answers := AnswersExpiring(lim, None, times);
      && |answers| == |times|
      && (answers[j].allowed <==> forall i :: 0 <= i <= j ==>
            CountAllowed(answers, i, j) as real + 1.0 <= lim.burst as real + Credit(lim, times[i], times[j]))
  {
    hide Credit, Answers, AnswersExpiring, AllowedAt;
    ExpiryIsUnobservable(lim, times);
    AnswerAt(lim, times, j);
    AdmitsExactlyThePolicy(lim, times, j);
    forall i | 0 <= i <= j
      ensures CountAllowed(Answers(lim, None, times), i, j) == Admitted(lim, times, i, j)
    {
      AdmittedIsCount(lim, times, i, j);
    }
  }

  lemma CreditIsRate(lim: Limit, fromMs: int, toMs: int)
    requires fromMs <= toMs
    ensures Credit(lim, fromMs, toMs) == lim.rate * ((toMs - fromMs) as real / 1000.0)
  {
  }

  lemma ScriptCreditBound(lim: Limit, times: seq<int>, i: nat, j: nat)
    requires ValidLimit(lim) && Clock(times) && i <= j < |times|
    ensures |AnswersExpiring(lim, None, times)| == |times|
    ensures CountAllowed(AnswersExpiring(lim, None, times), i, j + 1) as real
            <= lim.burst as real + Credit(lim, times[i], times[j])
  {
    hide Credit, Answers, AnswersExpiring, Admitted;
    ExpiryIsUnobservable(lim, times);
    AnswerAt(lim, times, j);
    AdmittedIsCount(lim, times, i, j + 1);
    WindowBound(lim, times, i, j);
  }

  // The limit the deployed script enforces: any window of calls i .. j has at most
  // burst + rate * seconds let through.
  lemma ScriptWindowBound(lim: Limit, times: seq<int>, i: nat, j: nat)
    requires ValidLimit(lim) && Clock(times) && i <= j < |times|
    ensures |AnswersExpiring(lim, None, times)| == |times|
    ensures CountAllowed(AnswersExpiring(lim, None, times), i, j + 1) as real
            <= lim.burst as real + lim.rate * ((times[j] - times[i]) as real / 1000.0)
  {
    hide Credit, AnswersExpiring, CountAllowed;
    ScriptCreditBound(lim, times, i, j);
    CreditIsRate(lim, times[i], times[j]);
  }

  // ---------------------------------------------------------------- the limiter

  datatype AllowResult = Allowed | Denied(retryAfter: int) | InvalidLimit

  // ratelimit:{user}:{group}
  function BucketKey(user: string, group: string): string {
    "ratelimit:" + user + ":" + group
  }

  // Users never share a bucket, nor do groups: user ids hold no colon.
  lemma BucketKeyInjective(u: string, g: string, v: string, k: string)
    requires ':' !in u && ':' !in v && BucketKey(u, g) == BucketKey(v, k)
    ensures u == v && g == k
  {
    var a, b := u + ":" + g, v + ":" + k;
    assert BucketKey(u, g)[10..] == a && BucketKey(v, k)[10..] == b;
    FirstColon(u, g);
    FirstColon(v, k);
    assert a[|u|] == b[|u|] && a[|v|] == b[|v|];
    assert |u| == |v|;
    assert a[..|u|] == u && b[..|v|] == v && a[|u| + 1..] == g && b[|v| + 1..] == k;
  }

  lemma FirstColon(u: string, g: string)
    requires ':' !in u
    ensures var s := u + ":" + g; s[|u|] == ':' && forall i :: 0 <= i < |u| ==> s[i] != ':'
  {
  }

  // One call, and what it does to the keys.
  datatype Request = Request(user: string, group: string, lim: Limit, nowMs: int)

  function SlotOf(keys: map<string, Slot>, key: string): Option<Slot> {
    if key in keys then Some(keys[key]) else None
  }

  function Shown(a: Answer): AllowResult {
    if a.allowed then Allowed else Denied(a.retryAfter)
  }

  function AllowStep(keys: map<string, Slot>, q: Request): (map<string, Slot>, AllowResult) {
    if !ValidLimit(q.lim) then (keys, InvalidLimit)
    else
      var key := BucketKey(q.user, q.group);
      var (slot, a) := TakeExpiring(q.lim, SlotOf(keys, key), q.nowMs);
      (keys[key := slot], Shown(a))
  }

  // The answers of a run of calls by any users in any groups.
  function RunAnswers(keys: map<string, Slot>, qs: seq<Request>): seq<AllowResult>
    decreases |qs|
  {
    if qs == [] then []
    else
      var (keys', r) := AllowStep(keys, qs[0]);
      [r] + RunAnswers(keys', qs[1..])
  }

  predicate IsBy(q: Request, user: string, group: string) { q.user == user && q.group == group }

  // Of a run, the times of one user's calls in one group, and the answers given to them.
  function TimesBy(qs: seq<Request>, user: string, group: string): seq<int> {
    if qs == [] then []
    else (if IsBy(qs[0], user, group) then [qs[0].nowMs] else []) + TimesBy(qs[1..], user, group)
  }

  function AnswersBy(qs: seq<Request>, answers: seq<AllowResult>, user: string, group: string): seq<AllowResult>
    requires |answers| == |qs|
  {
    if qs == [] then []
    else (if IsBy(qs[0], user, group) then [answers[0]] else []) + AnswersBy(qs[1..], answers[1..], user, group)
  }

  function AllShown(answers: seq<Answer>): seq<AllowResult> {
    seq(|answers|, i requires 0 <= i < |answers| => Shown(answers[i]))
  }

  lemma {:induction false} RunAnswersAll(keys: map<string, Slot>, qs: seq<Request>)
    ensures |RunAnswers(keys, qs)| == |qs|
    decreases |qs|
  {
    if qs != [] { RunAnswersAll(AllowStep(keys, qs[0]).0, qs[1..]); }
  }

  lemma {:induction false} OwnBucketFrom(keys: map<string, Slot>, qs: seq<Request>, user: string, group: string, lim: Limit)
    requires ValidLimit(lim) && ':' !in user
    requires forall i :: 0 <= i < |qs| ==> ':' !in qs[i].user
    requires forall i :: 0 <= i < |qs| && IsBy(qs[i], user, group) ==> qs[i].lim == lim
    ensures |RunAnswers(keys, qs)| == |qs|
    ensures AnswersBy(qs, RunAnswers(keys, qs), user, group)
            == AllShown(AnswersExpiring(lim, SlotOf(keys, BucketKey(user, group)), TimesBy(qs, user, group)))
    decreases |qs|
  {
    hide BucketKey, TakeExpiring, AllowStep, AnswersExpiring, Shown, AllShown;
    RunAnswersAll(keys, qs);
    if qs == [] {
      NoAnswers(lim, SlotOf(keys, BucketKey(user, group)));
    } else {
      var keys' := AllowStep(keys, qs[0]).0;
      OwnBucketFrom(keys', qs[1..], user, group, lim);
      assert RunAnswers(keys, qs)[1..] == RunAnswers(keys', qs[1..]);
      if IsBy(qs[0], user, group) {
        OwnCall(keys, qs[0], lim, TimesBy(qs[1..], user, group));
      } else {
        OtherCall(keys, qs[0], user, group);
        assert TimesBy(qs, user, group) == TimesBy(qs[1..], user, group);
      }
    }
  }

  lemma NoAnswers(lim: Limit, slot: Option<Slot>)
    requires ValidLimit(lim)
    ensures AllShown(AnswersExpiring(lim, slot, [])) == []
  {
  }

  // A call of the user's own is answered by the bucket and leaves it for the next.
  lemma OwnCall(keys: map<string, Slot>, q: Request, lim: Limit, later: seq<int>)
    requires ValidLimit(lim) && q.lim == lim
    ensures
      var key := BucketKey(q.user, q.group);
      AllShown(AnswersExpiring(lim, SlotOf(keys, key), [q.nowMs] + later))
      == [AllowStep(keys, q).1] + AllShown(AnswersExpiring(lim, SlotOf(AllowStep(keys, q).0, key), later))
  {
    hide BucketKey, TakeExpiring;
    var key := BucketKey(q.user, q.group);
    var (slot, a) := TakeExpiring(lim, SlotOf(keys, key), q.nowMs);
    assert ([q.nowMs] + later)[1..] == later;
    assert AnswersExpiring(lim, SlotOf(keys, key), [q.nowMs] + later) == [a] + AnswersExpiring(lim, Some(slot), later);
  }

  // Any other call leaves the user's bucket alone.
  lemma OtherCall(keys: map<string, Slot>, q: Request, user: string, group: string)
    requires ':' !in user && ':' !in q.user && !IsBy(q, user, group)
    ensures SlotOf(AllowStep(keys, q).0, BucketKey(user, group)) == SlotOf(keys, BucketKey(user, group))
  {
    hide BucketKey, TakeExpiring;
    if BucketKey(q.user, q.group) == BucketKey(user, group) { BucketKeyInjective(q.user, q.group, user, group); }
  }

  // Whatever calls of other users and groups come in between, a user's calls in a group are
  // answered as if they were the only ones.
  lemma OwnBucket(qs: seq<Request>, user: string, group: string, lim: Limit)
    requires ValidLimit(lim) && ':' !in user
    requires forall i :: 0 <= i < |qs| ==> ':' !in qs[i].user
    requires forall i :: 0 <= i < |qs| && IsBy(qs[i], user, group) ==> qs[i].lim == lim
    ensures |RunAnswers(map[], qs)| == |qs|
    ensures AnswersBy(qs, RunAnswers(map[], qs), user, group)
            == AllShown(AnswersExpiring(lim, None, TimesBy(qs, user, group)))
  {
    OwnBucketFrom(map[], qs, user, group, lim);
  }

  class Bucket {
    var keys: map<string, Slot>

    constructor ()
      ensures keys == map[]
    {
      keys := map[];
    }

    method Allow(user: string, group: string, lim: Limit, nowMs: int) returns (r: AllowResult)
      modifies this
      ensures (keys, r) == AllowStep(old(keys), Request(user, group, lim, nowMs))
    {
      hide BucketKey, Ceil;
      if lim.rate <= 0.0 || lim.burst < 1 { return InvalidLimit; }
      var key := BucketKey(user, group);
      var tokens, lastMs := lim.burst as real, nowMs;
      if key in keys && nowMs <= keys[key].expiresAt {
        var data := keys[key].hash;
        var elapsed := (nowMs - data.lastMs) as real / 1000.0;
        if elapsed < 0.0 { elapsed := 0.0; }
        tokens := Min(lim.burst as real, data.tokens + elapsed * lim.rate);
      }
      var allowed, retryAfter := false, 0;
      if tokens >= 1.0 {
        tokens := tokens - 1.0;
        allowed := true;
      } else {
        retryAfter := Ceil((1.0 - tokens) / lim.rate);
        if retryAfter < 1 { retryAfter := 1; }
      }
      keys := keys[key := Slot(Hash(tokens, lastMs), nowMs + 1000 * Ttl(lim))];
      r := if allowed then Allowed else Denied(retryAfter);
    }
  }
}
