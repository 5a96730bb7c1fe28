/** What the conquest tables mean, said without the tables: a history is the list of
    committed spends, and who holds a city, which spends are captures and which capture a
    spend counts towards are all read off that list. */
module SpendHistory {
  import opened Prelude

  // flipId is the conquest_log id drawn for the spend should it flip the city.
  datatype Spend = Spend(
    id: SupportId, user: UserId, tribe: TribeId, city: IlCode,
    credits: int, multiplier: real, effective: real,
    derby: Option<DerbyId>, at: int, flipId: LogId)

  type History = seq<Spend>

  // Amounts are checked before the transaction, and the multiplier is 1 or 2.
  ghost predicate Positive(h: History) {
    forall i :: 0 <= i < |h| ==> h[i].credits > 0 && h[i].effective > 0.0
  }

  // Stamps are taken under the city lock, so they increase strictly within a city.
  ghost predicate Stamped(h: History) {
    forall i, j :: 0 <= i < j < |h| && h[i].city == h[j].city ==> h[i].at < h[j].at
  }

  // Ids are random and so distinct.
  ghost predicate Fresh(h: History) {
    forall i, j :: 0 <= i < j < |h| ==> h[i].id != h[j].id && h[i].flipId != h[j].flipId
  }

  ghost predicate WellFormed(h: History) {
    Positive(h) && Stamped(h) && Fresh(h)
  }

  // Effective support of one tribe in one city.
  ghost function SumOf(h: History, t: TribeId, c: IlCode): real {
    if h == [] then 0.0
    else
      var s := h[|h| - 1];
      SumOf(h[..|h| - 1], t, c) + if s.tribe == t && s.city == c then s.effective else 0.0
  }

  // Larger support first, smaller tribe id on a tie.
  predicate Ahead(x: real, t: TribeId, y: real, u: TribeId) {
    x > y || (x == y && t < u)
  }

  ghost predicate Holds(h: History, c: IlCode, t: TribeId) {
    && SumOf(h, t, c) > 0.0
    && forall u: TribeId :: u != t ==> Ahead(SumOf(h, t, c), t, SumOf(h, u, c), u)
  }

  ghost function Holder(h: History, c: IlCode): Option<TribeId> {
    if exists t: TribeId :: Holds(h, c, t) then var t: TribeId :| Holds(h, c, t); Some(t) else None
  }

  lemma OneHolder(h: History, c: IlCode, t: TribeId, u: TribeId)
    requires Holds(h, c, t) && Holds(h, c, u)
    ensures t == u
  {
    var x, y := SumOf(h, t, c), SumOf(h, u, c);
    assert u != t ==> Ahead(x, t, y, u);
    assert t == u || Ahead(y, u, x, t);
  }

  // Whoever holds a city has support there, and every other tribe has less, or as much with a
  // larger id.
  lemma HolderBeats(h: History, c: IlCode, t: TribeId, u: TribeId)
    requires Holder(h, c) == Some(t) && u != t
    ensures SumOf(h, t, c) > 0.0
    ensures SumOf(h, u, c) < SumOf(h, t, c) || (SumOf(h, u, c) == SumOf(h, t, c) && t < u)
  {
    assert Holds(h, c, t);
    assert Ahead(SumOf(h, t, c), t, SumOf(h, u, c), u);
  }

  lemma HolderIs(h: History, c: IlCode, t: TribeId)
    requires Holds(h, c, t)
    ensures Holder(h, c) == Some(t)
  {
    var u := Holder(h, c).value;
    OneHolder(h, c, t, u);
  }

  lemma {:induction false} SumNonNegative(h: History, t: TribeId, c: IlCode)
    requires Positive(h)
    ensures SumOf(h, t, c) >= 0.0
  {
    if h != [] { SumNonNegative(h[..|h| - 1], t, c); }
  }

  lemma SumAppend(h: History, s: Spend, t: TribeId, c: IlCode)
    ensures SumOf(h + [s], t, c) == SumOf(h, t, c) + if s.tribe == t && s.city == c then s.effective else 0.0
  {
    assert (h + [s])[..|h|] == h;
  }

  // A city nobody holds is a city nobody has supported.
  ghost predicate Untouched(h: History, c: IlCode) {
    forall t: TribeId :: SumOf(h, t, c) == 0.0
  }

  lemma {:induction false} UnheldIsUntouched(h: History, c: IlCode)
    requires Positive(h)
    ensures Holder(h, c).None? ==> Untouched(h, c)
  {
    if h == [] {
    } else {
      var p, s := h[..|h| - 1], h[|h| - 1];
      assert h == p + [s];
      UnheldIsUntouched(p, c);
      HolderAfter(p, s, c);
      if c != s.city {
        forall t: TribeId ensures SumOf(h, t, c) == SumOf(p, t, c) { SumAppend(p, s, t, c); }
      }
    }
  }

  // What one more spend does to who holds a city: nothing elsewhere, and where it lands
  // either nothing changes hands or the spender's tribe takes the city.
  lemma HolderAfter(h: History, s: Spend, c: IlCode)
    requires Positive(h) && s.effective > 0.0
    requires Holder(h, c).None? ==> Untouched(h, c)
    ensures c != s.city ==> Holder(h + [s], c) == Holder(h, c)
    ensures c == s.city ==> Holder(h + [s], c) in {Some(s.tribe), Holder(h, c)} && Holder(h + [s], c).Some?
    ensures Holder(h, c) == Some(s.tribe) ==> Holder(h + [s], c) == Holder(h, c)
  {
    forall t: TribeId
      ensures SumOf(h + [s], t, c) == SumOf(h, t, c) + if s.tribe == t && s.city == c then s.effective else 0.0
    {
      SumAppend(h, s, t, c);
    }
    SumNonNegative(h, s.tribe, c);
    if c != s.city {
      forall t: TribeId ensures Holds(h + [s], c, t) <==> Holds(h, c, t) {}
      match Holder(h, c)
      case Some(t) => HolderIs(h, c, t); HolderIs(h + [s], c, t);
      case None =>
    } else {
      match Holder(h, c)
      case None =>
        assert Holds(h + [s], c, s.tribe);
        HolderIs(h + [s], c, s.tribe);
      case Some(t) =>
        assert Holds(h, c, t);
        if t == s.tribe || Ahead(SumOf(h + [s], s.tribe, c), s.tribe, SumOf(h, t, c), t) {
          assert Holds(h + [s], c, s.tribe);
          HolderIs(h + [s], c, s.tribe);
        } else {
          assert Holds(h + [s], c, t);
          HolderIs(h + [s], c, t);
        }
    }
  }

  lemma HolderStep(h: History, s: Spend, c: IlCode)
    requires Positive(h) && s.effective > 0.0
    ensures c != s.city ==> Holder(h + [s], c) == Holder(h, c)
    ensures c == s.city ==> Holder(h + [s], c) in {Some(s.tribe), Holder(h, c)} && Holder(h + [s], c).Some?
    ensures Holder(h, c) == Some(s.tribe) ==> Holder(h + [s], c) == Holder(h, c)
  {
    UnheldIsUntouched(h, c);
    HolderAfter(h, s, c);
  }

  // A city is held as soon as somebody supports it.
  lemma SupportedIsHeld(h: History, c: IlCode, t: TribeId)
    requires Positive(h) && SumOf(h, t, c) > 0.0
    ensures Holder(h, c).Some?
  {
    UnheldIsUntouched(h, c);
    assert Untouched(h, c) ==> SumOf(h, t, c) == 0.0;
  }

  // When a spend takes a city: from nobody always, and from another tribe exactly by going past
  // its support, or by drawing level with the smaller id.
  lemma TakeoverIff(h: History, s: Spend)
    requires Positive(h) && s.effective > 0.0
    ensures Holder(h, s.city).None? ==> Holder(h + [s], s.city) == Some(s.tribe)
    ensures Holder(h, s.city).Some? && Holder(h, s.city).value != s.tribe ==>
      var t := Holder(h, s.city).value;
      var mine, theirs := SumOf(h, s.tribe, s.city) + s.effective, SumOf(h, t, s.city);
      Holder(h + [s], s.city) == Some(s.tribe) <==> mine > theirs || (mine == theirs && s.tribe < t)
  {
    HolderStep(h, s, s.city);
    forall t: TribeId
      ensures SumOf(h + [s], t, s.city) == SumOf(h, t, s.city) + if s.tribe == t then s.effective else 0.0
    {
      SumAppend(h, s, t, s.city);
    }
    if Holder(h, s.city).Some? && Holder(h, s.city).value != s.tribe {
      var t := Holder(h, s.city).value;
      if Holder(h + [s], s.city) == Some(t) {
        HolderBeats(h + [s], s.city, t, s.tribe);
      } else {
        HolderBeats(h + [s], s.city, s.tribe, t);
      }
    }
  }

  // ---------------------------------------------------------------- captures

  // Spend j changed who holds its city.
  ghost predicate IsCapture(h: History, j: nat)
    requires j < |h|
  {
    Holder(h[..j + 1], h[j].city) != Holder(h[..j], h[j].city)
  }

  // Spend j is a capture of city c by tribe t.
  ghost predicate Takes(h: History, j: nat, c: IlCode, t: TribeId)
    requires j < |h|
  {
    h[j].city == c && h[j].tribe == t && IsCapture(h, j)
  }

  // The first capture of c by t at or after position i.
  ghost function FirstTake(h: History, i: nat, c: IlCode, t: TribeId): (j: Option<nat>)
    requires i <= |h|
    ensures j.Some? ==> i <= j.value < |h| && Takes(h, j.value, c, t)
    ensures j.Some? ==> forall k :: i <= k < j.value ==> !Takes(h, k, c, t)
    ensures j.None? ==> forall k :: i <= k < |h| ==> !Takes(h, k, c, t)
    decreases |h| - i
  {
    if i == |h| then None
    else if Takes(h, i, c, t) then Some(i)
    else FirstTake(h, i + 1, c, t)
  }

  lemma StepAt(h: History, j: nat, c: IlCode)
    requires Positive(h) && j < |h|
    ensures c != h[j].city ==> Holder(h[..j + 1], c) == Holder(h[..j], c)
    ensures c == h[j].city ==>
      Holder(h[..j + 1], c) in {Some(h[j].tribe), Holder(h[..j], c)} && Holder(h[..j + 1], c).Some?
    ensures Holder(h[..j], c) == Some(h[j].tribe) ==> Holder(h[..j + 1], c) == Holder(h[..j], c)
  {
    assert h[..j + 1] == h[..j] + [h[j]];
    HolderStep(h[..j], h[j], c);
  }

  // The tribe that takes a city is the tribe of the spend that flipped it, and it did not hold it.
  lemma CaptureIsBySpender(h: History, j: nat)
    requires Positive(h) && j < |h|
    ensures IsCapture(h, j) <==>
      Holder(h[..j], h[j].city) != Some(h[j].tribe) && Holder(h[..j + 1], h[j].city) == Some(h[j].tribe)
  {
    StepAt(h, j, h[j].city);
  }

  // Without a capture by t in between, a city t does not hold stays out of its hands.
  lemma {:induction false} NotTakenNotHeld(h: History, i: nat, k: nat, c: IlCode, t: TribeId)
    requires Positive(h) && i <= k <= |h|
    requires Holder(h[..i], c) != Some(t)
    requires forall j :: i <= j < k ==> !Takes(h, j, c, t)
    ensures Holder(h[..k], c) != Some(t)
    decreases k
  {
    if i < k {
      NotTakenNotHeld(h, i, k - 1, c, t);
      StepAt(h, k - 1, c);
      assert !Takes(h, k - 1, c, t);
    }
  }

  // A tribe that held a city at i and no longer does at k was flipped out in between.
  lemma {:induction false} HeldThenLost(h: History, i: nat, k: nat, c: IlCode, t: TribeId) returns (j: nat)
    requires Positive(h) && i <= k <= |h|
    requires Holder(h[..i], c) == Some(t) && Holder(h[..k], c) != Some(t)
    ensures i <= j < k && h[j].city == c && IsCapture(h, j) && Holder(h[..j], c) == Some(t)
    decreases k
  {
    if Holder(h[..k - 1], c) == Some(t) {
      j := k - 1;
      StepAt(h, j, c);
    } else {
      j := HeldThenLost(h, i, k - 1, c, t);
    }
  }

  // ---------------------------------------------------------------- one more spend

  lemma OldCapturesStand(h: History, s: Spend, j: nat)
    requires j < |h|
    ensures IsCapture(h + [s], j) == IsCapture(h, j)
    ensures (h + [s])[..j] == h[..j]
  {
    assert (h + [s])[..j] == h[..j] && (h + [s])[..j + 1] == h[..j + 1];
  }

  lemma {:induction false} FirstTakeAppend(h: History, s: Spend, i: nat, c: IlCode, t: TribeId)
    requires i <= |h|
    ensures FirstTake(h + [s], i, c, t) ==
      if FirstTake(h, i, c, t).Some? then FirstTake(h, i, c, t)
      else if Takes(h + [s], |h|, c, t) then Some(|h|) else None
    decreases |h| - i
  {
    if i < |h| {
      OldCapturesStand(h, s, i);
      FirstTakeAppend(h, s, i + 1, c, t);
    }
  }
}
