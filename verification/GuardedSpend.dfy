/** backend/internal/support/spend.go Apply: the spend transaction behind the write-path circuit
    breaker, and which spends leave the breaker stuck. */
module GuardedSpend {
  import opened Prelude
  import opened Text
  import opened SpendHistory
  import opened Conquest
  import opened SupportService
  import opened Wallets
  import CircuitBreaker
  import Derbies

  datatype PathError = Degraded | Refused(why: SupportError)

  // isSupportBusinessErr
  predicate IsBusiness(why: SupportError) { why != StorageFailed }

  // What a caller can look up beforehand: the spend passes the checks that come before the
  // breaker is asked ...
  predicate AsksBreaker(city: IlCode, credits: int) {
    credits > 0 && city != ""
  }

  // ... and then fails one of those that come after.
  predicate FailsLate(cities: CityNames, profile: Option<Profile>, city: IlCode, credits: int, balance: int) {
    || city !in cities
    || profile.None? || profile.value.tribe.None?
    || (!profile.value.shadowBanned && balance < credits)
  }

  function OutcomeOf(cities: CityNames, profile: Option<Profile>, city: IlCode, credits: int, balance: int, stored: bool)
    : CircuitBreaker.Outcome
  {
    if FailsLate(cities, profile, city, credits, balance) then CircuitBreaker.BusinessError
    else if stored then CircuitBreaker.Done
    else CircuitBreaker.StorageError
  }

  // The trial of an open breaker is its last call ever exactly when the spend that makes it names
  // an unknown city, comes from a user without a tribe, or, unless the user is shadow-banned,
  // asks for more credits than the balance holds.
  lemma TrialWedgesIff(c: CircuitBreaker.Config, t: CircuitBreaker.Trace, asked: int, ended: int,
                       cities: CityNames, profile: Option<Profile>, city: IlCode, credits: int, balance: int, stored: bool)
    requires CircuitBreaker.ValidConfig(c)
    requires CircuitBreaker.StateOf(c, t) == CircuitBreaker.Open && CircuitBreaker.Admits(c, t, asked)
    ensures
      var trial := CircuitBreaker.Call(asked, ended, OutcomeOf(cities, profile, city, credits, balance, stored));
      (forall calls, now :: !CircuitBreaker.Admits(c, CircuitBreaker.AfterCalls(c, CircuitBreaker.AfterCall(c, t, trial), calls), now))
      <==> FailsLate(cities, profile, city, credits, balance)
  {
    var trial := CircuitBreaker.Call(asked, ended, OutcomeOf(cities, profile, city, credits, balance, stored));
    CircuitBreaker.TrialMustBeRecorded(c, t, trial);
  }

  // Such a run: the only storage error so far has opened the breaker, and after the cooldown the
  // first spend names a city that does not exist. Nothing is ever admitted again.
  lemma UnknownCityWedges(calls: seq<CircuitBreaker.Call>, now: int)
    ensures
      var c := CircuitBreaker.Config(1, 30_000);
      var late := CircuitBreaker.Call(30_000, 30_001, OutcomeOf(map[], Some(Profile(Some(1), false)), "99", 10, 100, true));
      var run := [CircuitBreaker.Call(0, 0, CircuitBreaker.StorageError), late];
      && CircuitBreaker.Admits(c, [], 0)
      && !CircuitBreaker.Admits(c, CircuitBreaker.AfterCalls(c, CircuitBreaker.AfterCalls(c, [], run), calls), now)
  {
    CircuitBreaker.BusinessTrialWedges(calls, now);
  }

  class SpendPath {
    const breaker: CircuitBreaker.CircuitBreaker
    const service: Service

    ghost predicate Valid()
      reads this, breaker, service, service.wallet, service.store, service.derbies, service.streaks
    {
      breaker.Valid() && service.Valid()
    }

    constructor (breaker: CircuitBreaker.CircuitBreaker, service: Service)
      requires breaker.Valid() && service.Valid()
      ensures Valid() && this.breaker == breaker && this.service == service
    {
      this.breaker, this.service := breaker, service;
    }

    // `asked` and `ended` are the times at which the breaker is asked and told.
    method Apply(user: UserId, profile: Option<Profile>, ilCode: IlCode, credits: int, now: int,
                 id: SupportId, flipId: LogId, fault: Fault, asked: int, ended: int)
      returns (r: Result<SupportResult, PathError>)
      requires Valid() && KeyIsFresh(service.wallet.ledger, SupportKey(id))
      requires forall i :: 0 <= i < |service.history| ==> service.history[i].id != id && service.history[i].flipId != flipId
      requires forall i :: 0 <= i < |service.history| && service.history[i].city == NormalizeIlCode(ilCode) ==>
        service.history[i].at < now
      modifies breaker, service, service.wallet, service.store, service.derbies, service.streaks
      ensures Valid()
      ensures r.Err? ==> service.Snap() == old(service.Snap())
      // a spend refused before the breaker is asked leaves no trace with it
      ensures !AsksBreaker(NormalizeIlCode(ilCode), credits) ==>
        r.Err? && r.error.Refused? && breaker.trace == old(breaker.trace)
      // any other is one call, with the outcome that the guards decide
      ensures AsksBreaker(NormalizeIlCode(ilCode), credits) ==>
        && (r == Err(Degraded) <==> !CircuitBreaker.Admits(breaker.Settings(), old(breaker.trace), asked))
        && breaker.trace == CircuitBreaker.AfterCall(breaker.Settings(), old(breaker.trace),
             CircuitBreaker.Call(asked, ended,
               OutcomeOf(service.cities, profile, NormalizeIlCode(ilCode), credits,
                         BalanceOf(old(service.wallet.State()), user), r.Ok?)))
    {
      hide CircuitBreaker.StateOf, CircuitBreaker.Admits, Wallets.Valid, NormalizeIlCode, SupportKey, IdText,
           Service.Valid, Service.Snap;
      var city := NormalizeIlCode(ilCode);
      if credits <= 0 { return Err(Refused(InvalidCredits)); }
      if city == "" { return Err(Refused(InvalidIlCode)); }
      var admitted := breaker.Allow(asked);
      if !admitted { return Err(Degraded); }
      var spent := service.Apply(user, profile, ilCode, credits, now, id, flipId, fault);
      if spent.Err? {
        if !IsBusiness(spent.error) { breaker.RecordFailure(ended); }
        return Err(Refused(spent.error));
      }
      breaker.RecordSuccess();
      r := Ok(spent.value);
    }
  }
}
