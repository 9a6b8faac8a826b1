/**
 Single-flight refresh of one cloud credential
 (server/aliyun/managed_credentials.py).

 `Provider` is the state guarded by the provider's lock, together with every Future
 it ever created (a Future is named by its index).  The class `ManagedCredentialsProvider`
 is the imperative code; each of its methods is one critical section and is proved equal to
 a function on `Provider`.  `System` adds any number of concurrent callers and a clock that
 never runs backwards, and the theorems at the end speak about every run of that system.
 */
module ManagedCredentials {
  import opened Common

  const SDK_STALE_SECONDS: int := 15 * 60
  const NEVER: int := 0x7FFF_FFFF_FFFF_FFFF

  datatype Credentials = Credentials(accessKey: string, expiration: Option<int>)

  // What a shared Future is settled with.
  datatype Outcome = Value(credentials: Credentials) | Raised(cause: string)

  datatype Config = Config(jitter: int, failureRetry: int)

  datatype Provider = Provider(
    credentials: Option<Credentials>,
    refreshAt: int,
    nextRetryAt: int,
    inflight: Option<nat>,
    futures: seq<Option<Outcome>>)

  datatype Admission = Cached(credentials: Credentials) | Join(future: nat) | Own(future: nat)

  const INITIAL_PROVIDER := Provider(None, 0, 0, None, [])

  predicate Expired(c: Credentials, now: int) {
    c.expiration.Some? && c.expiration.value <= now
  }

  function ValidCached(p: Provider, now: int): Option<Credentials> {
    if p.credentials.Some? && !Expired(p.credentials.value, now) then p.credentials else None
  }

  predicate RefreshDue(p: Provider, now: int) {
    match p.credentials
    case None => true
    case Some(c) =>
      match c.expiration
      case None => false
      case Some(e) => e <= now || (p.refreshAt <= now && p.nextRetryAt <= now)
  }

  // The decision of `_begin_refresh`, which reads the clock twice.
  function Admit(p: Provider, t1: int, t2: int): Admission {
    var cached := ValidCached(p, t1);
    if cached.Some? && !RefreshDue(p, t2) then Cached(cached.value)
    else if p.inflight.Some? then Join(p.inflight.value)
    else Own(|p.futures|)
  }

  function Begin(p: Provider, t1: int, t2: int): Provider {
    if Admit(p, t1, t2).Own?
    then p.(inflight := Some(|p.futures|), futures := p.futures + [None])
    else p
  }

  function RefreshTime(expiration: int, jitter: int): int {
    var staleTime := expiration - SDK_STALE_SECONDS;
    if expiration - 1 <= staleTime + jitter then expiration - 1 else staleTime + jitter
  }

  function Succeed(p: Provider, cfg: Config, f: nat, c: Credentials): Provider
    requires f < |p.futures|
  {
    Provider(
      Some(c),
      if c.expiration.None? then NEVER else RefreshTime(c.expiration.value, cfg.jitter),
      0,
      None,
      p.futures[f := Some(Value(c))])
  }

  function Fail(p: Provider, cfg: Config, f: nat, cause: string, t1: int, t2: int): Provider
    requires f < |p.futures|
  {
    var cached := ValidCached(p, t1);
    if cached.Some?
    then p.(inflight := None, nextRetryAt := t2 + cfg.failureRetry,
            futures := p.futures[f := Some(Value(cached.value))])
    else p.(inflight := None, futures := p.futures[f := Some(Raised(cause))])
  }

  /** The provider object.  Every method body is what runs while `_state_lock` is held. */
  class ManagedCredentialsProvider {
    const cfg: Config
    var credentials: Option<Credentials>
    var refreshAt: int
    var nextRetryAt: int
    var inflight: Option<nat>
    var futures: seq<Option<Outcome>>

    function State(): Provider
      reads this
    {
      Provider(credentials, refreshAt, nextRetryAt, inflight, futures)
    }

    constructor (cfg: Config)
      ensures this.cfg == cfg && State() == INITIAL_PROVIDER
    {
      this.cfg := cfg;
      credentials, refreshAt, nextRetryAt, inflight, futures := None, 0, 0, None, [];
    }

    method BeginRefresh(t1: int, t2: int) returns (cached: Option<Credentials>, future: Option<nat>, owner: bool)
      modifies this
      ensures State() == Begin(old(State()), t1, t2)
      ensures match Admit(old(State()), t1, t2)
              case Cached(c) => cached == Some(c) && future == None && !owner
              case Join(f) => cached == None && future == Some(f) && !owner
              case Own(f) => cached == None && future == Some(f) && owner
    {
      cached := None;
      if credentials.Some? && !Expired(credentials.value, t1) {
        cached := credentials;
      }
      if cached.Some? && !RefreshDue(State(), t2) {
        return cached, None, false;
      }
      cached := None;
      if inflight.Some? {
        return None, inflight, false;
      }
      future := Some(|futures|);
      futures := futures + [None];
      inflight := future;
      owner := true;
    }

    // The part of `_complete_success` that holds the lock.  Settling a Future twice is an error in
    // Python, so the Future must still be pending.
    method StoreCredentials(f: nat, c: Credentials)
      requires f < |futures| && futures[f].None?
      modifies this
      ensures State() == Succeed(old(State()), cfg, f, c)
    {
      credentials := Some(c);
      nextRetryAt := 0;
      if c.expiration.None? {
        refreshAt := NEVER;
      } else {
        var e := c.expiration.value;
        var staleTime := e - SDK_STALE_SECONDS;
        refreshAt := e - 1;
        if staleTime + cfg.jitter < e - 1 {
          refreshAt := staleTime + cfg.jitter;
        }
      }
      inflight := None;
      futures := futures[f := Some(Value(c))];
    }

    method CompleteFailure(f: nat, cause: string, t1: int, t2: int)
      requires f < |futures| && futures[f].None?
      modifies this
      ensures State() == Fail(old(State()), cfg, f, cause, t1, t2)
    {
      var cached := ValidCached(State(), t1);
      inflight := None;
      if cached.Some? {
        nextRetryAt := t2 + cfg.failureRetry;
        futures := futures[f := Some(Value(cached.value))];
      } else {
        futures := futures[f := Some(Raised(cause))];
      }
    }
  }

  // ----- any number of callers, threads or tasks -----

  datatype Phase =
    | Fetching(future: nat)                              // owner, the delegate is running
    | Storing(future: nat, fetched: Credentials)         // owner, passed the expiry check, wants the lock
    | Failing(future: nat, cause: string, reraise: bool) // owner, wants the lock to record a failure
    | Waiting(future: nat)
    | Checking(result: Credentials)                      // has the shared result, not yet revalidated
    | Returned(result: Credentials, readAt: int)
    | Failed

  // fixedAt: the time at which the value of the call was fixed.
  datatype Call = Call(startedAt: int, fixedAt: int, phase: Phase)

  datatype System = System(provider: Provider, now: int, calls: seq<Call>)

  datatype Event =
    | Start(t1: int, t2: int)
    | DelegateReturns(call: nat, fetched: Credentials, t: int)
    | DelegateRaises(call: nat, cause: string)
    | DelegateCancelled(call: nat)
    | Store(call: nat)
    | RecordFailure(call: nat, t1: int, t2: int)
    | Collect(call: nat)
    | AbandonWait(call: nat)
    | Revalidate(call: nat, t: int)

  function OwnedFuture(c: Call): Option<nat> {
    match c.phase
    case Fetching(f) => Some(f)
    case Storing(f, _) => Some(f)
    case Failing(f, _, _) => Some(f)
    case _ => None
  }

  predicate Enabled(s: System, e: Event) {
    match e
    case Start(t1, t2) => s.now <= t1 <= t2
    case DelegateReturns(i, _, t) => i < |s.calls| && s.calls[i].phase.Fetching? && s.now <= t
    case DelegateRaises(i, _) => i < |s.calls| && s.calls[i].phase.Fetching?
    case DelegateCancelled(i) => i < |s.calls| && s.calls[i].phase.Fetching?
    case Store(i) => i < |s.calls| && s.calls[i].phase.Storing?
                     && s.calls[i].phase.future < |s.provider.futures|
    case RecordFailure(i, t1, t2) => i < |s.calls| && s.calls[i].phase.Failing? && s.now <= t1 <= t2
                                     && s.calls[i].phase.future < |s.provider.futures|
    case Collect(i) => i < |s.calls| && s.calls[i].phase.Waiting?
                       && s.calls[i].phase.future < |s.provider.futures|
                       && s.provider.futures[s.calls[i].phase.future].Some?
    case AbandonWait(i) => i < |s.calls| && s.calls[i].phase.Waiting?
    case Revalidate(i, t) => i < |s.calls| && s.calls[i].phase.Checking? && s.now <= t
  }

  function SetPhase(s: System, i: nat, phase: Phase): System
    requires i < |s.calls|
  {
    s.(calls := s.calls[i := s.calls[i].(phase := phase)])
  }

  function Apply(cfg: Config, s: System, e: Event): System
    requires Enabled(s, e)
  {
    match e
    case Start(t1, t2) =>
      var p := Begin(s.provider, t1, t2);
      var call := match Admit(s.provider, t1, t2)
                  case Cached(c) => Call(t1, t1, Returned(c, t2))
                  case Join(f) => Call(t1, t1, Waiting(f))
                  case Own(f) => Call(t1, t1, Fetching(f));
      System(p, t2, s.calls + [call])
    case DelegateReturns(i, c, t) =>
      var f := s.calls[i].phase.future;
      SetPhase(s.(now := t), i,
               if Expired(c, t) then Failing(f, "expired", false) else Storing(f, c))
    case DelegateRaises(i, cause) =>
      SetPhase(s, i, Failing(s.calls[i].phase.future, cause, false))
    case DelegateCancelled(i) =>
      SetPhase(s, i, Failing(s.calls[i].phase.future, "cancelled", true))
    case Store(i) =>
      var phase := s.calls[i].phase;
      SetPhase(s.(provider := Succeed(s.provider, cfg, phase.future, phase.fetched)), i, Waiting(phase.future))
    case RecordFailure(i, t1, t2) =>
      var phase := s.calls[i].phase;
      SetPhase(s.(provider := Fail(s.provider, cfg, phase.future, phase.cause, t1, t2), now := t2), i,
               if phase.reraise then Failed else Waiting(phase.future))
    case Collect(i) =>
      match s.provider.futures[s.calls[i].phase.future].value {
        case Value(c) => s.(calls := s.calls[i := Call(s.calls[i].startedAt, s.now, Checking(c))])
        case Raised(_) => SetPhase(s, i, Failed)
      }
    case AbandonWait(i) => SetPhase(s, i, Failed)
    case Revalidate(i, t) =>
      var c := s.calls[i].phase.result;
      SetPhase(s.(now := t), i, if Expired(c, t) then Failed else Returned(c, t))
  }

  ghost predicate FuturesMatchInflight(p: Provider) {
    && (p.inflight.Some? ==> p.inflight.value < |p.futures|)
    && (forall f: nat :: f < |p.futures| ==> (p.futures[f].None? <==> p.inflight == Some(f)))
  }

  // Every call that owns a Future is the given call, and it owns the in-flight one.
  ghost predicate OwnedBy(s: System, owner: Option<nat>) {
    && (forall i: nat :: i < |s.calls| && OwnedFuture(s.calls[i]).Some? ==> owner == Some(i))
    && (owner.Some? ==>
          owner.value < |s.calls| && s.provider.inflight.Some? && OwnedFuture(s.calls[owner.value]) == s.provider.inflight)
    && (owner.None? ==> s.provider.inflight.None?)
  }

  ghost predicate SoleOwner(s: System) {
    exists owner: Option<nat> :: OwnedBy(s, owner)
  }

  ghost predicate CallOk(s: System, c: Call) {
    && c.startedAt <= c.fixedAt <= s.now
    && (c.phase.Waiting? ==> c.phase.future < |s.provider.futures|)
    && (c.phase.Returned? ==> !Expired(c.phase.result, c.phase.readAt) && c.fixedAt <= c.phase.readAt <= s.now)
  }

  ghost predicate ScheduleOk(cfg: Config, p: Provider) {
    p.credentials.Some? ==>
      match p.credentials.value.expiration
      case Some(e) => p.refreshAt == RefreshTime(e, cfg.jitter)
      case None => p.refreshAt == NEVER && p.inflight.None?
  }

  ghost predicate Inv(cfg: Config, s: System) {
    && FuturesMatchInflight(s.provider)
    && SoleOwner(s)
    && (forall i: nat :: i < |s.calls| ==> CallOk(s, s.calls[i]))
    && ScheduleOk(cfg, s.provider)
  }

  lemma OwnerAfterStart(cfg: Config, s: System, t1: int, t2: int, owner: Option<nat>)
    requires OwnedBy(s, owner) && Enabled(s, Start(t1, t2))
    ensures OwnedBy(Apply(cfg, s, Start(t1, t2)), if Admit(s.provider, t1, t2).Own? then Some(|s.calls|) else owner)
  {
  }

  lemma OwnerAfterSettling(cfg: Config, s: System, e: Event, owner: Option<nat>)
    requires OwnedBy(s, owner) && Enabled(s, e) && (e.Store? || e.RecordFailure?)
    ensures OwnedBy(Apply(cfg, s, e), None)
  {
    assert owner == Some(e.call);
  }

  lemma OwnerStays(cfg: Config, s: System, e: Event, owner: Option<nat>)
    requires OwnedBy(s, owner) && Enabled(s, e) && !e.Start? && !e.Store? && !e.RecordFailure?
    ensures OwnedBy(Apply(cfg, s, e), owner)
  {
    var s' := Apply(cfg, s, e);
    forall i: nat | i < |s.calls|
      ensures OwnedFuture(s'.calls[i]) == OwnedFuture(s.calls[i])
    {
    }
  }

  lemma SoleOwnerStep(cfg: Config, s: System, e: Event)
    requires SoleOwner(s) && Enabled(s, e)
    ensures SoleOwner(Apply(cfg, s, e))
  {
    var owner: Option<nat> :| OwnedBy(s, owner);
    match e {
      case Start(t1, t2) => OwnerAfterStart(cfg, s, t1, t2, owner);
      case Store(i) => OwnerAfterSettling(cfg, s, e, owner);
      case RecordFailure(i, t1, t2) => OwnerAfterSettling(cfg, s, e, owner);
      case _ => OwnerStays(cfg, s, e, owner);
    }
  }

  lemma FuturesStep(cfg: Config, s: System, e: Event)
    requires FuturesMatchInflight(s.provider) && SoleOwner(s) && Enabled(s, e)
    ensures FuturesMatchInflight(Apply(cfg, s, e).provider)
  {
    if e.Store? || e.RecordFailure? {
      assert OwnedFuture(s.calls[e.call]) == s.provider.inflight;
    }
  }

  lemma CallsStep(cfg: Config, s: System, e: Event)
    requires FuturesMatchInflight(s.provider) && Enabled(s, e)
    requires forall i: nat :: i < |s.calls| ==> CallOk(s, s.calls[i])
    ensures forall i: nat :: i < |Apply(cfg, s, e).calls| ==> CallOk(Apply(cfg, s, e), Apply(cfg, s, e).calls[i])
  {
    var s' := Apply(cfg, s, e);
    forall i: nat | i < |s'.calls|
      ensures CallOk(s', s'.calls[i])
    {
      if i < |s.calls| {
        assert CallOk(s, s.calls[i]);
      }
    }
  }

  lemma ScheduleStep(cfg: Config, s: System, e: Event)
    requires ScheduleOk(cfg, s.provider) && Enabled(s, e) && SoleOwner(s)
    ensures ScheduleOk(cfg, Apply(cfg, s, e).provider)
  {
    if e.RecordFailure? {
      assert OwnedFuture(s.calls[e.call]) == s.provider.inflight;
    }
  }

  lemma InvStep(cfg: Config, s: System, e: Event)
    requires Inv(cfg, s) && Enabled(s, e)
    ensures Inv(cfg, Apply(cfg, s, e))
  {
    SoleOwnerStep(cfg, s, e);
    FuturesStep(cfg, s, e);
    CallsStep(cfg, s, e);
    ScheduleStep(cfg, s, e);
  }

  // ----- theorems about every run -----

  ghost predicate IsRun(cfg: Config, states: seq<System>, events: seq<Event>) {
    && |states| == |events| + 1
    && states[0].provider == INITIAL_PROVIDER && states[0].calls == []
    && forall k: nat :: k < |events| ==>
         Enabled(states[k], events[k]) && states[k + 1] == Apply(cfg, states[k], events[k])
  }

  lemma {:induction false} RunInv(cfg: Config, states: seq<System>, events: seq<Event>, k: nat)
    requires IsRun(cfg, states, events) && k <= |events|
    ensures Inv(cfg, states[k])
  {
    if k == 0 {
      assert OwnedBy(states[0], None);
    } else {
      RunInv(cfg, states, events, k - 1);
      InvStep(cfg, states[k - 1], events[k - 1]);
    }
  }

  /** At most one caller has begun a refresh and not completed it, there is an in-flight Future
      exactly then, it is that caller's, and it is the only Future not yet settled. */
  lemma SingleFlight(cfg: Config, states: seq<System>, events: seq<Event>, k: nat)
    requires IsRun(cfg, states, events) && k <= |events|
    ensures forall i: nat, j: nat | i < |states[k].calls| && j < |states[k].calls| ::
              OwnedFuture(states[k].calls[i]).Some? && OwnedFuture(states[k].calls[j]).Some? ==> i == j
    ensures states[k].provider.inflight.Some? <==>
            exists i: nat :: i < |states[k].calls| && OwnedFuture(states[k].calls[i]).Some?
    ensures forall i: nat :: i < |states[k].calls| && OwnedFuture(states[k].calls[i]).Some?
              ==> OwnedFuture(states[k].calls[i]) == states[k].provider.inflight
    ensures forall f: nat :: f < |states[k].provider.futures| ==>
              (states[k].provider.futures[f].None? <==> states[k].provider.inflight == Some(f))
  {
    RunInv(cfg, states, events, k);
    var owner: Option<nat> :| OwnedBy(states[k], owner);
    if states[k].provider.inflight.Some? {
      assert OwnedFuture(states[k].calls[owner.value]).Some?;
    }
  }

  lemma {:induction false} FutureStable(cfg: Config, states: seq<System>, events: seq<Event>, j: nat, k: nat, f: nat)
    requires IsRun(cfg, states, events) && j <= k <= |events|
    requires f < |states[j].provider.futures|
    ensures f < |states[k].provider.futures|
    ensures states[j].provider.futures[f].Some? ==>
              states[k].provider.futures[f] == states[j].provider.futures[f]
    decreases k
  {
    if j < k {
      FutureStable(cfg, states, events, j, k - 1, f);
      SettlesPending(cfg, states, events, k - 1);
    }
  }

  // The event settles Future f.
  predicate Settles(s: System, e: Event, f: nat) {
    && (e.Store? || e.RecordFailure?)
    && e.call < |s.calls| && OwnedFuture(s.calls[e.call]) == Some(f)
  }

  lemma SettlesPending(cfg: Config, states: seq<System>, events: seq<Event>, k: nat)
    requires IsRun(cfg, states, events) && k < |events|
    ensures forall f: nat :: Settles(states[k], events[k], f) ==>
              && f < |states[k].provider.futures|
              && states[k].provider.futures[f].None?
              && f < |states[k + 1].provider.futures|
              && states[k + 1].provider.futures[f].Some?
    ensures forall f: nat :: f < |states[k].provider.futures| && !Settles(states[k], events[k], f) ==>
              f < |states[k + 1].provider.futures| && states[k + 1].provider.futures[f] == states[k].provider.futures[f]
  {
    SingleFlight(cfg, states, events, k);
    RunInv(cfg, states, events, k);
  }

  lemma {:induction false} SettledBy(cfg: Config, states: seq<System>, events: seq<Event>, k: nat, f: nat) returns (n: nat)
    requires IsRun(cfg, states, events) && k <= |events|
    requires f < |states[k].provider.futures| && states[k].provider.futures[f].Some?
    ensures n < k && Settles(states[n], events[n], f)
  {
    if f < |states[k - 1].provider.futures| && states[k - 1].provider.futures[f].Some? {
      n := SettledBy(cfg, states, events, k - 1, f);
    } else {
      n := k - 1;
      SettlesPending(cfg, states, events, n);
    }
  }

  /** A Future that is settled was settled by exactly one step of the run: the lock never sets a
      result or an exception twice, also when a delegate hands back an expired credential. */
  lemma SettledExactlyOnce(cfg: Config, states: seq<System>, events: seq<Event>, k: nat, f: nat)
    requires IsRun(cfg, states, events) && k <= |events|
    requires f < |states[k].provider.futures| && states[k].provider.futures[f].Some?
    ensures exists n: nat :: n < |events| && Settles(states[n], events[n], f)
    ensures forall m: nat, n: nat | m < |events| && n < |events| ::
              Settles(states[m], events[m], f) && Settles(states[n], events[n], f) ==> m == n
  {
    var n := SettledBy(cfg, states, events, k, f);
    forall m: nat, n: nat | m < n < |events| && Settles(states[m], events[m], f) && Settles(states[n], events[n], f)
      ensures false
    {
      SettlesPending(cfg, states, events, m);
      SettlesPending(cfg, states, events, n);
      FutureStable(cfg, states, events, m + 1, n, f);
    }
  }

  /** Everybody who waits on one attempt reads the same outcome, whenever they read it. */
  lemma WaitersAgree(cfg: Config, states: seq<System>, events: seq<Event>, j: nat, k: nat)
    requires IsRun(cfg, states, events) && j <= k < |events|
    requires events[j].Collect? && events[k].Collect?
    requires states[j].calls[events[j].call].phase == states[k].calls[events[k].call].phase
    ensures states[j + 1].calls[events[j].call].phase == states[k + 1].calls[events[k].call].phase
  {
    FutureStable(cfg, states, events, j, k, states[j].calls[events[j].call].phase.future);
  }

  /** No call returns an expired credential: on every path the result was unexpired at a clock
      reading taken inside the call, after the value of the call was fixed. */
  lemma NoExpiredResult(cfg: Config, states: seq<System>, events: seq<Event>, k: nat, i: nat)
    requires IsRun(cfg, states, events) && k <= |events|
    requires i < |states[k].calls| && states[k].calls[i].phase.Returned?
    ensures var call := states[k].calls[i];
            && !Expired(call.phase.result, call.phase.readAt)
            && call.startedAt <= call.fixedAt <= call.phase.readAt <= states[k].now
  {
    RunInv(cfg, states, events, k);
    assert CallOk(states[k], states[k].calls[i]);
  }

  /** While the cached credential is unexpired, the delegate is called only after both the refresh
      time and the retry time.  The refresh time precedes the expiry, and for the default jitter it
      lies between 15 and 13 minutes before it.  A non-expiring credential is never refreshed. */
  lemma RefreshSchedule(cfg: Config, states: seq<System>, events: seq<Event>, k: nat)
    requires IsRun(cfg, states, events) && k < |events|
    requires events[k].Start? && Admit(states[k].provider, events[k].t1, events[k].t2).Own?
    ensures var p := states[k].provider;
            p.credentials.Some? && !Expired(p.credentials.value, events[k].t2) ==>
              && p.credentials.value.expiration.Some?
              && p.refreshAt <= events[k].t2 && p.nextRetryAt <= events[k].t2
    ensures var p := states[k].provider;
            p.credentials.Some? && p.credentials.value.expiration.Some? ==>
              var e := p.credentials.value.expiration.value;
              && p.refreshAt == (if cfg.jitter <= 899 then e - 900 + cfg.jitter else e - 1)
              && p.refreshAt <= e - 1
              && (0 <= cfg.jitter <= 120 ==> e - 900 <= p.refreshAt <= e - 780)
  {
    RunInv(cfg, states, events, k);
  }

  // The event records a failed refresh and falls back to the cached credential.
  predicate FallsBack(s: System, e: Event) {
    e.RecordFailure? && ValidCached(s.provider, e.t1).Some?
  }

  lemma {:induction false} RetryTimeHolds(cfg: Config, states: seq<System>, events: seq<Event>, j: nat, k: nat)
    requires IsRun(cfg, states, events) && j < k <= |events|
    requires FallsBack(states[j], events[j])
    requires forall n: nat :: j < n < k ==> !events[n].Store?
    ensures events[j].t2 + cfg.failureRetry <= states[k].provider.nextRetryAt
    ensures events[j].t2 <= states[k].now
    decreases k
  {
    if j + 1 < k {
      RetryTimeHolds(cfg, states, events, j, k - 1);
    }
  }

  /** Back-off: after a failed refresh that fell back to the cached credential, and until a refresh
      succeeds, no delegate call starts within the retry interval unless that credential expires. */
  lemma BackOff(cfg: Config, states: seq<System>, events: seq<Event>, j: nat, k: nat)
    requires IsRun(cfg, states, events) && j < k < |events|
    requires FallsBack(states[j], events[j])
    requires forall n: nat :: j < n < k ==> !events[n].Store?
    requires events[k].Start? && Admit(states[k].provider, events[k].t1, events[k].t2).Own?
    ensures states[k].provider.credentials.Some?
    ensures Expired(states[k].provider.credentials.value, events[k].t2)
            || events[j].t2 + cfg.failureRetry <= events[k].t2
  {
    RetryTimeHolds(cfg, states, events, j, k);
    RefreshSchedule(cfg, states, events, k);
    CredentialsStay(cfg, states, events, j, k);
  }

  lemma {:induction false} CredentialsStay(cfg: Config, states: seq<System>, events: seq<Event>, j: nat, k: nat)
    requires IsRun(cfg, states, events) && j <= k <= |events|
    requires states[j].provider.credentials.Some?
    ensures states[k].provider.credentials.Some?
    decreases k
  {
    if j < k {
      CredentialsStay(cfg, states, events, j, k - 1);
    }
  }

  /** Once a non-expiring credential is stored, no refresh is ever begun or stored again, and every
      new call returns that credential at once. */
  lemma {:induction false} NonExpiringFetchedOnce(cfg: Config, states: seq<System>, events: seq<Event>, j: nat, k: nat)
    requires IsRun(cfg, states, events) && j <= k <= |events|
    requires states[j].provider.credentials.Some? && states[j].provider.credentials.value.expiration.None?
    ensures states[k].provider == states[j].provider
    ensures k < |events| ==> !events[k].Store? && !events[k].RecordFailure?
    ensures k < |events| && events[k].Start? ==>
              Admit(states[k].provider, events[k].t1, events[k].t2) == Cached(states[j].provider.credentials.value)
    decreases k
  {
    if j < k {
      NonExpiringFetchedOnce(cfg, states, events, j, k - 1);
    }
    RunInv(cfg, states, events, k);
  }

  lemma {:induction false} ScheduleUnchanged(cfg: Config, states: seq<System>, events: seq<Event>, j: nat, k: nat)
    requires IsRun(cfg, states, events) && j < k <= |events|
    requires events[j].Store?
    requires forall n: nat :: j < n < k ==> !events[n].Store? && !FallsBack(states[n], events[n])
    ensures states[k].provider.credentials == Some(states[j].calls[events[j].call].phase.fetched)
    ensures states[k].provider.nextRetryAt == 0 && states[j].now <= states[k].now
    decreases k
  {
    if j + 1 < k {
      ScheduleUnchanged(cfg, states, events, j, k - 1);
    }
  }

  lemma {:induction false} ClockMonotone(cfg: Config, states: seq<System>, events: seq<Event>, k: nat)
    requires IsRun(cfg, states, events) && k <= |events|
    ensures states[0].now <= states[k].now
  {
    if k > 0 {
      ClockMonotone(cfg, states, events, k - 1);
    }
  }

  /** After a successful refresh that brought a temporary credential, and until the next success or
      fallback, a new call is served from the cache exactly before the scheduled refresh time. */
  lemma ServedFromCacheIffFresh(cfg: Config, states: seq<System>, events: seq<Event>, j: nat, k: nat)
    requires IsRun(cfg, states, events) && j < k < |events| && 0 <= states[0].now
    requires events[j].Store? && events[k].Start?
    requires states[j].calls[events[j].call].phase.fetched.expiration.Some?
    requires forall n: nat :: j < n < k ==> !events[n].Store? && !FallsBack(states[n], events[n])
    ensures var e := states[j].calls[events[j].call].phase.fetched.expiration.value;
            Admit(states[k].provider, events[k].t1, events[k].t2).Cached? <==> events[k].t2 < RefreshTime(e, cfg.jitter)
  {
    RunInv(cfg, states, events, k);
    ClockMonotone(cfg, states, events, k);
    ScheduleUnchanged(cfg, states, events, j, k);
  }

  // Some delegate call handed out c before step k, unexpired at the reading taken when it returned.
  ghost predicate FetchedBefore(events: seq<Event>, k: nat, c: Credentials) {
    exists n: nat :: n < k && n < |events| && events[n].DelegateReturns? && events[n].fetched == c
                     && !Expired(c, events[n].t)
  }

  ghost predicate AllFetched(s: System, events: seq<Event>, k: nat) {
    && (s.provider.credentials.Some? ==> FetchedBefore(events, k, s.provider.credentials.value))
    && (forall f: nat :: f < |s.provider.futures| && s.provider.futures[f].Some? && s.provider.futures[f].value.Value?
          ==> FetchedBefore(events, k, s.provider.futures[f].value.credentials))
    && (forall i: nat :: i < |s.calls| && s.calls[i].phase.Storing? ==> FetchedBefore(events, k, s.calls[i].phase.fetched))
    && (forall i: nat :: i < |s.calls| && s.calls[i].phase.Checking? ==> FetchedBefore(events, k, s.calls[i].phase.result))
    && (forall i: nat :: i < |s.calls| && s.calls[i].phase.Returned? ==> FetchedBefore(events, k, s.calls[i].phase.result))
  }

  lemma AllFetchedLater(s: System, events: seq<Event>, k: nat)
    requires AllFetched(s, events, k)
    ensures AllFetched(s, events, k + 1)
  {
    forall c | FetchedBefore(events, k, c)
      ensures FetchedBefore(events, k + 1, c)
    {
      var n: nat :| n < k && n < |events| && events[n].DelegateReturns? && events[n].fetched == c && !Expired(c, events[n].t);
    }
  }

  lemma AllFetchedStep(cfg: Config, s: System, e: Event, events: seq<Event>, k: nat)
    requires AllFetched(s, events, k) && Enabled(s, e)
    requires e.DelegateReturns? && !Expired(e.fetched, e.t) ==> FetchedBefore(events, k, e.fetched)
    ensures AllFetched(Apply(cfg, s, e), events, k)
  {
  }

  lemma {:induction false} AllFetchedRun(cfg: Config, states: seq<System>, events: seq<Event>, k: nat)
    requires IsRun(cfg, states, events) && k <= |events|
    ensures AllFetched(states[k], events, k)
  {
    if k > 0 {
      AllFetchedRun(cfg, states, events, k - 1);
      AllFetchedLater(states[k - 1], events, k - 1);
      AllFetchedStep(cfg, states[k - 1], events[k - 1], events, k);
    }
  }

  /** Provenance: whatever path a call took, the credential it returned was handed out by the
      delegate earlier in the run and was not already expired when it was handed out. */
  lemma ReturnedWasFetched(cfg: Config, states: seq<System>, events: seq<Event>, k: nat, i: nat)
    requires IsRun(cfg, states, events) && k <= |events|
    requires i < |states[k].calls| && states[k].calls[i].phase.Returned?
    ensures FetchedBefore(events, k, states[k].calls[i].phase.result)
  {
    AllFetchedRun(cfg, states, events, k);
  }

  // ----- what an attempt hands to its waiters -----

  // The cached credential needs no refresh at the second of the two clock readings.
  ghost predicate IsGood(p: Provider, t1: int, t2: int) {
    && p.credentials.Some?
    && (p.credentials.value.expiration.Some? ==>
          && t1 < p.credentials.value.expiration.value && t2 < p.credentials.value.expiration.value
          && (t2 < p.refreshAt || t2 < p.nextRetryAt))
  }

  /** A call that arrives returns the cached credential while it is good, joins the attempt under way
      otherwise, and starts one when there is none. */
  lemma ArrivalDecides(cfg: Config, states: seq<System>, events: seq<Event>, k: nat)
    requires IsRun(cfg, states, events) && k < |events| && events[k].Start?
    ensures |states[k + 1].calls| == |states[k].calls| + 1
    ensures var p, phase := states[k].provider, states[k + 1].calls[|states[k].calls|].phase;
            if IsGood(p, events[k].t1, events[k].t2) then phase == Returned(p.credentials.value, events[k].t2)
            else if p.inflight.Some? then phase == Waiting(p.inflight.value)
            else phase == Fetching(|p.futures|) && states[k + 1].provider.inflight == Some(|p.futures|)
  {
    assert Enabled(states[k], events[k]);
  }

  /** A failed refresh hands the cached credential to everybody who waits, as long as it is unexpired
      at the reading taken under the lock, and the error only when there is no such credential. */
  lemma FailureHandsOutCache(cfg: Config, states: seq<System>, events: seq<Event>, k: nat)
    requires IsRun(cfg, states, events) && k < |events| && events[k].RecordFailure?
    ensures var call, cached := states[k].calls[events[k].call], states[k].provider.credentials;
            && call.phase.Failing? && call.phase.future < |states[k + 1].provider.futures|
            && states[k + 1].provider.futures[call.phase.future] ==
               (if cached.Some? && (cached.value.expiration.None? || events[k].t1 < cached.value.expiration.value)
                then Some(Value(cached.value)) else Some(Raised(call.phase.cause)))
            && states[k + 1].provider.credentials == cached
            && states[k + 1].calls[events[k].call].phase ==
               (if call.phase.reraise then Failed else Waiting(call.phase.future))
  {
    assert Enabled(states[k], events[k]);
  }

  /** A successful refresh hands out, and keeps, what the delegate returned. */
  lemma SuccessHandsOutFetched(cfg: Config, states: seq<System>, events: seq<Event>, k: nat)
    requires IsRun(cfg, states, events) && k < |events| && events[k].Store?
    ensures var call := states[k].calls[events[k].call];
            && call.phase.Storing? && call.phase.future < |states[k + 1].provider.futures|
            && states[k + 1].provider.futures[call.phase.future] == Some(Value(call.phase.fetched))
            && states[k + 1].provider.credentials == Some(call.phase.fetched)
            && states[k + 1].calls[events[k].call].phase == Waiting(call.phase.future)
  {
    assert Enabled(states[k], events[k]);
  }

  /** The owner stores exactly what its delegate returned unexpired; anything else it records as a
      failure. */
  lemma DelegateDecides(cfg: Config, states: seq<System>, events: seq<Event>, k: nat)
    requires IsRun(cfg, states, events) && k < |events|
    requires events[k].DelegateReturns? || events[k].DelegateRaises? || events[k].DelegateCancelled?
    ensures var i := events[k].call;
            && states[k].calls[i].phase.Fetching?
            && var f, after := states[k].calls[i].phase.future, states[k + 1].calls[i].phase;
               match events[k]
               case DelegateReturns(_, c, t) =>
                 if c.expiration.None? || t < c.expiration.value then after == Storing(f, c)
                 else after.Failing? && after.future == f && !after.reraise
               case DelegateRaises(_, cause) => after == Failing(f, cause, false)
               case _ => after.Failing? && after.future == f && after.reraise
  {
    assert Enabled(states[k], events[k]);
  }

  lemma {:induction false} PhaseStays(cfg: Config, states: seq<System>, events: seq<Event>, j: nat, k: nat, i: nat)
    requires IsRun(cfg, states, events) && j <= k <= |events| && i < |states[j].calls|
    requires forall n: nat :: j <= n < k ==> !StepOf(events[n], i)
    ensures i < |states[k].calls| && states[k].calls[i] == states[j].calls[i]
    decreases k
  {
    if j < k {
      PhaseStays(cfg, states, events, j, k - 1, i);
    }
  }

  /** A call that collects a credential ends with exactly that credential when it then reads the clock
      before the expiry, and fails otherwise; a call that collects an error fails. */
  lemma CollectedIsReturned(cfg: Config, states: seq<System>, events: seq<Event>, j: nat, k: nat, i: nat)
    requires IsRun(cfg, states, events) && j < k < |events|
    requires events[j] == Collect(i) && StepOf(events[k], i)
    requires forall n: nat :: j < n < k ==> !StepOf(events[n], i)
    ensures var f := states[j].calls[i].phase.future;
            && states[j].calls[i].phase.Waiting? && f < |states[j].provider.futures| && states[j].provider.futures[f].Some?
            && var outcome := states[j].provider.futures[f].value;
               && outcome.Value? && events[k].Revalidate?
               && states[k + 1].calls[i].phase ==
                  (if outcome.credentials.expiration.None? || events[k].t < outcome.credentials.expiration.value
                   then Returned(outcome.credentials, events[k].t) else Failed)
  {
    assert Enabled(states[j], events[j]);
    PhaseStays(cfg, states, events, j + 1, k, i);
    assert Enabled(states[k], events[k]);
  }

  lemma CollectedErrorFails(cfg: Config, states: seq<System>, events: seq<Event>, j: nat)
    requires IsRun(cfg, states, events) && j < |events| && events[j].Collect?
    requires states[j].provider.futures[states[j].calls[events[j].call].phase.future].value.Raised?
    ensures states[j + 1].calls[events[j].call].phase == Failed
  {
    assert Enabled(states[j], events[j]);
  }

  /** So a failed refresh does not disturb anybody while the cache is good: whoever waits on the
      attempt, collects and reads the clock before the expiry gets the cached credential. */
  lemma WaitersGetTheCache(cfg: Config, states: seq<System>, events: seq<Event>, n: nat, j: nat, k: nat, i: nat, c: Credentials)
    requires IsRun(cfg, states, events) && n < j < k < |events|
    requires events[n].RecordFailure? && states[n].provider.credentials == Some(c)
    requires c.expiration.None? || events[n].t1 < c.expiration.value
    requires events[j] == Collect(i) && states[j].calls[i].phase == Waiting(states[n].calls[events[n].call].phase.future)
    requires events[k].Revalidate? && StepOf(events[k], i) && (c.expiration.None? || events[k].t < c.expiration.value)
    requires forall m: nat :: j < m < k ==> !StepOf(events[m], i)
    ensures states[k + 1].calls[i].phase == Returned(c, events[k].t)
  {
    FailureHandsOutCache(cfg, states, events, n);
    FutureStable(cfg, states, events, n + 1, j, states[n].calls[events[n].call].phase.future);
    CollectedIsReturned(cfg, states, events, j, k, i);
  }

  lemma {:induction false} FallbackStands(cfg: Config, states: seq<System>, events: seq<Event>, j: nat, k: nat)
    requires IsRun(cfg, states, events) && j < k <= |events| && FallsBack(states[j], events[j])
    requires forall n: nat :: j < n < k ==> !events[n].Store? && !FallsBack(states[n], events[n])
    ensures states[k].provider.credentials == states[j].provider.credentials
    ensures states[k].provider.refreshAt == states[j].provider.refreshAt
    ensures states[k].provider.nextRetryAt == events[j].t2 + cfg.failureRetry
    decreases k
  {
    if j + 1 < k {
      FallbackStands(cfg, states, events, j, k - 1);
    }
  }

  /** After a refresh failed and fell back to a temporary credential, and until the next success or
      fallback, a call that still finds it unexpired is served from the cache exactly before the
      refresh time or within the retry interval: the back-off neither ends early nor lasts longer. */
  lemma ServedAfterFailureIff(cfg: Config, states: seq<System>, events: seq<Event>, j: nat, k: nat, e: int)
    requires IsRun(cfg, states, events) && j < k < |events| && FallsBack(states[j], events[j])
    requires forall n: nat :: j < n < k ==> !events[n].Store? && !FallsBack(states[n], events[n])
    requires events[k].Start? && states[j].provider.credentials.value.expiration == Some(e) && events[k].t2 < e
    ensures Admit(states[k].provider, events[k].t1, events[k].t2) == Cached(states[j].provider.credentials.value) <==>
            || events[k].t2 < (if cfg.jitter <= 899 then e - 900 + cfg.jitter else e - 1)
            || events[k].t2 < events[j].t2 + cfg.failureRetry
  {
    FallbackStands(cfg, states, events, j, k);
    RunInv(cfg, states, events, k);
    assert Enabled(states[k], events[k]);
  }

  predicate Finished(c: Call) {
    c.phase.Returned? || c.phase.Failed?
  }

  // The event is a step of call i.
  predicate StepOf(e: Event, i: nat) {
    !e.Start? && e.call == i
  }

  /** No caller waits for ever on a Future nobody will settle: an unfinished call can step itself, or
      it waits on the attempt of an owner that can. */
  lemma NoLostWaiter(cfg: Config, states: seq<System>, events: seq<Event>, k: nat, i: nat)
    returns (e: Event, actor: nat)
    requires IsRun(cfg, states, events) && k <= |events|
    requires i < |states[k].calls| && !Finished(states[k].calls[i])
    ensures Enabled(states[k], e) && StepOf(e, actor) && !e.AbandonWait?
    ensures actor == i || (actor < |states[k].calls| && states[k].calls[i].phase.Waiting?
                           && OwnedFuture(states[k].calls[actor]) == Some(states[k].calls[i].phase.future))
  {
    var s := states[k];
    RunInv(cfg, states, events, k);
    assert CallOk(s, s.calls[i]);
    var owner: Option<nat> :| OwnedBy(s, owner);
    actor := i;
    if s.calls[i].phase.Waiting? && s.provider.futures[s.calls[i].phase.future].None? {
      actor := owner.value;
    }
    match s.calls[actor].phase {
      case Fetching(_) => e := DelegateRaises(actor, "");
      case Storing(_, _) => e := Store(actor);
      case Failing(_, _, _) => e := RecordFailure(actor, s.now, s.now);
      case Waiting(_) => e := Collect(actor);
      case Checking(_) => e := Revalidate(actor, s.now);
    }
  }

  function Rank(c: Call): nat {
    match c.phase
    case Fetching(_) => 5
    case Storing(_, _) => 4
    case Failing(_, _, _) => 3
    case Waiting(_) => 2
    case Checking(_) => 1
    case _ => 0
  }

  function RemainingWork(calls: seq<Call>): nat {
    if calls == [] then 0 else RemainingWork(calls[..|calls| - 1]) + Rank(calls[|calls| - 1])
  }

  lemma {:induction false} WorkUpdate(calls: seq<Call>, i: nat, c: Call)
    requires i < |calls|
    ensures RemainingWork(calls[i := c]) + Rank(calls[i]) == RemainingWork(calls) + Rank(c)
  {
    var n := |calls| - 1;
    if i < n {
      WorkUpdate(calls[..n], i, c);
      assert calls[i := c][..n] == calls[..n][i := c];
    } else {
      assert calls[i := c][..n] == calls[..n];
    }
  }

  /** Every step other than the arrival of a new call strictly shrinks the remaining work, so with
      NoLostWaiter every call finishes once arrivals stop and delegates answer. */
  lemma StepsShrinkWork(cfg: Config, s: System, e: Event)
    requires Enabled(s, e) && !e.Start?
    ensures RemainingWork(Apply(cfg, s, e).calls) < RemainingWork(s.calls)
  {
    WorkUpdate(s.calls, e.call, Apply(cfg, s, e).calls[e.call]);
  }
}
