/**
 The two caches of the API context: the gas schedule, refreshed once per epoch, and the gas
 price estimate built on it. Both use double-checked locking: a check under the read lock,
 then a second check, the computation and the update under the write lock. The estimate
 keeps its own lock while it asks for the schedule.
 */
module GasCaches {
  import opened Wrappers

  datatype LedgerInfo = LedgerInfo(epoch: nat, version: nat, oldest: nat)

  type Params = nat
  type Estimate = nat

  /** Storage: the gas schedule stored at a version, and the estimate computed from recent
      prices under a schedule; either can fail. */
  datatype Environment = Environment(
    schedule: nat -> Option<Params>,
    estimate: (LedgerInfo, Params) -> Option<Estimate>)

  const SEARCH_SIZE := 100_000

  function OldestSearch(li: LedgerInfo): nat {
    var v := if li.version < SEARCH_SIZE then 0 else li.version - SEARCH_SIZE;
    if v < li.oldest then li.oldest else v
  }

  /** The schedule read directly from storage. */
  function Direct(env: Environment, li: LedgerInfo): Option<Params> {
    env.schedule(li.version)
  }

  /** The schedule is constant within an epoch over the ledger infos in use. */
  ghost predicate ConstantPerEpoch(env: Environment, lis: set<LedgerInfo>) {
    forall a, b :: a in lis && b in lis && a.epoch == b.epoch ==> Direct(env, a) == Direct(env, b)
  }

  /** `origin` remembers the ledger info an entry was computed for; the code never reads it. */
  datatype ScheduleCache = ScheduleCache(epoch: Option<nat>, params: Option<Params>, origin: Option<LedgerInfo>)

  datatype EstimateCache = EstimateCache(
    version: Option<nat>, epoch: Option<nat>, value: Estimate, origin: Option<LedgerInfo>)

  // ----- The critical sections -----

  predicate ScheduleHit(c: ScheduleCache, li: LedgerInfo) {
    c.epoch.Some? && c.params.Some? && c.epoch.value == li.epoch
  }

  /** The section under the schedule's write lock. */
  function RefreshSchedule(env: Environment, c: ScheduleCache, li: LedgerInfo): (ScheduleCache, Option<Params>) {
    if ScheduleHit(c, li) then (c, c.params)
    else
      match env.schedule(li.version)
      case None => (c, None)
      case Some(p) => (ScheduleCache(Some(li.epoch), Some(p), Some(li)), Some(p))
  }

  predicate EstimateHit(c: EstimateCache, li: LedgerInfo, epoch: nat) {
    && c.version.Some? && c.version.value > OldestSearch(li)
    && epoch == if c.epoch.Some? then c.epoch.value else 0
  }

  /** The section under the estimate's write lock, once the schedule is known. */
  function RefreshEstimate(env: Environment, c: EstimateCache, li: LedgerInfo, p: Params)
    : (EstimateCache, Option<Estimate>)
  {
    if EstimateHit(c, li, li.epoch) then (c, Some(c.value))
    else
      match env.estimate(li, p)
      case None => (c, None)
      case Some(v) => (EstimateCache(Some(li.version), Some(li.epoch), v, Some(li)), Some(v))
  }

  // ----- Threads -----

  /** Why a thread asks for the schedule. */
  datatype Caller = Standalone | UnderReadLock | UnderWriteLock

  datatype Thread =
    | Idle
    | CheckSchedule(li: LedgerInfo, caller: Caller)
    | UpdateSchedule(li: LedgerInfo, caller: Caller)
    | AwaitRead(li: LedgerInfo)
    | CheckEstimate(li: LedgerInfo)
    | AwaitWrite(li: LedgerInfo)
    | UpdateEstimate(li: LedgerInfo, params: Params)
    | GotSchedule(li: LedgerInfo, schedule: Option<Params>)
    | GotEstimate(li: LedgerInfo, estimate: Option<Estimate>, origin: Option<LedgerInfo>)

  datatype System = System(
    schedules: ScheduleCache,
    estimates: EstimateCache,
    threads: map<nat, Thread>,
    readers: set<nat>,
    writer: Option<nat>)

  datatype Event =
    | CallSchedule(thread: nat, li: LedgerInfo)
    | CallEstimate(thread: nat, li: LedgerInfo)
    | Proceed(thread: nat)

  const START := System(
    ScheduleCache(None, None, None), EstimateCache(None, None, 0, None), map[], {}, None)

  function ThreadOf(s: System, t: nat): Thread {
    if t in s.threads then s.threads[t] else Idle
  }

  function With(s: System, t: nat, th: Thread): System {
    s.(threads := s.threads[t := th])
  }

  function Release(s: System, t: nat): System {
    s.(readers := s.readers - {t}, writer := if s.writer == Some(t) then None else s.writer)
  }

  /** What a thread does with the schedule it asked for. */
  function Continue(s: System, t: nat, li: LedgerInfo, caller: Caller, p: Option<Params>): System {
    if caller.Standalone? then With(s, t, GotSchedule(li, p))
    else if p.None? then With(Release(s, t), t, GotEstimate(li, None, None))
    else if caller.UnderReadLock? then With(s, t, CheckEstimate(li))
    else With(s, t, UpdateEstimate(li, p.value))
  }

  /** One atomic step; a thread whose lock is taken, or that is done, does nothing. */
  function Step(env: Environment, s: System, t: nat): System {
    match ThreadOf(s, t)
    case CheckSchedule(li, caller) =>
      if ScheduleHit(s.schedules, li) then Continue(s, t, li, caller, s.schedules.params)
      else With(s, t, UpdateSchedule(li, caller))
    case UpdateSchedule(li, caller) =>
      var (c, p) := RefreshSchedule(env, s.schedules, li);
      Continue(s.(schedules := c), t, li, caller, p)
    case AwaitRead(li) =>
      if s.writer.Some? then s
      else With(s.(readers := s.readers + {t}), t, CheckSchedule(li, UnderReadLock))
    case CheckEstimate(li) =>
      if EstimateHit(s.estimates, li, li.epoch)
      then With(Release(s, t), t, GotEstimate(li, Some(s.estimates.value), s.estimates.origin))
      else With(Release(s, t), t, AwaitWrite(li))
    case AwaitWrite(li) =>
      if s.writer.Some? || s.readers != {} then s
      else With(s.(writer := Some(t)), t, CheckSchedule(li, UnderWriteLock))
    case UpdateEstimate(li, p) =>
      var (c, v) := RefreshEstimate(env, s.estimates, li, p);
      With(Release(s.(estimates := c), t), t, GotEstimate(li, v, if v.Some? then c.origin else None))
    case _ => s
  }

  function Handle(env: Environment, s: System, e: Event): System {
    match e
    case CallSchedule(t, li) =>
      if ThreadOf(s, t).Idle? then With(s, t, CheckSchedule(li, Standalone)) else s
    case CallEstimate(t, li) =>
      if ThreadOf(s, t).Idle? then With(s, t, AwaitRead(li)) else s
    case Proceed(t) => Step(env, s, t)
  }

  function Interleave(env: Environment, s: System, events: seq<Event>): System
    decreases |events|
  {
    if events == [] then s else Interleave(env, Handle(env, s, events[0]), events[1..])
  }

  // ----- Invariants -----

  /** A schedule cache entry is what storage holds for its own ledger info. */
  ghost predicate ScheduleOk(env: Environment, lis: set<LedgerInfo>, c: ScheduleCache) {
    c.epoch.Some? && c.params.Some? ==>
      c.origin.Some? && c.origin.value in lis && c.origin.value.epoch == c.epoch.value
      && Direct(env, c.origin.value) == c.params
  }

  ghost predicate EstimateOk(env: Environment, lis: set<LedgerInfo>, c: EstimateCache) {
    c.version.Some? ==>
      && c.origin.Some? && c.origin.value in lis
      && c.version == Some(c.origin.value.version) && c.epoch == Some(c.origin.value.epoch)
      && Direct(env, c.origin.value).Some?
      && env.estimate(c.origin.value, Direct(env, c.origin.value).value) == Some(c.value)
  }

  /** Within the last hundred thousand versions, and above the oldest one. */
  predicate InWindow(li: LedgerInfo, version: nat) {
    version > li.oldest && version + 100_000 > li.version
  }

  /** An estimate returned for `li` was computed in the same epoch, from the schedule storage
      holds, for `li` itself or for a version within its window. */
  ghost predicate GoodEstimate(env: Environment, li: LedgerInfo, v: Estimate, origin: LedgerInfo) {
    && origin.epoch == li.epoch
    && (origin == li || InWindow(li, origin.version))
    && Direct(env, origin).Some?
    && env.estimate(origin, Direct(env, origin).value) == Some(v)
  }

  /** What a thread that has its answer holds. */
  ghost predicate GoodAnswer(env: Environment, th: Thread) {
    && (th.GotSchedule? ==> th.schedule == Direct(env, th.li))
    && (th.GotEstimate? && th.estimate.Some? ==>
          th.origin.Some? && GoodEstimate(env, th.li, th.estimate.value, th.origin.value))
    && (th.GotEstimate? && th.estimate.None? ==>
          Direct(env, th.li).None? || env.estimate(th.li, Direct(env, th.li).value).None?)
  }

  ghost predicate ThreadOk(env: Environment, lis: set<LedgerInfo>, s: System, t: nat) {
    match ThreadOf(s, t)
    case Idle => true
    case CheckSchedule(li, caller) => li in lis && Holds(s, t, caller)
    case UpdateSchedule(li, caller) => li in lis && Holds(s, t, caller)
    case AwaitRead(li) => li in lis
    case CheckEstimate(li) => li in lis && t in s.readers
    case AwaitWrite(li) => li in lis
    case UpdateEstimate(li, p) => li in lis && s.writer == Some(t) && Direct(env, li) == Some(p)
    case GotSchedule(_, _) => GoodAnswer(env, ThreadOf(s, t))
    case GotEstimate(_, _, _) => GoodAnswer(env, ThreadOf(s, t))
  }

  ghost predicate Holds(s: System, t: nat, caller: Caller) {
    (caller.UnderReadLock? ==> t in s.readers) && (caller.UnderWriteLock? ==> s.writer == Some(t))
  }

  ghost predicate Inv(env: Environment, lis: set<LedgerInfo>, s: System) {
    && ScheduleOk(env, lis, s.schedules)
    && EstimateOk(env, lis, s.estimates)
    && (s.writer.Some? ==> s.readers == {})
    && forall t :: ThreadOk(env, lis, s, t)
  }

  lemma RefreshScheduleIsDirect(env: Environment, lis: set<LedgerInfo>, c: ScheduleCache, li: LedgerInfo)
    requires ConstantPerEpoch(env, lis) && li in lis && ScheduleOk(env, lis, c)
    ensures RefreshSchedule(env, c, li).1 == Direct(env, li)
    ensures ScheduleOk(env, lis, RefreshSchedule(env, c, li).0)
  {}

  /** A cached estimate of the epoch and the window is what is answered, and stays; otherwise
      storage is asked, and what it gives is cached for this version and epoch. */
  lemma RefreshEstimateExactly(env: Environment, c: EstimateCache, li: LedgerInfo, p: Params)
    requires c.version.Some? ==> c.epoch.Some?
    ensures var (c', v) := RefreshEstimate(env, c, li, p);
      if c.version.Some? && InWindow(li, c.version.value) && c.epoch == Some(li.epoch)
      then c' == c && v == Some(c.value)
      else if env.estimate(li, p).None? then c' == c && v == None
      else
        && v == env.estimate(li, p) && c'.value == v.value
        && c'.version == Some(li.version) && c'.epoch == Some(li.epoch)
  {}

  /** The same for the schedule, by epoch. */
  lemma RefreshScheduleExactly(env: Environment, c: ScheduleCache, li: LedgerInfo)
    ensures var (c', p) := RefreshSchedule(env, c, li);
      if c.params.Some? && c.epoch == Some(li.epoch) then c' == c && p == c.params
      else if env.schedule(li.version).None? then c' == c && p == None
      else p == env.schedule(li.version) && c'.params == p && c'.epoch == Some(li.epoch)
  {}

  lemma RefreshEstimateIsGood(env: Environment, lis: set<LedgerInfo>, c: EstimateCache, li: LedgerInfo, p: Params)
    requires li in lis && EstimateOk(env, lis, c) && Direct(env, li) == Some(p)
    ensures var (c', v) := RefreshEstimate(env, c, li, p);
      && EstimateOk(env, lis, c')
      && (v.Some? ==> c'.origin.Some? && GoodEstimate(env, li, v.value, c'.origin.value))
      && (v.None? ==> env.estimate(li, p).None?)
  {}

  /** A thread's step leaves every other thread as it was, and the locks they hold. */
  lemma StepOthers(env: Environment, lis: set<LedgerInfo>, s: System, t: nat, u: nat)
    requires Inv(env, lis, s) && u != t
    ensures ThreadOk(env, lis, Step(env, s, t), u)
  {
    assert ThreadOk(env, lis, s, u) && ThreadOk(env, lis, s, t);
  }

  lemma ContinueOk(env: Environment, lis: set<LedgerInfo>, s: System, t: nat, li: LedgerInfo, caller: Caller,
    p: Option<Params>)
    requires li in lis && Holds(s, t, caller) && p == Direct(env, li) && (s.writer.Some? ==> s.readers == {})
    ensures var s' := Continue(s, t, li, caller, p);
      ThreadOk(env, lis, s', t) && (s'.writer.Some? ==> s'.readers == {})
  {}

  lemma StepSelf(env: Environment, lis: set<LedgerInfo>, s: System, t: nat)
    requires ConstantPerEpoch(env, lis) && Inv(env, lis, s)
    ensures var s' := Step(env, s, t);
      && ThreadOk(env, lis, s', t)
      && ScheduleOk(env, lis, s'.schedules) && EstimateOk(env, lis, s'.estimates)
      && (s'.writer.Some? ==> s'.readers == {})
  {
    assert ThreadOk(env, lis, s, t);
    match ThreadOf(s, t)
    case CheckSchedule(li, caller) =>
      if ScheduleHit(s.schedules, li) {
        ContinueOk(env, lis, s, t, li, caller, s.schedules.params);
      }
    case UpdateSchedule(li, caller) =>
      RefreshScheduleIsDirect(env, lis, s.schedules, li);
      var (c, p) := RefreshSchedule(env, s.schedules, li);
      ContinueOk(env, lis, s.(schedules := c), t, li, caller, p);
    case UpdateEstimate(li, p) => RefreshEstimateIsGood(env, lis, s.estimates, li, p);
    case _ =>
  }

  lemma HandleKeepsInv(env: Environment, lis: set<LedgerInfo>, s: System, e: Event)
    requires ConstantPerEpoch(env, lis) && Inv(env, lis, s)
    requires !e.Proceed? ==> e.li in lis
    ensures Inv(env, lis, Handle(env, s, e))
  {
    var s' := Handle(env, s, e);
    if e.Proceed? {
      StepSelf(env, lis, s, e.thread);
      forall u ensures ThreadOk(env, lis, s', u) {
        if u != e.thread {
          StepOthers(env, lis, s, e.thread, u);
        }
      }
    } else {
      forall u ensures ThreadOk(env, lis, s', u) {
        assert ThreadOk(env, lis, s, u);
      }
    }
  }

  ghost predicate Requests(lis: set<LedgerInfo>, events: seq<Event>) {
    forall i :: 0 <= i < |events| && !events[i].Proceed? ==> events[i].li in lis
  }

  lemma {:induction false} InterleaveKeepsInv(env: Environment, lis: set<LedgerInfo>, s: System, events: seq<Event>)
    requires ConstantPerEpoch(env, lis) && Inv(env, lis, s) && Requests(lis, events)
    ensures Inv(env, lis, Interleave(env, s, events))
    decreases |events|
  {
    if events != [] {
      HandleKeepsInv(env, lis, s, events[0]);
      InterleaveKeepsInv(env, lis, Handle(env, s, events[0]), events[1..]);
    }
  }

  /** For every interleaving of the critical sections, if the schedule is constant within an
      epoch, a schedule returned is the one storage holds, an estimate returned was computed
      in the same epoch for the request itself or for a version above the oldest one searched,
      an estimate fails only if storage cannot give it, and a writer of the estimate excludes
      all readers. */
  lemma CachesAgree(env: Environment, lis: set<LedgerInfo>, events: seq<Event>, t: nat)
    requires ConstantPerEpoch(env, lis) && Requests(lis, events)
    ensures var s := Interleave(env, START, events);
      (s.writer.Some? ==> s.readers == {}) && GoodAnswer(env, ThreadOf(s, t))
  {
    assert forall u :: ThreadOk(env, lis, START, u);
    InterleaveKeepsInv(env, lis, START, events);
    assert ThreadOk(env, lis, Interleave(env, START, events), t);
  }

  ghost predicate AlwaysDirect(env: Environment, lis: set<LedgerInfo>) {
    forall events: seq<Event>, t: nat {:trigger ThreadOf(Interleave(env, START, events), t)} ::
      var th := ThreadOf(Interleave(env, START, events), t);
      Requests(lis, events) && th.GotSchedule? ==> th.schedule == Direct(env, th.li)
  }

  function TwoCalls(a: LedgerInfo, b: LedgerInfo): seq<Event> {
    [CallSchedule(0, a)] + [Proceed(0), Proceed(0), CallSchedule(1, b), Proceed(1)]
  }

  /** A second request in the same epoch is answered with the first one's schedule. */
  lemma SecondCallIsCached(env: Environment, a: LedgerInfo, b: LedgerInfo)
    requires a.epoch == b.epoch && Direct(env, a).Some?
    ensures ThreadOf(Interleave(env, START, TwoCalls(a, b)), 1) == GotSchedule(b, Direct(env, a))
  {
    var e0, e1, e2, e3, e4 := CallSchedule(0, a), Proceed(0), Proceed(0), CallSchedule(1, b), Proceed(1);
    var s1 := Handle(env, START, e0);
    var s2 := Handle(env, s1, e1);
    var s3 := Handle(env, s2, e2);
    var s4 := Handle(env, s3, e3);
    assert s3.schedules == ScheduleCache(Some(a.epoch), Direct(env, a), Some(a));
    InterleaveCons(env, START, e0, [e1, e2, e3, e4]);
    InterleaveCons(env, s1, e1, [e2, e3, e4]);
    InterleaveCons(env, s2, e2, [e3, e4]);
    InterleaveCons(env, s3, e3, [e4]);
    InterleaveCons(env, s4, e4, []);
  }

  lemma InterleaveCons(env: Environment, s: System, e: Event, rest: seq<Event>)
    ensures Interleave(env, s, [e] + rest) == Interleave(env, Handle(env, s, e), rest)
  {
    assert ([e] + rest)[1..] == rest;
  }

  /** Every interleaving answers schedule requests as storage would if and only if the
      schedule is constant within an epoch over the ledger infos in use. */
  lemma ScheduleCacheExactly(env: Environment, lis: set<LedgerInfo>)
    ensures AlwaysDirect(env, lis) <==> ConstantPerEpoch(env, lis)
  {
    if ConstantPerEpoch(env, lis) {
      forall events: seq<Event>, t: nat | Requests(lis, events)
        ensures var th := ThreadOf(Interleave(env, START, events), t);
          th.GotSchedule? ==> th.schedule == Direct(env, th.li)
      {
        CachesAgree(env, lis, events, t);
      }
    } else {
      var a, b :| a in lis && b in lis && a.epoch == b.epoch && Direct(env, a) != Direct(env, b);
      var (x, y) := if Direct(env, a).Some? then (a, b) else (b, a);
      SecondCallIsCached(env, x, y);
      assert Requests(lis, TwoCalls(x, y));
    }
  }

  /** A call whose schedule and estimate are cached is answered under the read lock alone, with
      the cached estimate, and leaves caches and locks as they were. */
  lemma CachedCallOnlyReads(env: Environment, s: System, t: nat, li: LedgerInfo)
    requires ThreadOf(s, t).Idle? && s.writer.None? && t !in s.readers
    requires s.schedules.params.Some? && s.schedules.epoch == Some(li.epoch)
    requires s.estimates.version.Some? && InWindow(li, s.estimates.version.value) && s.estimates.epoch == Some(li.epoch)
    ensures var s' := Interleave(env, s, [CallEstimate(t, li)] + [Proceed(t)] + [Proceed(t)] + [Proceed(t)]);
      && ThreadOf(s', t) == GotEstimate(li, Some(s.estimates.value), s.estimates.origin)
      && s'.schedules == s.schedules && s'.estimates == s.estimates
      && s'.writer.None? && s'.readers == s.readers
  {
    var e0, e1 := CallEstimate(t, li), Proceed(t);
    var s1 := Handle(env, s, e0);
    var s2 := Handle(env, s1, e1);
    var s3 := Handle(env, s2, e1);
    var s4 := Handle(env, s3, e1);
    assert [e0] + [e1] + [e1] + [e1] == [e0] + ([e1] + ([e1] + ([e1] + [])));
    InterleaveCons(env, s, e0, [e1] + ([e1] + ([e1] + [])));
    InterleaveCons(env, s1, e1, [e1] + ([e1] + []));
    InterleaveCons(env, s2, e1, [e1] + []);
    InterleaveCons(env, s3, e1, []);
    assert ThreadOf(s3, t) == CheckEstimate(li) && s3.readers == s.readers + {t};
    assert s4.readers == s.readers;
  }

  // ----- The locks cannot deadlock -----

  predicate Finished(th: Thread) {
    th.Idle? || th.GotSchedule? || th.GotEstimate?
  }

  /** A thread inside the estimate's read section, or its write section. */
  predicate Reading(th: Thread) {
    || ((th.CheckSchedule? || th.UpdateSchedule?) && th.caller.UnderReadLock?)
    || th.CheckEstimate?
  }

  predicate Writing(th: Thread) {
    || ((th.CheckSchedule? || th.UpdateSchedule?) && th.caller.UnderWriteLock?)
    || th.UpdateEstimate?
  }

  /** A lock is held only by a thread inside its section. */
  predicate HeldInside(s: System, t: nat) {
    (t in s.readers ==> Reading(ThreadOf(s, t))) && (s.writer == Some(t) ==> Writing(ThreadOf(s, t)))
  }

  ghost predicate AllHeldInside(s: System) {
    forall t :: HeldInside(s, t)
  }

  lemma HandleHeldInside(env: Environment, s: System, e: Event, t: nat)
    requires HeldInside(s, t)
    ensures HeldInside(Handle(env, s, e), t)
  {}

  lemma {:induction false} InterleaveHeldInside(env: Environment, s: System, events: seq<Event>)
    requires AllHeldInside(s)
    ensures AllHeldInside(Interleave(env, s, events))
    decreases |events|
  {
    if events != [] {
      forall t ensures HeldInside(Handle(env, s, events[0]), t) {
        assert HeldInside(s, t);
        HandleHeldInside(env, s, events[0], t);
      }
      InterleaveHeldInside(env, Handle(env, s, events[0]), events[1..]);
    }
  }

  /** The steps a thread has left at most. */
  function Left(th: Thread): nat {
    match th
    case Idle => 0
    case GotSchedule(_, _) => 0
    case GotEstimate(_, _, _) => 0
    case UpdateEstimate(_, _) => 1
    case UpdateSchedule(_, caller) => if caller.UnderReadLock? then 6 else 2
    case CheckSchedule(_, caller) => if caller.UnderReadLock? then 7 else 3
    case AwaitWrite(_) => 4
    case CheckEstimate(_) => 5
    case AwaitRead(_) => 8
  }

  predicate Blocked(s: System, t: nat) {
    || (ThreadOf(s, t).AwaitRead? && s.writer.Some?)
    || (ThreadOf(s, t).AwaitWrite? && (s.writer.Some? || s.readers != {}))
  }

  /** A thread that is neither finished nor blocked gets closer to its end, and leaves all
      other threads where they are. */
  lemma StepGetsCloser(env: Environment, s: System, t: nat)
    ensures Finished(ThreadOf(s, t)) || Blocked(s, t) ==> Step(env, s, t) == s
    ensures !Finished(ThreadOf(s, t)) && !Blocked(s, t) ==>
      && Left(ThreadOf(Step(env, s, t), t)) < Left(ThreadOf(s, t))
      && t in s.threads && Step(env, s, t).threads == s.threads[t := ThreadOf(Step(env, s, t), t)]
  {}

  /** If a thread is unfinished, some thread is neither finished nor blocked. */
  lemma SomeThreadCanMove(s: System, t: nat) returns (u: nat)
    requires AllHeldInside(s) && !Finished(ThreadOf(s, t))
    ensures !Finished(ThreadOf(s, u)) && !Blocked(s, u)
  {
    u := t;
    if Blocked(s, t) {
      if s.writer.Some? {
        u := s.writer.value;
      } else {
        u :| u in s.readers;
      }
      assert HeldInside(s, u);
    }
  }

  /** The steps all threads have left at most. */
  ghost function TotalLeft(threads: map<nat, Thread>): nat {
    if threads == map[] then 0
    else var t :| t in threads; Left(threads[t]) + TotalLeft(threads - {t})
  }

  lemma {:induction false} TotalLeftWithout(threads: map<nat, Thread>, t: nat)
    requires t in threads
    ensures TotalLeft(threads) == Left(threads[t]) + TotalLeft(threads - {t})
    decreases |threads|
  {
    var u :| u in threads && TotalLeft(threads) == Left(threads[u]) + TotalLeft(threads - {u});
    if u != t {
      TotalLeftWithout(threads - {u}, t);
      TotalLeftWithout(threads - {t}, u);
      assert threads - {u} - {t} == threads - {t} - {u};
    }
  }

  lemma TotalLeftFalls(threads: map<nat, Thread>, t: nat, th: Thread)
    requires t in threads && Left(th) < Left(threads[t])
    ensures TotalLeft(threads[t := th]) < TotalLeft(threads)
  {
    TotalLeftWithout(threads, t);
    TotalLeftWithout(threads[t := th], t);
    assert threads[t := th] - {t} == threads - {t};
  }

  ghost predicate AllFinished(s: System) {
    forall t :: Finished(ThreadOf(s, t))
  }

  lemma {:induction false} RunToEnd(env: Environment, s: System) returns (steps: seq<Event>)
    requires AllHeldInside(s)
    ensures forall i :: 0 <= i < |steps| ==> steps[i].Proceed?
    ensures AllFinished(Interleave(env, s, steps)) && |steps| <= TotalLeft(s.threads)
    decreases TotalLeft(s.threads)
  {
    if AllFinished(s) {
      steps := [];
    } else {
      var t :| !Finished(ThreadOf(s, t));
      var u := SomeThreadCanMove(s, t);
      var s1 := Step(env, s, u);
      StepGetsCloser(env, s, u);
      TotalLeftFalls(s.threads, u, ThreadOf(s1, u));
      forall x ensures HeldInside(s1, x) {
        assert HeldInside(s, x);
        HandleHeldInside(env, s, Proceed(u), x);
      }
      var rest := RunToEnd(env, s1);
      steps := [Proceed(u)] + rest;
      InterleaveCons(env, s, Proceed(u), rest);
    }
  }

  /** Whatever the calls and the schedule so far, the two locks cannot deadlock: while a call is
      unfinished some thread can move, every move brings its thread closer to its end, within
      eight steps of a call, and there are moves after which all calls are finished. */
  lemma NoDeadlock(env: Environment, events: seq<Event>) returns (steps: seq<Event>)
    ensures var s := Interleave(env, START, events);
      && (forall i :: 0 <= i < |steps| ==> steps[i].Proceed?)
      && AllFinished(Interleave(env, s, steps)) && |steps| <= TotalLeft(s.threads)
    ensures var s := Interleave(env, START, events);
      !AllFinished(s) ==> exists u :: Step(env, s, u) != s
  {
    var s := Interleave(env, START, events);
    assert AllHeldInside(START);
    InterleaveHeldInside(env, START, events);
    steps := RunToEnd(env, s);
    if t :| !Finished(ThreadOf(s, t)) {
      var u := SomeThreadCanMove(s, t);
      StepGetsCloser(env, s, u);
      assert Step(env, s, u) != s;
    }
  }

  // ----- Sequential use -----

  class Context {
    const env: Environment
    var schedules: ScheduleCache
    var estimates: EstimateCache

    /** The caches hold what storage holds for the ledger infos `lis`. */
    ghost predicate Valid(lis: set<LedgerInfo>)
      reads this
    {
      ScheduleOk(env, lis, schedules) && EstimateOk(env, lis, estimates)
    }

    constructor (env: Environment)
      ensures this.env == env && forall lis :: Valid(lis)
    {
      this.env := env;
      schedules := ScheduleCache(None, None, None);
      estimates := EstimateCache(None, None, 0, None);
    }

    method GetGasSchedule(li: LedgerInfo, ghost lis: set<LedgerInfo>) returns (r: Option<(nat, Params)>)
      requires Valid(lis) && li in lis && ConstantPerEpoch(env, lis)
      modifies this`schedules
      ensures Valid(lis)
      ensures Direct(env, li).None? ==> r.None? && schedules == old(schedules)
      ensures Direct(env, li).Some? ==>
        && r == Some((li.epoch, Direct(env, li).value))
        && schedules.epoch == Some(li.epoch) && schedules.params == Direct(env, li)
    {
      if schedules.epoch.Some? && schedules.params.Some? {
        if schedules.epoch.value == li.epoch {
          return Some((schedules.epoch.value, schedules.params.value));
        }
      }
      var p := env.schedule(li.version);
      if p.None? {
        return None;
      }
      schedules := ScheduleCache(Some(li.epoch), p, Some(li));
      return Some((li.epoch, p.value));
    }

    method EstimateGasPrice(li: LedgerInfo, ghost lis: set<LedgerInfo>) returns (r: Option<Estimate>)
      requires Valid(lis) && li in lis && ConstantPerEpoch(env, lis)
      modifies this
      ensures Valid(lis)
      ensures r.Some? ==> estimates.origin.Some? && GoodEstimate(env, li, r.value, estimates.origin.value)
      ensures r.None? ==> Direct(env, li).None? || env.estimate(li, Direct(env, li).value).None?
      ensures var c := old(estimates);
        c.version.Some? && InWindow(li, c.version.value) && c.epoch == Some(li.epoch) && Direct(env, li).Some? ==>
          r == Some(c.value) && estimates == c
      ensures var c := old(estimates);
        !(c.version.Some? && InWindow(li, c.version.value) && c.epoch == Some(li.epoch)) && Direct(env, li).Some? ==>
          r == env.estimate(li, Direct(env, li).value)
      ensures r.None? ==> estimates == old(estimates)
      ensures r.Some? && estimates != old(estimates) ==>
        estimates.version == Some(li.version) && estimates.epoch == Some(li.epoch) && estimates.value == r.value
    {
      var s := GetGasSchedule(li, lis);
      if s.None? {
        return None;
      }
      if EstimateHit(estimates, li, s.value.0) {
        return Some(estimates.value);
      }
      s := GetGasSchedule(li, lis);
      var v := env.estimate(li, s.value.1);
      if v.None? {
        return None;
      }
      estimates := EstimateCache(Some(li.version), Some(s.value.0), v.value, Some(li));
      return v;
    }
  }
}
