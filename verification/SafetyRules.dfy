/**
 Initialising the safety rules: proofs are fetched from the current waypoint on and fed to
 the rules until they stop reporting that the waypoint moved; and a guarded operation that
 is retried once after such an initialisation.
 */
module SafetyRules {
  import opened Wrappers

  datatype Error =
    | NotInitialized
    | IncorrectEpoch
    | WaypointOutOfDate(prev: nat, curr: nat)
    | Internal
    | Other(code: nat)

  type Result<T> = Wrappers.Result<T, Error>

  /** What a call to the rules' initialize reports, and the waypoint it leaves. */
  datatype Reply = Reply(result: Result<()>, waypoint: nat)

  /** The rules and the storage behind them: whether the consensus state can be read, or the
      rules' error if not, whether storage has proofs from a version on, how the rules answer at
      a waypoint when given the proofs from a version on, and the latest version storage
      knows. */
  datatype World = World(
    readable: Result<()>,
    hasProofs: nat -> bool,
    initialize: (nat, nat) -> Reply,
    latest: nat)

  predicate Progress(r: Result<()>) {
    r.Err? && r.error.WaypointOutOfDate? && r.error.prev < r.error.curr
  }

  /** An out-of-date error that reports progress reports the waypoint the rules held and the
      one they hold now, which storage knows. */
  ghost predicate Honest(w: World) {
    forall waypoint, from {:trigger w.initialize(waypoint, from)} ::
      var reply := w.initialize(waypoint, from);
      Progress(reply.result) ==>
        && reply.result.error.prev == waypoint
        && reply.result.error.curr == reply.waypoint
        && reply.waypoint <= w.latest
  }

  // ----- The loop, iteration by iteration -----

  datatype Loop =
    | Looping(version: nat, waypoint: nat)
    | Finished(result: Result<()>, waypoint: nat)

  function Iterate(w: World, s: Loop): Loop {
    match s
    case Finished(_, _) => s
    case Looping(version, waypoint) =>
      if !w.hasProofs(version) then Finished(Err(Internal), waypoint)
      else
        var reply := w.initialize(waypoint, version);
        if Progress(reply.result) then Looping(reply.result.error.curr, reply.waypoint)
        else Finished(reply.result, reply.waypoint)
  }

  function IterateN(w: World, s: Loop, n: nat): Loop
    decreases n
  {
    if n == 0 then s else Iterate(w, IterateN(w, s, n - 1))
  }

  /** While the loop runs, the version it asks for is the waypoint of the rules, and each
      iteration has moved it by at least one towards the latest version. */
  lemma {:induction false} LoopAdvances(w: World, waypoint: nat, n: nat)
    requires Honest(w)
    ensures var s := IterateN(w, Looping(waypoint, waypoint), n);
      s.Looping? ==> s.version == s.waypoint >= waypoint + n && (n > 0 ==> s.waypoint <= w.latest)
    decreases n
  {
    if n > 0 {
      LoopAdvances(w, waypoint, n - 1);
      var before := IterateN(w, Looping(waypoint, waypoint), n - 1);
      if before.Looping? {
        var reply := w.initialize(before.waypoint, before.version);
        assert Progress(reply.result) ==> reply.waypoint <= w.latest;
      }
    }
  }

  function Gap(w: World, waypoint: nat): nat {
    if waypoint < w.latest then w.latest - waypoint else 0
  }

  /** The loop ends within one iteration more than the versions between waypoint and latest. */
  lemma LoopEnds(w: World, waypoint: nat)
    requires Honest(w)
    ensures IterateN(w, Looping(waypoint, waypoint), Gap(w, waypoint) + 1).Finished?
  {
    LoopAdvances(w, waypoint, Gap(w, waypoint) + 1);
  }

  /** Rules that report progress without moving keep the loop going for ever. */
  lemma {:induction false} DishonestNeverEnds(n: nat)
    ensures var w := World(Ok(()), v => true, (waypoint, from) => Reply(Err(WaypointOutOfDate(0, 1)), 0), 1);
      IterateN(w, Looping(0, 0), n).Looping?
    decreases n
  {
    if n > 0 {
      DishonestNeverEnds(n - 1);
    }
  }

  lemma {:induction false} FinishedStays(w: World, s: Loop, n: nat, m: nat)
    requires n <= m && IterateN(w, s, n).Finished?
    ensures IterateN(w, s, m) == IterateN(w, s, n)
    decreases m
  {
    if n < m {
      FinishedStays(w, s, n, m - 1);
    }
  }

  lemma {:induction false} NoProgressLeft(w: World, s: Loop, n: nat)
    requires s.Finished? ==> !Progress(s.result)
    ensures var r := IterateN(w, s, n); r.Finished? ==> !Progress(r.result)
    decreases n
  {
    if n > 0 {
      NoProgressLeft(w, s, n - 1);
    }
  }

  /** What the loop comes to: a result that is not progress. */
  ghost function Outcome(w: World, waypoint: nat): (s: Loop)
    requires Honest(w)
    ensures s.Finished? && !Progress(s.result)
  {
    LoopEnds(w, waypoint);
    NoProgressLeft(w, Looping(waypoint, waypoint), Gap(w, waypoint) + 1);
    IterateN(w, Looping(waypoint, waypoint), Gap(w, waypoint) + 1)
  }

  ghost function InitializeResult(w: World, waypoint: nat): Result<()>
    requires Honest(w)
  {
    if w.readable.Ok? then Outcome(w, waypoint).result else w.readable
  }

  lemma LastIterationDecides(w: World, waypoint: nat, n: nat)
    requires Honest(w) && IterateN(w, Looping(waypoint, waypoint), n).Finished?
    ensures Outcome(w, waypoint) == IterateN(w, Looping(waypoint, waypoint), n)
  {
    var s, m := Looping(waypoint, waypoint), Gap(w, waypoint) + 1;
    LoopEnds(w, waypoint);
    if n <= m {
      FinishedStays(w, s, n, m);
    } else {
      FinishedStays(w, s, m, n);
    }
  }

  predicate Retryable<T>(r: Result<T>) {
    r.Err? && (r.error.NotInitialized? || r.error.IncorrectEpoch? || r.error.WaypointOutOfDate?)
  }

  /** The rules report that the waypoint moved on, to `next`. */
  predicate MovedOn(reply: Reply, next: nat) {
    && reply.result.Err? && reply.result.error.WaypointOutOfDate?
    && reply.result.error.prev < reply.result.error.curr == next == reply.waypoint
  }

  /** Storage has proofs from `v` on, and given them the rules move on to `next`. */
  predicate Leads(w: World, v: nat, next: nat) {
    w.hasProofs(v) && MovedOn(w.initialize(v, v), next)
  }

  /** From `first` on each version leads to the next, and the last of `asked` to `version`. */
  ghost predicate Trail(w: World, first: nat, asked: seq<nat>, version: nat) {
    if asked == [] then version == first
    else
      var n := |asked| - 1;
      Leads(w, asked[n], version) && Trail(w, first, asked[..n], asked[n])
  }

  lemma TrailSnoc(w: World, first: nat, asked: seq<nat>, version: nat, next: nat)
    requires Trail(w, first, asked, version) && Leads(w, version, next)
    ensures Trail(w, first, asked + [version], next)
  {
    assert (asked + [version])[..|asked|] == asked;
  }

  lemma {:induction false} TrailIncreases(w: World, first: nat, asked: seq<nat>, version: nat)
    requires Honest(w) && Trail(w, first, asked, version)
    ensures forall i :: 0 <= i < |asked| ==> asked[i] < version
    ensures forall i, j :: 0 <= i < j < |asked| ==> asked[i] < asked[j]
    decreases |asked|
  {
    if asked != [] {
      var n := |asked| - 1;
      TrailIncreases(w, first, asked[..n], asked[n]);
      assert asked[n] < version;
      assert forall i :: 0 <= i < n ==> asked[..n][i] == asked[i];
    }
  }

  predicate Increasing(versions: seq<nat>) {
    forall i, j :: 0 <= i < j < |versions| ==> versions[i] < versions[j]
  }

  /** The versions asked for lead from the first waypoint to the last one, from which storage
      has no proofs on, or to whose proofs the rules answer with this result, which is not that
      they moved on. */
  ghost predicate EndsWith(w: World, asked: seq<nat>, first: nat, r: Result<()>, waypoint: nat) {
    && asked != []
    && var n := |asked| - 1; var last := asked[n];
    && Trail(w, first, asked[..n], last)
    && (if !w.hasProofs(last) then r == Err(Internal) && waypoint == last
        else w.initialize(last, last) == Reply(r, waypoint) && !Leads(w, last, waypoint))
  }

  lemma {:induction false} TrailIterates(w: World, first: nat, asked: seq<nat>, version: nat)
    requires Trail(w, first, asked, version)
    ensures IterateN(w, Looping(first, first), |asked|) == Looping(version, version)
    decreases |asked|
  {
    if asked != [] {
      TrailIterates(w, first, asked[..|asked| - 1], asked[|asked| - 1]);
    }
  }

  /** The end of the trail is the outcome of the loop, reached in time. */
  lemma TrailEnds(w: World, first: nat, asked: seq<nat>, version: nat, r: Result<()>, waypoint: nat)
    requires Honest(w) && Trail(w, first, asked, version)
    requires if !w.hasProofs(version) then r == Err(Internal) && waypoint == version
             else w.initialize(version, version) == Reply(r, waypoint) && !Progress(r)
    ensures EndsWith(w, asked + [version], first, r, waypoint) && Increasing(asked + [version])
    ensures Outcome(w, first) == Finished(r, waypoint) && |asked| <= Gap(w, first)
  {
    assert (asked + [version])[..|asked|] == asked;
    TrailIncreases(w, first, asked, version);
    TrailIterates(w, first, asked, version);
    LoopAdvances(w, first, |asked|);
    LastIterationDecides(w, first, |asked| + 1);
  }

  // ----- The wrapper -----

  class MetricsSafetyRules {
    const world: World
    var waypoint: nat
    ghost var asked: seq<nat>  // the versions proofs were asked for

    constructor (world: World, waypoint: nat)
      ensures this.world == world && this.waypoint == waypoint && asked == []
    {
      this.world, this.waypoint, asked := world, waypoint, [];
    }

    /** Passes on the rules' error if their state cannot be read; else ends with a result that
        is not progress, having asked for strictly increasing versions
        no more often than the distance to the latest version allows. */
    method PerformInitialize() returns (r: Result<()>)
      requires Honest(world)
      modifies this
      ensures world.readable.Err? ==> r == world.readable && waypoint == old(waypoint) && asked == old(asked)
      ensures world.readable.Ok? ==> Finished(r, waypoint) == Outcome(world, old(waypoint)) && !Progress(r)
      ensures |old(asked)| <= |asked| <= |old(asked)| + Gap(world, old(waypoint)) + 1
      ensures old(asked) <= asked && Increasing(asked[|old(asked)|..])
      ensures world.readable.Ok? ==> EndsWith(world, asked[|old(asked)|..], old(waypoint), r, waypoint)
    {
      if world.readable.Err? {
        return world.readable;
      }
      var start, version := waypoint, waypoint;
      ghost var now := [];
      while true
        invariant version == waypoint && asked == old(asked) + now && Trail(world, start, now, version)
        decreases world.latest - waypoint
      {
        asked := asked + [version];
        assert asked[|old(asked)|..] == now + [version];
        if !world.hasProofs(version) {
          TrailEnds(world, start, now, version, Err(Internal), waypoint);
          return Err(Internal);
        }
        var reply := world.initialize(waypoint, version);
        if Progress(reply.result) {
          waypoint := reply.waypoint;
          TrailSnoc(world, start, now, version, waypoint);
          now := now + [version];
          version := reply.result.error.curr;
        } else {
          TrailEnds(world, start, now, version, reply.result, reply.waypoint);
          waypoint := reply.waypoint;
          return reply.result;
        }
      }
    }

    /** The operation runs a second time only if it first failed for want of initialisation
        and the initialisation then succeeded; never a third time. */
    method Retry<T>(op: (nat, nat) -> Result<T>) returns (r: Result<T>, attempts: nat)
      requires Honest(world)
      modifies this
      ensures 1 <= attempts <= 2
      ensures var first := op(0, old(waypoint));
        var retry := first.Err?
          && (first.error.NotInitialized? || first.error.IncorrectEpoch? || first.error.WaypointOutOfDate?);
        && (!retry ==> attempts == 1 && r == first && waypoint == old(waypoint))
        && (retry && InitializeResult(world, old(waypoint)).Ok? ==>
              attempts == 2 && waypoint == Outcome(world, old(waypoint)).waypoint && r == op(1, waypoint))
        && (retry && InitializeResult(world, old(waypoint)).Err? ==>
              && attempts == 1 && r == Err(InitializeResult(world, old(waypoint)).error)
              && waypoint == if world.readable.Ok? then Outcome(world, old(waypoint)).waypoint else old(waypoint))
    {
      r, attempts := op(0, waypoint), 1;
      if Retryable(r) {
        var init := PerformInitialize();
        if init.Err? {
          return Err(init.error), attempts;
        }
        r, attempts := op(1, waypoint), 2;
      }
    }
  }
}
