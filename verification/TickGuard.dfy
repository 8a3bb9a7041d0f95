/**
 The guards around a tick: the set of strategies an instance is running, and a
 lock that all instances share and that expires. Ticks of any number of callers
 on any number of instances interleave.
 */
module TickGuard {
  import opened Reals
  import StrategyRunner

  /** A tick in progress, known by the token it takes the lock with. */
  datatype Tick = Tick(instance: nat, strategy: nat, locked: bool)

  datatype World = World(running: set<(nat, nat)>, locks: map<nat, nat>, ticks: map<nat, Tick>)

  const QUIET: World := World({}, map[], map[])

  datatype Event =
    | Enter(token: nat, instance: nat, strategy: nat)
    | Acquire(token: nat)
    | Leave(token: nat)
    | Expire(strategy: nat)

  function Acquired(locks: map<nat, nat>, strategy: nat, token: nat): map<nat, nat> {
    if strategy in locks then locks else locks[strategy := token]
  }

  /** Only the holder of a lock releases it. */
  function Released(locks: map<nat, nat>, strategy: nat, token: nat): map<nat, nat> {
    if strategy in locks && locks[strategy] == token then locks - {strategy} else locks
  }

  /** One step; tokens are unique, and a caller who finds the strategy running or the lock taken gets no further. */
  function Next(w: World, e: Event): World {
    match e
    case Enter(t, i, s) =>
      if t in w.ticks || (i, s) in w.running then w
      else w.(running := w.running + {(i, s)}, ticks := w.ticks[t := Tick(i, s, false)])
    case Acquire(t) =>
      if t in w.ticks && !w.ticks[t].locked && w.ticks[t].strategy !in w.locks
      then w.(locks := Acquired(w.locks, w.ticks[t].strategy, t), ticks := w.ticks[t := w.ticks[t].(locked := true)])
      else w
    case Leave(t) =>
      if t in w.ticks
      then World(w.running - {(w.ticks[t].instance, w.ticks[t].strategy)},
                 if w.ticks[t].locked then Released(w.locks, w.ticks[t].strategy, t) else w.locks,
                 w.ticks - {t})
      else w
    case Expire(s) => w.(locks := w.locks - {s})
  }

  function Run(w: World, events: seq<Event>): World {
    if events == [] then w else Next(Run(w, events[..|events| - 1]), events[|events| - 1])
  }

  /* ---- One instance ---- */

  predicate SameTick(a: Tick, b: Tick) {
    a.instance == b.instance && a.strategy == b.strategy
  }

  /** Of any instance and strategy at most one tick is in progress. */
  ghost predicate OnePerInstance(w: World) {
    forall t, u :: t in w.ticks && u in w.ticks && SameTick(w.ticks[t], w.ticks[u]) ==> t == u
  }

  ghost predicate Guarded(w: World) {
    && OnePerInstance(w)
    && (forall t :: t in w.ticks ==> (w.ticks[t].instance, w.ticks[t].strategy) in w.running)
    && (forall s :: s in w.locks ==> w.locks[s] in w.ticks && w.ticks[w.locks[s]].strategy == s && w.ticks[w.locks[s]].locked)
  }

  lemma NextGuarded(w: World, e: Event)
    requires Guarded(w)
    ensures Guarded(Next(w, e))
  {
    var after := Next(w, e);
    forall t, u | t in after.ticks && u in after.ticks && SameTick(after.ticks[t], after.ticks[u]) ensures t == u {
      if t in w.ticks && u in w.ticks { assert SameTick(w.ticks[t], w.ticks[u]); }
    }
    if e.Leave? && e.token in w.ticks {
      forall t | t in after.ticks ensures (after.ticks[t].instance, after.ticks[t].strategy) in after.running {
        assert !SameTick(w.ticks[t], w.ticks[e.token]);
      }
    }
  }

  /** Even when locks expire, an instance never ticks a strategy twice at a time. */
  lemma {:induction false} OneTickPerInstance(events: seq<Event>)
    ensures Guarded(Run(QUIET, events)) && OnePerInstance(Run(QUIET, events))
  {
    if events != [] {
      OneTickPerInstance(events[..|events| - 1]);
      NextGuarded(Run(QUIET, events[..|events| - 1]), events[|events| - 1]);
    }
  }

  /* ---- All instances ---- */

  /** Whoever has taken a lock still holds it. */
  ghost predicate Held(w: World) {
    forall t :: t in w.ticks && w.ticks[t].locked ==> w.ticks[t].strategy in w.locks && w.locks[w.ticks[t].strategy] == t
  }

  predicate BothLocked(w: World, t: nat, u: nat) {
    t in w.ticks && u in w.ticks && w.ticks[t].locked && w.ticks[u].locked && w.ticks[t].strategy == w.ticks[u].strategy
  }

  /** Only ticks that have the lock read the market and decide; no two of them are for one strategy. */
  ghost predicate OnePerStrategy(w: World) {
    forall t, u :: BothLocked(w, t, u) ==> t == u
  }

  /** The lock outlives the tick that took it. */
  predicate InTime(w: World, e: Event) {
    e.Expire? ==> e.strategy !in w.locks
  }

  predicate InTimeRun(w: World, events: seq<Event>) {
    events != [] ==>
      InTimeRun(w, events[..|events| - 1]) && InTime(Run(w, events[..|events| - 1]), events[|events| - 1])
  }

  lemma NextHeld(w: World, e: Event)
    requires Guarded(w) && Held(w) && InTime(w, e)
    ensures Held(Next(w, e))
  {
  }

  lemma HeldIsOne(w: World)
    requires Held(w)
    ensures OnePerStrategy(w)
  {
  }

  /** As long as no lock expires under its tick, at most one instance ticks a strategy. */
  lemma {:induction false} OneTickPerStrategy(events: seq<Event>)
    requires InTimeRun(QUIET, events)
    ensures Held(Run(QUIET, events)) && OnePerStrategy(Run(QUIET, events))
  {
    if events != [] {
      OneTickPerStrategy(events[..|events| - 1]);
      OneTickPerInstance(events[..|events| - 1]);
      NextHeld(Run(QUIET, events[..|events| - 1]), events[|events| - 1]);
    }
    HeldIsOne(Run(QUIET, events));
  }

  predicate Holds(w: World, t: nat) {
    t in w.ticks && w.ticks[t].strategy in w.locks && w.locks[w.ticks[t].strategy] == t
  }

  /** A lock goes exactly when it expires or the tick that holds it leaves; nobody else releases it, or takes it over. */
  lemma LockGoesExactly(events: seq<Event>, e: Event, s: nat)
    requires s in Run(QUIET, events).locks
    ensures var w := Run(QUIET, events);
            !(s in Next(w, e).locks && Next(w, e).locks[s] == w.locks[s]) <==> e == Expire(s) || e == Leave(w.locks[s])
  {
    OneTickPerInstance(events);
    hide OnePerInstance, Run;
  }

  /** A tick that has lost its lock to an expiry does not get it back. */
  lemma LostStaysLost(events: seq<Event>, e: Event, t: nat)
    requires var w := Run(QUIET, events); t in w.ticks && w.ticks[t].locked && !Holds(w, t)
    ensures !Holds(Next(Run(QUIET, events), e), t)
  {
    OneTickPerInstance(events);
    hide OnePerInstance, Run;
  }

  /** After the expiry another instance enters and takes the lock; then two ticks of the strategy have it. */
  function Overtaken(w: World, token: nat, instance: nat, strategy: nat): World {
    Next(Next(Next(w, Expire(strategy)), Enter(token, instance, strategy)), Acquire(token))
  }

  predicate Newcomer(w: World, token: nat, instance: nat, strategy: nat) {
    token !in w.ticks && (instance, strategy) !in w.running
  }

  /** And otherwise it does not hold: an expiry lets a newcomer overtake exactly when it was under a tick. */
  lemma ExpiryMattersExactly(w: World, token: nat, instance: nat, strategy: nat)
    requires Guarded(w) && Held(w) && Newcomer(w, token, instance, strategy)
    ensures OnePerStrategy(Overtaken(w, token, instance, strategy)) <==> InTime(w, Expire(strategy))
  {
    var w1 := Next(w, Expire(strategy));
    var w2 := Next(w1, Enter(token, instance, strategy));
    var w3 := Next(w2, Acquire(token));
    NextGuarded(w, Expire(strategy));
    NextGuarded(w1, Enter(token, instance, strategy));
    if strategy in w.locks {
      var t := w.locks[strategy];
      assert w2.ticks[t] == w.ticks[t] && w2.ticks[token] == Tick(instance, strategy, false);
      assert BothLocked(w3, t, token);
    } else {
      NextHeld(w, Expire(strategy));
      NextHeld(w1, Enter(token, instance, strategy));
      NextHeld(w2, Acquire(token));
      HeldIsOne(w3);
    }
  }

  /* ---- The runner ---- */

  class LockService {
    var held: map<nat, nat>

    method Acquire(strategy: nat, token: nat) returns (acquired: bool)
      modifies this
      ensures acquired <==> strategy !in old(held)
      ensures held == Acquired(old(held), strategy, token)
    {
      if strategy in held { return false; }
      held := held[strategy := token];
      return true;
    }

    method Release(strategy: nat, token: nat)
      modifies this
      ensures held == Released(old(held), strategy, token)
    {
      if strategy in held && held[strategy] == token {
        held := held - {strategy};
      }
    }
  }

  datatype Outcome = Skipped | Decided(decision: StrategyRunner.Decision)

  class Runner {
    var running: set<nat>

    constructor ()
      ensures running == {}
    {
      running := {};
    }

    /** A tick without interruptions: it decides only when it got past both guards and nothing is pending. */
    method RunStrategy(strategy: nat, locks: LockService, token: nat, s: StrategyRunner.Terms, pending: bool,
                       position: Option<StrategyRunner.Position>, m: StrategyRunner.Market) returns (outcome: Outcome)
      modifies this, locks
      ensures running == old(running)
      ensures locks.held == old(locks.held)
      ensures outcome == if strategy in old(running) || strategy in old(locks.held) || pending then Skipped
                         else Decided(StrategyRunner.Decide(s, position, m))
    {
      if strategy in running { return Skipped; }
      running := running + {strategy};
      var locked := locks.Acquire(strategy, token);
      if !locked || pending {
        outcome := Skipped;
      } else {
        outcome := Decided(StrategyRunner.Decide(s, position, m));
      }
      if locked { locks.Release(strategy, token); }
      running := running - {strategy};
    }
  }
}
