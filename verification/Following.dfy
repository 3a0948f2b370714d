/** Following, fleeing and running stages in sequence: behaviour/follow.go and behaviour/mine.go. */
module Following {
  import opened Options

  datatype Reason = Blocked | Stuck | WorldChanged | Unable

  /** `moves` is whether anything is sent. A wait is a running tick that sends nothing; a failed tick is an error. */
  datatype Outcome = Running(moves: bool) | Complete(moves: bool) | Stopped(reason: Reason) | Failed

  /** What a tick sees: whether the body is placed, whether the other entity is tracked, and how far off it is. */
  datatype Observed = Observed(placed: bool, tracked: bool, distance: real)

  const EPSILON: real := 0.000001

  datatype Motion = Motion(arrive: real, giveUp: real, patience: int)

  // ----- Follow -----

  /** `closest` is the nearest the body has been and `idle` the ticks since that improved. */
  datatype Chase = Chase(closest: real, idle: nat, started: bool)

  const UNSTARTED := Chase(0.0, 0, false)

  function Progress(m: Motion, c: Chase, distance: real): (Chase, Option<Outcome>) {
    if !c.started || distance < c.closest - EPSILON then (Chase(distance, 0, true), None)
    else
      var idle := c.idle + 1;
      (c.(idle := idle), if m.patience > 0 && idle >= m.patience then Some(Stopped(Stuck)) else None)
  }

  function FollowTick(m: Motion, c: Chase, o: Observed): (Chase, Outcome) {
    if !o.placed then (c, Running(false))
    else if !o.tracked then (c, Stopped(WorldChanged))
    else if m.giveUp > 0.0 && o.distance > m.giveUp then (c, Stopped(Blocked))
    else
      var (next, stop) := Progress(m, c, o.distance);
      if stop.Some? then (next, stop.value) else (next, Running(o.distance > m.arrive))
  }

  class Follow {
    const motion: Motion
    var closest: real
    var idle: nat
    var started: bool

    ghost function Abs(): Chase
      reads this
    {
      Chase(closest, idle, started)
    }

    constructor (motion: Motion)
      ensures this.motion == motion && Abs() == UNSTARTED
    {
      this.motion := motion;
      closest, idle, started := 0.0, 0, false;
    }

    method Tick(o: Observed) returns (outcome: Outcome)
      modifies this
      ensures (Abs(), outcome) == FollowTick(motion, old(Abs()), o)
    {
      if !o.placed {
        return Running(false);
      }
      if !o.tracked {
        return Stopped(WorldChanged);
      }
      if motion.giveUp > 0.0 && o.distance > motion.giveUp {
        return Stopped(Blocked);
      }
      if !started || o.distance < closest - EPSILON {
        started, closest, idle := true, o.distance, 0;
      } else {
        idle := idle + 1;
        if motion.patience > 0 && idle >= motion.patience {
          return Stopped(Stuck);
        }
      }
      return Running(o.distance > motion.arrive);
    }
  }

  // ----- Flee -----

  /** The mirror image: `closest` here is the furthest the body has been. */
  function FleeTick(m: Motion, safe: real, c: Chase, o: Observed): (Chase, Outcome) {
    if !o.placed then (c, Running(false))
    else if !o.tracked || o.distance >= safe then (c, Complete(false))
    else if !c.started || o.distance > c.closest + EPSILON then (Chase(o.distance, 0, true), Running(true))
    else
      var idle := c.idle + 1;
      (c.(idle := idle), if m.patience > 0 && idle >= m.patience then Stopped(Stuck) else Running(true))
  }

  class Flee {
    const motion: Motion
    const safe: real
    var furthest: real
    var idle: nat
    var started: bool

    ghost function Abs(): Chase
      reads this
    {
      Chase(furthest, idle, started)
    }

    constructor (motion: Motion, safe: real)
      ensures this.motion == motion && this.safe == safe && Abs() == UNSTARTED
    {
      this.motion, this.safe := motion, safe;
      furthest, idle, started := 0.0, 0, false;
    }

    method Tick(o: Observed) returns (outcome: Outcome)
      modifies this
      ensures (Abs(), outcome) == FleeTick(motion, safe, old(Abs()), o)
    {
      if !o.placed {
        return Running(false);
      }
      if !o.tracked || o.distance >= safe {
        return Complete(false);
      }
      if !started || o.distance > furthest + EPSILON {
        started, furthest, idle := true, o.distance, 0;
      } else {
        idle := idle + 1;
        if motion.patience > 0 && idle >= motion.patience {
          return Stopped(Stuck);
        }
      }
      return Running(true);
    }
  }

  // ----- Why they stop -----

  /** How many improvements of more than epsilon fit into a distance. */
  function Gains(distance: real): int {
    (distance / EPSILON).Floor
  }

  /** How many more running ticks a chase with so much left to gain has in it. */
  function Budget(patience: int, left: real, idle: nat): int {
    patience * Gains(left) + patience - idle
  }

  lemma FewerGains(near: real, far: real)
    requires near < far - EPSILON
    ensures Gains(near) <= Gains(far) - 1
  {
    assert near / EPSILON < far / EPSILON - 1.0;
  }

  /** An improvement costs patience more than it gives back; an idle tick costs one. */
  lemma GainSpends(patience: int, near: real, far: real, idle: nat)
    requires patience > 0 && near < far - EPSILON && idle < patience
    ensures Budget(patience, near, 0) < Budget(patience, far, idle)
  {
    FewerGains(near, far);
    Times(patience, Gains(near), Gains(far) - 1);
    assert patience * (Gains(far) - 1) == patience * Gains(far) - patience;
  }

  lemma Times(p: int, a: int, b: int)
    requires p >= 0 && a <= b
    ensures p * a <= p * b
  {
  }

  lemma BudgetPositive(patience: int, left: real, idle: nat)
    requires patience > 0 && left >= 0.0 && idle < patience
    ensures Budget(patience, left, idle) > 0
  {
    Times(patience, 0, Gains(left));
  }

  type Tick<!S, !O> = (S, O) -> (S, Outcome)

  /** Whatever is observed, at most n ticks run before one that does not. */
  ghost predicate StopsWithin<S, O(!new)>(tick: Tick<S, O>, s: S, n: nat)
    decreases n
  {
    forall o :: tick(s, o).1.Running? ==> n > 0 && StopsWithin(tick, tick(s, o).0, n - 1)
  }

  lemma {:induction false} StopsWithinMore<S, O(!new)>(tick: Tick<S, O>, s: S, n: nat, m: nat)
    requires StopsWithin(tick, s, n) && n <= m
    ensures StopsWithin(tick, s, m)
    decreases n
  {
    forall o | tick(s, o).1.Running?
      ensures m > 0 && StopsWithin(tick, tick(s, o).0, m - 1)
    {
      StopsWithinMore(tick, tick(s, o).0, n - 1, m - 1);
    }
  }

  /** A distance, as seen by a tick whose body is placed and whose entity is tracked. */
  type Distance = d: real | d >= 0.0

  function FollowSighted(m: Motion): Tick<Chase, Distance> {
    (c: Chase, d: Distance) => FollowTick(m, c, Observed(true, true, d))
  }

  function FleeSighted(m: Motion, safe: real): Tick<Chase, Distance> {
    (c: Chase, d: Distance) => FleeTick(m, safe, c, Observed(true, true, d))
  }

  lemma {:induction false} FollowStops(m: Motion, c: Chase)
    requires m.patience > 0 && c.started && c.closest >= 0.0 && c.idle < m.patience
    ensures Budget(m.patience, c.closest, c.idle) > 0
    ensures StopsWithin(FollowSighted(m), c, Budget(m.patience, c.closest, c.idle) - 1)
    decreases Budget(m.patience, c.closest, c.idle)
  {
    BudgetPositive(m.patience, c.closest, c.idle);
    var n := Budget(m.patience, c.closest, c.idle) - 1;
    forall d: Distance | FollowSighted(m)(c, d).1.Running?
      ensures n > 0 && StopsWithin(FollowSighted(m), FollowSighted(m)(c, d).0, n - 1)
    {
      var next := FollowSighted(m)(c, d).0;
      if d < c.closest - EPSILON {
        GainSpends(m.patience, d, c.closest, c.idle);
      }
      BudgetPositive(m.patience, next.closest, next.idle);
      FollowStops(m, next);
      StopsWithinMore(FollowSighted(m), next, Budget(m.patience, next.closest, next.idle) - 1, n - 1);
    }
  }

  /**
   * A follow with positive patience stops. Seeing its entity at distance d first, it runs for at most
   * patience * (d / epsilon + 1) ticks in all, whatever it sees afterwards.
   */
  lemma FollowStopsFrom(m: Motion, d: Distance)
    requires m.patience > 0 && FollowSighted(m)(UNSTARTED, d).1.Running?
    ensures m.patience * (Gains(d) + 1) > 0
    ensures StopsWithin(FollowSighted(m), FollowSighted(m)(UNSTARTED, d).0, m.patience * (Gains(d) + 1) - 1)
  {
    assert m.patience * (Gains(d) + 1) == m.patience * Gains(d) + m.patience;
    FollowStops(m, Chase(d, 0, true));
  }

  lemma {:induction false} FleeStops(m: Motion, safe: real, c: Chase)
    requires m.patience > 0 && c.started && c.closest < safe && c.idle < m.patience
    ensures Budget(m.patience, safe - c.closest, c.idle) > 0
    ensures StopsWithin(FleeSighted(m, safe), c, Budget(m.patience, safe - c.closest, c.idle) - 1)
    decreases Budget(m.patience, safe - c.closest, c.idle)
  {
    BudgetPositive(m.patience, safe - c.closest, c.idle);
    var n := Budget(m.patience, safe - c.closest, c.idle) - 1;
    forall d: Distance | FleeSighted(m, safe)(c, d).1.Running?
      ensures n > 0 && StopsWithin(FleeSighted(m, safe), FleeSighted(m, safe)(c, d).0, n - 1)
    {
      var next := FleeSighted(m, safe)(c, d).0;
      if d > c.closest + EPSILON {
        GainSpends(m.patience, safe - d, safe - c.closest, c.idle);
      }
      BudgetPositive(m.patience, safe - next.closest, next.idle);
      FleeStops(m, safe, next);
      StopsWithinMore(FleeSighted(m, safe), next, Budget(m.patience, safe - next.closest, next.idle) - 1, n - 1);
    }
  }

  /**
   * A flee with positive patience is over within patience * ((safe - d) / epsilon + 1) ticks of first seeing its
   * threat at d.
   */
  lemma FleeStopsFrom(m: Motion, safe: real, d: Distance)
    requires m.patience > 0 && FleeSighted(m, safe)(UNSTARTED, d).1.Running?
    ensures m.patience * (Gains(safe - d) + 1) > 0
    ensures StopsWithin(FleeSighted(m, safe), FleeSighted(m, safe)(UNSTARTED, d).0,
                        m.patience * (Gains(safe - d) + 1) - 1)
  {
    assert m.patience * (Gains(safe - d) + 1) == m.patience * Gains(safe - d) + m.patience;
    FleeStops(m, safe, Chase(d, 0, true));
  }

  function ChaseAfter(m: Motion, d: real, n: nat): Chase {
    if n == 0 then UNSTARTED else FollowTick(m, ChaseAfter(m, d, n - 1), Observed(true, true, d)).0
  }

  /** What a follow answers on tick n of an entity that stays at distance d. */
  function HeldTick(m: Motion, d: real, n: nat): Outcome {
    FollowTick(m, ChaseAfter(m, d, n), Observed(true, true, d)).1
  }

  /** The follow waits, or walks until it is close enough, on every tick for as long as the entity stays. */
  ghost predicate HoldsForever(m: Motion, d: real) {
    forall n: nat :: HeldTick(m, d, n) == Running(d > m.arrive)
  }

  predicate WithinReach(m: Motion, d: real) {
    m.giveUp <= 0.0 || d <= m.giveUp
  }

  lemma {:induction false} Holding(m: Motion, d: Distance, n: nat)
    requires WithinReach(m, d) && (m.patience <= 0 || n <= m.patience)
    ensures ChaseAfter(m, d, n) == if n == 0 then UNSTARTED else Chase(d, n - 1, true)
  {
    if n > 0 {
      Holding(m, d, n - 1);
    }
  }

  /**
   * Holding the distance it was asked to hold counts as no progress: a follow whose entity stays put runs for
   * exactly as many ticks as it has patience, close enough or not, and is then stuck.
   */
  lemma HoldingGetsStuck(m: Motion, d: Distance, n: nat)
    requires m.patience > 0 && WithinReach(m, d) && n <= m.patience
    ensures HeldTick(m, d, n) == if n < m.patience then Running(d > m.arrive) else Stopped(Stuck)
  {
    Holding(m, d, n);
  }

  /** So a follow holds its distance for good if and only if it has no patience to lose and has not given up. */
  lemma HoldsIff(m: Motion, d: Distance)
    ensures HoldsForever(m, d) <==> m.patience <= 0 && WithinReach(m, d)
  {
    if m.patience <= 0 && WithinReach(m, d) {
      forall n: nat
        ensures HeldTick(m, d, n) == Running(d > m.arrive)
      {
        Holding(m, d, n);
      }
    } else if WithinReach(m, d) {
      HoldingGetsStuck(m, d, m.patience);
      assert HeldTick(m, d, m.patience) != Running(d > m.arrive);
    } else {
      assert HeldTick(m, d, 0) == Stopped(Blocked);
    }
  }

  // ----- A sequence of stages -----

  datatype Stage<!S, !O> = Stage(state: S, tick: Tick<S, O>)

  datatype Progression<!S, !O> = Progression(stages: seq<Stage<S, O>>, at: nat)

  /** One tick of the active stage, and of no other; a finished stage hands over to the next tick. */
  function SequenceTick<S, O>(p: Progression<S, O>, o: O): (Progression<S, O>, Outcome) {
    if p.at >= |p.stages| then (p, Complete(false))
    else
      var stage := p.stages[p.at];
      var (state, outcome) := stage.tick(stage.state, o);
      var ticked := p.(stages := p.stages[p.at := stage.(state := state)]);
      if outcome.Complete? then
        (ticked.(at := p.at + 1), if p.at + 1 >= |p.stages| then outcome else Running(outcome.moves))
      else (ticked, outcome)
  }

  class Sequence<S(==), O> {
    var stages: seq<Stage<S, O>>
    var at: nat

    ghost function Abs(): Progression<S, O>
      reads this
    {
      Progression(stages, at)
    }

    constructor (stages: seq<Stage<S, O>>)
      requires stages != []
      ensures Abs() == Progression(stages, 0)
    {
      this.stages, at := stages, 0;
    }

    method Tick(o: O) returns (outcome: Outcome)
      modifies this
      ensures (Abs(), outcome) == SequenceTick(old(Abs()), o)
    {
      if at >= |stages| {
        return Complete(false);
      }
      var stage := stages[at];
      var (state, ticked) := stage.tick(stage.state, o);
      stages := stages[at := stage.(state := state)];
      outcome := ticked;
      if outcome.Complete? {
        at := at + 1;
        if at >= |stages| {
          return;
        }
        return Running(outcome.moves);
      }
    }
  }

  /** The bounds of the stages from one on, and one tick for each to finish in. */
  function Remaining(bounds: seq<nat>, at: nat): nat
    decreases |bounds| - at
  {
    if at >= |bounds| then 0 else bounds[at] + 1 + Remaining(bounds, at + 1)
  }

  ghost predicate StageStops<S, O(!new)>(stage: Stage<S, O>, n: nat) {
    StopsWithin(stage.tick, stage.state, n)
  }

  /**
   * Stages that stop make a sequence that stops, within the sum of their bounds and one tick each to finish in,
   * whatever each of them observes.
   */
  lemma {:induction false} SequenceStops<S, O(!new)>(p: Progression<S, O>, bounds: seq<nat>)
    requires |bounds| == |p.stages| && p.at < |p.stages|
    requires forall i :: p.at <= i < |bounds| ==> StageStops(p.stages[i], bounds[i])
    ensures StopsWithin(SequenceTick<S, O>, p, Remaining(bounds, p.at) - 1)
    decreases Remaining(bounds, p.at)
  {
    var n := Remaining(bounds, p.at) - 1;
    forall o | SequenceTick(p, o).1.Running?
      ensures n > 0 && StopsWithin(SequenceTick<S, O>, SequenceTick(p, o).0, n - 1)
    {
      var next := SequenceTick(p, o).0;
      var stage := p.stages[p.at];
      assert StageStops(stage, bounds[p.at]);
      if stage.tick(stage.state, o).1.Complete? {
        SequenceStops(next, bounds);
        assert Remaining(bounds, p.at) == bounds[p.at] + 1 + Remaining(bounds, p.at + 1);
        StopsWithinMore(SequenceTick<S, O>, next, Remaining(bounds, next.at) - 1, n - 1);
      } else {
        var shorter := bounds[p.at := bounds[p.at] - 1];
        assert StopsWithin(stage.tick, next.stages[p.at].state, bounds[p.at] - 1);
        RemainingShorter(bounds, p.at);
        SequenceStops(next, shorter);
      }
    }
  }

  lemma RemainingShorter(bounds: seq<nat>, at: nat)
    requires at < |bounds| && bounds[at] > 0
    ensures Remaining(bounds[at := bounds[at] - 1], at) == Remaining(bounds, at) - 1
  {
    RemainingSame(bounds, bounds[at := bounds[at] - 1], at + 1);
  }

  lemma {:induction false} RemainingSame(a: seq<nat>, b: seq<nat>, at: nat)
    requires |a| == |b| && forall i :: at <= i < |a| ==> a[i] == b[i]
    ensures Remaining(a, at) == Remaining(b, at)
    decreases |a| - at
  {
    if at < |a| {
      RemainingSame(a, b, at + 1);
    }
  }

  /** A tick touches the active stage's state only, and moves on by at most one stage. */
  lemma OneStageAtATime<S, O>(p: Progression<S, O>, o: O)
    ensures var next := SequenceTick(p, o).0;
            && |next.stages| == |p.stages| && p.at <= next.at <= p.at + 1
            && forall i :: 0 <= i < |p.stages| && i != p.at ==> next.stages[i] == p.stages[i]
  {
  }
}
