/**
 * The example bot's decisions, examples/orbit/bot.go, as a relation between one tick's memory and the next. The
 * world's answers and the geometry are parameters; time is an integer the caller supplies.
 */
module OrbitMachine {
  import opened Options
  import opened Routes
  import opened Vectors

  datatype State = Joining | Orbiting | Fighting | Escaping | Dousing | Dead | Returning | Trapped | Done

  datatype Entity = Entity(position: Vec3, alive: bool, named: bool, pursues: bool)

  datatype Tick = Tick(
    now: int, ready: bool, self: Vec3, onGround: bool, onFire: bool, attacker: int,
    died: bool, respawned: bool, corrected: bool, revision: int)

  /** The bot's questions to the world. */
  datatype World = World(
    spawn: Option<Vec3>, route: (Vec3, Vec3) -> Option<seq<Step>>, walkable: (Vec3, Vec3) -> bool,
    hurting: Vec3 -> bool, water: Vec3 -> Option<Vec3>, safe: Vec3 -> Option<Vec3>, entity: int -> Option<Entity>)

  /** A planner that finds a way always gives at least one step of it. */
  ghost predicate Plans(w: World) {
    forall a, b :: w.route(a, b).Some? ==> w.route(a, b).value != []
  }

  /** Distances, points along lines, and the waypoints of the circle around a centre. */
  datatype Geometry = Geometry(
    toward: (Vec3, Vec3, real) -> Vec3, distance: (Vec3, Vec3) -> real,
    at: (Vec3, int) -> Vec3, nearest: (Vec3, Vec3) -> int, heading: (Vec3, int) -> Vec3)

  datatype Bounds = Bounds(
    maxSkips: int, noProgress: int, fleeMargin: real, radius: real, waypointRadius: real, legRadius: real,
    escape: int, fireDuration: int, walk: real -> int, reach: real, cooldown: int, engagement: int,
    killInterval: int, trappedBudget: int, breakerBudget: int, joinTimeout: int, stride: real)

  /** `Crash` is the program dividing by a circle's zero waypoints. */
  datatype Action =
    | Stand
    | StepTo(target: Vec3, jump: bool)
    | AskToDie
    | Strike(entity: int)
    | SendRespawn
    | Exit(code: int)
    | Crash

  const HEADINGS: nat := 8
  const LOOKAHEAD: real := 2.0
  const ESCAPE_ROUTE := -2
  const DOUSE_ROUTE := -3
  const FIGHT_ROUTE := -4

  /** The step lands, one stride on, on something that does not hurt - or the body already stands in something. */
  predicate Guarded(geo: Geometry, stride: real, t: Tick, w: World, a: Action) {
    a.StepTo? ==> w.hurting(t.self) || !w.hurting(geo.toward(t.self, a.target, stride))
  }

  /** Moves or waits, and nothing else. */
  predicate Calm(a: Action) {
    a.Stand? || a.StepTo?
  }

  /** Where one tick may lead from each state. */
  predicate Leads(from: State, to: State) {
    || to == from
    || (!from.Done? && (to.Dead? || to.Done?))
    || match from
       case Joining => to.Returning? || to.Escaping? || to.Dousing?
       case Orbiting => to.Trapped? || to.Fighting? || to.Returning? || to.Escaping? || to.Dousing?
       case Fighting => to.Returning? || to.Escaping? || to.Dousing?
       case Escaping => to.Returning?
       case Dousing => to.Returning? || to.Escaping?
       case Dead => to.Joining? || to.Returning?
       case Returning => to.Orbiting? || to.Fighting? || to.Escaping? || to.Dousing?
       case Trapped => to.Orbiting? || to.Fighting? || to.Returning? || to.Escaping? || to.Dousing?
       case Done => false
  }

  /** The states a bot without a circle can be in. */
  predicate Circleless(state: State) {
    state.Joining? || state.Dead? || state.Done? || state.Escaping? || state.Dousing?
  }

  // ----- One tick as a relation -----

  /** The planned route: its steps, the one being walked to, the goal's key, and when the way ahead was looked at. */
  datatype Way = Way(steps: seq<Step>, leg: nat, routedFor: int, checkedAt: int)

  datatype Foe = Foe(target: int, fledAt: int, struckAt: Option<int>)

  datatype Flight = Flight(escapedAt: int, escapeTo: Vec3)

  datatype Fire = Fire(lit: bool, litAt: int, dousingAt: Vec3)

  datatype Seal = Seal(trappedAt: int, trappedRevision: int, killedAt: int)

  const NO_WAY := Way([], 0, 0, 0)

  /** Everything the bot remembers from one tick to the next; `centre` is the circle's, once it has one. */
  datatype Memo = Memo(
    state: State, centre: Option<Vec3>, waypoint: int, skips: int, way: Way, foe: Foe, flight: Flight, fire: Fire,
    seal: Seal, progressAt: int, corrections: int, readyAt: Option<int>)
  {
    /**
     * A joining bot has no circle yet. One that is hurt or starts burning before it has joined may go without a
     * circle into the states that deal with that.
     */
    predicate Valid() {
      && (state.Joining? ==> centre.None?)
      && (centre.None? ==> Circleless(state))
    }

    function Unrouted(): Memo {
      this.(way := way.(steps := []))
    }

    /** A correction that counts: the bot is neither done nor dying on this tick. */
    predicate Corrects(t: Tick) {
      !state.Done? && t.corrected && (t.died ==> state.Dead?)
    }

    /** Death, or one correction too many, is handled before anything else. */
    predicate Interrupted(bounds: Bounds, t: Tick) {
      (!state.Done? && t.died && !state.Dead?) || (Corrects(t) && corrections + 1 > bounds.breakerBudget)
    }

    /** What an interruption leaves, and what it asks for. */
    function Interrupt(t: Tick): (Memo, Action) {
      if t.died && !state.Dead? then (this.(state := Dead, foe := foe.(target := 0)), SendRespawn)
      else (this.(state := Done, corrections := corrections + 1), Exit(1))
    }

    /** The circle, or the zero value in its place. */
    function CircleCentre(): Vec3 {
      if centre.Some? then centre.value else Vec3(0.0, 0.0, 0.0)
    }

    function CircleRadius(bounds: Bounds): real {
      if centre.Some? then bounds.radius else 0.0
    }

    /** Water is known, reached before the fire would be out, and near the circle. */
    predicate WorthReaching(bounds: Bounds, geo: Geometry, t: Tick, w: World) {
      var left, water := bounds.fireDuration - (t.now - fire.litAt), w.water(t.self);
      && left > 0 && water.Some? && bounds.walk(geo.distance(t.self, water.value)) < left
      && geo.distance(water.value, CircleCentre()) <= CircleRadius(bounds) + bounds.fleeMargin
    }

    /** After the harm check: standing in something that hurts outranks everything but dying. */
    function Harmed(t: Tick, w: World): Memo {
      if !state.Done? && !state.Dead? && !state.Escaping? && t.ready && w.hurting(t.self)
      then Unrouted().(state := Escaping, flight := flight.(escapedAt := t.now)) else this
    }

    /** With the burning clock set: a fire that was not burning starts now. */
    function Lit(t: Tick): Memo {
      this.(fire := fire.(lit := t.onFire, litAt := if t.onFire && !fire.lit then t.now else fire.litAt))
    }

    /** The fire check sends the bot to water. */
    predicate TakesToWater(bounds: Bounds, geo: Geometry, t: Tick, w: World) {
      && t.onFire && t.ready && !state.Escaping? && !state.Dousing? && !state.Dead? && !state.Done?
      && WorthReaching(bounds, geo, t, w)
    }

    function Burnt(bounds: Bounds, geo: Geometry, t: Tick, w: World): Memo {
      if TakesToWater(bounds, geo, t, w)
      then Unrouted().(state := Dousing, fire := fire.(dousingAt := w.water(t.self).value)) else this
    }

    function Counted(t: Tick): Memo {
      if Corrects(t) then this.(corrections := corrections + 1) else this
    }

    /** Where a tick that nothing interrupts starts deciding: the correction counted, harm and fire looked at. */
    function Preempted(bounds: Bounds, geo: Geometry, t: Tick, w: World): Memo {
      Counted(t).Harmed(t, w).Lit(t).Burnt(bounds, geo, t, w)
    }

    /** A plan to the goal is needed, and there is none. */
    predicate NoWay(t: Tick, w: World, goal: Vec3, key: int) {
      (way.steps == [] || way.routedFor != key) && w.route(t.self, goal).None?
    }

    /** Back on the way to the circle, to its nearest waypoint. */
    function Disengaged(geo: Geometry, t: Tick): Memo {
      this.(state := Returning, foe := foe.(target := 0), waypoint := geo.nearest(CircleCentre(), t.self),
            skips := 0, progressAt := t.now)
    }

    /** Turned on this tick's attacker. */
    function Turned(t: Tick): Memo {
      Unrouted().(state := Fighting, foe := foe.(target := t.attacker, fledAt := t.now))
    }

    /** At its waypoint, and so on to the next. */
    function Arrived(bounds: Bounds, geo: Geometry, t: Tick): Memo {
      if geo.distance(t.self, geo.at(CircleCentre(), waypoint)) <= bounds.waypointRadius
      then Unrouted().(waypoint := waypoint + 1, skips := 0, progressAt := t.now) else this
    }

    /** An unreachable waypoint is skipped; with the skips used up and no progress for long, the bot is sealed in. */
    function Skipped(bounds: Bounds, t: Tick): Memo {
      if skips < bounds.maxSkips then Unrouted().(skips := skips + 1, waypoint := waypoint + 1)
      else if t.now - progressAt < bounds.noProgress then this
      else this.(state := Trapped, seal := Seal(t.now, t.revision, t.now))
    }

    /** Headed for the nearest waypoint. */
    function Nearing(geo: Geometry, t: Tick): Memo {
      var nearest := geo.nearest(CircleCentre(), t.self);
      if nearest != waypoint then Unrouted().(waypoint := nearest) else this
    }

    function FleeingTo(out: Vec3): Memo {
      if out != flight.escapeTo then Unrouted().(flight := flight.(escapeTo := out)) else this
    }

    function DousingIn(water: Vec3): Memo {
      if water != fire.dousingAt then Unrouted().(fire := fire.(dousingAt := water)) else this
    }

    /** An escape ends out of harm, or out of time. */
    predicate EscapeEnds(bounds: Bounds, t: Tick, w: World) {
      !w.hurting(t.self) || t.now - flight.escapedAt > bounds.escape
    }

    /** A walk to water ends with the fire out, the water not worth it, or no way to it. */
    predicate DousingEnds(bounds: Bounds, geo: Geometry, t: Tick, w: World) {
      || !t.onFire || !WorthReaching(bounds, geo, t, w)
      || DousingIn(w.water(t.self).value).NoWay(t, w, w.water(t.self).value, DOUSE_ROUTE)
    }

    /** There is no circle to go back to, and the escape or the walk to water ends. */
    predicate Stranded(bounds: Bounds, geo: Geometry, t: Tick, w: World) {
      && centre.None?
      && ((state.Escaping? && EscapeEnds(bounds, t, w)) || (state.Dousing? && DousingEnds(bounds, geo, t, w)))
    }

    /**
     * The program panics on this tick: nothing interrupts it, there is no circle to go back to, and the escape or
     * the walk to water that it is on, or has just begun, ends.
     */
    predicate Crashes(bounds: Bounds, geo: Geometry, t: Tick, w: World) {
      !Interrupted(bounds, t) && Preempted(bounds, geo, t, w).Stranded(bounds, geo, t, w)
    }
  }

  const START := Memo(
    Joining, None, 0, 0, NO_WAY, Foe(0, 0, None), Flight(0, Vec3(0.0, 0.0, 0.0)),
    Fire(false, 0, Vec3(0.0, 0.0, 0.0)), Seal(0, 0, 0), 0, 0, None)

  /** The leg is the first from `start` on whose end the body has not reached. */
  ghost predicate NextLeg(bounds: Bounds, geo: Geometry, steps: seq<Step>, start: nat, leg: nat, self: Vec3) {
    && start <= leg && (leg <= |steps| || leg == start)
    && (forall k :: start <= k < leg ==> geo.distance(self, steps[k].at) <= bounds.legRadius)
    && (leg < |steps| ==> geo.distance(self, steps[leg].at) > bounds.legRadius)
  }

  /** The way ahead is looked at once per revision of the world, from the ground. */
  predicate Looks(m: Memo, t: Tick, steps: seq<Step>, leg: nat) {
    leg < |steps| && t.revision != m.way.checkedAt && t.onGround
  }

  /** The route is dropped: walked out, changed ahead, or about to hurt a body that is not hurt already. */
  predicate Drops(bounds: Bounds, geo: Geometry, m: Memo, t: Tick, w: World, steps: seq<Step>, leg: nat) {
    || leg >= |steps|
    || (Looks(m, t, steps, leg) && !w.walkable(t.self, geo.toward(t.self, steps[leg].at, LOOKAHEAD)))
    || (!w.hurting(t.self) && w.hurting(geo.toward(t.self, steps[leg].at, bounds.stride)))
  }

  /** One tick along the kept route to a goal, or along a new one. */
  ghost predicate Follows(bounds: Bounds, geo: Geometry, m: Memo, t: Tick, w: World, goal: Vec3, key: int,
                          a: Action, m': Memo)
    requires !m.NoWay(t, w, goal, key)
  {
    var kept, leg := m.way.steps != [] && m.way.routedFor == key, m'.way.leg;
    var steps, start := if kept then m.way.steps else w.route(t.self, goal).value, if kept then m.way.leg else 0;
    var drops := Drops(bounds, geo, m, t, w, steps, leg);
    && NextLeg(bounds, geo, steps, start, leg, t.self)
    && a == (if drops then Stand else StepTo(steps[leg].at, steps[leg].jump))
    && m' == m.(
       way := Way(if drops then [] else steps, leg, key,
                  if Looks(m, t, steps, leg) then t.revision else m.way.checkedAt),
       progressAt := if leg > start then t.now else m.progressAt)
  }

  /** Back to the circle; without one the program divides by how many waypoints it has. */
  predicate Disengages(geo: Geometry, m: Memo, t: Tick, a: Action, m': Memo) {
    (m', a) == if m.centre.Some? then (m.Disengaged(geo, t), Stand) else (m.(foe := m.foe.(target := 0)), Crash)
  }

  predicate Joins(bounds: Bounds, geo: Geometry, m: Memo, t: Tick, w: World, a: Action, m': Memo) {
    var since := if m.readyAt.None? then Some(t.now) else m.readyAt;
    if !t.ready then a == Stand && m' == m
    else if w.spawn.Some? then
      && a == Stand
      && m' == m.(state := Returning, centre := w.spawn, waypoint := geo.nearest(w.spawn.value, t.self),
                  progressAt := t.now, readyAt := since)
    else if t.now - since.value >= bounds.joinTimeout then a == Exit(3) && m' == m.(state := Done, readyAt := since)
    else a == Stand && m' == m.(readyAt := since)
  }

  /** The fight is over: the target dead or gone, the clock run out, or the target too far from the circle. */
  predicate FightEnds(bounds: Bounds, geo: Geometry, m: Memo, t: Tick, w: World) {
    var threat := w.entity(m.foe.target);
    || threat.None? || !threat.value.alive || t.now - m.foe.fledAt > bounds.engagement
    || geo.distance(threat.value.position, m.CircleCentre()) > bounds.radius + bounds.fleeMargin
  }

  predicate Cooling(bounds: Bounds, m: Memo, t: Tick) {
    m.foe.struckAt.Some? && t.now - m.foe.struckAt.value < bounds.cooldown
  }

  /** Closes on the target, and swings exactly when it is in reach with the cooldown over. */
  ghost predicate Fights(bounds: Bounds, geo: Geometry, m: Memo, t: Tick, w: World, a: Action, m': Memo) {
    if FightEnds(bounds, geo, m, t, w) then Disengages(geo, m, t, a, m')
    else
      var at := w.entity(m.foe.target).value.position;
      if geo.distance(t.self, at) > bounds.reach then
        if m.NoWay(t, w, at, FIGHT_ROUTE) then Disengages(geo, m, t, a, m')
        else Follows(bounds, geo, m, t, w, at, FIGHT_ROUTE, a, m')
      else if Cooling(bounds, m, t) then a == Stand && m' == m
      else a == Strike(m.foe.target) && m' == m.(foe := m.foe.(struckAt := Some(t.now)))
  }

  /** This tick's attacker is known, lives, and is not known to be unable to follow. */
  predicate Provokes(t: Tick, w: World) {
    && t.attacker != 0 && w.entity(t.attacker).Some? && w.entity(t.attacker).value.alive
    && (w.entity(t.attacker).value.named ==> w.entity(t.attacker).value.pursues)
  }

  ghost predicate Orbits(bounds: Bounds, geo: Geometry, m: Memo, t: Tick, w: World, a: Action, m': Memo) {
    if Provokes(t, w) then Fights(bounds, geo, m.Turned(t), t, w, a, m')
    else
      var m1 := m.Arrived(bounds, geo, t);
      var goal := geo.at(m1.CircleCentre(), m1.waypoint);
      if m1.NoWay(t, w, goal, m1.waypoint) then a == Stand && m' == m1.Skipped(bounds, t)
      else Follows(bounds, geo, m1, t, w, goal, m1.waypoint, a, m')
  }

  ghost predicate Returns(bounds: Bounds, geo: Geometry, m: Memo, t: Tick, w: World, a: Action, m': Memo) {
    if Provokes(t, w) then Fights(bounds, geo, m.Turned(t), t, w, a, m')
    else
      var m1 := m.Nearing(geo, t);
      var goal := geo.at(m1.CircleCentre(), m1.waypoint);
      if geo.distance(t.self, goal) <= bounds.waypointRadius then
        a == Stand && m' == m1.Unrouted().(state := Orbiting, progressAt := t.now)
      else if m1.NoWay(t, w, goal, m1.waypoint) then a == Stand && m' == m1
      else Follows(bounds, geo, m1, t, w, goal, m1.waypoint, a, m')
  }

  /** Looks for a way when the world changed since it last looked; the one step it takes then is not guarded. */
  ghost predicate LooksAgain(geo: Geometry, m: Memo, t: Tick, w: World, a: Action, m': Memo) {
    var found, looked := w.route(t.self, geo.at(m.CircleCentre(), m.waypoint)), m.seal.(trappedRevision := t.revision);
    if t.revision == m.seal.trappedRevision then a == Stand && m' == m
    else if found.None? then a == Stand && m' == m.(seal := looked)
    else
      && found.value != [] && a == StepTo(found.value[0].at, found.value[0].jump)
      && m' == m.(state := Orbiting, way := Way(found.value, 0, m.waypoint, m.way.checkedAt), skips := 0,
                  progressAt := t.now, seal := looked)
  }

  ghost predicate Waits(bounds: Bounds, geo: Geometry, m: Memo, t: Tick, w: World, a: Action, m': Memo) {
    if Provokes(t, w) then Fights(bounds, geo, m.Turned(t), t, w, a, m')
    else if t.now - m.seal.trappedAt >= bounds.trappedBudget then a == Exit(1) && m' == m.(state := Done)
    else if t.now - m.seal.killedAt >= bounds.killInterval then
      a == AskToDie && m' == m.(seal := m.seal.(killedAt := t.now))
    else LooksAgain(geo, m, t, w, a, m')
  }

  /** Heading i lands, one stride on, on something that does not hurt. */
  predicate Harmless(bounds: Bounds, geo: Geometry, t: Tick, w: World, i: int) {
    !w.hurting(geo.toward(t.self, geo.heading(t.self, i), bounds.stride))
  }

  ghost predicate FirstClear(bounds: Bounds, geo: Geometry, t: Tick, w: World, i: int) {
    0 <= i < HEADINGS && Harmless(bounds, geo, t, w, i) && forall k :: 0 <= k < i ==> !Harmless(bounds, geo, t, w, k)
  }

  /** No heading is clear: along a route to safe ground if there is one, else straight at it. */
  ghost predicate Wades(bounds: Bounds, geo: Geometry, m: Memo, t: Tick, w: World, a: Action, m': Memo) {
    var out := w.safe(t.self);
    if out.None? then
      if m.way.routedFor == ESCAPE_ROUTE && m.way.steps != []
      then Follows(bounds, geo, m, t, w, m.flight.escapeTo, ESCAPE_ROUTE, a, m')
      else a == Stand && m' == m
    else
      var m1 := m.FleeingTo(out.value);
      if m1.NoWay(t, w, out.value, ESCAPE_ROUTE) then a == StepTo(out.value, false) && m' == m1
      else Follows(bounds, geo, m1, t, w, out.value, ESCAPE_ROUTE, a, m')
  }

  ghost predicate Escapes(bounds: Bounds, geo: Geometry, m: Memo, t: Tick, w: World, a: Action, m': Memo) {
    if m.EscapeEnds(bounds, t, w) then Disengages(geo, m, t, a, m')
    else if exists i :: FirstClear(bounds, geo, t, w, i) then
      && m' == m.Unrouted()
      && exists i :: FirstClear(bounds, geo, t, w, i) && a == StepTo(geo.heading(t.self, i), false)
    else Wades(bounds, geo, m, t, w, a, m')
  }

  ghost predicate Douses(bounds: Bounds, geo: Geometry, m: Memo, t: Tick, w: World, a: Action, m': Memo) {
    if !t.onFire || !m.WorthReaching(bounds, geo, t, w) then Disengages(geo, m, t, a, m')
    else
      var water := w.water(t.self).value;
      var m1 := m.DousingIn(water);
      if m1.NoWay(t, w, water, DOUSE_ROUTE) then Disengages(geo, m1, t, a, m')
      else Follows(bounds, geo, m1, t, w, water, DOUSE_ROUTE, a, m')
  }

  /** Waits out a death, and resumes an unfinished join rather than a circle there is not. */
  predicate Rises(m: Memo, t: Tick, a: Action, m': Memo) {
    && a == Stand
    && m' == if !t.respawned then m
             else m.(state := if m.centre.None? then Joining else Returning, skips := 0, progressAt := t.now)
  }

  /** The state's own decision. */
  ghost predicate Decides(bounds: Bounds, geo: Geometry, m: Memo, t: Tick, w: World, a: Action, m': Memo) {
    match m.state
    case Joining => Joins(bounds, geo, m, t, w, a, m')
    case Orbiting => Orbits(bounds, geo, m, t, w, a, m')
    case Fighting => Fights(bounds, geo, m, t, w, a, m')
    case Escaping => Escapes(bounds, geo, m, t, w, a, m')
    case Dousing => Douses(bounds, geo, m, t, w, a, m')
    case Dead => Rises(m, t, a, m')
    case Returning => Returns(bounds, geo, m, t, w, a, m')
    case Trapped => Waits(bounds, geo, m, t, w, a, m')
    case Done => a == Stand && m' == m
  }

  /** One tick of the machine: what it was, what it saw, what it did and what it became. */
  ghost predicate Ticked(bounds: Bounds, geo: Geometry, m: Memo, t: Tick, w: World, a: Action, m': Memo) {
    if m.Interrupted(bounds, t) then (m', a) == m.Interrupt(t)
    else Decides(bounds, geo, m.Preempted(bounds, geo, t, w), t, w, a, m')
  }

  // ----- What a tick keeps -----

  /** What any one tick may do, from any state. */
  ghost predicate TickKeeps(before: State, after: State, struck: Option<int>, struck': Option<int>,
                            bounds: Bounds, geo: Geometry, t: Tick, w: World, a: Action)
  {
    && (before.Done? ==> after.Done? && a == Stand)
    && (if a.Strike? then !before.Dead? && Paced(struck, struck', t.now, bounds.cooldown) else struck' == struck)
    && (a.SendRespawn? ==> !before.Dead? && after.Dead?)
    && (before.Dead? ==> (a.Stand? || a.Exit?) && (after.Dead? || after.Done? || t.respawned))
    && (a.Crash? ==> Circleless(before) && Circleless(after))
    && (a.StepTo? ==> Guarded(geo, bounds.stride, t, w, a) || (before.Trapped? && after.Orbiting?))
    && Leads(before, after)
  }

  /**
   * What every tick keeps: allowed moves, paced swings never made while standing in harm, a panic exactly when
   * `Crashes` says so, a circle once there is one, every correction counted, and the exit as soon as they pass the
   * budget.
   */
  ghost predicate Lawful(bounds: Bounds, geo: Geometry, m: Memo, t: Tick, w: World, a: Action, m': Memo) {
    && TickKeeps(m.state, m'.state, m.foe.struckAt, m'.foe.struckAt, bounds, geo, t, w, a)
    && (a.Strike? && t.ready ==> !w.hurting(t.self))
    && (a == Crash <==> m.Crashes(bounds, geo, t, w))
    && (m'.centre == m.centre || m.state.Joining?)
    && m'.corrections == m.corrections + (if m.Corrects(t) then 1 else 0)
    && (a == Exit(1) ==> (m.Corrects(t) && m'.corrections > bounds.breakerBudget) || m.state.Trapped?)
    && (m.Corrects(t) && m'.corrections > bounds.breakerBudget ==> a == Exit(1))
  }

  /** A swing now, no sooner than the cooldown allows. */
  predicate Paced(struck: Option<int>, struck': Option<int>, now: int, cooldown: int) {
    struck' == Some(now) && (struck.Some? ==> now - struck.value >= cooldown)
  }

  /** What a decision keeps of it. */
  ghost predicate Fair(bounds: Bounds, geo: Geometry, m: Memo, t: Tick, w: World, a: Action, m': Memo) {
    && m'.Valid() && TickKeeps(m.state, m'.state, m.foe.struckAt, m'.foe.struckAt, bounds, geo, t, w, a)
    && (a.Strike? ==> m.state.Orbiting? || m.state.Fighting? || m.state.Returning? || m.state.Trapped?)
    && !a.SendRespawn? && (a == Exit(1) ==> m.state.Trapped?) && (a == Crash <==> m.Stranded(bounds, geo, t, w))
    && (m'.centre == m.centre || m.state.Joining?) && m'.corrections == m.corrections
  }

  lemma FollowIsFair(bounds: Bounds, geo: Geometry, m: Memo, t: Tick, w: World, goal: Vec3, key: int,
                     a: Action, m': Memo)
    requires !m.NoWay(t, w, goal, key) && Follows(bounds, geo, m, t, w, goal, key, a, m')
    ensures m' == m.(way := m'.way, progressAt := m'.progressAt) && Calm(a) && Guarded(geo, bounds.stride, t, w, a)
  {
  }

  lemma FightIsFair(bounds: Bounds, geo: Geometry, m: Memo, t: Tick, w: World, a: Action, m': Memo)
    requires m.centre.Some? && m.state.Fighting? && Fights(bounds, geo, m, t, w, a, m')
    ensures Fair(bounds, geo, m, t, w, a, m')
    ensures (m'.state.Fighting? || m'.state.Returning?) && (Calm(a) || a.Strike?)
  {
    if !FightEnds(bounds, geo, m, t, w) {
      var at := w.entity(m.foe.target).value.position;
      if geo.distance(t.self, at) > bounds.reach && !m.NoWay(t, w, at, FIGHT_ROUTE) {
        FollowIsFair(bounds, geo, m, t, w, at, FIGHT_ROUTE, a, m');
      }
    }
  }

  /** Turning on an attacker is as fair as fighting it. */
  lemma TurnIsFair(bounds: Bounds, geo: Geometry, m: Memo, t: Tick, w: World, a: Action, m': Memo)
    requires m.centre.Some? && (m.state.Orbiting? || m.state.Returning? || m.state.Trapped?)
    requires Fights(bounds, geo, m.Turned(t), t, w, a, m')
    ensures Fair(bounds, geo, m, t, w, a, m')
  {
    FightIsFair(bounds, geo, m.Turned(t), t, w, a, m');
  }

  lemma OrbitIsFair(bounds: Bounds, geo: Geometry, m: Memo, t: Tick, w: World, a: Action, m': Memo)
    requires m.centre.Some? && m.state.Orbiting? && Orbits(bounds, geo, m, t, w, a, m')
    ensures Fair(bounds, geo, m, t, w, a, m')
  {
    var m1 := m.Arrived(bounds, geo, t);
    var goal := geo.at(m1.CircleCentre(), m1.waypoint);
    if Provokes(t, w) {
      TurnIsFair(bounds, geo, m, t, w, a, m');
    } else if !m1.NoWay(t, w, goal, m1.waypoint) {
      FollowIsFair(bounds, geo, m1, t, w, goal, m1.waypoint, a, m');
    }
  }

  lemma ReturnIsFair(bounds: Bounds, geo: Geometry, m: Memo, t: Tick, w: World, a: Action, m': Memo)
    requires m.centre.Some? && m.state.Returning? && Returns(bounds, geo, m, t, w, a, m')
    ensures Fair(bounds, geo, m, t, w, a, m')
  {
    var m1 := m.Nearing(geo, t);
    var goal := geo.at(m1.CircleCentre(), m1.waypoint);
    if Provokes(t, w) {
      TurnIsFair(bounds, geo, m, t, w, a, m');
    } else if geo.distance(t.self, goal) > bounds.waypointRadius && !m1.NoWay(t, w, goal, m1.waypoint) {
      FollowIsFair(bounds, geo, m1, t, w, goal, m1.waypoint, a, m');
    }
  }

  lemma WaitIsFair(bounds: Bounds, geo: Geometry, m: Memo, t: Tick, w: World, a: Action, m': Memo)
    requires m.centre.Some? && m.state.Trapped? && Waits(bounds, geo, m, t, w, a, m')
    ensures Fair(bounds, geo, m, t, w, a, m')
  {
    if Provokes(t, w) {
      TurnIsFair(bounds, geo, m, t, w, a, m');
    }
  }

  lemma EscapeIsFair(bounds: Bounds, geo: Geometry, m: Memo, t: Tick, w: World, a: Action, m': Memo)
    requires m.Valid() && m.state.Escaping? && Escapes(bounds, geo, m, t, w, a, m')
    ensures Fair(bounds, geo, m, t, w, a, m')
  {
    if !m.EscapeEnds(bounds, t, w) && !(exists i :: FirstClear(bounds, geo, t, w, i)) {
      var out := w.safe(t.self);
      if out.None? {
        if m.way.routedFor == ESCAPE_ROUTE && m.way.steps != [] {
          FollowIsFair(bounds, geo, m, t, w, m.flight.escapeTo, ESCAPE_ROUTE, a, m');
        }
      } else {
        var m1 := m.FleeingTo(out.value);
        if !m1.NoWay(t, w, out.value, ESCAPE_ROUTE) {
          FollowIsFair(bounds, geo, m1, t, w, out.value, ESCAPE_ROUTE, a, m');
        }
      }
    }
  }

  lemma DouseIsFair(bounds: Bounds, geo: Geometry, m: Memo, t: Tick, w: World, a: Action, m': Memo)
    requires m.Valid() && m.state.Dousing? && Douses(bounds, geo, m, t, w, a, m')
    ensures Fair(bounds, geo, m, t, w, a, m')
  {
    if !m.DousingEnds(bounds, geo, t, w) {
      var water := w.water(t.self).value;
      FollowIsFair(bounds, geo, m.DousingIn(water), t, w, water, DOUSE_ROUTE, a, m');
    }
  }

  lemma DecisionIsFair(bounds: Bounds, geo: Geometry, m: Memo, t: Tick, w: World, a: Action, m': Memo)
    requires m.Valid() && Decides(bounds, geo, m, t, w, a, m')
    ensures Fair(bounds, geo, m, t, w, a, m')
  {
    match m.state
    case Orbiting => OrbitIsFair(bounds, geo, m, t, w, a, m');
    case Fighting => FightIsFair(bounds, geo, m, t, w, a, m');
    case Escaping => EscapeIsFair(bounds, geo, m, t, w, a, m');
    case Dousing => DouseIsFair(bounds, geo, m, t, w, a, m');
    case Returning => ReturnIsFair(bounds, geo, m, t, w, a, m');
    case Trapped => WaitIsFair(bounds, geo, m, t, w, a, m');
    case _ =>
  }

  /** Nothing is decided of a living bot in harm but how to get out of it. */
  lemma PreemptedFits(bounds: Bounds, geo: Geometry, m: Memo, t: Tick, w: World)
    requires m.Valid()
    ensures var p := m.Preempted(bounds, geo, t, w);
            && p.Valid() && p.centre == m.centre && p.foe.struckAt == m.foe.struckAt
            && p.corrections == m.corrections + (if m.Corrects(t) then 1 else 0)
            && (p.state == m.state || p.state.Escaping? || p.state.Dousing?)
            && (m.state.Dead? || m.state.Done? ==> p.state == m.state)
            && (t.ready && w.hurting(t.self) ==>
                  p.state.Escaping? || p.state.Dousing? || p.state.Dead? || p.state.Done?)
            && Leads(m.state, p.state)
  {
  }

  lemma TickIsLawful(bounds: Bounds, geo: Geometry, m: Memo, t: Tick, w: World, a: Action, m': Memo)
    requires m.Valid() && Ticked(bounds, geo, m, t, w, a, m')
    ensures m'.Valid() && Lawful(bounds, geo, m, t, w, a, m')
  {
    if !m.Interrupted(bounds, t) {
      var p := m.Preempted(bounds, geo, t, w);
      PreemptedFits(bounds, geo, m, t, w);
      DecisionIsFair(bounds, geo, p, t, w, a, m');
    }
  }

  lemma FightStrikes(bounds: Bounds, geo: Geometry, m: Memo, t: Tick, w: World, a: Action, m': Memo)
    requires m.centre.Some? && Fights(bounds, geo, m, t, w, a, m') && a.Strike?
    ensures a.entity == m.foe.target && t.now - m.foe.fledAt <= bounds.engagement
    ensures InReach(bounds, geo, t, w, a.entity)
  {
    var at := w.entity(m.foe.target).value.position;
    if geo.distance(t.self, at) > bounds.reach && !m.NoWay(t, w, at, FIGHT_ROUTE) {
      FollowIsFair(bounds, geo, m, t, w, at, FIGHT_ROUTE, a, m');
    }
  }

  predicate InReach(bounds: Bounds, geo: Geometry, t: Tick, w: World, entity: int) {
    && w.entity(entity).Some? && w.entity(entity).value.alive
    && geo.distance(t.self, w.entity(entity).value.position) <= bounds.reach
  }

  /**
   * Whatever state the bot was in, a swing goes to a living entity in reach: the one it has fought for no longer than
   * the engagement allows, or the one that attacked on this very tick.
   */
  lemma StrikesInReach(bounds: Bounds, geo: Geometry, m: Memo, t: Tick, w: World, a: Action, m': Memo)
    requires m.Valid() && Ticked(bounds, geo, m, t, w, a, m') && a.Strike?
    ensures InReach(bounds, geo, t, w, a.entity)
    ensures if m.state.Fighting? then a.entity == m.foe.target && t.now - m.foe.fledAt <= bounds.engagement
            else a.entity == t.attacker && Provokes(t, w)
  {
    var p := m.Preempted(bounds, geo, t, w);
    PreemptedFits(bounds, geo, m, t, w);
    DecisionIsFair(bounds, geo, p, t, w, a, m');
    if p.state.Fighting? {
      FightStrikes(bounds, geo, p, t, w, a, m');
    } else {
      OnlyTurnsStrike(bounds, geo, p, t, w, a, m');
      FightStrikes(bounds, geo, p.Turned(t), t, w, a, m');
    }
  }

  lemma OnlyTurnsStrike(bounds: Bounds, geo: Geometry, p: Memo, t: Tick, w: World, a: Action, m': Memo)
    requires p.Valid() && (p.state.Orbiting? || p.state.Returning? || p.state.Trapped?)
    requires Decides(bounds, geo, p, t, w, a, m') && a.Strike?
    ensures Provokes(t, w) && Fights(bounds, geo, p.Turned(t), t, w, a, m')
  {
    if !Provokes(t, w) {
      match p.state
      case Orbiting =>
        var m1 := p.Arrived(bounds, geo, t);
        var goal := geo.at(m1.CircleCentre(), m1.waypoint);
        if !m1.NoWay(t, w, goal, m1.waypoint) {
          FollowIsFair(bounds, geo, m1, t, w, goal, m1.waypoint, a, m');
        }
      case Returning =>
        var m1 := p.Nearing(geo, t);
        var goal := geo.at(m1.CircleCentre(), m1.waypoint);
        if geo.distance(t.self, goal) > bounds.waypointRadius && !m1.NoWay(t, w, goal, m1.waypoint) {
          FollowIsFair(bounds, geo, m1, t, w, goal, m1.waypoint, a, m');
        }
      case Trapped =>
    }
  }

  /**
   * A living bot that stands in harm, and neither dies nor is corrected once too often on this tick, steps somewhere
   * clear of it whenever one of the eight headings is, until its escape has lasted too long.
   */
  lemma EscapesWhenClear(bounds: Bounds, geo: Geometry, m: Memo, t: Tick, w: World, a: Action, m': Memo, i: int)
    requires Ticked(bounds, geo, m, t, w, a, m') && !m.Interrupted(bounds, t)
    requires !m.state.Done? && !m.state.Dead? && t.ready && w.hurting(t.self)
    requires 0 <= i < HEADINGS && Harmless(bounds, geo, t, w, i)
    requires t.now - (if m.state.Escaping? then m.flight.escapedAt else t.now) <= bounds.escape
    ensures m'.state.Escaping? && a.StepTo? && !w.hurting(geo.toward(t.self, a.target, bounds.stride))
  {
    var p := m.Preempted(bounds, geo, t, w);
    assert p.state.Escaping? && !p.EscapeEnds(bounds, t, w);
    var first := LeastHarmless(bounds, geo, t, w, i);
    assert FirstClear(bounds, geo, t, w, first);
  }

  lemma {:induction false} LeastHarmless(bounds: Bounds, geo: Geometry, t: Tick, w: World, i: int)
    returns (first: int)
    requires 0 <= i < HEADINGS && Harmless(bounds, geo, t, w, i)
    ensures FirstClear(bounds, geo, t, w, first)
  {
    first := 0;
    while !Harmless(bounds, geo, t, w, first)
      invariant 0 <= first <= i && forall k :: 0 <= k < first ==> !Harmless(bounds, geo, t, w, k)
      decreases i - first
    {
      first := first + 1;
    }
  }

  /** On or off its circle, the bot turns on this tick's attacker exactly when the attacker lives and can follow. */
  lemma TurnsIffProvoked(bounds: Bounds, geo: Geometry, m: Memo, t: Tick, w: World, a: Action, m': Memo)
    requires m.Valid() && Ticked(bounds, geo, m, t, w, a, m') && !m.Interrupted(bounds, t)
    requires m.Preempted(bounds, geo, t, w).state == m.state
    requires m.state.Orbiting? || m.state.Returning? || m.state.Trapped?
    ensures Provokes(t, w) ==> m'.state.Fighting? || (m'.state.Returning? && a == Stand)
    ensures m'.state.Fighting? ==> Provokes(t, w) && m'.foe.target == t.attacker && m'.foe.fledAt == t.now
  {
    var p := m.Preempted(bounds, geo, t, w);
    PreemptedFits(bounds, geo, m, t, w);
    if Provokes(t, w) {
      FightIsFair(bounds, geo, p.Turned(t), t, w, a, m');
      if m'.state.Fighting? {
        FightKeepsFoe(bounds, geo, p.Turned(t), t, w, a, m');
      }
    } else {
      UnprovokedIsPeaceful(bounds, geo, p, t, w, a, m');
    }
  }

  lemma FightKeepsFoe(bounds: Bounds, geo: Geometry, m: Memo, t: Tick, w: World, a: Action, m': Memo)
    requires m.centre.Some? && m.state.Fighting? && Fights(bounds, geo, m, t, w, a, m') && m'.state.Fighting?
    ensures (m'.foe.target, m'.foe.fledAt) == (m.foe.target, m.foe.fledAt)
  {
  }

  lemma UnprovokedIsPeaceful(bounds: Bounds, geo: Geometry, p: Memo, t: Tick, w: World, a: Action, m': Memo)
    requires p.Valid() && (p.state.Orbiting? || p.state.Returning? || p.state.Trapped?)
    requires Decides(bounds, geo, p, t, w, a, m') && !Provokes(t, w)
    ensures !m'.state.Fighting?
  {
  }

  // ----- There is one machine -----

  lemma OneFollows(bounds: Bounds, geo: Geometry, m: Memo, t: Tick, w: World, goal: Vec3, key: int,
                   a: Action, m': Memo, b: Action, m'': Memo)
    requires !m.NoWay(t, w, goal, key) && Follows(bounds, geo, m, t, w, goal, key, a, m')
    requires Follows(bounds, geo, m, t, w, goal, key, b, m'')
    ensures a == b && m' == m''
  {
    assert m'.way.leg == m''.way.leg;
  }

  lemma OneFight(bounds: Bounds, geo: Geometry, m: Memo, t: Tick, w: World,
                 a: Action, m': Memo, b: Action, m'': Memo)
    requires Fights(bounds, geo, m, t, w, a, m') && Fights(bounds, geo, m, t, w, b, m'')
    ensures a == b && m' == m''
  {
    if !FightEnds(bounds, geo, m, t, w) {
      var at := w.entity(m.foe.target).value.position;
      if geo.distance(t.self, at) > bounds.reach && !m.NoWay(t, w, at, FIGHT_ROUTE) {
        OneFollows(bounds, geo, m, t, w, at, FIGHT_ROUTE, a, m', b, m'');
      }
    }
  }

  lemma OneOrbit(bounds: Bounds, geo: Geometry, m: Memo, t: Tick, w: World,
                 a: Action, m': Memo, b: Action, m'': Memo)
    requires Orbits(bounds, geo, m, t, w, a, m') && Orbits(bounds, geo, m, t, w, b, m'')
    ensures a == b && m' == m''
  {
    var m1 := m.Arrived(bounds, geo, t);
    var goal := geo.at(m1.CircleCentre(), m1.waypoint);
    if Provokes(t, w) {
      OneFight(bounds, geo, m.Turned(t), t, w, a, m', b, m'');
    } else if !m1.NoWay(t, w, goal, m1.waypoint) {
      OneFollows(bounds, geo, m1, t, w, goal, m1.waypoint, a, m', b, m'');
    }
  }

  lemma OneReturn(bounds: Bounds, geo: Geometry, m: Memo, t: Tick, w: World,
                  a: Action, m': Memo, b: Action, m'': Memo)
    requires Returns(bounds, geo, m, t, w, a, m') && Returns(bounds, geo, m, t, w, b, m'')
    ensures a == b && m' == m''
  {
    var m1 := m.Nearing(geo, t);
    var goal := geo.at(m1.CircleCentre(), m1.waypoint);
    if Provokes(t, w) {
      OneFight(bounds, geo, m.Turned(t), t, w, a, m', b, m'');
    } else if geo.distance(t.self, goal) > bounds.waypointRadius && !m1.NoWay(t, w, goal, m1.waypoint) {
      OneFollows(bounds, geo, m1, t, w, goal, m1.waypoint, a, m', b, m'');
    }
  }

  lemma OneWait(bounds: Bounds, geo: Geometry, m: Memo, t: Tick, w: World,
                a: Action, m': Memo, b: Action, m'': Memo)
    requires Waits(bounds, geo, m, t, w, a, m') && Waits(bounds, geo, m, t, w, b, m'')
    ensures a == b && m' == m''
  {
    if Provokes(t, w) {
      OneFight(bounds, geo, m.Turned(t), t, w, a, m', b, m'');
    }
  }

  lemma OneWade(bounds: Bounds, geo: Geometry, m: Memo, t: Tick, w: World,
                a: Action, m': Memo, b: Action, m'': Memo)
    requires Wades(bounds, geo, m, t, w, a, m') && Wades(bounds, geo, m, t, w, b, m'')
    ensures a == b && m' == m''
  {
    var out := w.safe(t.self);
    if out.Some? {
      var m1 := m.FleeingTo(out.value);
      if !m1.NoWay(t, w, out.value, ESCAPE_ROUTE) {
        OneFollows(bounds, geo, m1, t, w, out.value, ESCAPE_ROUTE, a, m', b, m'');
      }
    } else if m.way.routedFor == ESCAPE_ROUTE && m.way.steps != [] {
      OneFollows(bounds, geo, m, t, w, m.flight.escapeTo, ESCAPE_ROUTE, a, m', b, m'');
    }
  }

  lemma OneEscape(bounds: Bounds, geo: Geometry, m: Memo, t: Tick, w: World,
                  a: Action, m': Memo, b: Action, m'': Memo)
    requires Escapes(bounds, geo, m, t, w, a, m') && Escapes(bounds, geo, m, t, w, b, m'')
    ensures a == b && m' == m''
  {
    if !m.EscapeEnds(bounds, t, w) {
      if exists i :: FirstClear(bounds, geo, t, w, i) {
        var i :| FirstClear(bounds, geo, t, w, i) && a == StepTo(geo.heading(t.self, i), false);
        var j :| FirstClear(bounds, geo, t, w, j) && b == StepTo(geo.heading(t.self, j), false);
        assert i == j;
      } else {
        OneWade(bounds, geo, m, t, w, a, m', b, m'');
      }
    }
  }

  lemma OneDouse(bounds: Bounds, geo: Geometry, m: Memo, t: Tick, w: World,
                 a: Action, m': Memo, b: Action, m'': Memo)
    requires Douses(bounds, geo, m, t, w, a, m') && Douses(bounds, geo, m, t, w, b, m'')
    ensures a == b && m' == m''
  {
    if !m.DousingEnds(bounds, geo, t, w) {
      var water := w.water(t.self).value;
      OneFollows(bounds, geo, m.DousingIn(water), t, w, water, DOUSE_ROUTE, a, m', b, m'');
    }
  }

  lemma OneDecision(bounds: Bounds, geo: Geometry, m: Memo, t: Tick, w: World,
                    a: Action, m': Memo, b: Action, m'': Memo)
    requires Decides(bounds, geo, m, t, w, a, m') && Decides(bounds, geo, m, t, w, b, m'')
    ensures a == b && m' == m''
  {
    match m.state
    case Orbiting => OneOrbit(bounds, geo, m, t, w, a, m', b, m'');
    case Fighting => OneFight(bounds, geo, m, t, w, a, m', b, m'');
    case Escaping => OneEscape(bounds, geo, m, t, w, a, m', b, m'');
    case Dousing => OneDouse(bounds, geo, m, t, w, a, m', b, m'');
    case Returning => OneReturn(bounds, geo, m, t, w, a, m', b, m'');
    case Trapped => OneWait(bounds, geo, m, t, w, a, m', b, m'');
    case _ =>
  }

  /** A tick has one outcome: the relation leaves the bot no choice. */
  lemma OneTick(bounds: Bounds, geo: Geometry, m: Memo, t: Tick, w: World,
                a: Action, m': Memo, b: Action, m'': Memo)
    requires Ticked(bounds, geo, m, t, w, a, m') && Ticked(bounds, geo, m, t, w, b, m'')
    ensures a == b && m' == m''
  {
    if !m.Interrupted(bounds, t) {
      OneDecision(bounds, geo, m.Preempted(bounds, geo, t, w), t, w, a, m', b, m'');
    }
  }
}
