/** What the example bot must do, said of what it sees: examples/orbit/bot.go. */
module OrbitProgress {
  import opened Options
  import opened Routes
  import opened Vectors
  import opened OrbitMachine
  import opened OrbitRuns

  /** Nothing outranks the state's own decision: no death, no correction, no harm underfoot, no fire. */
  predicate Undisturbed(t: Tick, w: World) {
    !t.died && !t.corrected && !w.hurting(t.self) && !t.onFire
  }

  lemma NothingPreempts(bounds: Bounds, geo: Geometry, m: Memo, t: Tick, w: World)
    requires Undisturbed(t, w)
    ensures !m.Interrupted(bounds, t)
    ensures m.Preempted(bounds, geo, t, w) == m.(fire := m.fire.(lit := false))
  {
  }

  /** A bot starts out joining, with no circle, nobody hit, nothing burning, no correction and no route. */
  lemma StartsOut()
    ensures START.state == Joining && START.centre == None && START.readyAt == None && START.corrections == 0
    ensures START.foe.struckAt == None && !START.fire.lit && START.way.steps == []
  {
  }

  // ----- Joining -----

  /** A ready tick that knows the spawn makes the circle around it, and sends the bot to its nearest waypoint. */
  lemma JoinsAtSpawn(bounds: Bounds, geo: Geometry, m: Memo, t: Tick, w: World, a: Action, m': Memo)
    requires m.state == Joining && Undisturbed(t, w) && Ticked(bounds, geo, m, t, w, a, m')
    requires t.ready && w.spawn.Some?
    ensures a == Stand && m'.state == Returning && m'.centre == w.spawn
    ensures m'.waypoint == geo.nearest(w.spawn.value, t.self) && m'.progressAt == t.now
  {
    NothingPreempts(bounds, geo, m, t, w);
  }

  /** A ready tick without one waits, from the first of them on, and exits with code 3 exactly when time is up. */
  lemma JoinTimesOutIff(bounds: Bounds, geo: Geometry, m: Memo, t: Tick, w: World, a: Action, m': Memo)
    requires m.state == Joining && Undisturbed(t, w) && Ticked(bounds, geo, m, t, w, a, m')
    requires w.spawn.None? || !t.ready
    ensures var since := if m.readyAt.Some? then m.readyAt.value else t.now;
            if t.ready && t.now - since >= bounds.joinTimeout then a == Exit(3) && m'.state == Done
            else a == Stand && m'.state == Joining && m'.centre == m.centre
                 && m'.readyAt == if t.ready then Some(since) else m.readyAt
  {
    NothingPreempts(bounds, geo, m, t, w);
  }

  // ----- On the circle -----

  /** Back at the nearest waypoint the bot orbits again; until then it returns. */
  lemma OrbitsIffArrived(bounds: Bounds, geo: Geometry, m: Memo, t: Tick, w: World, a: Action, m': Memo)
    requires m.state == Returning && m.centre.Some? && Undisturbed(t, w) && Ticked(bounds, geo, m, t, w, a, m')
    requires !Provokes(t, w)
    ensures var nearest := geo.nearest(m.centre.value, t.self);
            && m'.waypoint == nearest
            && m'.state == if geo.distance(t.self, geo.at(m.centre.value, nearest)) <= bounds.waypointRadius
                           then Orbiting else Returning
  {
    NothingPreempts(bounds, geo, m, t, w);
  }

  /** The body is at the waypoint the bot is walking to. */
  predicate AtWaypoint(bounds: Bounds, geo: Geometry, m: Memo, t: Tick)
    requires m.centre.Some?
  {
    geo.distance(t.self, geo.at(m.centre.value, m.waypoint)) <= bounds.waypointRadius
  }

  /** At its waypoint the bot goes on to the next, along a new route; elsewhere it walks on to the same one. */
  lemma GoesOnAtWaypoint(bounds: Bounds, geo: Geometry, m: Memo, t: Tick, w: World, a: Action, m': Memo)
    requires m.state == Orbiting && m.centre.Some? && Undisturbed(t, w) && Ticked(bounds, geo, m, t, w, a, m')
    requires !Provokes(t, w)
    requires var next := m.waypoint + if AtWaypoint(bounds, geo, m, t) then 1 else 0;
             w.route(t.self, geo.at(m.centre.value, next)).Some?
    ensures m'.state == Orbiting && m'.waypoint == m.waypoint + if AtWaypoint(bounds, geo, m, t) then 1 else 0
    ensures AtWaypoint(bounds, geo, m, t) ==> m'.skips == 0 && m'.progressAt == t.now
    ensures a.StepTo? || a.Stand?
  {
    NothingPreempts(bounds, geo, m, t, w);
  }

  /**
   * A waypoint no route leads to is skipped while there are skips left; then the bot is trapped once it has made no
   * progress for long enough.
   */
  lemma SkipsThenTrapped(bounds: Bounds, geo: Geometry, m: Memo, t: Tick, w: World, a: Action, m': Memo)
    requires m.state == Orbiting && m.centre.Some? && Undisturbed(t, w) && Ticked(bounds, geo, m, t, w, a, m')
    requires !Provokes(t, w) && !AtWaypoint(bounds, geo, m, t)
    requires (m.way.steps == [] || m.way.routedFor != m.waypoint)
             && w.route(t.self, geo.at(m.centre.value, m.waypoint)).None?
    ensures a == Stand
    ensures if m.skips < bounds.maxSkips then
              m'.state == Orbiting && m'.skips == m.skips + 1 && m'.waypoint == m.waypoint + 1
            else if t.now - m.progressAt < bounds.noProgress then m'.state == Orbiting && m'.waypoint == m.waypoint
            else m'.state == Trapped && m'.seal == Seal(t.now, t.revision, t.now)
  {
    NothingPreempts(bounds, geo, m, t, w);
  }

  // ----- Fighting -----

  /** Something known has hit the bot on this tick that is alive and, unless it is unnamed, can follow. */
  lemma ProvokesIff(t: Tick, w: World)
    ensures Provokes(t, w) <==>
            t.attacker != 0 && match w.entity(t.attacker)
                               case None => false
                               case Some(e) => e.alive && (!e.named || e.pursues)
  {
  }

  /** Nothing is left to fight: the target unknown, dead, hunted for too long, or too far from the circle. */
  predicate NothingToFight(bounds: Bounds, geo: Geometry, m: Memo, t: Tick, w: World)
    requires m.centre.Some?
  {
    match w.entity(m.foe.target)
    case None => true
    case Some(e) =>
      !e.alive || t.now - m.foe.fledAt > bounds.engagement
      || geo.distance(e.position, m.centre.value) > bounds.radius + bounds.fleeMargin
  }

  /** The target is out of reach, and there is neither a kept way to it nor a new one. */
  predicate CannotReach(bounds: Bounds, geo: Geometry, m: Memo, t: Tick, w: World)
    requires w.entity(m.foe.target).Some?
  {
    var at := w.entity(m.foe.target).value.position;
    && geo.distance(t.self, at) > bounds.reach
    && (m.way.steps == [] || m.way.routedFor != -4) && w.route(t.self, at).None?
  }

  /** Headed for the circle's nearest waypoint, with the skips and the clock of progress set anew. */
  predicate HeadsBack(geo: Geometry, m: Memo, t: Tick, m': Memo)
    requires m.centre.Some?
  {
    m'.waypoint == geo.nearest(m.centre.value, t.self) && m'.skips == 0 && m'.progressAt == t.now
  }

  /**
   * A fight ends exactly with nothing left to fight or no way to it, and the bot then heads for the nearest waypoint;
   * until then it swings exactly when the target is in reach and the last swing long enough ago.
   */
  lemma FightsUntil(bounds: Bounds, geo: Geometry, m: Memo, t: Tick, w: World, a: Action, m': Memo)
    requires m.state == Fighting && m.centre.Some? && Undisturbed(t, w) && Ticked(bounds, geo, m, t, w, a, m')
    ensures if NothingToFight(bounds, geo, m, t, w) || CannotReach(bounds, geo, m, t, w) then
              && a == Stand && m'.state == Returning && m'.foe.target == 0 && HeadsBack(geo, m, t, m')
            else
              && m'.state == Fighting && m'.foe.target == m.foe.target
              && (a == Strike(m.foe.target) <==>
                    && geo.distance(t.self, w.entity(m.foe.target).value.position) <= bounds.reach
                    && (m.foe.struckAt.Some? ==> t.now - m.foe.struckAt.value >= bounds.cooldown))
              && (a.Strike? ==> m'.foe.struckAt == Some(t.now))
  {
    NothingPreempts(bounds, geo, m, t, w);
    var p := m.Preempted(bounds, geo, t, w);
    if !FightEnds(bounds, geo, p, t, w) {
      var at := w.entity(m.foe.target).value.position;
      if geo.distance(t.self, at) > bounds.reach && !p.NoWay(t, w, at, FIGHT_ROUTE) {
        FollowIsFair(bounds, geo, p, t, w, at, FIGHT_ROUTE, a, m');
      }
    }
  }

  // ----- Death, harm and fire -----

  /** A death is answered with one request to respawn, and a confirmed respawn ends it. */
  lemma DiesAndRises(bounds: Bounds, geo: Geometry, m: Memo, t: Tick, w: World, a: Action, m': Memo)
    requires Ticked(bounds, geo, m, t, w, a, m') && !m.state.Done?
    ensures t.died && !m.state.Dead? ==> a == SendRespawn && m'.state == Dead && m'.foe.target == 0
    ensures m.state.Dead? && !t.corrected ==>
              && a == Stand
              && m'.state == (if !t.respawned then Dead else if m.centre.Some? then Returning else Joining)
              && (t.respawned ==> m'.skips == 0 && m'.progressAt == t.now)
  {
  }

  /** Standing in harm, a ready bot that is neither dying nor corrected escapes, until it is out or out of time. */
  lemma EscapesFromHarm(bounds: Bounds, geo: Geometry, m: Memo, t: Tick, w: World, a: Action, m': Memo)
    requires !t.died && !t.corrected && t.ready && w.hurting(t.self) && Ticked(bounds, geo, m, t, w, a, m')
    requires !m.state.Done? && !m.state.Dead? && m.centre.Some?
    ensures if m.state.Escaping? && t.now - m.flight.escapedAt > bounds.escape
            then a == Stand && m'.state == Returning && HeadsBack(geo, m, t, m')
            else bounds.escape >= 0 ==>
                   && m'.state == Escaping
                   && m'.flight.escapedAt == if m.state.Escaping? then m.flight.escapedAt else t.now
  {
  }

  /** Out of harm an escape is over. */
  lemma EscapeIsOver(bounds: Bounds, geo: Geometry, m: Memo, t: Tick, w: World, a: Action, m': Memo)
    requires !t.died && !t.corrected && !w.hurting(t.self) && Ticked(bounds, geo, m, t, w, a, m')
    requires m.state.Escaping? && m.centre.Some?
    ensures a == Stand && m'.state == Returning && HeadsBack(geo, m, t, m')
  {
  }

  /** One of the eight headings is clear, and none before it is. */
  ghost predicate FirstOfEight(bounds: Bounds, geo: Geometry, t: Tick, w: World, i: int) {
    && 0 <= i < 8 && !w.hurting(geo.toward(t.self, geo.heading(t.self, i), bounds.stride))
    && forall k :: 0 <= k < i ==> w.hurting(geo.toward(t.self, geo.heading(t.self, k), bounds.stride))
  }

  /** The way out is the first of eight headings that is clear; with none, to the nearest safe ground that is known. */
  lemma EscapesAlong(bounds: Bounds, geo: Geometry, m: Memo, t: Tick, w: World, a: Action, m': Memo)
    requires m.state.Escaping? && !t.died && !t.corrected && !t.onFire && Ticked(bounds, geo, m, t, w, a, m')
    requires w.hurting(t.self) && t.now - m.flight.escapedAt <= bounds.escape
    ensures if i :| FirstOfEight(bounds, geo, t, w, i) then a == StepTo(geo.heading(t.self, i), false)
            else Stranded(bounds, geo, m, t, w, a, m')
  {
    forall i
      ensures FirstOfEight(bounds, geo, t, w, i) <==> FirstClear(bounds, geo, t, w, i)
    {
      FirstIsFirst(bounds, geo, t, w, i);
    }
    assert forall i, k :: FirstClear(bounds, geo, t, w, i) && FirstClear(bounds, geo, t, w, k) ==> i == k;
  }

  lemma FirstIsFirst(bounds: Bounds, geo: Geometry, t: Tick, w: World, i: int)
    ensures FirstOfEight(bounds, geo, t, w, i) <==> FirstClear(bounds, geo, t, w, i)
  {
    forall k | 0 <= k <= i
      ensures Harmless(bounds, geo, t, w, k) <==>
              !w.hurting(geo.toward(t.self, geo.heading(t.self, k), bounds.stride))
    {
    }
  }

  /**
   * No heading is clear. Without safe ground in sight the bot keeps to a route out if it has one, and else stands;
   * with some, it makes for it, straight at it if there is no route.
   */
  ghost predicate Stranded(bounds: Bounds, geo: Geometry, m: Memo, t: Tick, w: World, a: Action, m': Memo) {
    match w.safe(t.self)
    case None => m.way.steps == [] || m.way.routedFor != -2 ==> a == Stand && m'.flight == m.flight
    case Some(out) =>
      var kept := m.flight.escapeTo == out && m.way.steps != [] && m.way.routedFor == -2;
      && m'.flight == Flight(m.flight.escapedAt, out)
      && (!kept && w.route(t.self, out).None? ==> a == StepTo(out, false))
      && (!kept && w.route(t.self, out).Some? && m'.way.steps != [] ==> m'.way.steps == w.route(t.self, out).value)
  }

  /** The fire has burned since it was first seen to. */
  function BurningFor(m: Memo, t: Tick): int {
    if m.fire.lit then t.now - m.fire.litAt else 0
  }

  /**
   * There is water, the walk to it is shorter than the fire has left, and it lies near the circle - or, as long as
   * there is none, near the origin.
   */
  predicate WorthIt(bounds: Bounds, geo: Geometry, m: Memo, t: Tick, w: World) {
    match w.water(t.self)
    case None => false
    case Some(water) =>
      && bounds.fireDuration > BurningFor(m, t)
      && bounds.walk(geo.distance(t.self, water)) < bounds.fireDuration - BurningFor(m, t)
      && match m.centre
         case Some(centre) => geo.distance(water, centre) <= bounds.radius + bounds.fleeMargin
         case None => geo.distance(water, Vec3(0.0, 0.0, 0.0)) <= bounds.fleeMargin
  }

  /** Where a burning bot out of harm starts deciding. */
  lemma BurningPreempts(bounds: Bounds, geo: Geometry, m: Memo, t: Tick, w: World)
    requires !t.died && !t.corrected && t.ready && t.onFire && !w.hurting(t.self)
    requires !m.state.Done? && !m.state.Dead? && !m.state.Escaping?
    ensures !m.Interrupted(bounds, t)
    ensures var p := m.Preempted(bounds, geo, t, w);
            && p.fire.lit && p.fire.litAt == (if m.fire.lit then m.fire.litAt else t.now) && p.centre == m.centre
            && (p.WorthReaching(bounds, geo, t, w) <==> WorthIt(bounds, geo, m, t, w))
            && p.state == (if WorthIt(bounds, geo, m, t, w) then Dousing else m.state)
  {
  }

  /**
   * Burning and out of harm, a ready bot takes to water that is worth it and that it can get to, and walks on to it for
   * as long as it is; a bot already on its way that finds it is not gives up.
   */
  lemma DousesIff(bounds: Bounds, geo: Geometry, m: Memo, t: Tick, w: World, a: Action, m': Memo)
    requires m.Valid() && m.centre.Some? && Ticked(bounds, geo, m, t, w, a, m')
    requires !t.died && !t.corrected && t.ready && t.onFire && !w.hurting(t.self)
    requires !m.state.Done? && !m.state.Dead? && !m.state.Escaping?
    requires w.water(t.self).Some? ==> w.route(t.self, w.water(t.self).value).Some?
    ensures WorthIt(bounds, geo, m, t, w) <==> m'.state == Dousing
    ensures m.state.Dousing? && !WorthIt(bounds, geo, m, t, w) ==>
              a == Stand && m'.state == Returning && HeadsBack(geo, m, t, m')
    ensures WorthIt(bounds, geo, m, t, w) ==> Some(m'.fire.dousingAt) == w.water(t.self)
  {
    var p := m.Preempted(bounds, geo, t, w);
    BurningPreempts(bounds, geo, m, t, w);
    PreemptedFits(bounds, geo, m, t, w);
    if p.state.Dousing? {
      WalksToWater(bounds, geo, p, t, w, a, m');
    } else {
      DecisionIsFair(bounds, geo, p, t, w, a, m');
    }
  }

  lemma WalksToWater(bounds: Bounds, geo: Geometry, p: Memo, t: Tick, w: World, a: Action, m': Memo)
    requires p.state.Dousing? && p.centre.Some? && t.onFire && Decides(bounds, geo, p, t, w, a, m')
    requires w.water(t.self).Some? ==> w.route(t.self, w.water(t.self).value).Some?
    ensures if p.WorthReaching(bounds, geo, t, w)
            then m'.state == Dousing && Some(m'.fire.dousingAt) == w.water(t.self)
            else a == Stand && m'.state == Returning && HeadsBack(geo, p, t, m')
  {
    if p.WorthReaching(bounds, geo, t, w) {
      var water := w.water(t.self).value;
      FollowIsFair(bounds, geo, p.DousingIn(water), t, w, water, DOUSE_ROUTE, a, m');
    }
  }

  /** With the fire out a walk to water is over. */
  lemma DousingIsOver(bounds: Bounds, geo: Geometry, m: Memo, t: Tick, w: World, a: Action, m': Memo)
    requires Undisturbed(t, w) && Ticked(bounds, geo, m, t, w, a, m') && m.state.Dousing? && m.centre.Some?
    ensures a == Stand && m'.state == Returning && !m'.fire.lit
    ensures HeadsBack(geo, m, t, m')
  {
    NothingPreempts(bounds, geo, m, t, w);
  }

  /** And so it is when the water has moved, or no route to it is left, and no way to it can be planned. */
  lemma NoWayToWater(bounds: Bounds, geo: Geometry, m: Memo, t: Tick, w: World, a: Action, m': Memo)
    requires !t.died && !t.corrected && t.ready && t.onFire && !w.hurting(t.self)
    requires m.state.Dousing? && m.centre.Some? && Ticked(bounds, geo, m, t, w, a, m')
    requires w.water(t.self).Some? && w.route(t.self, w.water(t.self).value).None?
    requires Some(m.fire.dousingAt) != w.water(t.self) || m.way.steps == [] || m.way.routedFor != -3
    ensures a == Stand && m'.state == Returning && HeadsBack(geo, m, t, m')
  {
    BurningPreempts(bounds, geo, m, t, w);
  }

  // ----- Sealed in -----

  /**
   * A trapped bot nobody provokes exits with code 1 exactly when its budget is used up; asks to die exactly when it
   * has not for the interval; and else looks for a way exactly when the world has changed, and takes the first step.
   */
  lemma WaitsUntil(bounds: Bounds, geo: Geometry, m: Memo, t: Tick, w: World, a: Action, m': Memo)
    requires m.state == Trapped && m.centre.Some? && Undisturbed(t, w) && Ticked(bounds, geo, m, t, w, a, m')
    requires !Provokes(t, w)
    ensures var way := w.route(t.self, geo.at(m.centre.value, m.waypoint));
            if t.now - m.seal.trappedAt >= bounds.trappedBudget then a == Exit(1) && m'.state == Done
            else if t.now - m.seal.killedAt >= bounds.killInterval then
              a == AskToDie && m'.state == Trapped && m'.seal == Seal(m.seal.trappedAt, m.seal.trappedRevision, t.now)
            else if t.revision == m.seal.trappedRevision || way.None? then
              a == Stand && m'.state == Trapped && m'.seal == Seal(m.seal.trappedAt, t.revision, m.seal.killedAt)
            else
              && m'.state == Orbiting && way.value != []
              && a == StepTo(way.value[0].at, way.value[0].jump) && m'.way.steps == way.value && m'.way.leg == 0
              && m'.way.routedFor == m.waypoint && m'.skips == 0 && m'.progressAt == t.now
  {
    NothingPreempts(bounds, geo, m, t, w);
  }

  // ----- Walking -----

  /** The route a tick walks: the one kept for this goal, from its leg on, or else a new one from its start. */
  predicate Walked(m: Memo, t: Tick, w: World, goal: Vec3, key: int, steps: seq<Step>, start: nat) {
    if m.way.steps != [] && m.way.routedFor == key then steps == m.way.steps && start == m.way.leg
    else Some(steps) == w.route(t.self, goal) && start == 0
  }

  /**
   * Along a route the bot walks to the first leg it has not reached - unless the world has changed and the ground two
   * blocks ahead cannot be walked, or the step would take an unhurt body into harm: then it stands and plans again.
   */
  lemma WalksToFirstUnreached(bounds: Bounds, geo: Geometry, m: Memo, t: Tick, w: World, goal: Vec3, key: int,
                              a: Action, m': Memo, steps: seq<Step>, start: nat, k: nat)
    requires !m.NoWay(t, w, goal, key) && Follows(bounds, geo, m, t, w, goal, key, a, m')
    requires Walked(m, t, w, goal, key, steps, start)
    requires start <= k < |steps| && geo.distance(t.self, steps[k].at) > bounds.legRadius
    requires forall j :: start <= j < k ==> geo.distance(t.self, steps[j].at) <= bounds.legRadius
    ensures var blocked := t.onGround && t.revision != m.way.checkedAt
                           && !w.walkable(t.self, geo.toward(t.self, steps[k].at, 2.0));
            var harmful := !w.hurting(t.self) && w.hurting(geo.toward(t.self, steps[k].at, bounds.stride));
            if blocked || harmful then a == Stand && m'.way.steps == []
            else a == StepTo(steps[k].at, steps[k].jump)
                 && m'.way.steps == steps && m'.way.leg == k && m'.way.routedFor == key
    ensures m'.progressAt == if k > start then t.now else m.progressAt
    ensures m'.way.checkedAt == if t.onGround then t.revision else m.way.checkedAt
  {
    assert m'.way.leg == k;
  }

  /** A route walked out is dropped, and the bot stands until it has planned the next. */
  lemma DropsRouteWalkedOut(bounds: Bounds, geo: Geometry, m: Memo, t: Tick, w: World, goal: Vec3, key: int,
                            a: Action, m': Memo, steps: seq<Step>, start: nat)
    requires !m.NoWay(t, w, goal, key) && Follows(bounds, geo, m, t, w, goal, key, a, m')
    requires Walked(m, t, w, goal, key, steps, start)
    requires forall j :: start <= j < |steps| ==> geo.distance(t.self, steps[j].at) <= bounds.legRadius
    ensures a == Stand && m'.way.steps == []
  {
  }

  /** A plan fails exactly when there is neither a kept route to the goal nor a new one. */
  lemma NoWayIff(m: Memo, t: Tick, w: World, goal: Vec3, key: int)
    ensures m.NoWay(t, w, goal, key) <==> !exists steps, start :: Walked(m, t, w, goal, key, steps, start)
  {
    if m.way.steps != [] && m.way.routedFor == key {
      assert Walked(m, t, w, goal, key, m.way.steps, m.way.leg);
    } else if w.route(t.self, goal).Some? {
      assert Walked(m, t, w, goal, key, w.route(t.self, goal).value, 0);
    }
  }

  // ----- Over a run -----

  /** So far the bot has had nothing to do but wait: nothing happened, and the spawn was not known on a ready tick. */
  ghost predicate NothingYet(run: seq<Moment>, n: nat)
    requires n <= |run|
  {
    forall k :: 0 <= k < n ==>
                  Undisturbed(run[k].tick, run[k].world) && (run[k].tick.ready ==> run[k].world.spawn.None?)
  }

  /** The first ready tick, if there has been one. */
  function ReadySince(run: seq<Moment>, n: nat): Option<int>
    requires n <= |run|
  {
    if n == 0 then None
    else if ReadySince(run, n - 1).Some? then ReadySince(run, n - 1)
    else if run[n - 1].tick.ready then Some(run[n - 1].tick.now) else None
  }

  /** The ready ticks so far have not been waiting for as long as the timeout. */
  ghost predicate InTime(bounds: Bounds, run: seq<Moment>, n: nat)
    requires n <= |run|
  {
    forall k :: 0 <= k < n && run[k].tick.ready ==>
                  run[k].tick.now - ReadySince(run, k + 1).value < bounds.joinTimeout
  }

  lemma {:induction false} StillJoining(
    bounds: Bounds, geo: Geometry, run: seq<Moment>, memos: seq<Memo>, actions: seq<Action>, n: nat)
    requires Ran(bounds, geo, run, memos, actions) && n <= |actions| && NothingYet(run, n)
    requires forall k :: 0 <= k < n && run[k].tick.ready ==> ReadySince(run, k + 1).Some?
    requires InTime(bounds, run, n)
    ensures memos[n].state == Joining && memos[n].readyAt == ReadySince(run, n) && memos[n].centre == None
  {
    if n > 0 {
      StillJoining(bounds, geo, run, memos, actions, n - 1);
      assert TickedAt(bounds, geo, run, memos, actions, n - 1);
      JoinTimesOutIff(bounds, geo, memos[n - 1], run[n - 1].tick, run[n - 1].world, actions[n - 1], memos[n]);
    }
  }

  lemma {:induction false} ReadyIsSince(run: seq<Moment>, n: nat)
    requires n <= |run|
    ensures forall k :: 0 <= k < n && run[k].tick.ready ==> ReadySince(run, k + 1).Some?
  {
  }

  /** In any run, the first undisturbed ready tick that knows the spawn ends the joining, if it comes in time. */
  lemma JoinsInTime(bounds: Bounds, geo: Geometry, run: seq<Moment>, memos: seq<Memo>, actions: seq<Action>, n: nat)
    requires Ran(bounds, geo, run, memos, actions) && n < |actions| && NothingYet(run, n) && InTime(bounds, run, n)
    requires Undisturbed(run[n].tick, run[n].world) && run[n].tick.ready && run[n].world.spawn.Some?
    ensures memos[n].state == Joining && memos[n + 1].state == Returning
    ensures memos[n + 1].centre == run[n].world.spawn
  {
    ReadyIsSince(run, n);
    StillJoining(bounds, geo, run, memos, actions, n);
    assert TickedAt(bounds, geo, run, memos, actions, n);
    JoinsAtSpawn(bounds, geo, memos[n], run[n].tick, run[n].world, actions[n], memos[n + 1]);
  }

  /** And without one in time, the run exits with code 3 on the tick that is too late. */
  lemma ExitsTooLate(bounds: Bounds, geo: Geometry, run: seq<Moment>, memos: seq<Memo>, actions: seq<Action>, n: nat)
    requires Ran(bounds, geo, run, memos, actions) && n < |actions| && NothingYet(run, n + 1) && InTime(bounds, run, n)
    requires run[n].tick.ready && ReadySince(run, n + 1).Some?
    requires run[n].tick.now - ReadySince(run, n + 1).value >= bounds.joinTimeout
    ensures actions[n] == Exit(3) && memos[n + 1].state == Done
  {
    ReadyIsSince(run, n);
    StillJoining(bounds, geo, run, memos, actions, n);
    assert TickedAt(bounds, geo, run, memos, actions, n);
    JoinTimesOutIff(bounds, geo, memos[n], run[n].tick, run[n].world, actions[n], memos[n + 1]);
  }
}
