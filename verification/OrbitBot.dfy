/** The example bot as an object: examples/orbit/bot.go. Each method is held to its part of the machine. */
module OrbitBot {
  import opened Options
  import opened Routes
  import opened Vectors
  import opened OrbitMachine

  /** The bot's memory as fields, those that go together grouped. */
  class Bot {
    const bounds: Bounds
    const geo: Geometry
    var state: State
    // The circle's centre, once the world has supplied it.
    var centre: Option<Vec3>
    var waypoint: int
    var skips: int
    var way: Way
    var foe: Foe
    var flight: Flight
    var fire: Fire
    var seal: Seal
    var progressAt: int
    var corrections: int
    var readyAt: Option<int>

    function Abs(): Memo
      reads this
    {
      Memo(state, centre, waypoint, skips, way, foe, flight, fire, seal, progressAt, corrections, readyAt)
    }

    constructor (bounds: Bounds, geo: Geometry)
      ensures this.bounds == bounds && this.geo == geo && Abs() == START
    {
      this.bounds, this.geo := bounds, geo;
      state, centre, waypoint, skips, way, foe := Joining, None, 0, 0, NO_WAY, Foe(0, 0, None);
      flight, fire := Flight(0, Vec3(0.0, 0.0, 0.0)), Fire(false, 0, Vec3(0.0, 0.0, 0.0));
      seal, progressAt, corrections, readyAt := Seal(0, 0, 0), 0, 0, None;
    }

    method Finish(code: int) returns (a: Action)
      modifies this`state
      ensures state == Done && a == Exit(code)
    {
      state := Done;
      a := Exit(code);
    }

    /** Back to the circle at the nearest waypoint, which divides by how many there are. */
    method Disengage(t: Tick) returns (a: Action)
      modifies this`foe, this`waypoint, this`skips, this`progressAt, this`state
      ensures Disengages(geo, old(Abs()), t, a, Abs())
    {
      foe := foe.(target := 0);
      if centre.None? {
        return Crash;
      }
      waypoint, skips, progressAt, state := geo.nearest(centre.value, t.self), 0, t.now, Returning;
      a := Stand;
    }

    /** The last line: no step onto something that hurts, unless the body is standing in something already. */
    method GuardedStep(t: Tick, w: World, step: Step) returns (a: Action)
      modifies this`way
      ensures if w.hurting(t.self) || !w.hurting(geo.toward(t.self, step.at, bounds.stride))
              then a == StepTo(step.at, step.jump) && way == old(way)
              else a == Stand && way == old(way).(steps := [])
    {
      if w.hurting(t.self) {
        return StepTo(step.at, step.jump);
      }
      if w.hurting(geo.toward(t.self, step.at, bounds.stride)) {
        way := way.(steps := []);
        return Stand;
      }
      return StepTo(step.at, step.jump);
    }

    /** Walks the planned route to a goal, planning one when there is none; nothing when nothing can be planned. */
    method FollowRoute(t: Tick, w: World, goal: Vec3, key: int) returns (a: Option<Action>)
      modifies this`way, this`progressAt
      ensures a.None? <==> old(Abs()).NoWay(t, w, goal, key)
      ensures if a.Some? then Follows(bounds, geo, old(Abs()), t, w, goal, key, a.value, Abs()) else Abs() == old(Abs())
    {
      ghost var m := Abs();
      if way.steps == [] || way.routedFor != key {
        var planned := w.route(t.self, goal);
        if planned.None? {
          return None;
        }
        way := way.(steps := planned.value, leg := 0, routedFor := key);
      }
      ghost var steps, start := way.steps, way.leg;
      while way.leg < |way.steps| && geo.distance(t.self, way.steps[way.leg].at) <= bounds.legRadius
        invariant start <= way.leg && way == Way(steps, way.leg, key, m.way.checkedAt)
        invariant way.leg <= |steps| || way.leg == start
        invariant forall k :: start <= k < way.leg ==> geo.distance(t.self, steps[k].at) <= bounds.legRadius
        invariant Abs() == m.(way := way, progressAt := if way.leg > start then t.now else m.progressAt)
      {
        way, progressAt := way.(leg := way.leg + 1), t.now;
      }
      var step := NextStep(t, w);
      return Some(step);
    }

    /** The step to the current leg, or none if the way ahead has changed, is walked out or would hurt. */
    method NextStep(t: Tick, w: World) returns (a: Action)
      modifies this`way
      ensures var m := old(Abs());
              var drops := Drops(bounds, geo, m, t, w, m.way.steps, m.way.leg);
              && a == (if drops then Stand else StepTo(m.way.steps[m.way.leg].at, m.way.steps[m.way.leg].jump))
              && way == Way(if drops then [] else m.way.steps, m.way.leg, m.way.routedFor,
                            if Looks(m, t, m.way.steps, m.way.leg) then t.revision else m.way.checkedAt)
    {
      if way.leg < |way.steps| && t.revision != way.checkedAt && t.onGround {
        way := way.(checkedAt := t.revision);
        if !w.walkable(t.self, geo.toward(t.self, way.steps[way.leg].at, LOOKAHEAD)) {
          way := way.(steps := []);
          return Stand;
        }
      }
      if way.leg >= |way.steps| {
        way := way.(steps := []);
        return Stand;
      }
      a := GuardedStep(t, w, way.steps[way.leg]);
    }

    /** The two events that preempt every state. */
    method Interrupt(t: Tick) returns (a: Option<Action>)
      requires !state.Done?
      modifies this`state, this`foe, this`corrections
      ensures a.Some? <==> old(Abs()).Interrupted(bounds, t)
      ensures if a.Some? then (Abs(), a.value) == old(Abs()).Interrupt(t) else Abs() == old(Abs()).Counted(t)
    {
      if t.died && !state.Dead? {
        state, foe := Dead, foe.(target := 0);
        return Some(SendRespawn);
      }
      if t.corrected {
        corrections := corrections + 1;
        if corrections > bounds.breakerBudget {
          var exit := Finish(1);
          return Some(exit);
        }
      }
      return None;
    }

    method Join(t: Tick, w: World) returns (a: Action)
      requires state == Joining
      modifies this
      ensures Joins(bounds, geo, old(Abs()), t, w, a, Abs())
    {
      if !t.ready {
        return Stand;
      }
      if readyAt.None? {
        readyAt := Some(t.now);
      }
      if w.spawn.None? {
        if t.now - readyAt.value >= bounds.joinTimeout {
          a := Finish(3);
          return;
        }
        return Stand;
      }
      centre := w.spawn;
      waypoint, progressAt, state := geo.nearest(centre.value, t.self), t.now, Returning;
      return Stand;
    }

    method Unreachable(t: Tick) returns (a: Action)
      modifies this
      ensures a == Stand && Abs() == old(Abs()).Skipped(bounds, t)
    {
      if skips < bounds.maxSkips {
        skips, waypoint, way := skips + 1, waypoint + 1, way.(steps := []);
        return Stand;
      }
      if t.now - progressAt < bounds.noProgress {
        return Stand;
      }
      state, seal := Trapped, Seal(t.now, t.revision, t.now);
      return Stand;
    }

    method Fight(t: Tick, w: World) returns (a: Action)
      requires state == Fighting && centre.Some?
      modifies this
      ensures Fights(bounds, geo, old(Abs()), t, w, a, Abs())
    {
      var threat := w.entity(foe.target);
      if threat.None? || !threat.value.alive || t.now - foe.fledAt > bounds.engagement
         || geo.distance(threat.value.position, centre.value) > bounds.radius + bounds.fleeMargin {
        a := Disengage(t);
        return;
      }
      if geo.distance(t.self, threat.value.position) > bounds.reach {
        var walk := FollowRoute(t, w, threat.value.position, FIGHT_ROUTE);
        if walk.None? {
          a := Disengage(t);
          return;
        }
        return walk.value;
      }
      if foe.struckAt.Some? && t.now - foe.struckAt.value < bounds.cooldown {
        return Stand;
      }
      foe := foe.(struckAt := Some(t.now));
      return Strike(foe.target);
    }

    /** Turns on whatever attacked this tick, if it lives and can follow. */
    method Provoked(t: Tick, w: World) returns (a: Option<Action>)
      requires centre.Some?
      modifies this
      ensures a.Some? <==> old(state) != Fighting && Provokes(t, w)
      ensures if a.Some? then Fights(bounds, geo, old(Abs()).Turned(t), t, w, a.value, Abs()) else Abs() == old(Abs())
    {
      if t.attacker == 0 || state == Fighting {
        return None;
      }
      var attacker := w.entity(t.attacker);
      if attacker.None? || !attacker.value.alive || (attacker.value.named && !attacker.value.pursues) {
        return None;
      }
      foe, state, way := foe.(target := t.attacker, fledAt := t.now), Fighting, way.(steps := []);
      var blow := Fight(t, w);
      return Some(blow);
    }

    method Orbit(t: Tick, w: World) returns (a: Action)
      requires state == Orbiting && centre.Some?
      modifies this
      ensures Orbits(bounds, geo, old(Abs()), t, w, a, Abs())
    {
      var blow := Provoked(t, w);
      if blow.Some? {
        return blow.value;
      }
      if geo.distance(t.self, geo.at(centre.value, waypoint)) <= bounds.waypointRadius {
        waypoint, skips, progressAt, way := waypoint + 1, 0, t.now, way.(steps := []);
      }
      var walk := FollowRoute(t, w, geo.at(centre.value, waypoint), waypoint);
      if walk.None? {
        a := Unreachable(t);
        return;
      }
      return walk.value;
    }

    method WorthDousing(t: Tick, w: World) returns (water: Option<Vec3>)
      ensures water == if Abs().WorthReaching(bounds, geo, t, w) then w.water(t.self) else None
    {
      var left := bounds.fireDuration - (t.now - fire.litAt);
      if left <= 0 {
        return None;
      }
      water := w.water(t.self);
      var near, radius := Vec3(0.0, 0.0, 0.0), 0.0;
      if centre.Some? {
        near, radius := centre.value, bounds.radius;
      }
      if water.None? || bounds.walk(geo.distance(t.self, water.value)) >= left
         || geo.distance(water.value, near) > radius + bounds.fleeMargin {
        return None;
      }
    }

    method Douse(t: Tick, w: World) returns (a: Action)
      requires state == Dousing
      modifies this
      ensures Douses(bounds, geo, old(Abs()), t, w, a, Abs())
    {
      if !t.onFire {
        a := Disengage(t);
        return;
      }
      var water := WorthDousing(t, w);
      if water.None? {
        a := Disengage(t);
        return;
      }
      if water.value != fire.dousingAt {
        fire, way := fire.(dousingAt := water.value), way.(steps := []);
      }
      var walk := FollowRoute(t, w, fire.dousingAt, DOUSE_ROUTE);
      if walk.None? {
        a := Disengage(t);
        return;
      }
      return walk.value;
    }

    /** Off ground that hurts: one clear step in eight headings, else a route or a straight walk to safe ground. */
    method Escape(t: Tick, w: World) returns (a: Action)
      requires state == Escaping
      modifies this
      ensures Escapes(bounds, geo, old(Abs()), t, w, a, Abs())
    {
      if !w.hurting(t.self) || t.now - flight.escapedAt > bounds.escape {
        a := Disengage(t);
        return;
      }
      for i := 0 to HEADINGS
        invariant Abs() == old(Abs()) && forall k :: 0 <= k < i ==> !Harmless(bounds, geo, t, w, k)
      {
        var aim := geo.heading(t.self, i);
        if !w.hurting(geo.toward(t.self, aim, bounds.stride)) {
          assert FirstClear(bounds, geo, t, w, i);
          way := way.(steps := []);
          return StepTo(aim, false);
        }
      }
      a := Wade(t, w);
    }

    method Wade(t: Tick, w: World) returns (a: Action)
      modifies this
      ensures Wades(bounds, geo, old(Abs()), t, w, a, Abs())
    {
      var out := w.safe(t.self);
      if out.None? {
        if way.routedFor == ESCAPE_ROUTE && way.steps != [] {
          var walk := FollowRoute(t, w, flight.escapeTo, ESCAPE_ROUTE);
          if walk.Some? {
            return walk.value;
          }
        }
        return Stand;
      }
      if out.value != flight.escapeTo {
        flight, way := flight.(escapeTo := out.value), way.(steps := []);
      }
      var walk := FollowRoute(t, w, flight.escapeTo, ESCAPE_ROUTE);
      if walk.Some? {
        return walk.value;
      }
      return StepTo(flight.escapeTo, false);
    }

    /** Waits for the respawn to be confirmed, resending nothing. */
    method AwaitRespawn(t: Tick) returns (a: Action)
      requires state == Dead
      modifies this
      ensures Rises(old(Abs()), t, a, Abs())
    {
      if !t.respawned {
        return Stand;
      }
      skips, progressAt := 0, t.now;
      state := if centre.None? then Joining else Returning;
      return Stand;
    }

    method Return(t: Tick, w: World) returns (a: Action)
      requires state == Returning && centre.Some?
      modifies this
      ensures Returns(bounds, geo, old(Abs()), t, w, a, Abs())
    {
      var blow := Provoked(t, w);
      if blow.Some? {
        return blow.value;
      }
      var nearest := geo.nearest(centre.value, t.self);
      if nearest != waypoint {
        waypoint, way := nearest, way.(steps := []);
      }
      var goal := geo.at(centre.value, waypoint);
      if geo.distance(t.self, goal) <= bounds.waypointRadius {
        state, progressAt, way := Orbiting, t.now, way.(steps := []);
        return Stand;
      }
      var walk := FollowRoute(t, w, goal, waypoint);
      return if walk.Some? then walk.value else Stand;
    }

    /** Stands still, asks to die now and then, and looks for a way again when the world changes. */
    method Wait(t: Tick, w: World) returns (a: Action)
      requires state == Trapped && centre.Some? && Plans(w)
      modifies this
      ensures Waits(bounds, geo, old(Abs()), t, w, a, Abs())
    {
      var blow := Provoked(t, w);
      if blow.Some? {
        return blow.value;
      }
      if t.now - seal.trappedAt >= bounds.trappedBudget {
        a := Finish(1);
        return;
      }
      if t.now - seal.killedAt >= bounds.killInterval {
        seal := seal.(killedAt := t.now);
        return AskToDie;
      }
      if t.revision == seal.trappedRevision {
        return Stand;
      }
      seal := seal.(trappedRevision := t.revision);
      var found := w.route(t.self, geo.at(centre.value, waypoint));
      if found.None? {
        return Stand;
      }
      way := Way(found.value, 0, waypoint, way.checkedAt);
      skips, progressAt, state := 0, t.now, Orbiting;
      return StepTo(way.steps[0].at, way.steps[0].jump);
    }

    /** The burning clock, and the decision to walk to water. */
    method NoteFire(t: Tick, w: World)
      modifies this`fire, this`state, this`way
      ensures Abs() == old(Abs()).Lit(t).Burnt(bounds, geo, t, w)
    {
      if t.onFire && !fire.lit {
        fire := fire.(litAt := t.now, lit := true);
      }
      if !t.onFire {
        fire := fire.(lit := false);
      }
      if t.onFire && t.ready && !state.Escaping? && !state.Dousing? && !state.Dead? && !state.Done? {
        var water := WorthDousing(t, w);
        if water.Some? {
          state, fire, way := Dousing, fire.(dousingAt := water.value), way.(steps := []);
        }
      }
    }

    /** Harm first, then fire. */
    method Preempt(t: Tick, w: World)
      modifies this`state, this`flight, this`way, this`fire
      ensures Abs() == old(Abs()).Harmed(t, w).Lit(t).Burnt(bounds, geo, t, w)
    {
      if !state.Done? && !state.Dead? && !state.Escaping? && t.ready && w.hurting(t.self) {
        state, flight, way := Escaping, flight.(escapedAt := t.now), way.(steps := []);
      }
      NoteFire(t, w);
    }

    /** The state's own decision. */
    method Decide(t: Tick, w: World) returns (a: Action)
      requires Abs().Valid() && Plans(w)
      modifies this
      ensures Decides(bounds, geo, old(Abs()), t, w, a, Abs())
    {
      match state
      case Joining => a := Join(t, w);
      case Orbiting => a := Orbit(t, w);
      case Fighting => a := Fight(t, w);
      case Escaping => a := Escape(t, w);
      case Dousing => a := Douse(t, w);
      case Dead => a := AwaitRespawn(t);
      case Returning => a := Return(t, w);
      case Trapped => a := Wait(t, w);
      case Done => a := Stand;
    }

    /** Folds one tick into the state machine and answers what to do. */
    method Advance(t: Tick, w: World) returns (a: Action)
      requires Abs().Valid() && Plans(w)
      modifies this
      ensures Ticked(bounds, geo, old(Abs()), t, w, a, Abs())
      ensures Abs().Valid() && Lawful(bounds, geo, old(Abs()), t, w, a, Abs())
    {
      a := Fold(t, w);
      TickIsLawful(bounds, geo, old(Abs()), t, w, a, Abs());
    }

    method Fold(t: Tick, w: World) returns (a: Action)
      requires Abs().Valid() && Plans(w)
      modifies this
      ensures Ticked(bounds, geo, old(Abs()), t, w, a, Abs())
    {
      if !state.Done? {
        var handled := Interrupt(t);
        if handled.Some? {
          return handled.value;
        }
      }
      PreemptedFits(bounds, geo, old(Abs()), t, w);
      Preempt(t, w);
      a := Decide(t, w);
    }
  }
}
