/**
 * What the behaviours answer, tick by tick, over any sights: behaviour/follow.go, behaviour/mine.go and
 * behaviour/build.go, stated of what was seen and not of what they remember.
 */
module Outcomes {
  import opened Options
  import opened Following
  import opened Executing

  // ----- Following and fleeing -----

  /** The sight is nearer than another by what counts as nearer - or further, for a flee. */
  predicate Better(fleeing: bool, now: Observed, before: Observed) {
    if fleeing then now.distance > before.distance + 0.000001 else now.distance < before.distance - 0.000001
  }

  /** The last of the first n sights to better the one that did before it; the first with the body placed does. */
  function LastGain(fleeing: bool, sights: seq<Observed>, n: nat): (k: Option<nat>)
    requires n <= |sights|
    ensures k.Some? ==> k.value < n && sights[k.value].placed
  {
    if n == 0 then None
    else
      var last := LastGain(fleeing, sights, n - 1);
      if sights[n - 1].placed && (last.None? || Better(fleeing, sights[n - 1], sights[last.value])) then Some(n - 1)
      else last
  }

  /** How many of the sights from one to another have the body placed. */
  function PlacedBetween(sights: seq<Observed>, from: nat, to: nat): nat
    requires from <= to <= |sights|
  {
    if from == to then 0 else PlacedBetween(sights, from, to - 1) + if sights[to - 1].placed then 1 else 0
  }

  /** On sight n, patience's worth of placed sights in a row, this one included, have gained nothing. */
  predicate OutOfPatience(fleeing: bool, patience: int, sights: seq<Observed>, n: nat)
    requires n < |sights|
  {
    var last := LastGain(fleeing, sights, n + 1);
    patience > 0 && last.Some? && last.value < n && PlacedBetween(sights, last.value + 1, n + 1) >= patience
  }

  function FleeAfter(m: Motion, safe: real, sights: seq<Observed>, n: nat): Chase
    requires n <= |sights|
  {
    if n == 0 then UNSTARTED else FleeTick(m, safe, FleeAfter(m, safe, sights, n - 1), sights[n - 1]).0
  }

  function FleeAt(m: Motion, safe: real, sights: seq<Observed>, n: nat): Outcome
    requires n < |sights|
  {
    FleeTick(m, safe, FleeAfter(m, safe, sights, n), sights[n]).1
  }

  /** What a chase remembers of the sights: the distance of the last gain, and the placed sights since. */
  ghost predicate Remembers(fleeing: bool, c: Chase, sights: seq<Observed>, n: nat)
    requires n <= |sights|
  {
    var last := LastGain(fleeing, sights, n);
    && (c.started <==> last.Some?)
    && (last.Some? ==> c.closest == sights[last.value].distance && c.idle == PlacedBetween(sights, last.value + 1, n))
  }

  ghost predicate FleeingOn(m: Motion, safe: real, sights: seq<Observed>, n: nat)
    requires n <= |sights|
  {
    forall k :: 0 <= k < n ==> FleeAt(m, safe, sights, k).Running?
  }

  lemma {:induction false} FleeRemembers(m: Motion, safe: real, sights: seq<Observed>, n: nat)
    requires n <= |sights| && FleeingOn(m, safe, sights, n)
    ensures Remembers(true, FleeAfter(m, safe, sights, n), sights, n)
  {
    if n > 0 {
      FleeRemembers(m, safe, sights, n - 1);
      assert FleeAt(m, safe, sights, n - 1).Running?;
    }
  }

  /**
   * As long as it goes on, a flee waits for the body to be placed, is complete exactly when its threat is gone or at
   * least the safe distance off, is stuck exactly when patience's worth of sights got it no further, and otherwise
   * moves.
   */
  lemma FleeAnswers(m: Motion, safe: real, sights: seq<Observed>, n: nat)
    requires n < |sights| && FleeingOn(m, safe, sights, n)
    ensures FleeAt(m, safe, sights, n) ==
            if !sights[n].placed then Running(false)
            else if !sights[n].tracked || sights[n].distance >= safe then Complete(false)
            else if OutOfPatience(true, m.patience, sights, n) then Stopped(Stuck)
            else Running(true)
  {
    FleeRemembers(m, safe, sights, n);
  }

  function FollowAfter(m: Motion, sights: seq<Observed>, n: nat): Chase
    requires n <= |sights|
  {
    if n == 0 then UNSTARTED else FollowTick(m, FollowAfter(m, sights, n - 1), sights[n - 1]).0
  }

  function FollowAt(m: Motion, sights: seq<Observed>, n: nat): Outcome
    requires n < |sights|
  {
    FollowTick(m, FollowAfter(m, sights, n), sights[n]).1
  }

  ghost predicate FollowingOn(m: Motion, sights: seq<Observed>, n: nat)
    requires n <= |sights|
  {
    forall k :: 0 <= k < n ==> FollowAt(m, sights, k).Running?
  }

  lemma {:induction false} FollowRemembers(m: Motion, sights: seq<Observed>, n: nat)
    requires n <= |sights| && FollowingOn(m, sights, n)
    ensures Remembers(false, FollowAfter(m, sights, n), sights, n)
  {
    if n > 0 {
      FollowRemembers(m, sights, n - 1);
      assert FollowAt(m, sights, n - 1).Running?;
    }
  }

  /**
   * As long as it goes on, a follow waits for the body to be placed, stops for a changed world exactly when its
   * entity is gone, as blocked exactly when the entity is further than it will go, as stuck exactly when patience's
   * worth of sights got it no nearer, and otherwise moves exactly when it is not close enough.
   */
  lemma FollowAnswers(m: Motion, sights: seq<Observed>, n: nat)
    requires n < |sights| && FollowingOn(m, sights, n)
    ensures FollowAt(m, sights, n) ==
            if !sights[n].placed then Running(false)
            else if !sights[n].tracked then Stopped(WorldChanged)
            else if m.giveUp > 0.0 && sights[n].distance > m.giveUp then Stopped(Blocked)
            else if OutOfPatience(false, m.patience, sights, n) then Stopped(Stuck)
            else Running(sights[n].distance > m.arrive)
  {
    FollowRemembers(m, sights, n);
  }

  /** Sights with the body placed and the entity tracked, at distances of their own. */
  ghost predicate Sighted(sights: seq<Observed>) {
    forall k :: 0 <= k < |sights| ==> sights[k].placed && sights[k].tracked && sights[k].distance >= 0.0
  }

  /** How many gains fit into a distance. */
  function GainsIn(distance: real): int {
    (distance * 1000000.0).Floor
  }

  lemma GainsAre(distance: real)
    ensures Gains(distance) == GainsIn(distance)
  {
    assert distance / 0.000001 == distance * 1000000.0;
  }

  lemma {:induction false} FleeEnds(m: Motion, safe: real, sights: seq<Observed>, k: nat, left: nat)
    requires Sighted(sights) && k + left < |sights|
    requires StopsWithin(FleeSighted(m, safe), FleeAfter(m, safe, sights, k), left)
    ensures !FleeingOn(m, safe, sights, |sights|)
    decreases left
  {
    var d: Distance := sights[k].distance;
    assert sights[k] == Observed(true, true, d);
    assert FleeSighted(m, safe)(FleeAfter(m, safe, sights, k), d) ==
           FleeTick(m, safe, FleeAfter(m, safe, sights, k), sights[k]);
    if FleeAt(m, safe, sights, k).Running? {
      FleeEnds(m, safe, sights, k + 1, left - 1);
    }
  }

  /** A flee with patience is over before it has seen its threat patience * (gains left + 1) + 1 times. */
  lemma FleeIsOver(m: Motion, safe: real, sights: seq<Observed>)
    requires m.patience > 0 && Sighted(sights) && sights != [] && sights[0].distance < safe
    requires |sights| > m.patience * (GainsIn(safe - sights[0].distance) + 1)
    ensures !FleeingOn(m, safe, sights, |sights|)
  {
    var d: Distance := sights[0].distance;
    assert sights[0] == Observed(true, true, d);
    GainsAre(safe - d);
    FleeStopsFrom(m, safe, d);
    assert FleeAfter(m, safe, sights, 1) == FleeSighted(m, safe)(UNSTARTED, d).0;
    FleeEnds(m, safe, sights, 1, m.patience * (Gains(safe - d) + 1) - 1);
  }

  lemma {:induction false} FollowEnds(m: Motion, sights: seq<Observed>, k: nat, left: nat)
    requires Sighted(sights) && k + left < |sights|
    requires StopsWithin(FollowSighted(m), FollowAfter(m, sights, k), left)
    ensures !FollowingOn(m, sights, |sights|)
    decreases left
  {
    var d: Distance := sights[k].distance;
    assert sights[k] == Observed(true, true, d);
    assert FollowSighted(m)(FollowAfter(m, sights, k), d) == FollowTick(m, FollowAfter(m, sights, k), sights[k]);
    if FollowAt(m, sights, k).Running? {
      FollowEnds(m, sights, k + 1, left - 1);
    }
  }

  /** And so is a follow with patience, of the gains there are in the distance it starts at. */
  lemma FollowIsOver(m: Motion, sights: seq<Observed>)
    requires m.patience > 0 && Sighted(sights) && sights != []
    requires |sights| > m.patience * (GainsIn(sights[0].distance) + 1)
    ensures !FollowingOn(m, sights, |sights|)
  {
    var d: Distance := sights[0].distance;
    assert sights[0] == Observed(true, true, d);
    GainsAre(d);
    if FollowAt(m, sights, 0).Running? {
      FollowStopsFrom(m, d);
      assert FollowAfter(m, sights, 1) == FollowSighted(m)(UNSTARTED, d).0;
      FollowEnds(m, sights, 1, m.patience * (Gains(d) + 1) - 1);
    }
  }

  // ----- Digging -----

  function KnownBetween(sights: seq<Sight>, from: nat, to: nat): nat
    requires from <= to <= |sights|
  {
    if from == to then 0 else KnownBetween(sights, from, to - 1) + if sights[to - 1].known then 1 else 0
  }

  function DigAfter(ticks: int, sights: seq<Sight>, n: nat): Digging
    requires n <= |sights|
  {
    if n == 0 then Digging(false, 0) else DigTick(ticks, DigAfter(ticks, sights, n - 1), sights[n - 1]).0
  }

  lemma {:induction false} DigRemembers(ticks: int, sights: seq<Sight>, n: nat)
    requires n <= |sights|
    ensures var known := KnownBetween(sights, 0, n);
            DigAfter(ticks, sights, n) == if known == 0 then Digging(false, 0) else Digging(true, known - 1)
  {
    if n > 0 {
      DigRemembers(ticks, sights, n - 1);
    }
  }

  /**
   * A dig starts on the first sight that knows the player, sends nothing for the ticks in between, and finishes and
   * is complete on exactly the last of them.
   */
  lemma DigAnswers(ticks: int, sights: seq<Sight>, n: nat)
    requires ticks > 0 && n < |sights| && KnownBetween(sights, 0, n) <= ticks
    ensures var known := KnownBetween(sights, 0, n);
            var (_, outcome, sent) := DigTick(ticks, DigAfter(ticks, sights, n), sights[n]);
            (outcome, sent) == if !sights[n].known then (Running(false), None)
                               else if known == 0 then (Running(true), Some(DigStart))
                               else if known < ticks then (Running(false), None)
                               else (Complete(true), Some(DigFinish))
  {
    DigRemembers(ticks, sights, n);
  }

  // ----- Building -----

  /** The tick, among the first n, of the last placement. */
  function LastSent(edges: seq<Edge>, settle: int, sights: seq<Sight>, n: nat): (k: Option<nat>)
    requires n <= |sights|
    ensures k.Some? ==> k.value < n && sights[k.value].known
  {
    if n == 0 then None
    else if BuildTick(edges, settle, BuildAfter(edges, settle, sights, n - 1).0, sights[n - 1]).2.Some? then Some(n - 1)
    else LastSent(edges, settle, sights, n - 1)
  }

  /** By tick r the placement of tick q has settled: the world has moved on since, or has had long enough to. */
  predicate SettledAt(settle: int, sights: seq<Sight>, q: nat, r: nat)
    requires q < r < |sights|
  {
    sights[r].known && (sights[r].revision > sights[q].revision || KnownBetween(sights, q + 1, r + 1) >= settle)
  }

  predicate Settled(settle: int, sights: seq<Sight>, q: nat, n: nat)
    requires q < n <= |sights|
  {
    exists r :: q < r < n && SettledAt(settle, sights, q, r)
  }

  /** What a build remembers of the sights. */
  ghost predicate Keeps(edges: seq<Edge>, settle: int, sights: seq<Sight>, n: nat)
    requires n <= |sights|
  {
    var (b, sent), last := BuildAfter(edges, settle, sights, n), LastSent(edges, settle, sights, n);
    && |sent| == b.at + (if b.placed then 1 else 0)
    && (b.placed <==> last.Some? && !Settled(settle, sights, last.value, n))
    && (b.placed ==> b.started == sights[last.value].revision && b.waited == KnownBetween(sights, last.value + 1, n))
    && (!b.placed ==> b.waited == 0)
  }

  lemma SettledMore(settle: int, sights: seq<Sight>, q: nat, n: nat)
    requires q < n < |sights|
    ensures Settled(settle, sights, q, n + 1) <==> Settled(settle, sights, q, n) || SettledAt(settle, sights, q, n)
  {
    if Settled(settle, sights, q, n) {
      var r :| q < r < n && SettledAt(settle, sights, q, r);
      assert q < r < n + 1;
    }
  }

  lemma KeepsNext(edges: seq<Edge>, settle: int, sights: seq<Sight>, n: nat)
    requires n < |sights| && forall i :: 0 <= i < |edges| ==> edges[i].kind != Crossing
    requires Keeps(edges, settle, sights, n)
    ensures Keeps(edges, settle, sights, n + 1)
  {
    var b, last := BuildAfter(edges, settle, sights, n).0, LastSent(edges, settle, sights, n);
    SentSoFar(edges, settle, sights, n);
    if last.Some? {
      SettledMore(settle, sights, last.value, n);
    }
    if sights[n].known && b.at < |edges| && !b.placed {
      assert LastSent(edges, settle, sights, n + 1) == Some(n);
      assert !Settled(settle, sights, n, n + 1);
    } else {
      assert LastSent(edges, settle, sights, n + 1) == last;
    }
  }

  lemma {:induction false} BuildKeeps(edges: seq<Edge>, settle: int, sights: seq<Sight>, n: nat)
    requires n <= |sights| && forall i :: 0 <= i < |edges| ==> edges[i].kind != Crossing
    ensures Keeps(edges, settle, sights, n)
  {
    if n > 0 {
      BuildKeeps(edges, settle, sights, n - 1);
      KeepsNext(edges, settle, sights, n - 1);
    }
  }

  /**
   * A build waits for the player to be known and for its last placement to settle, and no longer: then it sends the
   * next placement, or is complete when there is none.
   */
  lemma BuildAnswers(edges: seq<Edge>, settle: int, sights: seq<Sight>, n: nat)
    requires n < |sights| && forall i :: 0 <= i < |edges| ==> edges[i].kind != Crossing
    ensures var (b, sent), last := BuildAfter(edges, settle, sights, n), LastSent(edges, settle, sights, n);
            var (_, outcome, placement) := BuildTick(edges, settle, b, sights[n]);
            (outcome, placement) ==
            if !sights[n].known || (last.Some? && !Settled(settle, sights, last.value, n)) then (Running(false), None)
            else if |sent| < |edges| then (Running(true), Some(PlacementsOf(edges)[|sent|]))
            else (Complete(false), None)
  {
    BuildKeeps(edges, settle, sights, n);
    SentSoFar(edges, settle, sights, n);
  }

  /** A bridge goes out from the side of the block underfoot that faces the landing; a pillar goes on its top. */
  lemma PlacesOn(from: Pos)
    ensures var under := Pos(from.x, from.y - 1, from.z);
            && PlacementFace(Edge(Place, from, Pos(from.x + 1, from.y, from.z))) == Some(Placement(under, East))
            && PlacementFace(Edge(Place, from, Pos(from.x - 1, from.y, from.z))) == Some(Placement(under, West))
            && PlacementFace(Edge(Place, from, Pos(from.x, from.y, from.z + 1))) == Some(Placement(under, South))
            && PlacementFace(Edge(Place, from, Pos(from.x, from.y, from.z - 1))) == Some(Placement(under, North))
            && PlacementFace(Edge(Pillar, from, Pos(from.x, from.y + 1, from.z))) == Some(Placement(under, Top))
  {
  }

  // ----- Stages -----

  /**
   * A sequence answers what its active stage answers, but for a stage that completes with others to come, whose last
   * actions go out while the sequence runs on - with the next stage, from the next tick.
   */
  lemma SequenceAnswers<S, O>(p: Progression<S, O>, o: O)
    requires p.at < |p.stages|
    ensures var (state, answer) := p.stages[p.at].tick(p.stages[p.at].state, o);
            var (next, outcome) := SequenceTick(p, o);
            && next.stages == p.stages[p.at := Stage(state, p.stages[p.at].tick)]
            && next.at == (if answer.Complete? then p.at + 1 else p.at)
            && outcome == if answer.Complete? && p.at + 1 < |p.stages| then Running(answer.moves) else answer
  {
  }

  /** Once its last stage is complete, a sequence is, whatever it sees. */
  lemma FinishedStaysComplete<S, O>(p: Progression<S, O>, o: O)
    requires p.at >= |p.stages|
    ensures SequenceTick(p, o) == (p, Complete(false))
  {
  }

  /** A stage is fresh before its first sight. */
  lemma FreshIff(w: Work)
    ensures Fresh(w) <==> match w
                          case Hole(ticks, digging) => ticks > 0 && digging == DigAfter(ticks, [], 0)
                          case Wall(edges, settle, building) => building == BuildAfter(edges, settle, [], 0).0
  {
  }
}
