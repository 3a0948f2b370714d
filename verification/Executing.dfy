/** Digging one block and performing a path's placements: behaviour/mine.go and behaviour/build.go. */
module Executing {
  import opened Options
  import opened Following

  /** What a tick sees: whether the player is known, and the revision of what it sees. */
  datatype Sight = Sight(known: bool, revision: nat)

  // ----- Which block a placing edge fills -----

  datatype Pos = Pos(x: int, y: int, z: int)

  datatype Face = East | West | South | North | Top

  datatype Kind = Place | Pillar | Crossing

  datatype Edge = Edge(kind: Kind, from: Pos, to: Pos)

  /** The block placed against, and the face placed on. */
  datatype Placement = Placement(support: Pos, face: Face)

  function SideToward(from: Pos, to: Pos): Face {
    if to.x > from.x then East
    else if to.x < from.x then West
    else if to.z > from.z then South
    else if to.z < from.z then North
    else Top
  }

  function PlacementFace(edge: Edge): Option<Placement> {
    var support := edge.from.(y := edge.from.y - 1);
    match edge.kind
    case Place => Some(Placement(support, SideToward(edge.from, edge.to)))
    case Pillar => Some(Placement(support, Top))
    case Crossing => None
  }

  /** The cell a block goes into when it is placed on a face of another. */
  function Filled(p: Placement): Pos {
    match p.face
    case East => p.support.(x := p.support.x + 1)
    case West => p.support.(x := p.support.x - 1)
    case South => p.support.(z := p.support.z + 1)
    case North => p.support.(z := p.support.z - 1)
    case Top => p.support.(y := p.support.y + 1)
  }

  /** One step sideways, or one straight up. */
  predicate Beside(from: Pos, to: Pos) {
    || (to.y == from.y && to.z == from.z && (to.x == from.x + 1 || to.x == from.x - 1))
    || (to.y == from.y && to.x == from.x && (to.z == from.z + 1 || to.z == from.z - 1))
    || to == from.(y := from.y + 1)
  }

  /**
   * A placing edge's block fills the cell under where the body lands if and only if the edge lands beside where it
   * starts, and for a pillar straight above.
   */
  lemma FillsUnderLandingIff(edge: Edge)
    requires edge.kind != Crossing
    ensures Filled(PlacementFace(edge).value) == edge.to.(y := edge.to.y - 1) <==>
            if edge.kind == Pillar then edge.to == edge.from.(y := edge.from.y + 1) else Beside(edge.from, edge.to)
  {
    var to := edge.to.(y := edge.to.y - 1);
    assert to == Pos(edge.to.x, edge.to.y - 1, edge.to.z);
  }

  /** A path a build accepts and whose one block is not under its landing: an edge that places two cells away. */
  lemma SkippingEdge() returns (path: seq<Edge>)
    ensures Placing(path) == path && |path| == 1 && path[0].kind == Place
    ensures Filled(PlacementFace(path[0]).value) != path[0].to.(y := path[0].to.y - 1)
  {
    path := [Edge(Place, Pos(0, 1, 0), Pos(2, 1, 0))];
    assert path[..0] == [];
    FillsUnderLandingIff(path[0]);
  }

  // ----- Build -----

  /** The placing edges of a path, in order. */
  function Placing(path: seq<Edge>): seq<Edge>
    decreases |path|
  {
    if path == [] then []
    else
      var last := path[|path| - 1];
      Placing(path[..|path| - 1]) + if last.kind != Crossing then [last] else []
  }

  lemma {:induction false} PlacingOnly(path: seq<Edge>)
    ensures forall i :: 0 <= i < |Placing(path)| ==> Placing(path)[i].kind != Crossing
    decreases |path|
  {
    if path != [] {
      PlacingOnly(path[..|path| - 1]);
    }
  }

  datatype Building = Building(at: nat, waited: nat, placed: bool, started: nat)

  const UNBUILT := Building(0, 0, false, 0)

  /** One tick: the new state, the outcome, and the placement sent if there is one. */
  function BuildTick(edges: seq<Edge>, settle: int, b: Building, o: Sight): (Building, Outcome, Option<Placement>) {
    if !o.known then (b, Running(false), None)
    else if b.at >= |edges| then (b, Complete(false), None)
    else if b.placed then
      if o.revision > b.started || b.waited + 1 >= settle
      then (b.(placed := false, waited := 0, at := b.at + 1), Running(false), None)
      else (b.(waited := b.waited + 1), Running(false), None)
    else
      var p := PlacementFace(edges[b.at]);
      if p.None? then (b, Stopped(Unable), None)
      else (b.(placed := true, started := o.revision), Running(true), p)
  }

  class Build {
    const edges: seq<Edge>
    const settle: int
    var at: nat
    var waited: nat
    var placed: bool
    var started: nat

    ghost function Abs(): Building
      reads this
    {
      Building(at, waited, placed, started)
    }

    constructor (edges: seq<Edge>, settle: int)
      ensures this.edges == edges && this.settle == settle && Abs() == UNBUILT
    {
      this.edges, this.settle := edges, settle;
      at, waited, placed, started := 0, 0, false, 0;
    }

    /** Null for a path with nothing to place. */
    static method Make(path: seq<Edge>, settle: int) returns (b: Build?)
      ensures b == null <==> Placing(path) == []
      ensures b != null ==> fresh(b) && b.edges == Placing(path) && b.settle == settle && b.Abs() == UNBUILT
    {
      var edges: seq<Edge> := [];
      for i := 0 to |path|
        invariant edges == Placing(path[..i])
      {
        assert path[..i + 1][..i] == path[..i];
        if path[i].kind != Crossing {
          edges := edges + [path[i]];
        }
      }
      assert path[..|path|] == path;
      if |edges| == 0 {
        return null;
      }
      b := new Build(edges, settle);
    }

    method Tick(o: Sight) returns (outcome: Outcome, sent: Option<Placement>)
      modifies this
      ensures (Abs(), outcome, sent) == BuildTick(edges, settle, old(Abs()), o)
    {
      if !o.known {
        return Running(false), None;
      }
      if at >= |edges| {
        return Complete(false), None;
      }
      if placed {
        waited := waited + 1;
        if o.revision > started || waited >= settle {
          placed, waited, at := false, 0, at + 1;
        }
        return Running(false), None;
      }
      sent := PlacementFace(edges[at]);
      if sent.None? {
        return Stopped(Unable), None;
      }
      placed, started := true, o.revision;
      return Running(true), sent;
    }
  }

  /** A build after n sights, and everything it has sent. */
  function BuildAfter(edges: seq<Edge>, settle: int, sights: seq<Sight>, n: nat): (Building, seq<Placement>)
    requires n <= |sights|
  {
    if n == 0 then (UNBUILT, [])
    else
      var (b, sent) := BuildAfter(edges, settle, sights, n - 1);
      var (b', _, p) := BuildTick(edges, settle, b, sights[n - 1]);
      (b', sent + if p.Some? then [p.value] else [])
  }

  function PlacementsOf(edges: seq<Edge>): seq<Placement>
    requires forall i :: 0 <= i < |edges| ==> edges[i].kind != Crossing
  {
    seq(|edges|, i requires 0 <= i < |edges| => PlacementFace(edges[i]).value)
  }

  lemma {:induction false} SentSoFar(edges: seq<Edge>, settle: int, sights: seq<Sight>, n: nat)
    requires n <= |sights| && forall i :: 0 <= i < |edges| ==> edges[i].kind != Crossing
    ensures var (b, sent) := BuildAfter(edges, settle, sights, n);
            var done := b.at + if b.placed then 1 else 0;
            done <= |edges| && sent == PlacementsOf(edges)[..done]
  {
    if n > 0 {
      SentSoFar(edges, settle, sights, n - 1);
    }
  }

  /**
   * Whatever a build sees, what it sends is a prefix of the path's placements, each once and in order; it never
   * stops short, and it completes exactly when, with the player known, all of them are sent and have settled.
   */
  lemma PlacesInOrder(path: seq<Edge>, settle: int, sights: seq<Sight>, n: nat)
    requires n < |sights|
    ensures forall i :: 0 <= i < |Placing(path)| ==> Placing(path)[i].kind != Crossing
    ensures var edges := Placing(path);
            var (b, sent) := BuildAfter(edges, settle, sights, n);
            var outcome := BuildTick(edges, settle, b, sights[n]).1;
            && sent <= PlacementsOf(edges)
            && !outcome.Stopped? && !outcome.Failed?
            && (outcome.Complete? <==> sights[n].known && sent == PlacementsOf(edges) && !b.placed)
  {
    PlacingOnly(path);
    var edges := Placing(path);
    SentSoFar(edges, settle, sights, n);
    var (b, sent) := BuildAfter(edges, settle, sights, n);
    var done := b.at + if b.placed then 1 else 0;
    assert sent == PlacementsOf(edges)[..done];
    assert |PlacementsOf(edges)[..done]| == done;
  }

  // ----- Dig -----

  datatype Digging = Digging(started: bool, waited: nat)

  datatype Blow = DigStart | DigFinish

  function DigTick(ticks: int, d: Digging, o: Sight): (Digging, Outcome, Option<Blow>) {
    if !o.known then (d, Running(false), None)
    else if !d.started then (Digging(true, 0), Running(true), Some(DigStart))
    else if d.waited + 1 < ticks then (d.(waited := d.waited + 1), Running(false), None)
    else (d.(waited := d.waited + 1), Complete(true), Some(DigFinish))
  }

  class Dig {
    const ticks: int
    var started: bool
    var waited: nat

    ghost function Abs(): Digging
      reads this
    {
      Digging(started, waited)
    }

    constructor (ticks: int)
      requires ticks > 0
      ensures this.ticks == ticks && Abs() == Digging(false, 0)
    {
      this.ticks := ticks;
      started, waited := false, 0;
    }

    /** Null for a dig of no ticks. */
    static method Make(ticks: int) returns (d: Dig?)
      ensures d == null <==> ticks <= 0
      ensures d != null ==> fresh(d) && d.ticks == ticks && d.Abs() == Digging(false, 0)
    {
      if ticks <= 0 {
        return null;
      }
      d := new Dig(ticks);
    }

    method Tick(o: Sight) returns (outcome: Outcome, sent: Option<Blow>)
      modifies this
      ensures (Abs(), outcome, sent) == DigTick(ticks, old(Abs()), o)
    {
      if !o.known {
        return Running(false), None;
      }
      if !started {
        started, waited := true, 0;
        return Running(true), Some(DigStart);
      }
      waited := waited + 1;
      if waited < ticks {
        return Running(false), None;
      }
      return Complete(true), Some(DigFinish);
    }
  }

  // ----- Work made of digs and builds -----

  /** One stage of a job. */
  datatype Work =
    | Hole(ticks: int, digging: Digging)
    | Wall(edges: seq<Edge>, settle: int, building: Building)

  /** A tick of either, once the player is known. */
  function WorkTick(w: Work, revision: nat): (Work, Outcome) {
    match w
    case Hole(ticks, digging) =>
      var (next, outcome, _) := DigTick(ticks, digging, Sight(true, revision));
      (Hole(ticks, next), outcome)
    case Wall(edges, settle, building) =>
      var (next, outcome, _) := BuildTick(edges, settle, building, Sight(true, revision));
      (Wall(edges, settle, next), outcome)
  }

  /** How long one placement can take: the tick that sends it, and the wait for it to settle. */
  function PerPlacement(settle: int): int {
    1 + if settle < 1 then 1 else settle
  }

  /** The most running ticks a stage has left. */
  function WorkLeft(w: Work): int {
    match w
    case Hole(ticks, digging) => if digging.started then ticks - 1 - digging.waited else ticks
    case Wall(edges, settle, b) =>
      PerPlacement(settle) * (|edges| - b.at) - if b.placed then 1 + b.waited else 0
  }

  /** A stage some ticks into its work. */
  predicate UnderWay(w: Work) {
    match w
    case Hole(ticks, digging) => ticks > 0 && (digging.started ==> digging.waited < ticks)
    case Wall(edges, settle, b) =>
      && b.at <= |edges| && (b.placed ==> b.at < |edges| && b.waited + 1 < PerPlacement(settle))
      && (!b.placed ==> b.waited == 0)
  }

  lemma AtLeastOne(per: int, count: int)
    requires per > 0 && count >= 0
    ensures per * count >= 0 && (count > 0 ==> per * count >= per)
    ensures per * (count - 1) == per * count - per
  {
    if count > 0 {
      assert per * (count - 1) >= 0;
    }
  }

  lemma WorkSpends(w: Work, revision: nat)
    requires UnderWay(w)
    ensures WorkLeft(w) >= 0
    ensures var (next, outcome) := WorkTick(w, revision);
            outcome.Running? ==> UnderWay(next) && WorkLeft(next) < WorkLeft(w)
  {
    if w.Wall? {
      AtLeastOne(PerPlacement(w.settle), |w.edges| - w.building.at);
    }
  }

  lemma {:induction false} WorkStops(w: Work)
    requires UnderWay(w)
    ensures WorkLeft(w) >= 0 && StopsWithin(WorkTick, w, WorkLeft(w))
    decreases WorkLeft(w)
  {
    WorkSpends(w, 0);
    forall revision: nat | WorkTick(w, revision).1.Running?
      ensures WorkLeft(w) > 0 && StopsWithin(WorkTick, WorkTick(w, revision).0, WorkLeft(w) - 1)
    {
      WorkSpends(w, revision);
      var next := WorkTick(w, revision).0;
      WorkSpends(next, 0);
      WorkStops(next);
      StopsWithinMore(WorkTick, next, WorkLeft(next), WorkLeft(w) - 1);
    }
  }

  predicate Fresh(w: Work) {
    match w
    case Hole(ticks, digging) => ticks > 0 && digging == Digging(false, 0)
    case Wall(edges, _, building) => building == UNBUILT
  }

  function Stages(jobs: seq<Work>): seq<Stage<Work, nat>> {
    seq(|jobs|, i requires 0 <= i < |jobs| => Stage(jobs[i], WorkTick))
  }

  function Bounds(jobs: seq<Work>): seq<nat>
    requires forall i :: 0 <= i < |jobs| ==> WorkLeft(jobs[i]) >= 0
  {
    seq(|jobs|, i requires 0 <= i < |jobs| => WorkLeft(jobs[i]))
  }

  /** A sequence of digs and builds, whatever the world answers once it has placed the player, is over in time. */
  lemma JobStops(jobs: seq<Work>)
    requires jobs != [] && forall i :: 0 <= i < |jobs| ==> Fresh(jobs[i])
    ensures forall i :: 0 <= i < |jobs| ==> WorkLeft(jobs[i]) >= 0
    ensures Remaining(Bounds(jobs), 0) > 0
    ensures StopsWithin(SequenceTick<Work, nat>, Progression(Stages(jobs), 0), Remaining(Bounds(jobs), 0) - 1)
  {
    forall i | 0 <= i < |jobs|
      ensures WorkLeft(jobs[i]) >= 0 && StopsWithin(WorkTick, jobs[i], WorkLeft(jobs[i]))
    {
      WorkStops(jobs[i]);
    }
    var p := Progression(Stages(jobs), 0);
    forall i | 0 <= i < |p.stages|
      ensures StageStops(p.stages[i], Bounds(jobs)[i])
    {
      assert p.stages[i] == Stage(jobs[i], WorkTick);
    }
    SequenceStops(p, Bounds(jobs));
  }
}
