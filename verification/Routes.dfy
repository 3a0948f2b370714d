/** Pulling a planned route taut: `taut`, `jumpBetween` and `clearLine` in examples/orbit/route.go. */
module Routes {
  import opened Options
  import opened Vectors

  datatype Step = Step(at: Vec3, jump: bool)

  /**
   * The terrain and geometry a route is checked against: where a body can stand, how far apart two points are,
   * and the point some way along the line between them.
   */
  datatype Ground = Ground(
    standable: Vec3 -> bool, distance: (Vec3, Vec3) -> real, toward: (Vec3, Vec3, real) -> Vec3)

  /** How far apart a line is probed, in blocks. */
  const LINE_PROBE: real := 0.2

  function Sample(g: Ground, from: Vec3, to: Vec3, k: nat): Vec3 {
    g.toward(from, to, k as real * LINE_PROBE)
  }

  /** Standable at every probe along the line, and at its end. */
  ghost predicate Clear(g: Ground, from: Vec3, to: Vec3) {
    && (forall k: nat :: k as real * LINE_PROBE <= g.distance(from, to) ==> g.standable(Sample(g, from, to, k)))
    && g.standable(to)
  }

  method ClearLine(g: Ground, from: Vec3, to: Vec3) returns (clear: bool)
    ensures clear <==> Clear(g, from, to)
  {
    var distance := g.distance(from, to);
    var travelled := 0.0;
    ghost var k: nat := 0;
    while travelled <= distance
      invariant travelled == k as real * LINE_PROBE
      invariant forall j: nat :: j < k ==> g.standable(Sample(g, from, to, j))
      decreases Steps(distance - travelled)
    {
      StepsFewer(distance - travelled);
      if !g.standable(g.toward(from, to, travelled)) {
        assert !g.standable(Sample(g, from, to, k));
        return false;
      }
      travelled, k := travelled + LINE_PROBE, k + 1;
    }
    forall j: nat | j as real * LINE_PROBE <= distance
      ensures g.standable(Sample(g, from, to, j))
    {
      assert j >= k ==> j as real * LINE_PROBE >= k as real * LINE_PROBE;
    }
    return g.standable(to);
  }

  ghost function Steps(left: real): nat {
    if left < 0.0 then 0 else (left / LINE_PROBE).Floor + 1
  }

  lemma StepsFewer(left: real)
    requires left >= 0.0
    ensures Steps(left - LINE_PROBE) < Steps(left)
  {
    assert (left - LINE_PROBE) / LINE_PROBE == left / LINE_PROBE - 1.0;
  }

  ghost predicate Jumps(steps: seq<Step>, from: int, to: int)
    requires 0 <= from <= to <= |steps|
  {
    exists m :: from <= m < to && steps[m].jump
  }

  method JumpBetween(steps: seq<Step>, from: nat, to: nat) returns (jumps: bool)
    requires from <= to <= |steps|
    ensures jumps <==> Jumps(steps, from, to)
  {
    for m := from to to
      invariant !Jumps(steps, from, m)
    {
      if steps[m].jump {
        return true;
      }
    }
    return false;
  }

  /** The body can walk straight from step i to step j: the same height, clear along the line, no jump needed. */
  ghost predicate Straight(g: Ground, steps: seq<Step>, i: int, j: int)
    requires 0 <= i < j < |steps|
  {
    && !Jumps(steps, i + 1, j + 1)
    && steps[j].at.y == steps[i].at.y && Clear(g, steps[i].at, steps[j].at)
  }

  /** The body can stand k fifths of a block along the way, if it is that long. */
  predicate StandsAt(g: Ground, from: Vec3, to: Vec3, k: nat) {
    0.2 * k as real <= g.distance(from, to) ==> g.standable(g.toward(from, to, 0.2 * k as real))
  }

  ghost predicate StandableAlong(g: Ground, from: Vec3, to: Vec3) {
    forall k: nat :: StandsAt(g, from, to, k)
  }

  /** No step of the route between needs a jump, the ends are level, and the body can stand all along and at the end. */
  lemma StraightIff(g: Ground, steps: seq<Step>, i: nat, j: nat)
    requires i < j < |steps|
    ensures Straight(g, steps, i, j) <==>
            && (forall m :: i < m <= j ==> !steps[m].jump)
            && steps[i].at.y == steps[j].at.y
            && StandableAlong(g, steps[i].at, steps[j].at) && g.standable(steps[j].at)
  {
    ClearIff(g, steps[i].at, steps[j].at);
  }

  lemma ClearIff(g: Ground, from: Vec3, to: Vec3)
    ensures Clear(g, from, to) <==> StandableAlong(g, from, to) && g.standable(to)
  {
    if StandableAlong(g, from, to) {
      forall k: nat | k as real * LINE_PROBE <= g.distance(from, to)
        ensures g.standable(Sample(g, from, to, k))
      {
        assert StandsAt(g, from, to, k);
      }
    }
    if Clear(g, from, to) {
      forall k: nat
        ensures StandsAt(g, from, to, k)
      {
        assert k as real * LINE_PROBE <= g.distance(from, to) ==> g.standable(Sample(g, from, to, k));
      }
    }
  }

  /** From step i the smoothing goes to j: the furthest it can walk straight to, or the next step when there is none. */
  ghost predicate Furthest(g: Ground, steps: seq<Step>, i: int, j: int)
    requires 0 <= i < |steps|
  {
    && i < j < |steps|
    && (j == i + 1 || Straight(g, steps, i, j))
    && forall m :: j < m < |steps| ==> !Straight(g, steps, i, m)
  }

  method FurthestFrom(g: Ground, steps: seq<Step>, i: nat) returns (furthest: nat)
    requires i + 1 < |steps|
    ensures Furthest(g, steps, i, furthest)
  {
    var j := |steps| - 1;
    while j > i + 1
      invariant i < j < |steps|
      invariant forall m :: j < m < |steps| ==> !Straight(g, steps, i, m)
    {
      var jumps := JumpBetween(steps, i + 1, j + 1);
      if !jumps && steps[j].at.y == steps[i].at.y {
        var clear := ClearLine(g, steps[i].at, steps[j].at);
        if clear {
          return j;
        }
      }
      j := j - 1;
    }
    return i + 1;
  }

  /** The kept steps by their places in the route: ends kept, in order, each the furthest from the one before. */
  ghost predicate Smoothed(g: Ground, steps: seq<Step>, kept: seq<Step>, places: seq<nat>) {
    && |places| == |kept| > 0
    && (forall k :: 0 <= k < |places| ==> places[k] < |steps| && kept[k] == steps[places[k]])
    && places[0] == 0
    && (forall k :: 0 < k < |places| ==> Furthest(g, steps, places[k - 1], places[k]))
  }

  /** Greedy smoothing; a route of fewer than three steps is left alone. */
  method Taut(g: Ground, steps: seq<Step>) returns (kept: seq<Step>, ghost places: seq<nat>)
    ensures steps == [] ==> kept == []
    ensures steps != [] ==> Smoothed(g, steps, kept, places) && places[|places| - 1] == |steps| - 1
    ensures |steps| < 3 ==> kept == steps
  {
    if |steps| < 3 {
      places := seq(|steps|, k => k);
      return steps, places;
    }
    kept, places := [steps[0]], [0];
    var i := 0;
    while i < |steps| - 1
      invariant i < |steps| && Smoothed(g, steps, kept, places) && places[|places| - 1] == i
    {
      var furthest := FurthestFrom(g, steps, i);
      kept, places := kept + [steps[furthest]], places + [furthest];
      i := furthest;
    }
  }

  /** Which two kept steps a place of the route lies between. */
  lemma {:induction false} Between(places: seq<nat>, m: nat) returns (k: nat)
    requires |places| > 0 && places[0] == 0 && m <= places[|places| - 1]
    requires forall j :: 0 < j < |places| ==> places[j - 1] < places[j]
    ensures k < |places| && places[k] <= m
    ensures if k + 1 < |places| then m < places[k + 1] else m == places[k]
    decreases |places|
  {
    if m == places[|places| - 1] {
      k := |places| - 1;
    } else if |places| >= 2 && m < places[|places| - 2] {
      k := Between(places[..|places| - 1], m);
    } else {
      k := |places| - 2;
    }
  }

  /** A hop from i to j that would pass or reach a jump step is only ever to the next step. */
  lemma NoHopOverJumps(g: Ground, steps: seq<Step>, i: nat, j: nat, m: nat)
    requires i < |steps| && Furthest(g, steps, i, j) && m < |steps| && steps[m].jump
    ensures i < m <= j ==> j == i + 1
  {
    assert i < m <= j ==> Jumps(steps, i + 1, j + 1);
  }

  /** No jump step is ever dropped, and none is reached as the end of a shortcut. */
  lemma JumpsAreKept(g: Ground, steps: seq<Step>, kept: seq<Step>, places: seq<nat>, m: nat)
    requires Smoothed(g, steps, kept, places) && places[|places| - 1] == |steps| - 1
    requires m < |steps| && steps[m].jump
    ensures m in places
    ensures forall k :: 0 < k < |places| && places[k] == m ==> places[k - 1] == m - 1
  {
    var k := Between(places, m);
    if k + 1 < |places| {
      NoHopOverJumps(g, steps, places[k], places[k + 1], m);
    }
    assert places[k] == m;
    forall j | 0 < j < |places| && places[j] == m
      ensures places[j - 1] == m - 1
    {
      NoHopOverJumps(g, steps, places[j - 1], places[j], m);
    }
  }

  /** What the search answered: its edges' ends, and whether it stopped short of the goal for want of any way. */
  datatype Path = Path(edges: seq<Step>, complete: bool, unreachable: bool)

  /**
   * A route from a search's answer: from the body through the centre of its cell and every edge's end, pulled taut,
   * without the point the body stands on. A route is never empty, ends where the search ended, and keeps every
   * jump.
   */
  method Plan(g: Ground, from: Vec3, centre: Vec3, path: Path) returns (route: Option<seq<Step>>)
    ensures route.None? <==> path.edges == [] || (!path.complete && path.unreachable)
    ensures route.Some? ==>
              && route.value != [] && route.value[|route.value| - 1] == path.edges[|path.edges| - 1]
              && forall m :: 0 <= m < |path.edges| && path.edges[m].jump ==> path.edges[m] in route.value
  {
    if |path.edges| == 0 {
      return None;
    }
    if !path.complete && path.unreachable {
      return None;
    }
    var steps := [Step(from, false), Step(centre, false)] + path.edges;
    var kept, places := Taut(g, steps);
    forall m | 0 <= m < |path.edges| && path.edges[m].jump
      ensures path.edges[m] in kept[1..]
    {
      JumpsAreKept(g, steps, kept, places, m + 2);
      var k :| 0 <= k < |places| && places[k] == m + 2;
      assert kept[1..][k - 1] == path.edges[m];
    }
    assert kept[|kept| - 1] == steps[|steps| - 1];
    return Some(kept[1..]);
  }
}
