/** Which movement packet a tick sends: the cadence rule of predict/predict.go. */
module Cadence {
  import opened Options
  import opened Vectors

  const ORIGIN := Vec3(0.0, 0.0, 0.0)

  const MOVED_THRESHOLD: real := 0.0009
  const FORCED_INTERVAL: nat := 20

  function SquaredDistance(a: Vec3, b: Vec3): real {
    var dx, dy, dz := a.x - b.x, a.y - b.y, a.z - b.z;
    dx * dx + dy * dy + dz * dz
  }

  /** What one tick has to say about the body. */
  datatype Pose = Pose(pos: Vec3, yaw: real, pitch: real, onGround: bool, horizontal: bool)

  datatype Action =
    | MoveLook(pos: Vec3, yaw: real, pitch: real, onGround: bool, horizontal: bool)
    | Move(pos: Vec3, onGround: bool, horizontal: bool)
    | Look(yaw: real, pitch: real, onGround: bool, horizontal: bool)
    | Ground(onGround: bool, horizontal: bool)

  /** What the loop last told the server; `since` counts packets since one carried a position. */
  datatype Reported = Reported(pos: Vec3, yaw: real, pitch: real, since: nat, any: bool)

  const SILENT := Reported(ORIGIN, 0.0, 0.0, 0, false)

  predicate Moved(r: Reported, p: Pose) {
    !r.any || SquaredDistance(p.pos, r.pos) > MOVED_THRESHOLD || r.since >= FORCED_INTERVAL
  }

  predicate Rotated(r: Reported, p: Pose) {
    !r.any || p.yaw != r.yaw || p.pitch != r.pitch
  }

  function ActionFor(moved: bool, rotated: bool, p: Pose): Action {
    if moved && rotated then MoveLook(p.pos, p.yaw, p.pitch, p.onGround, p.horizontal)
    else if moved then Move(p.pos, p.onGround, p.horizontal)
    else if rotated then Look(p.yaw, p.pitch, p.onGround, p.horizontal)
    else Ground(p.onGround, p.horizontal)
  }

  function After(r: Reported, p: Pose): Reported {
    if Moved(r, p) then Reported(p.pos, p.yaw, p.pitch, 0, true)
    else
      var counted := r.(since := r.since + 1);
      if Rotated(r, p) then counted.(yaw := p.yaw, pitch := p.pitch) else counted
  }

  function Sent(r: Reported, p: Pose): Action {
    ActionFor(Moved(r, p), Rotated(r, p), p)
  }

  predicate Positional(a: Action) {
    a.MoveLook? || a.Move?
  }

  // ----- Runs of reports -----

  function ReportedAfter(poses: seq<Pose>, n: nat): Reported
    requires n <= |poses|
  {
    if n == 0 then SILENT else After(ReportedAfter(poses, n - 1), poses[n - 1])
  }

  /** The packet report i sends. */
  function SentAt(poses: seq<Pose>, i: nat): Action
    requires i < |poses|
  {
    Sent(ReportedAfter(poses, i), poses[i])
  }

  /** What a server that believes every packet holds. */
  datatype Belief = Belief(pos: Vec3, yaw: real, pitch: real)

  function Believe(b: Belief, a: Action): Belief {
    match a
    case MoveLook(pos, yaw, pitch, _, _) => Belief(pos, yaw, pitch)
    case Move(pos, _, _) => b.(pos := pos)
    case Look(yaw, pitch, _, _) => b.(yaw := yaw, pitch := pitch)
    case Ground(_, _) => b
  }

  function BeliefAfter(start: Belief, poses: seq<Pose>, n: nat): Belief
    requires n <= |poses|
  {
    if n == 0 then start else Believe(BeliefAfter(start, poses, n - 1), SentAt(poses, n - 1))
  }

  /**
   * Whatever the server believed before, after every report it has the body's exact yaw and pitch and a position
   * within the threshold of the body's.
   */
  lemma {:induction false} ServerFollows(start: Belief, poses: seq<Pose>, n: nat)
    requires 0 < n <= |poses|
    ensures var b := BeliefAfter(start, poses, n);
            && b == Belief(ReportedAfter(poses, n).pos, ReportedAfter(poses, n).yaw, ReportedAfter(poses, n).pitch)
            && ReportedAfter(poses, n).any
            && b.yaw == poses[n - 1].yaw && b.pitch == poses[n - 1].pitch
            && !FurtherThan(poses[n - 1].pos, b.pos, 0.03)
  {
    FurtherIff(poses[n - 1].pos, ReportedAfter(poses, n).pos);
    if n > 1 {
      ServerFollows(start, poses, n - 1);
    }
    if Moved(ReportedAfter(poses, n - 1), poses[n - 1]) {
      assert SquaredDistance(poses[n - 1].pos, poses[n - 1].pos) == 0.0;
    }
  }

  /** The counter is the number of packets since the last position, and never passes the interval. */
  lemma {:induction false} SinceCounts(poses: seq<Pose>, n: nat)
    requires n <= |poses|
    ensures var since := ReportedAfter(poses, n).since;
            && since <= FORCED_INTERVAL && since <= n
            && (forall i :: n - since <= i < n ==> !Positional(SentAt(poses, i)))
            && (n > 0 ==> since < n && Positional(SentAt(poses, n - 1 - since)))
  {
    if n > 0 {
      SinceCounts(poses, n - 1);
    }
  }

  /** At most twenty packets in a row go without a position. */
  lemma TwentyAtMost(poses: seq<Pose>, i: nat)
    requires i + 20 < |poses|
    ensures exists k :: i <= k <= i + 20 && Positional(SentAt(poses, k))
  {
    var n := i + 21;
    SinceCounts(poses, n);
    var k := n - 1 - ReportedAfter(poses, n).since;
    assert Positional(SentAt(poses, k));
  }

  /**
   * A body that stays within the threshold of the position it last reported sends no position for twenty packets
   * and its forced one exactly on the twenty-first.
   */
  lemma ForcedOnTheTwentyFirst(poses: seq<Pose>, i: nat)
    requires i + 21 < |poses| && Positional(SentAt(poses, i))
    requires forall k :: i < k <= i + 21 ==> !FurtherThan(poses[k].pos, poses[i].pos, 0.03)
    ensures forall k :: i < k <= i + 20 ==> !Positional(SentAt(poses, k))
    ensures Positional(SentAt(poses, i + 21))
  {
    forall k | i < k <= i + 21
      ensures SquaredDistance(poses[k].pos, poses[i].pos) <= MOVED_THRESHOLD
    {
      FurtherIff(poses[k].pos, poses[i].pos);
    }
    forall k | i < k <= i + FORCED_INTERVAL + 1
      ensures ReportedAfter(poses, k) == ReportedAfter(poses, k).(pos := poses[i].pos, since := k - i - 1, any := true)
    {
      StillReported(poses, i, k);
    }
  }

  lemma {:induction false} StillReported(poses: seq<Pose>, i: nat, k: nat)
    requires i < k <= i + FORCED_INTERVAL + 1 && k < |poses| && Positional(SentAt(poses, i))
    requires forall m :: i < m < k ==> SquaredDistance(poses[m].pos, poses[i].pos) <= MOVED_THRESHOLD
    ensures ReportedAfter(poses, k).pos == poses[i].pos && ReportedAfter(poses, k).any
    ensures ReportedAfter(poses, k).since == k - i - 1
  {
    if k > i + 1 {
      StillReported(poses, i, k - 1);
    }
  }

  // ----- When a packet carries what -----

  predicate Looking(a: Action) {
    a.MoveLook? || a.Look?
  }

  /** The last report before this one that carried a position. */
  function LastPositional(poses: seq<Pose>, i: nat): (k: nat)
    requires 0 < i <= |poses|
    ensures k < i
  {
    if i == 1 || Positional(SentAt(poses, i - 1)) then i - 1 else LastPositional(poses, i - 1)
  }

  lemma {:induction false} LastPositionalIs(poses: seq<Pose>, i: nat)
    requires 0 < i <= |poses|
    ensures var k := LastPositional(poses, i);
            && k < i && ReportedAfter(poses, i).any && ReportedAfter(poses, i).pos == poses[k].pos
            && ReportedAfter(poses, i).since == i - 1 - k
            && Positional(SentAt(poses, k)) && forall j :: k < j < i ==> !Positional(SentAt(poses, j))
  {
    if i > 1 {
      LastPositionalIs(poses, i - 1);
    }
  }

  /**
   * The first packet carries a position; a later one does exactly when the body is more than 0.03 blocks from where
   * the last position sent had it, or when the twenty packets before it carried none.
   */
  lemma PositionalIff(poses: seq<Pose>, i: nat)
    requires i < |poses|
    ensures Positional(SentAt(poses, i)) <==>
            i == 0 || var k := LastPositional(poses, i);
                      FurtherThan(poses[i].pos, poses[k].pos, 0.03) || i - k > 20
  {
    if i > 0 {
      LastPositionalIs(poses, i);
      FurtherIff(poses[i].pos, poses[LastPositional(poses, i)].pos);
    }
  }

  /** The straight line between the points is longer than this. */
  predicate FurtherThan(p: Vec3, q: Vec3, length: real) {
    (p.x - q.x) * (p.x - q.x) + (p.y - q.y) * (p.y - q.y) + (p.z - q.z) * (p.z - q.z) > length * length
  }

  lemma FurtherIff(p: Vec3, q: Vec3)
    ensures FurtherThan(p, q, 0.03) <==> SquaredDistance(p, q) > MOVED_THRESHOLD
  {
    assert 0.03 * 0.03 == 0.0009;
  }

  lemma {:induction false} LooksReported(poses: seq<Pose>, i: nat)
    requires 0 < i <= |poses|
    ensures ReportedAfter(poses, i).any
    ensures ReportedAfter(poses, i).yaw == poses[i - 1].yaw && ReportedAfter(poses, i).pitch == poses[i - 1].pitch
  {
    LastPositionalIs(poses, i);
    if i > 1 {
      LooksReported(poses, i - 1);
    }
  }

  /** The first packet carries yaw and pitch; a later one does exactly when either changed since the packet before. */
  lemma LookingIff(poses: seq<Pose>, i: nat)
    requires i < |poses|
    ensures Looking(SentAt(poses, i)) <==>
            i == 0 || poses[i].yaw != poses[i - 1].yaw || poses[i].pitch != poses[i - 1].pitch
  {
    if i > 0 {
      LooksReported(poses, i);
    }
  }

  /** The packet says what it carries of the pose truly, and always whether the body is on the ground or blocked. */
  ghost predicate Tells(a: Action, p: Pose) {
    match a
    case MoveLook(pos, yaw, pitch, onGround, horizontal) =>
      pos == p.pos && yaw == p.yaw && pitch == p.pitch && onGround == p.onGround && horizontal == p.horizontal
    case Move(pos, onGround, horizontal) => pos == p.pos && onGround == p.onGround && horizontal == p.horizontal
    case Look(yaw, pitch, onGround, horizontal) =>
      yaw == p.yaw && pitch == p.pitch && onGround == p.onGround && horizontal == p.horizontal
    case Ground(onGround, horizontal) => onGround == p.onGround && horizontal == p.horizontal
  }

  lemma SentTells(r: Reported, p: Pose)
    ensures Tells(Sent(r, p), p)
  {
  }

  // ----- Ticks that may report nothing -----

  /** The poses told, in order. */
  function Told(reports: seq<Option<Pose>>): seq<Pose>
    decreases |reports|
  {
    if reports == [] then []
    else
      var last := reports[|reports| - 1];
      Told(reports[..|reports| - 1]) + if last.Some? then [last.value] else []
  }

  /** What is remembered before each report and after the last: each one that tells something is taken in. */
  ghost predicate Remembers(memories: seq<Reported>, reports: seq<Option<Pose>>) {
    && |memories| == |reports| + 1 && memories[0] == SILENT
    && forall i :: 0 <= i < |reports| ==>
                     memories[i + 1] == if reports[i].Some? then After(memories[i], reports[i].value) else memories[i]
  }

  /** The packet that reports a pose, if there is one to report. */
  function Packet(r: Reported, pose: Option<Pose>): Option<Action> {
    if pose.None? then None else Some(Sent(r, pose.value))
  }

  /** The belief of a server that is sent these reports. */
  function BeliefOf(start: Belief, memories: seq<Reported>, reports: seq<Option<Pose>>): Belief
    requires |memories| == |reports| + 1
    decreases |reports|
  {
    if reports == [] then start
    else
      var n := |reports| - 1;
      var before, packet := BeliefOf(start, memories[..n + 1], reports[..n]), Packet(memories[n], reports[n]);
      if packet.Some? then Believe(before, packet.value) else before
  }

  lemma ReportMore(poses: seq<Pose>, pose: Pose)
    ensures ReportedAfter(poses + [pose], |poses| + 1) == After(ReportedAfter(poses, |poses|), pose)
    ensures SentAt(poses + [pose], |poses|) == Sent(ReportedAfter(poses, |poses|), pose)
  {
    ReportedPrefix(poses, pose, |poses|);
  }

  lemma {:induction false} ReportedPrefix(poses: seq<Pose>, pose: Pose, k: nat)
    requires k <= |poses|
    ensures ReportedAfter(poses + [pose], k) == ReportedAfter(poses, k)
  {
    if k > 0 {
      ReportedPrefix(poses, pose, k - 1);
    }
  }

  lemma {:induction false} BeliefPrefix(start: Belief, poses: seq<Pose>, pose: Pose, k: nat)
    requires k <= |poses|
    ensures BeliefAfter(start, poses + [pose], k) == BeliefAfter(start, poses, k)
  {
    if k > 0 {
      BeliefPrefix(start, poses, pose, k - 1);
      ReportedPrefix(poses, pose, k - 1);
    }
  }

  /** What is remembered last is the cadence rule's memory of the poses told. */
  lemma {:induction false} RemembersTold(memories: seq<Reported>, reports: seq<Option<Pose>>)
    requires Remembers(memories, reports)
    ensures memories[|reports|] == ReportedAfter(Told(reports), |Told(reports)|)
    decreases |reports|
  {
    if reports != [] {
      var n := |reports| - 1;
      RemembersLess(memories, reports);
      RemembersTold(memories[..n + 1], reports[..n]);
      TellsOnce(memories[n], memories[n + 1], reports[..n], reports[n]);
      assert reports[..n] + [reports[n]] == reports;
    }
  }

  lemma RemembersLess(memories: seq<Reported>, reports: seq<Option<Pose>>)
    requires Remembers(memories, reports) && reports != []
    ensures Remembers(memories[..|reports|], reports[..|reports| - 1])
  {
  }

  lemma TellsOnce(r: Reported, r': Reported, reports: seq<Option<Pose>>, pose: Option<Pose>)
    requires r == ReportedAfter(Told(reports), |Told(reports)|)
    requires r' == if pose.Some? then After(r, pose.value) else r
    ensures r' == ReportedAfter(Told(reports + [pose]), |Told(reports + [pose])|)
  {
    ToldMore(reports, pose);
    if pose.Some? {
      ReportMore(Told(reports), pose.value);
    }
  }

  lemma ToldMore(reports: seq<Option<Pose>>, pose: Option<Pose>)
    ensures Told(reports + [pose]) == if pose.Some? then Told(reports) + [pose.value] else Told(reports)
  {
    assert (reports + [pose])[..|reports|] == reports;
  }

  /** And a server that believes the packets believes what the poses told make it believe. */
  lemma {:induction false} HeardIsBelieved(start: Belief, memories: seq<Reported>, reports: seq<Option<Pose>>)
    requires Remembers(memories, reports)
    ensures BeliefOf(start, memories, reports) == BeliefAfter(start, Told(reports), |Told(reports)|)
    decreases |reports|
  {
    if reports != [] {
      var n := |reports| - 1;
      RemembersLess(memories, reports);
      HeardIsBelieved(start, memories[..n + 1], reports[..n]);
      RemembersTold(memories[..n + 1], reports[..n]);
      HearsOnce(start, memories[n], reports[..n], reports[n]);
      assert reports[..n] + [reports[n]] == reports;
    }
  }

  lemma HearsOnce(start: Belief, r: Reported, reports: seq<Option<Pose>>, pose: Option<Pose>)
    requires r == ReportedAfter(Told(reports), |Told(reports)|)
    ensures var before := BeliefAfter(start, Told(reports), |Told(reports)|);
            BeliefAfter(start, Told(reports + [pose]), |Told(reports + [pose])|) ==
            if pose.Some? then Believe(before, Sent(r, pose.value)) else before
  {
    ToldMore(reports, pose);
    if pose.Some? {
      BelieveMore(start, Told(reports), pose.value);
    }
  }

  lemma BelieveMore(start: Belief, poses: seq<Pose>, pose: Pose)
    ensures BeliefAfter(start, poses + [pose], |poses| + 1) ==
            Believe(BeliefAfter(start, poses, |poses|), Sent(ReportedAfter(poses, |poses|), pose))
  {
    ReportMore(poses, pose);
    BeliefPrefix(start, poses, pose, |poses|);
  }
}

/** The prediction loop's state: reconciling with the server, retaining commands, reporting. */
module Prediction {
  import opened Options
  import opened Vectors
  import opened Cadence

  datatype Box = Box(minX: real, minY: real, minZ: real, maxX: real, maxY: real, maxZ: real)

  datatype Body = Body(position: Vec3, box: Box, onGround: bool)

  datatype Locomotion = Locomotion(
    yaw: real, pitch: real, sprinting: bool, sneaking: bool, jumping: bool, jumpTicks: int)

  /** Where the body is; a version that keeps no position has it in the middle of the box's floor. */
  function Feet(b: Body): Vec3 {
    if b.position == ORIGIN
    then Vec3((b.box.minX + b.box.maxX) / 2.0, b.box.minY, (b.box.minZ + b.box.maxZ) / 2.0)
    else b.position
  }

  datatype Command = Command(tick: nat, input: int)

  datatype Correction = Correction(tick: nat, from: Vec3, to: Vec3)

  /** The version's way of putting a body at a position; it may refuse. */
  type Spawner = (Vec3, real, real) -> Option<(Body, Locomotion)>

  /** The last n elements, or all of them when there are fewer. */
  function Last<T>(s: seq<T>, n: int): seq<T> {
    if n <= 0 then [] else if |s| <= n then s else s[|s| - n..]
  }

  /** Where the server says the player is, and which way it says the player looks. */
  datatype Place = Place(at: Vec3, yaw: real, pitch: real)

  /** The movement kernel's answer to one tick, its input and the terrain of that tick already given. */
  type Kernel = (Body, Locomotion) -> Option<(Body, Locomotion)>

  /** What one tick with a placed player sees. */
  datatype Moment = Moment(place: Place, input: int, wall: bool, kernel: Kernel)

  /**
   * What the loop remembers between ticks; `issued` is every command since the server's position was last
   * accepted.
   */
  datatype Memory = Memory(
    body: Option<Body>, loco: Locomotion, tick: nat, reported: Reported, corrections: nat, seen: Option<Vec3>,
    issued: seq<Command>)

  const KEYS_UP := Locomotion(0.0, 0.0, false, false, false, 0)

  const BLANK := Memory(None, KEYS_UP, 0, SILENT, 0, None, [])

  function Spawned(spawn: Spawner, place: Place): Option<(Body, Locomotion)> {
    spawn(place.at, place.yaw, place.pitch)
  }

  /** A loop without a body takes the one that spawns where the server has the player. */
  function Adopted(spawn: Spawner, m: Memory, place: Place): Memory {
    var spawned := Spawned(spawn, place);
    if m.body.None? && spawned.Some?
    then m.(body := Some(spawned.value.0), loco := spawned.value.1, seen := Some(place.at)) else m
  }

  /** A server position that changed replaces the body, if one spawns there. */
  function Reconciled(spawn: Spawner, m: Memory, place: Place): Memory {
    var spawned := Spawned(spawn, place);
    if m.seen == Some(place.at) then m
    else if spawned.None? then m.(seen := Some(place.at))
    else m.(seen := Some(place.at), body := Some(spawned.value.0), loco := Held(spawned.value.1, m.loco), issued := [],
            corrections := m.corrections + if m.reported.any then 1 else 0)
  }

  function Retained(m: Memory, input: int): Memory {
    m.(tick := m.tick + 1, issued := m.issued + [Command(m.tick + 1, input)])
  }

  /** One tick, and the pose it reports: none as long as no body has spawned. */
  function Next(spawn: Spawner, m: Memory, x: Moment): (Memory, Option<Pose>) {
    var m1 := Adopted(spawn, m, x.place);
    if m1.body.None? then (m, None)
    else
      var (m2, complete) := Simulated(Stepped(spawn, m1, x.place, x.input), x.kernel);
      var pose := PoseOf(m2, complete && x.wall);
      (m2.(reported := After(m.reported, pose)), Some(pose))
  }

  /** Reconciled and one command on. */
  function Stepped(spawn: Spawner, m: Memory, place: Place, input: int): Memory {
    Retained(Reconciled(spawn, m, place), input)
  }

  /** What the kernel makes of it, and whether the tick completed; a body stays where it is when it did not. */
  function Simulated(m: Memory, kernel: Kernel): (Memory, bool)
    requires m.body.Some?
  {
    var next := kernel(m.body.value, m.loco);
    if next.Some? then (m.(body := Some(next.value.0), loco := next.value.1), true) else (m, false)
  }

  function PoseOf(m: Memory, collided: bool): Pose
    requires m.body.Some?
  {
    Pose(Feet(m.body.value), m.loco.yaw, m.loco.pitch, m.body.value.onGround, collided)
  }

  function Held(loco: Locomotion, keys: Locomotion): Locomotion {
    loco.(sprinting := keys.sprinting, sneaking := keys.sneaking, jumping := keys.jumping, jumpTicks := keys.jumpTicks)
  }

  /** The commands are those of the last ticks, one each. */
  ghost predicate Numbered(issued: seq<Command>, tick: nat) {
    |issued| <= tick && forall i :: 0 <= i < |issued| ==> issued[i].tick == tick - |issued| + 1 + i
  }

  lemma NumberedMore(issued: seq<Command>, tick: nat, input: int)
    requires Numbered(issued, tick)
    ensures Numbered(issued + [Command(tick + 1, input)], tick + 1)
  {
  }

  class Loop {
    const spawn: Spawner
    const bound: int
    var body: Option<Body>
    var loco: Locomotion
    var tick: nat
    var reported: Reported
    var corrections: nat
    var acknowledged: bool
    var seen: Option<Vec3>
    // The retained commands are buffer[..count]; a full queue shifts down in place.
    var buffer: array<Command>
    var count: nat
    /** Every command since the server's position was last accepted. */
    ghost var issued: seq<Command>

    ghost predicate Valid()
      reads this, buffer
    {
      && bound != 0
      && count <= buffer.Length
      && buffer[..count] == Last(issued, bound)
      && Numbered(issued, tick)
      && (acknowledged <==> reported.any)
      && (body.Some? ==> seen.Some?)
    }

    ghost function Abs(): Memory
      reads this
    {
      Memory(body, loco, tick, reported, corrections, seen, issued)
    }

    /** A zero `retained` asks for the default bound, a negative one for none. */
    constructor (spawn: Spawner, retained: int)
      ensures Valid() && fresh(buffer)
      ensures this.spawn == spawn && bound == if retained == 0 then 64 else retained
      ensures Abs() == BLANK
    {
      this.spawn, bound := spawn, if retained == 0 then 64 else retained;
      body, seen, corrections, acknowledged, reported, tick := None, None, 0, false, SILENT, 0;
      loco := KEYS_UP;
      buffer := new Command[0];
      count, issued := 0, [];
    }

    /** Takes the server's position as the starting state. */
    method Adopt(at: Vec3, yaw: real, pitch: real) returns (ok: bool)
      requires Valid() && body.None?
      modifies this`body, this`loco, this`seen
      ensures Valid()
      ensures ok <==> spawn(at, yaw, pitch).Some?
      ensures if ok then body == Some(spawn(at, yaw, pitch).value.0) && seen == Some(at)
              else body == old(body) && seen == old(seen)
      ensures Abs() == Adopted(spawn, old(Abs()), Place(at, yaw, pitch))
    {
      var spawned := spawn(at, yaw, pitch);
      if spawned.None? {
        return false;
      }
      body, loco, seen := Some(spawned.value.0), spawned.value.1, Some(at);
      return true;
    }

    /**
     * Replaces the prediction when the server has moved the player since it was last seen: everything retained is
     * dropped, the keys held stay ours, and it counts as a correction once a position has been reported. A
     * position that has not changed does nothing, however far the prediction has moved.
     */
    method Reconcile(at: Vec3, yaw: real, pitch: real) returns (correction: Option<Correction>)
      requires Valid() && body.Some?
      modifies this`body, this`loco, this`seen, this`count, this`issued, this`corrections
      ensures Valid() && body.Some? && seen == Some(at)
      ensures var accepted := old(seen) != Some(at) && spawn(at, yaw, pitch).Some?;
              && issued == (if accepted then [] else old(issued))
              && corrections == old(corrections) + (if accepted && acknowledged then 1 else 0)
              && body == (if accepted then Some(spawn(at, yaw, pitch).value.0) else old(body))
              && loco == (if accepted then Held(spawn(at, yaw, pitch).value.1, old(loco)) else old(loco))
              && correction ==
                 if accepted && acknowledged then Some(Correction(tick, Feet(old(body).value), at)) else None
      ensures Abs() == Reconciled(spawn, old(Abs()), Place(at, yaw, pitch))
    {
      if seen == Some(at) {
        return None;
      }
      var from := Feet(body.value);
      seen := Some(at);
      var spawned := spawn(at, yaw, pitch);
      if spawned.None? {
        return None;
      }
      body, loco := Some(spawned.value.0), Held(spawned.value.1, loco);
      count, issued := 0, [];
      if !acknowledged {
        return None;
      }
      corrections := corrections + 1;
      return Some(Correction(tick, from, at));
    }

    /** Keeps one more command, dropping the oldest when the bound is reached. */
    method Retain(input: int)
      requires Valid()
      modifies this`tick, this`issued, this`buffer, this`count, buffer
      ensures Valid() && (buffer == old(buffer) || fresh(buffer))
      ensures tick == old(tick) + 1 && issued == old(issued) + [Command(tick, input)]
      ensures Abs() == Retained(old(Abs()), input)
    {
      NumberedMore(issued, tick, input);
      tick := tick + 1;
      if bound >= 0 {
        Enqueue(Command(tick, input), issued);
      }
      issued := issued + [Command(tick, input)];
    }

    /** Into the queue, which is the last of the commands before it. */
    method Enqueue(c: Command, ghost before: seq<Command>)
      requires bound > 0 && count <= buffer.Length && buffer[..count] == Last(before, bound)
      modifies this`buffer, this`count, buffer
      ensures count <= buffer.Length && buffer[..count] == Last(before + [c], bound)
      ensures buffer == old(buffer) || fresh(buffer)
    {
      LastOne(before, c, bound);
      if count == bound {
        ShiftDown();
      }
      PushCommand(c);
    }

    /** The queue moves down one place in its own memory. */
    method ShiftDown()
      requires 0 < count <= buffer.Length
      modifies this`count, buffer
      ensures count == old(count) - 1 && buffer[..count] == old(buffer[1..count])
    {
      ghost var was := buffer[..];
      for i := 0 to count - 1
        invariant forall k :: 0 <= k < i ==> buffer[k] == was[k + 1]
        invariant forall k :: i <= k < buffer.Length ==> buffer[k] == was[k]
        modifies buffer
      {
        buffer[i] := buffer[i + 1];
      }
      count := count - 1;
    }

    method PushCommand(c: Command)
      requires count <= buffer.Length
      modifies this`buffer, this`count, buffer
      ensures count == old(count) + 1 <= buffer.Length && buffer[..count] == old(buffer[..count]) + [c]
      ensures buffer == old(buffer) || fresh(buffer)
    {
      if count == buffer.Length {
        var grown := new Command[2 * count + 1];
        for i := 0 to count
          invariant count <= buffer.Length && forall k :: 0 <= k < i ==> grown[k] == buffer[k]
          modifies grown
        {
          grown[i] := buffer[i];
        }
        assert grown[..count] == buffer[..count];
        buffer := grown;
      }
      ghost var was := buffer[..count];
      buffer[count] := c;
      count := count + 1;
      assert buffer[..count] == was + [c];
    }

    ghost function Now(collided: bool): Pose
      requires body.Some?
      reads this
    {
      PoseOf(Abs(), collided)
    }

    /** Tells the server what the tick decided, and remembers having told it. */
    method Report(horizontal: bool) returns (action: Action)
      requires Valid() && body.Some?
      modifies this`reported, this`acknowledged
      ensures Valid()
      ensures action == Sent(old(reported), Now(horizontal)) && reported == After(old(reported), Now(horizontal))
    {
      var pos := Feet(body.value);
      var state := reported;
      var moved := !state.any || SquaredDistance(pos, state.pos) > MOVED_THRESHOLD || state.since >= FORCED_INTERVAL;
      var rotated := state.any && (loco.yaw != state.yaw || loco.pitch != state.pitch);
      if !state.any {
        rotated := true;
      }
      action := ActionFor(moved, rotated, Pose(pos, loco.yaw, loco.pitch, body.value.onGround, horizontal));
      if moved {
        reported := Reported(pos, loco.yaw, loco.pitch, 0, true);
        acknowledged := true;
      } else {
        reported := reported.(since := reported.since + 1);
        if rotated {
          reported := reported.(yaw := loco.yaw, pitch := loco.pitch);
        }
      }
    }

    /** Takes the kernel's result, when the tick completed. */
    method Simulate(simulate: Kernel) returns (complete: bool)
      requires Valid() && body.Some?
      modifies this`body, this`loco
      ensures Valid() && body.Some?
      ensures var next := simulate(old(body).value, old(loco));
              && complete == next.Some?
              && (body.value, loco) == if complete then next.value else (old(body).value, old(loco))
      ensures (Abs(), complete) == Simulated(old(Abs()), simulate)
    {
      var next := simulate(body.value, loco);
      complete := next.Some?;
      if complete {
        body, loco := Some(next.value.0), next.value.1;
      }
    }

    /**
     * One tick with a placed player. `simulate` stands for the movement kernel; it answers nothing when the tick
     * read terrain nobody has sent, and the body then stays where it was.
     */
    method Step(at: Vec3, yaw: real, pitch: real, input: int, simulate: Kernel, horizontal: bool)
      returns (action: Option<Action>)
      requires Valid()
      modifies this, buffer
      ensures Valid() && (buffer == old(buffer) || fresh(buffer))
      ensures var (next, pose) := Next(spawn, old(Abs()), Moment(Place(at, yaw, pitch), input, horizontal, simulate));
              Abs() == next && action == Packet(old(reported), pose)
    {
      if body.None? {
        var adopted := Adopt(at, yaw, pitch);
        if !adopted {
          return None;
        }
      }
      var sent := StepPlaced(at, yaw, pitch, input, simulate, horizontal);
      action := Some(sent);
    }

    method StepPlaced(at: Vec3, yaw: real, pitch: real, input: int, simulate: Kernel, horizontal: bool)
      returns (action: Action)
      requires Valid() && body.Some?
      modifies this, buffer
      ensures Valid() && (buffer == old(buffer) || fresh(buffer))
      ensures var next := Simulated(Stepped(spawn, old(Abs()), Place(at, yaw, pitch), input), simulate);
              var pose := PoseOf(next.0, next.1 && horizontal);
              && action == Sent(old(reported), pose) && Abs() == next.0.(reported := After(old(reported), pose))
    {
      var correction := Reconcile(at, yaw, pitch);
      Retain(input);
      var complete := Simulate(simulate);
      action := Report(complete && horizontal);
    }
  }

  lemma LastOne<T>(s: seq<T>, x: T, n: int)
    requires n > 0
    ensures Last(s + [x], n) == if |Last(s, n)| == n then Last(s, n)[1..] + [x] else Last(s, n) + [x]
  {
  }

  // ----- Corrections over a whole run -----

  /** What a run of ticks sees of the server: where it says the player is, and whether a body spawns there. */
  datatype Sighting = Sighting(at: Vec3, spawns: bool)

  /** The same loop reduced to what corrections depend on. */
  datatype Watch = Watch(placed: bool, seen: Option<Vec3>, acknowledged: bool, corrections: nat)

  const UNPLACED := Watch(false, None, false, 0)

  /** Every tick that reports acknowledges, because the first report always carries a position. */
  function Tick(w: Watch, s: Sighting): Watch {
    if !w.placed then if s.spawns then Watch(true, Some(s.at), true, w.corrections) else w
    else
      var accepted := w.seen != Some(s.at) && s.spawns;
      Watch(true, Some(s.at), true, w.corrections + if accepted && w.acknowledged then 1 else 0)
  }

  function TickAll(sightings: seq<Sighting>, n: nat): Watch
    requires n <= |sightings|
  {
    if n == 0 then UNPLACED else Tick(TickAll(sightings, n - 1), sightings[n - 1])
  }

  /** Tick i saw the server at another position than tick i - 1 did, and accepted it, the player being placed. */
  predicate Jumped(sightings: seq<Sighting>, i: nat)
    requires i < |sightings|
  {
    i > 0 && sightings[i].at != sightings[i - 1].at && sightings[i].spawns && Placed(sightings, i)
  }

  /** A body had spawned before tick i. */
  predicate Placed(sightings: seq<Sighting>, i: nat)
    requires i <= |sightings|
  {
    i > 0 && (Placed(sightings, i - 1) || sightings[i - 1].spawns)
  }

  lemma {:induction false} PlacedIff(sightings: seq<Sighting>, i: nat)
    requires i <= |sightings|
    ensures Placed(sightings, i) <==> exists k :: 0 <= k < i && sightings[k].spawns
  {
    if i > 0 {
      PlacedIff(sightings, i - 1);
      if sightings[i - 1].spawns {
        assert 0 <= i - 1 < i;
      }
    }
  }

  function Jumps(sightings: seq<Sighting>, n: nat): nat
    requires n <= |sightings|
  {
    if n == 0 then 0 else Jumps(sightings, n - 1) + if Jumped(sightings, n - 1) then 1 else 0
  }

  /**
   * The correction count is exactly the number of accepted changes of the server's position after the first
   * report: the position the login sequence places the player at is none, and a position that stays put is none.
   */
  lemma {:induction false} CorrectionsAreJumps(sightings: seq<Sighting>, n: nat)
    requires n <= |sightings|
    ensures var w := TickAll(sightings, n);
            && w.corrections == Jumps(sightings, n)
            && (w.placed <==> Placed(sightings, n))
            && (w.placed ==> w.acknowledged && w.seen == Some(sightings[n - 1].at))
  {
    if n > 0 {
      CorrectionsAreJumps(sightings, n - 1);
    }
  }

  function Sightings(spawn: Spawner, run: seq<Moment>): seq<Sighting> {
    seq(|run|, i requires 0 <= i < |run| => Sighting(run[i].place.at, Spawned(spawn, run[i].place).Some?))
  }

  // ----- The loop over a whole run -----

  /** What the loop remembers before tick n. */
  function Recall(spawn: Spawner, run: seq<Moment>, n: nat): Memory
    requires n <= |run|
  {
    if n == 0 then BLANK else Next(spawn, Recall(spawn, run, n - 1), run[n - 1]).0
  }

  function PoseAt(spawn: Spawner, run: seq<Moment>, i: nat): Option<Pose>
    requires i < |run|
  {
    Next(spawn, Recall(spawn, run, i), run[i]).1
  }

  /** What tick i sends. */
  function PacketAt(spawn: Spawner, run: seq<Moment>, i: nat): Option<Action>
    requires i < |run|
  {
    Packet(Recall(spawn, run, i).reported, PoseAt(spawn, run, i))
  }

  /** What the first n ticks report. */
  function Reports(spawn: Spawner, run: seq<Moment>, n: nat): seq<Option<Pose>>
    requires n <= |run|
  {
    seq(n, i requires 0 <= i < n => PoseAt(spawn, run, i))
  }

  /** The poses they report. */
  function Poses(spawn: Spawner, run: seq<Moment>, n: nat): seq<Pose>
    requires n <= |run|
  {
    Told(Reports(spawn, run, n))
  }

  function WatchOf(m: Memory): Watch {
    Watch(m.body.Some?, m.seen, m.reported.any, m.corrections)
  }

  lemma {:induction false} Watched(spawn: Spawner, run: seq<Moment>, n: nat)
    requires n <= |run|
    ensures WatchOf(Recall(spawn, run, n)) == TickAll(Sightings(spawn, run), n)
    ensures Recall(spawn, run, n).body.Some? <==> Recall(spawn, run, n).reported.any
    ensures Recall(spawn, run, n).body.Some? <==> Recall(spawn, run, n).seen.Some?
  {
    if n > 0 {
      Watched(spawn, run, n - 1);
    }
  }

  /** How many of the first n ticks a body had spawned by. */
  function PlacedTicks(sightings: seq<Sighting>, n: nat): nat
    requires n <= |sightings|
  {
    if n == 0 then 0 else PlacedTicks(sightings, n - 1) + if Placed(sightings, n) then 1 else 0
  }

  /** A tick reports exactly when a body has spawned by then, and what it reports is the body it ends with. */
  lemma ReportsTheBody(spawn: Spawner, run: seq<Moment>, i: nat)
    requires i < |run|
    ensures var m, pose := Recall(spawn, run, i + 1), PoseAt(spawn, run, i);
            && (pose.Some? <==> Placed(Sightings(spawn, run), i + 1))
            && (pose.Some? <==> m.body.Some?)
            && (pose.Some? ==> exists collided :: pose.value == PoseOf(m, collided))
  {
    Watched(spawn, run, i + 1);
    CorrectionsAreJumps(Sightings(spawn, run), i + 1);
    var m, pose := Recall(spawn, run, i + 1), PoseAt(spawn, run, i);
    if pose.Some? {
      assert pose.value == PoseOf(m, pose.value.horizontal);
    }
  }

  /** One tick of the loop, as far as its reports go. */
  lemma ReportsOnce(spawn: Spawner, run: seq<Moment>, i: nat)
    requires i < |run|
    ensures var m, m', pose := Recall(spawn, run, i), Recall(spawn, run, i + 1), PoseAt(spawn, run, i);
            && m'.reported == (if pose.Some? then After(m.reported, pose.value) else m.reported)
            && m'.tick == m.tick + (if pose.Some? then 1 else 0)
  {
  }

  /** The body and the keys a tick hands to the kernel, taken from the server or kept; none before a body spawns. */
  function Handed(spawn: Spawner, m: Memory, x: Moment): Option<(Body, Locomotion)> {
    var spawned := spawn(x.place.at, x.place.yaw, x.place.pitch);
    if m.body.None? then spawned
    else if m.seen == Some(x.place.at) || spawned.None? then Some((m.body.value, m.loco))
    else
      var (body, loco) := spawned.value;
      Some((body, Locomotion(loco.yaw, loco.pitch, m.loco.sprinting, m.loco.sneaking, m.loco.jumping,
                             m.loco.jumpTicks)))
  }

  /**
   * A tick in full: a body the server moved is where the server has it and looks where the server says, with the keys
   * still held; the kernel moves what it is handed, or leaves it when it cannot; and the packet tells where the feet
   * are, where the body looks, whether it stands, and whether a completed tick ran into something.
   */
  lemma TickTells(spawn: Spawner, run: seq<Moment>, i: nat)
    requires i < |run|
    ensures var m, m', x := Recall(spawn, run, i), Recall(spawn, run, i + 1), run[i];
            var handed, packet := Handed(spawn, m, x), PacketAt(spawn, run, i);
            && (packet.Some? <==> handed.Some?)
            && (handed.None? ==> m' == m)
            && (handed.Some? ==>
                  var moved := x.kernel(handed.value.0, handed.value.1);
                  && (m'.body, m'.loco) == (if moved.Some? then (Some(moved.value.0), moved.value.1)
                                            else (Some(handed.value.0), handed.value.1))
                  && Tells(packet.value, Pose(FeetOf(m'.body.value), m'.loco.yaw, m'.loco.pitch,
                                              m'.body.value.onGround, moved.Some? && x.wall)))
  {
    Watched(spawn, run, i);
    var m, pose := Recall(spawn, run, i), PoseAt(spawn, run, i);
    if pose.Some? {
      SentTells(m.reported, pose.value);
      FeetAre(Recall(spawn, run, i + 1).body.value);
    }
  }

  /** A position that is kept, or the middle of the floor of the box. */
  function FeetOf(b: Body): Vec3 {
    if b.position != Vec3(0.0, 0.0, 0.0) then b.position
    else Vec3(b.box.minX + (b.box.maxX - b.box.minX) / 2.0, b.box.minY, b.box.minZ + (b.box.maxZ - b.box.minZ) / 2.0)
  }

  lemma FeetAre(b: Body)
    ensures Feet(b) == FeetOf(b)
  {
  }

  /** What the loop has reported before each of the first n ticks, and after them. */
  function Memories(spawn: Spawner, run: seq<Moment>, n: nat): seq<Reported>
    requires n <= |run|
  {
    seq(n + 1, i requires 0 <= i <= n => Recall(spawn, run, i).reported)
  }

  lemma LoopRemembers(spawn: Spawner, run: seq<Moment>, n: nat)
    requires n <= |run|
    ensures Remembers(Memories(spawn, run, n), Reports(spawn, run, n))
  {
    forall i | 0 <= i < n
      ensures var r, r' := Recall(spawn, run, i).reported, Recall(spawn, run, i + 1).reported;
              r' == if PoseAt(spawn, run, i).Some? then After(r, PoseAt(spawn, run, i).value) else r
    {
      ReportsOnce(spawn, run, i);
    }
  }

  /** What the loop has reported is the cadence rule's memory of the poses it has told. */
  lemma ReportsInCadence(spawn: Spawner, run: seq<Moment>, n: nat)
    requires n <= |run|
    ensures Recall(spawn, run, n).reported == ReportedAfter(Poses(spawn, run, n), |Poses(spawn, run, n)|)
  {
    LoopRemembers(spawn, run, n);
    RemembersTold(Memories(spawn, run, n), Reports(spawn, run, n));
    assert Memories(spawn, run, n)[n] == Recall(spawn, run, n).reported;
  }

  lemma PosesMore(spawn: Spawner, run: seq<Moment>, i: nat)
    requires i < |run|
    ensures Poses(spawn, run, i + 1) ==
            if PoseAt(spawn, run, i).Some? then Poses(spawn, run, i) + [PoseAt(spawn, run, i).value]
            else Poses(spawn, run, i)
  {
    assert Reports(spawn, run, i + 1) == Reports(spawn, run, i) + [PoseAt(spawn, run, i)];
    ToldMore(Reports(spawn, run, i), PoseAt(spawn, run, i));
  }

  ghost predicate Clocked(spawn: Spawner, run: seq<Moment>, n: nat)
    requires n <= |run|
  {
    |Poses(spawn, run, n)| == Recall(spawn, run, n).tick == PlacedTicks(Sightings(spawn, run), n)
  }

  lemma ClockedNext(spawn: Spawner, run: seq<Moment>, i: nat)
    requires i < |run| && Clocked(spawn, run, i)
    ensures Clocked(spawn, run, i + 1)
  {
    ReportsOnce(spawn, run, i);
    ReportsTheBody(spawn, run, i);
    PosesMore(spawn, run, i);
  }

  /** The loop's clock counts the poses told, one for every tick since the body spawned. */
  lemma {:induction false} ClockCounts(spawn: Spawner, run: seq<Moment>, n: nat)
    requires n <= |run|
    ensures Clocked(spawn, run, n)
  {
    if n > 0 {
      ClockCounts(spawn, run, n - 1);
      ClockedNext(spawn, run, n - 1);
    }
  }

  /** What a server that believes every packet holds once the first n ticks have sent theirs. */
  function Heard(start: Belief, spawn: Spawner, run: seq<Moment>, n: nat): Belief
    requires n <= |run|
  {
    BeliefOf(start, Memories(spawn, run, n), Reports(spawn, run, n))
  }

  lemma ServerFollowsFeet(start: Belief, spawn: Spawner, run: seq<Moment>, n: nat)
    requires n <= |run| && Placed(Sightings(spawn, run), n)
    ensures var m, heard := Recall(spawn, run, n), Heard(start, spawn, run, n);
            && m.body.Some? && (heard.yaw, heard.pitch) == (m.loco.yaw, m.loco.pitch)
            && !FurtherThan(Feet(m.body.value), heard.pos, 0.03)
  {
    LoopRemembers(spawn, run, n);
    HeardIsBelieved(start, Memories(spawn, run, n), Reports(spawn, run, n));
    ReportsTheBody(spawn, run, n - 1);
    assert Poses(spawn, run, n)[|Poses(spawn, run, n)| - 1] == PoseAt(spawn, run, n - 1).value;
    ServerFollows(start, Poses(spawn, run, n), |Poses(spawn, run, n)|);
  }

  /**
   * After every tick of any run, from the first body on, a server that believes the packets holds exactly the yaw
   * and pitch of the loop's body and a position within 0.03 blocks of its feet.
   */
  lemma ServerFollowsTheBody(start: Belief, spawn: Spawner, run: seq<Moment>, n: nat)
    requires n <= |run| && Placed(Sightings(spawn, run), n)
    ensures var m, heard := Recall(spawn, run, n), Heard(start, spawn, run, n);
            && m.body.Some? && (heard.yaw, heard.pitch) == (m.loco.yaw, m.loco.pitch)
            && !FurtherThan(FeetOf(m.body.value), heard.pos, 0.03)
  {
    var m, heard := Recall(spawn, run, n), Heard(start, spawn, run, n);
    ServerFollowsFeet(start, spawn, run, n);
    SameFeet(m.body.value, heard.pos);
  }

  lemma SameFeet(b: Body, q: Vec3)
    ensures FurtherThan(FeetOf(b), q, 0.03) <==> FurtherThan(Feet(b), q, 0.03)
  {
    FeetAre(b);
  }

  // ----- The commands kept for replay -----

  /** The tick on which the server's position was last accepted: the body's first, or the last that jumped. */
  function LastAccepted(sightings: seq<Sighting>, n: nat): nat
    requires n <= |sightings|
  {
    if n == 0 then 0
    else if Accepts(sightings, n - 1) then n - 1
    else LastAccepted(sightings, n - 1)
  }

  /** Commands numbered from a tick count on. */
  function Commands(run: seq<Moment>, from: nat, n: nat, tick: nat): seq<Command>
    requires from <= n <= |run|
  {
    seq(n - from, i requires 0 <= i < n - from => Command(tick + i + 1, run[from + i].input))
  }

  /** The tick takes the server's position: the body's first one, or one it jumped to. */
  predicate Accepts(sightings: seq<Sighting>, i: nat)
    requires i < |sightings|
  {
    Jumped(sightings, i) || (sightings[i].spawns && !Placed(sightings, i))
  }

  lemma IssuedNext(spawn: Spawner, run: seq<Moment>, i: nat)
    requires i < |run| && (!Placed(Sightings(spawn, run), i) ==> Recall(spawn, run, i).issued == [])
    ensures var sightings, m := Sightings(spawn, run), Recall(spawn, run, i);
            Recall(spawn, run, i + 1).issued ==
            if !Placed(sightings, i + 1) then []
            else (if Accepts(sightings, i) then [] else m.issued) + [Command(m.tick + 1, run[i].input)]
  {
    var sightings, m := Sightings(spawn, run), Recall(spawn, run, i);
    Watched(spawn, run, i);
    WhatIsWatched(sightings, i, m);
    IssuedOnce(spawn, m, run[i]);
    PlacedStays(sightings, i);
  }

  /** One tick's command: it joins those issued, or is the first since a position the server changed. */
  lemma IssuedOnce(spawn: Spawner, m: Memory, x: Moment)
    requires m.body.Some? <==> m.seen.Some?
    ensures var spawns, m' := Spawned(spawn, x.place).Some?, Next(spawn, m, x).0;
            m'.issued == if m.body.None? && !spawns then m.issued
                         else (if m.body.Some? && m.seen != Some(x.place.at) && spawns then [] else m.issued)
                              + [Command(m.tick + 1, x.input)]
  {
  }

  lemma WhatIsWatched(sightings: seq<Sighting>, i: nat, m: Memory)
    requires i < |sightings| && WatchOf(m) == TickAll(sightings, i)
    ensures m.body.Some? <==> Placed(sightings, i)
    ensures Jumped(sightings, i) <==> m.body.Some? && m.seen != Some(sightings[i].at) && sightings[i].spawns
  {
    CorrectionsAreJumps(sightings, i);
  }

  lemma PlacedStays(sightings: seq<Sighting>, i: nat)
    requires i < |sightings|
    ensures Placed(sightings, i + 1) <==> Placed(sightings, i) || Accepts(sightings, i)
  {
    CorrectionsAreJumps(sightings, i + 1);
    CorrectionsAreJumps(sightings, i);
  }

  /**
   * What is issued and not superseded is the commands of the ticks since the server's position was last accepted,
   * numbered by the ticks the body has been placed for.
   */
  lemma {:induction false} IssuedSinceAccepted(spawn: Spawner, run: seq<Moment>, n: nat)
    requires n <= |run|
    ensures Since(Sightings(spawn, run), run, n, Recall(spawn, run, n).issued)
  {
    if n > 0 {
      IssuedSinceAccepted(spawn, run, n - 1);
      IssuedStep(spawn, run, n - 1);
    }
  }

  lemma IssuedStep(spawn: Spawner, run: seq<Moment>, i: nat)
    requires i < |run| && Since(Sightings(spawn, run), run, i, Recall(spawn, run, i).issued)
    ensures Since(Sightings(spawn, run), run, i + 1, Recall(spawn, run, i + 1).issued)
  {
    ClockCounts(spawn, run, i);
    IssuedNext(spawn, run, i);
    SinceMore(Sightings(spawn, run), run, i, Recall(spawn, run, i).issued, Recall(spawn, run, i + 1).issued,
              Recall(spawn, run, i).tick);
  }

  /** The commands are those of the ticks since the server's position was last accepted, if a body ever spawned. */
  ghost predicate Since(sightings: seq<Sighting>, run: seq<Moment>, n: nat, issued: seq<Command>)
    requires n <= |run| == |sightings|
  {
    var from := LastAccepted(sightings, n);
    && from <= n
    && if Placed(sightings, n) then
         && from < n && Accepts(sightings, from)
         && PlacedTicks(sightings, n) == PlacedTicks(sightings, from) + n - from
         && issued == Commands(run, from, n, PlacedTicks(sightings, from))
       else issued == []
  }

  lemma SinceMore(sightings: seq<Sighting>, run: seq<Moment>, n: nat, issued: seq<Command>, issued': seq<Command>,
                  tick: nat)
    requires n < |run| == |sightings| && Since(sightings, run, n, issued) && tick == PlacedTicks(sightings, n)
    requires issued' == if !Placed(sightings, n + 1) then []
                        else (if Accepts(sightings, n) then [] else issued) + [Command(tick + 1, run[n].input)]
    ensures Since(sightings, run, n + 1, issued')
  {
    PlacedStays(sightings, n);
    if Accepts(sightings, n) {
      SinceStarts(sightings, run, n, issued', tick);
    } else if Placed(sightings, n) {
      SinceGoesOn(sightings, run, n, issued, tick);
    }
  }

  lemma SinceStarts(sightings: seq<Sighting>, run: seq<Moment>, n: nat, issued: seq<Command>, tick: nat)
    requires n < |run| == |sightings| && Accepts(sightings, n) && Placed(sightings, n + 1)
    requires tick == PlacedTicks(sightings, n) && issued == [Command(tick + 1, run[n].input)]
    ensures Since(sightings, run, n + 1, issued)
  {
    assert LastAccepted(sightings, n + 1) == n && PlacedTicks(sightings, n + 1) == tick + 1;
    assert issued == Commands(run, n, n + 1, tick);
  }

  lemma SinceGoesOn(sightings: seq<Sighting>, run: seq<Moment>, n: nat, issued: seq<Command>, tick: nat)
    requires n < |run| == |sightings| && !Accepts(sightings, n) && Placed(sightings, n) && Placed(sightings, n + 1)
    requires tick == PlacedTicks(sightings, n) && Since(sightings, run, n, issued)
    ensures Since(sightings, run, n + 1, issued + [Command(tick + 1, run[n].input)])
  {
    var from := LastAccepted(sightings, n);
    assert LastAccepted(sightings, n + 1) == from && PlacedTicks(sightings, n + 1) == tick + 1;
    CommandsMore(run, from, n, PlacedTicks(sightings, from));
  }

  lemma CommandsMore(run: seq<Moment>, from: nat, n: nat, tick: nat)
    requires from <= n < |run|
    ensures Commands(run, from, n + 1, tick) ==
            Commands(run, from, n, tick) + [Command(tick + (n - from) + 1, run[n].input)]
  {
  }

  method RunTick(l: Loop, run: seq<Moment>, i: nat) returns (action: Option<Action>)
    requires i < |run| && l.Valid() && l.Abs() == Recall(l.spawn, run, i)
    modifies l, l.buffer
    ensures l.Valid() && (l.buffer == old(l.buffer) || fresh(l.buffer))
    ensures l.Abs() == Recall(l.spawn, run, i + 1) && action == PacketAt(l.spawn, run, i)
  {
    var x := run[i];
    action := l.Step(x.place.at, x.place.yaw, x.place.pitch, x.input, x.kernel, x.wall);
  }

  /**
   * The loop itself over a whole run, the kernel answering each tick as that tick's input and terrain have it: it
   * ends remembering what `Recall` says and each tick has sent what `PacketAt` says - so everything proved of those
   * holds of it. It counts exactly the accepted changes of the server's position and keeps the last commands since
   * the latest of them, up to its bound.
   */
  method RunLoop(spawn: Spawner, retained: int, run: seq<Moment>) returns (l: Loop, sent: seq<Option<Action>>)
    ensures l.Valid() && l.spawn == spawn && l.Abs() == Recall(spawn, run, |run|)
    ensures |sent| == |run| && forall i :: 0 <= i < |run| ==> sent[i] == PacketAt(spawn, run, i)
    ensures l.corrections == Jumps(Sightings(spawn, run), |run|)
    ensures l.bound == if retained == 0 then 64 else retained
    ensures var sightings := Sightings(spawn, run);
            var from := LastAccepted(sightings, |run|);
            && from <= |run|
            && l.buffer[..l.count] ==
               if Placed(sightings, |run|) then Last(Commands(run, from, |run|, PlacedTicks(sightings, from)), l.bound)
               else []
  {
    l := new Loop(spawn, retained);
    sent := Follow(l, run);
    CountsAndKeeps(spawn, run);
  }

  method Follow(l: Loop, run: seq<Moment>) returns (sent: seq<Option<Action>>)
    requires l.Valid() && l.Abs() == BLANK
    modifies l, l.buffer
    ensures l.Valid() && l.Abs() == Recall(l.spawn, run, |run|)
    ensures |sent| == |run| && SentSoFar(l.spawn, run, sent)
  {
    sent := [];
    for i := 0 to |run|
      invariant l.Valid() && (l.buffer == old(l.buffer) || fresh(l.buffer)) && l.Abs() == Recall(l.spawn, run, i)
      invariant |sent| == i && SentSoFar(l.spawn, run, sent)
    {
      var action := RunTick(l, run, i);
      SentMore(l.spawn, run, sent, action);
      sent := sent + [action];
    }
  }

  ghost predicate SentSoFar(spawn: Spawner, run: seq<Moment>, sent: seq<Option<Action>>) {
    |sent| <= |run| && forall i :: 0 <= i < |sent| ==> sent[i] == PacketAt(spawn, run, i)
  }

  lemma SentMore(spawn: Spawner, run: seq<Moment>, sent: seq<Option<Action>>, action: Option<Action>)
    requires |sent| < |run| && SentSoFar(spawn, run, sent) && action == PacketAt(spawn, run, |sent|)
    ensures SentSoFar(spawn, run, sent + [action])
  {
  }

  lemma CountsAndKeeps(spawn: Spawner, run: seq<Moment>)
    ensures var m, sightings := Recall(spawn, run, |run|), Sightings(spawn, run);
            && m.corrections == Jumps(sightings, |run|)
            && var from := LastAccepted(sightings, |run|);
               && from <= |run|
               && m.issued == if Placed(sightings, |run|)
                              then Commands(run, from, |run|, PlacedTicks(sightings, from)) else []
  {
    Watched(spawn, run, |run|);
    CorrectionsAreJumps(Sightings(spawn, run), |run|);
    IssuedSinceAccepted(spawn, run, |run|);
  }
}
