/** Whole runs of the example bot: what holds of the machine from its start to the end or to the panic. */
module OrbitRuns {
  import opened Options
  import opened Vectors
  import opened OrbitMachine
  import opened OrbitBot

  datatype Moment = Moment(tick: Tick, world: World)

  /** What one tick of a run started in and decided. */
  datatype Record = Record(before: State, action: Action, after: State)

  ghost predicate Chained(log: seq<Record>) {
    && (forall i :: 0 < i < |log| ==> log[i].before == log[i - 1].after)
    && forall i :: 0 <= i < |log| ==> Leads(log[i].before, log[i].after)
  }

  /** Once done, a run does nothing more. */
  ghost predicate DoneAbsorbs(log: seq<Record>) {
    forall i, j :: 0 <= i <= j < |log| && log[i].before.Done? ==> log[j].before.Done? && log[j].action.Stand?
  }

  ghost predicate StrikesSpaced(log: seq<Record>, run: seq<Moment>, cooldown: int)
    requires |log| <= |run|
  {
    forall i, j :: 0 <= i < j < |log| && log[i].action.Strike? && log[j].action.Strike? ==>
                     run[j].tick.now - run[i].tick.now >= cooldown
  }

  /** Between any two requests to respawn a confirmed respawn was taken in, in Dead. */
  ghost predicate RespawnsConfirmed(log: seq<Record>, run: seq<Moment>)
    requires |log| <= |run|
  {
    forall i, j :: 0 <= i < j < |log| && log[i].action.SendRespawn? && log[j].action.SendRespawn? ==>
                     exists k :: i < k < j && Consumed(log, run, k)
  }

  ghost predicate Consumed(log: seq<Record>, run: seq<Moment>, k: int)
    requires |log| <= |run|
  {
    0 <= k < |log| && log[k].before.Dead? && run[k].tick.respawned
  }

  ghost predicate DeadIsStill(log: seq<Record>) {
    forall i :: 0 <= i < |log| && log[i].before.Dead? ==> log[i].action.Stand? || log[i].action.Exit?
  }

  /** No unhurt step lands on something that hurts, but for the one that leaves Trapped. */
  ghost predicate StepsGuarded(log: seq<Record>, run: seq<Moment>, geo: Geometry, stride: real)
    requires |log| <= |run|
  {
    forall i :: 0 <= i < |log| && log[i].action.StepTo? ==>
                  || Guarded(geo, stride, run[i].tick, run[i].world, log[i].action)
                  || (log[i].before.Trapped? && log[i].after.Orbiting?)
  }

  /** Every earlier swing is on the bot's clock. */
  ghost predicate Clocked(log: seq<Record>, run: seq<Moment>, struckAt: Option<int>)
    requires |log| <= |run|
  {
    forall i :: 0 <= i < |log| && log[i].action.Strike? ==> struckAt.Some? && run[i].tick.now <= struckAt.value
  }

  /** A request to respawn that has not been confirmed leaves the bot dead, or the run over. */
  ghost predicate Outstanding(log: seq<Record>, run: seq<Moment>, now: State)
    requires |log| <= |run|
  {
    forall i :: 0 <= i < |log| && log[i].action.SendRespawn? ==>
                  now.Dead? || now.Done? || exists k :: i < k < |log| && Consumed(log, run, k)
  }

  lemma StrikeMore(log: seq<Record>, run: seq<Moment>, r: Record, cooldown: int, was: Option<int>, now: Option<int>)
    requires |log| < |run| && StrikesSpaced(log, run, cooldown) && Clocked(log, run, was)
    requires if r.action.Strike? then Paced(was, now, run[|log|].tick.now, cooldown) else now == was
    requires forall i :: 0 <= i < |log| ==> run[i].tick.now <= run[|log|].tick.now
    ensures StrikesSpaced(log + [r], run, cooldown) && Clocked(log + [r], run, now)
  {
  }

  lemma DoneMore(log: seq<Record>, r: Record)
    requires DoneAbsorbs(log) && forall i :: 0 <= i < |log| && log[i].before.Done? ==> r.before.Done?
    requires r.before.Done? ==> r.action.Stand?
    ensures DoneAbsorbs(log + [r])
  {
  }

  lemma RespawnMore(log: seq<Record>, run: seq<Moment>, r: Record)
    requires |log| < |run| && RespawnsConfirmed(log, run) && Outstanding(log, run, r.before)
    requires r.action.SendRespawn? ==> !r.before.Dead? && !r.before.Done?
    requires r.before.Dead? ==> r.after.Dead? || r.after.Done? || run[|log|].tick.respawned
    requires r.before.Done? ==> r.after.Done?
    requires r.action.SendRespawn? ==> r.after.Dead?
    ensures RespawnsConfirmed(log + [r], run) && Outstanding(log + [r], run, r.after)
  {
    var more := log + [r];
    forall i, j | 0 <= i < j < |more| && more[i].action.SendRespawn? && more[j].action.SendRespawn?
      ensures exists k :: i < k < j && Consumed(more, run, k)
    {
      if j < |log| {
        var k :| i < k < j && Consumed(log, run, k);
        assert Consumed(more, run, k);
      } else {
        var k :| i < k < |log| && Consumed(log, run, k);
        assert Consumed(more, run, k);
      }
    }
    forall i | 0 <= i < |more| && more[i].action.SendRespawn?
      ensures r.after.Dead? || r.after.Done? || exists k :: i < k < |more| && Consumed(more, run, k)
    {
      if i < |log| {
        if r.before.Dead? && !r.after.Dead? && !r.after.Done? {
          assert Consumed(more, run, |log|);
        } else if !r.before.Dead? && !r.before.Done? {
          var k :| i < k < |log| && Consumed(log, run, k);
          assert Consumed(more, run, k);
        }
      }
    }
  }

  /** The correction on tick i counts. */
  predicate Counts(log: seq<Record>, run: seq<Moment>, i: nat)
    requires i < |log| <= |run|
  {
    var before, t := log[i].before, run[i].tick;
    !before.Done? && t.corrected && (t.died ==> before.Dead?)
  }

  function Counted(log: seq<Record>, run: seq<Moment>, n: nat): nat
    requires n <= |log| <= |run|
  {
    if n == 0 then 0 else Counted(log, run, n - 1) + if Counts(log, run, n - 1) then 1 else 0
  }

  lemma {:induction false} CountedMore(log: seq<Record>, run: seq<Moment>, r: Record, n: nat)
    requires n <= |log| < |run|
    ensures Counted(log + [r], run, n) == Counted(log, run, n)
  {
    if n > 0 {
      CountedMore(log, run, r, n - 1);
    }
  }

  /** The run exits on exactly the correction that passes the budget - or when it has been trapped for too long. */
  ghost predicate BreakerOpens(log: seq<Record>, run: seq<Moment>, budget: int)
    requires |log| <= |run|
  {
    forall i: nat :: i < |log| ==> BreakerAt(log, run, budget, i)
  }

  ghost predicate BreakerAt(log: seq<Record>, run: seq<Moment>, budget: int, i: nat)
    requires i < |log| <= |run|
  {
    var over := Counts(log, run, i) && Counted(log, run, i + 1) > budget;
    && (over ==> log[i].action == Exit(1))
    && (log[i].action == Exit(1) ==> over || log[i].before.Trapped?)
  }

  lemma BreakerMore(log: seq<Record>, run: seq<Moment>, r: Record, budget: int, was: int)
    requires |log| < |run| && BreakerOpens(log, run, budget) && was == Counted(log, run, |log|)
    requires var t := run[|log|].tick;
             var counts := !r.before.Done? && t.corrected && (t.died ==> r.before.Dead?);
             var over := counts && was + 1 > budget;
             (over ==> r.action == Exit(1)) && (r.action == Exit(1) ==> over || r.before.Trapped?)
    ensures BreakerOpens(log + [r], run, budget)
    ensures Counted(log + [r], run, |log| + 1) == was + if Counts(log + [r], run, |log|) then 1 else 0
  {
    var more := log + [r];
    CountedMore(log, run, r, |log|);
    forall i: nat | i < |more|
      ensures BreakerAt(more, run, budget, i)
    {
      if i < |log| {
        assert BreakerAt(log, run, budget, i);
        CountedMore(log, run, r, i + 1);
      }
    }
  }

  /** The program panicked on the last tick, and never had a circle before it. */
  ghost predicate Crashed(log: seq<Record>) {
    |log| > 0 && log[|log| - 1].action.Crash? && forall i :: 0 <= i < |log| ==> Circleless(log[i].before)
  }

  ghost predicate NoCrash(log: seq<Record>) {
    forall i :: 0 <= i < |log| ==> !log[i].action.Crash?
  }

  /** Everything proved of a run's log. */
  ghost predicate Sound(log: seq<Record>, run: seq<Moment>, bounds: Bounds, geo: Geometry)
    requires |log| <= |run|
  {
    && Chained(log) && DoneAbsorbs(log) && DeadIsStill(log)
    && StrikesSpaced(log, run, bounds.cooldown) && RespawnsConfirmed(log, run)
    && StepsGuarded(log, run, geo, bounds.stride) && BreakerOpens(log, run, bounds.breakerBudget)
  }

  /** What a log says of the bot that wrote it. */
  ghost predicate Written(
    log: seq<Record>, run: seq<Moment>, state: State, struckAt: Option<int>, corrections: int, circle: bool)
    requires |log| <= |run|
  {
    && (|log| > 0 ==> log[|log| - 1].after == state)
    && (forall i :: 0 <= i < |log| && log[i].before.Done? ==> state.Done?)
    && Clocked(log, run, struckAt) && Outstanding(log, run, state) && corrections == Counted(log, run, |log|)
    && (!circle ==> forall i :: 0 <= i < |log| ==> Circleless(log[i].before))
  }

  lemma ChainMore(log: seq<Record>, r: Record)
    requires Chained(log) && (|log| > 0 ==> log[|log| - 1].after == r.before) && Leads(r.before, r.after)
    ensures Chained(log + [r])
  {
  }

  lemma StepMore(log: seq<Record>, run: seq<Moment>, r: Record, geo: Geometry, stride: real)
    requires |log| < |run| && StepsGuarded(log, run, geo, stride)
    requires r.action.StepTo? ==>
               || Guarded(geo, stride, run[|log|].tick, run[|log|].world, r.action)
               || (r.before.Trapped? && r.after.Orbiting?)
    ensures StepsGuarded(log + [r], run, geo, stride)
  {
  }

  lemma LogMore(log: seq<Record>, run: seq<Moment>, bounds: Bounds, geo: Geometry, r: Record,
                was: Option<int>, now: Option<int>, corrections: int)
    requires |log| < |run| && Sound(log, run, bounds, geo)
    requires exists circle :: Written(log, run, r.before, was, corrections, circle)
    requires TickKeeps(r.before, r.after, was, now, bounds, geo, run[|log|].tick, run[|log|].world, r.action)
    requires forall i :: 0 <= i < |log| ==> run[i].tick.now <= run[|log|].tick.now
    requires var t := run[|log|].tick;
             var over := && !r.before.Done? && t.corrected && (t.died ==> r.before.Dead?)
                         && corrections + 1 > bounds.breakerBudget;
             (over ==> r.action == Exit(1)) && (r.action == Exit(1) ==> over || r.before.Trapped?)
    ensures Sound(log + [r], run, bounds, geo)
    ensures Clocked(log + [r], run, now) && Outstanding(log + [r], run, r.after)
    ensures Counted(log + [r], run, |log| + 1) == corrections + if Counts(log + [r], run, |log|) then 1 else 0
  {
    ChainMore(log, r);
    DoneMore(log, r);
    StrikeMore(log, run, r, bounds.cooldown, was, now);
    RespawnMore(log, run, r);
    StepMore(log, run, r, geo, bounds.stride);
    BreakerMore(log, run, r, bounds.breakerBudget, corrections);
  }

  // ----- The machine's runs -----

  ghost predicate TickedAt(bounds: Bounds, geo: Geometry, run: seq<Moment>, memos: seq<Memo>, actions: seq<Action>,
                           i: nat)
    requires i < |actions| <= |run| && |memos| == |actions| + 1
  {
    Ticked(bounds, geo, memos[i], run[i].tick, run[i].world, actions[i], memos[i + 1])
  }

  /** What the machine remembers and does over these moments, from its start to their end or to its panic. */
  ghost predicate Ran(bounds: Bounds, geo: Geometry, run: seq<Moment>, memos: seq<Memo>, actions: seq<Action>) {
    && |actions| <= |run| && |memos| == |actions| + 1 && memos[0] == START
    && (forall i: nat :: i < |actions| ==> TickedAt(bounds, geo, run, memos, actions, i))
    && (forall i :: 0 <= i < |actions| - 1 ==> actions[i] != Crash)
  }

  function LogOf(memos: seq<Memo>, actions: seq<Action>): seq<Record>
    requires |memos| == |actions| + 1
  {
    seq(|actions|, i requires 0 <= i < |actions| => Record(memos[i].state, actions[i], memos[i + 1].state))
  }

  lemma LogOfMore(memos: seq<Memo>, actions: seq<Action>, n: nat)
    requires |memos| == |actions| + 1 && n < |actions|
    ensures LogOf(memos[..n + 2], actions[..n + 1]) ==
            LogOf(memos[..n + 1], actions[..n]) + [Record(memos[n].state, actions[n], memos[n + 1].state)]
  {
  }

  ghost predicate Orderly(run: seq<Moment>) {
    forall i, j :: 0 <= i < j < |run| ==> run[i].tick.now <= run[j].tick.now
  }

  /** What the log of the first n ticks says. */
  ghost predicate Told(bounds: Bounds, geo: Geometry, run: seq<Moment>, memos: seq<Memo>, actions: seq<Action>, n: nat)
    requires n <= |actions| <= |run| && |memos| == |actions| + 1
  {
    var log, m := LogOf(memos[..n + 1], actions[..n]), memos[n];
    && m.Valid() && Sound(log, run, bounds, geo)
    && Written(log, run, m.state, m.foe.struckAt, m.corrections, m.centre.Some?)
  }

  lemma ToldMore(bounds: Bounds, geo: Geometry, run: seq<Moment>, memos: seq<Memo>, actions: seq<Action>, n: nat)
    requires |actions| <= |run| && |memos| == |actions| + 1 && n < |actions| && Orderly(run)
    requires Told(bounds, geo, run, memos, actions, n) && memos[n + 1].Valid()
    requires Lawful(bounds, geo, memos[n], run[n].tick, run[n].world, actions[n], memos[n + 1])
    ensures Told(bounds, geo, run, memos, actions, n + 1)
  {
    var log, r := LogOf(memos[..n + 1], actions[..n]), Record(memos[n].state, actions[n], memos[n + 1].state);
    LogOfMore(memos, actions, n);
    LogMore(log, run, bounds, geo, r, memos[n].foe.struckAt, memos[n + 1].foe.struckAt, memos[n].corrections);
    WrittenMore(log, run, r, memos[n], memos[n + 1]);
  }

  lemma WrittenMore(log: seq<Record>, run: seq<Moment>, r: Record, m: Memo, m': Memo)
    requires |log| < |run| && Written(log, run, m.state, m.foe.struckAt, m.corrections, m.centre.Some?)
    requires m.Valid() && (r.before, r.after) == (m.state, m'.state)
    requires (m'.centre == m.centre || m.state.Joining?) && (m.state.Done? ==> m'.state.Done?)
    requires Clocked(log + [r], run, m'.foe.struckAt) && Outstanding(log + [r], run, m'.state)
    requires m'.corrections == Counted(log + [r], run, |log| + 1)
    ensures Written(log + [r], run, m'.state, m'.foe.struckAt, m'.corrections, m'.centre.Some?)
  {
  }

  ghost predicate LawfulAt(bounds: Bounds, geo: Geometry, run: seq<Moment>, memos: seq<Memo>, actions: seq<Action>,
                           i: nat)
    requires i < |actions| <= |run| && |memos| == |actions| + 1
  {
    memos[i].Valid() && Lawful(bounds, geo, memos[i], run[i].tick, run[i].world, actions[i], memos[i + 1])
  }

  lemma {:induction false} LawfulSoFar(
    bounds: Bounds, geo: Geometry, run: seq<Moment>, memos: seq<Memo>, actions: seq<Action>, n: nat)
    requires Ran(bounds, geo, run, memos, actions) && n <= |actions|
    ensures memos[n].Valid() && forall i: nat :: i < n ==> LawfulAt(bounds, geo, run, memos, actions, i)
  {
    if n > 0 {
      LawfulSoFar(bounds, geo, run, memos, actions, n - 1);
      assert TickedAt(bounds, geo, run, memos, actions, n - 1);
      TickIsLawful(bounds, geo, memos[n - 1], run[n - 1].tick, run[n - 1].world, actions[n - 1], memos[n]);
    }
  }

  lemma {:induction false} ToldSoFar(
    bounds: Bounds, geo: Geometry, run: seq<Moment>, memos: seq<Memo>, actions: seq<Action>, n: nat)
    requires |actions| <= |run| && |memos| == |actions| + 1 && n <= |actions| && memos[0] == START && Orderly(run)
    requires forall i: nat :: i < n ==> LawfulAt(bounds, geo, run, memos, actions, i)
    requires memos[n].Valid()
    ensures Told(bounds, geo, run, memos, actions, n)
  {
    if n > 0 {
      assert LawfulAt(bounds, geo, run, memos, actions, n - 1);
      ToldSoFar(bounds, geo, run, memos, actions, n - 1);
      ToldMore(bounds, geo, run, memos, actions, n - 1);
    }
  }

  lemma CrashIsCircleless(bounds: Bounds, geo: Geometry, m: Memo, t: Tick, w: World)
    requires m.Valid() && m.Crashes(bounds, geo, t, w)
    ensures m.centre.None? && Circleless(m.state)
  {
    PreemptedFits(bounds, geo, m, t, w);
  }

  /** A panic comes to a bot that has no circle, and so never had one. */
  lemma PanicIsCircleless(bounds: Bounds, geo: Geometry, run: seq<Moment>, memos: seq<Memo>, actions: seq<Action>)
    requires Ran(bounds, geo, run, memos, actions) && Panicked(actions)
    requires Told(bounds, geo, run, memos, actions, |actions| - 1)
    requires LawfulAt(bounds, geo, run, memos, actions, |actions| - 1)
    ensures Crashed(LogOf(memos, actions))
  {
    var n := |actions| - 1;
    var log, all := LogOf(memos[..n + 1], actions[..n]), LogOf(memos, actions);
    CrashIsCircleless(bounds, geo, memos[n], run[n].tick, run[n].world);
    forall i | 0 <= i < |all|
      ensures Circleless(all[i].before)
    {
      if i < n {
        assert all[i] == log[i];
      }
    }
  }

  /**
   * Every run of the machine on a clock that does not go backwards is sound, each of its ticks lawful, and one that
   * ends in a panic never had a circle.
   */
  lemma RunsAreSound(bounds: Bounds, geo: Geometry, run: seq<Moment>, memos: seq<Memo>, actions: seq<Action>)
    requires Ran(bounds, geo, run, memos, actions) && Orderly(run)
    ensures forall i: nat :: i < |actions| ==> LawfulAt(bounds, geo, run, memos, actions, i)
    ensures Sound(LogOf(memos, actions), run, bounds, geo)
    ensures if Panicked(actions) then Crashed(LogOf(memos, actions)) else NoCrash(LogOf(memos, actions))
  {
    var n := |actions|;
    assert memos[..n + 1] == memos && actions[..n] == actions;
    LawfulSoFar(bounds, geo, run, memos, actions, n);
    ToldSoFar(bounds, geo, run, memos, actions, n);
    if Panicked(actions) {
      assert LawfulAt(bounds, geo, run, memos, actions, n - 1);
      ToldSoFar(bounds, geo, run, memos, actions, n - 1);
      PanicIsCircleless(bounds, geo, run, memos, actions);
    }
  }

  predicate Panicked(actions: seq<Action>) {
    |actions| > 0 && actions[|actions| - 1] == Crash
  }

  /** The bot over any moments whose clock does not go backwards: the machine's run, to their end or to its panic. */
  method Drive(bounds: Bounds, geo: Geometry, run: seq<Moment>) returns (memos: seq<Memo>, actions: seq<Action>)
    requires (forall i :: 0 <= i < |run| ==> Plans(run[i].world)) && Orderly(run)
    ensures Ran(bounds, geo, run, memos, actions) && (|actions| == |run| || Panicked(actions))
    ensures var log := LogOf(memos, actions);
            Sound(log, run, bounds, geo) && if Panicked(actions) then Crashed(log) else NoCrash(log)
  {
    var b := new Bot(bounds, geo);
    memos, actions := [b.Abs()], [];
    for n := 0 to |run|
      invariant fresh(b) && b.bounds == bounds && b.geo == geo && b.Abs().Valid()
      invariant Ran(bounds, geo, run, memos, actions) && |actions| == n && memos[n] == b.Abs() && !Panicked(actions)
    {
      var a := b.Advance(run[n].tick, run[n].world);
      RanMore(bounds, geo, run, memos, actions, a, b.Abs());
      memos, actions := memos + [b.Abs()], actions + [a];
      if a == Crash {
        break;
      }
    }
    RunsAreSound(bounds, geo, run, memos, actions);
  }

  /** Two runs of the machine over the same moments agree for as long as both go on. */
  lemma {:induction false} OneRun(
    bounds: Bounds, geo: Geometry, run: seq<Moment>, memos: seq<Memo>, actions: seq<Action>,
    others: seq<Memo>, deeds: seq<Action>, n: nat)
    requires Ran(bounds, geo, run, memos, actions) && Ran(bounds, geo, run, others, deeds)
    requires n <= |actions| && n <= |deeds|
    ensures memos[n] == others[n] && actions[..n] == deeds[..n]
  {
    if n > 0 {
      var i := n - 1;
      OneRun(bounds, geo, run, memos, actions, others, deeds, i);
      assert TickedAt(bounds, geo, run, memos, actions, i) && TickedAt(bounds, geo, run, others, deeds, i);
      OneTick(bounds, geo, memos[i], run[i].tick, run[i].world, actions[i], memos[n], deeds[i], others[n]);
      assert actions[..n] == actions[..i] + [actions[i]] && deeds[..n] == deeds[..i] + [deeds[i]];
    }
  }

  lemma RanMore(bounds: Bounds, geo: Geometry, run: seq<Moment>, memos: seq<Memo>, actions: seq<Action>,
                a: Action, m: Memo)
    requires Ran(bounds, geo, run, memos, actions) && |actions| < |run| && !Panicked(actions)
    requires Ticked(bounds, geo, memos[|actions|], run[|actions|].tick, run[|actions|].world, a, m)
    ensures Ran(bounds, geo, run, memos + [m], actions + [a])
  {
    var memos', actions' := memos + [m], actions + [a];
    forall i: nat | i < |actions'|
      ensures TickedAt(bounds, geo, run, memos', actions', i)
    {
      if i < |actions| {
        assert TickedAt(bounds, geo, run, memos, actions, i);
      }
    }
  }

  /** A tick in play and nothing else happening, at a place. */
  function Quiet(at: Vec3): Tick {
    Tick(0, true, at, true, false, 0, false, false, false, 0)
  }

  /** Everything east of the origin hurts, and the world answers nothing else. */
  const LAVA_EAST := World(
    None, (a: Vec3, b: Vec3) => None, (a: Vec3, b: Vec3) => true, (p: Vec3) => p.x > 0.0, (p: Vec3) => None,
    (p: Vec3) => None, (e: int) => None)

  const OUT_OF_LAVA :=
    [Moment(Quiet(Vec3(1.0, 0.0, 0.0)), LAVA_EAST), Moment(Quiet(Vec3(0.0, 0.0, 0.0)), LAVA_EAST)]

  /** A bot hurt before it has joined survives that tick, and panics as soon as it is out of harm. */
  lemma CrashRun(bounds: Bounds, geo: Geometry, memos: seq<Memo>, actions: seq<Action>)
    requires bounds.escape >= 0 && bounds.breakerBudget >= 0
    requires Ran(bounds, geo, OUT_OF_LAVA, memos, actions) && (|actions| == 2 || Panicked(actions))
    ensures |actions| == 2 && actions[0] != Crash && actions[1] == Crash
  {
    var first, second := OUT_OF_LAVA[0].tick, OUT_OF_LAVA[1].tick;
    assert TickedAt(bounds, geo, OUT_OF_LAVA, memos, actions, 0);
    TickIsLawful(bounds, geo, START, first, LAVA_EAST, actions[0], memos[1]);
    assert !START.Crashes(bounds, geo, first, LAVA_EAST);
    assert memos[1].state.Escaping? && memos[1].centre.None?;
    assert TickedAt(bounds, geo, OUT_OF_LAVA, memos, actions, 1);
    TickIsLawful(bounds, geo, memos[1], second, LAVA_EAST, actions[1], memos[2]);
    assert memos[1].Crashes(bounds, geo, second, LAVA_EAST);
  }

  /** There is such a run, and it is the bot's. */
  method CrashHappens(bounds: Bounds, geo: Geometry) returns (memos: seq<Memo>, actions: seq<Action>)
    requires bounds.escape >= 0 && bounds.breakerBudget >= 0
    ensures Ran(bounds, geo, OUT_OF_LAVA, memos, actions) && |actions| == 2 && actions[1] == Crash
  {
    memos, actions := Drive(bounds, geo, OUT_OF_LAVA);
    CrashRun(bounds, geo, memos, actions);
  }
}
