/**
 * Applying, amending and publishing as separate steps: the world under its lock, the events it stamped waiting in
 * their goroutines, and the fan-out under its own. client/loop.go and client/window.go both produce and publish.
 */
module Publishing {
  import W = Worlds
  import F = Fanout

  /** An event as a reducer emits it, before it is stamped. */
  datatype Raw = Raw(domain: bv16, id: int)

  /** What successful operation number `at` emitted, all stamped with the revision it produced. */
  datatype Production = Production(at: nat, revision: nat, events: seq<F.Event>)

  function Stamp(raws: seq<Raw>, revision: nat): seq<F.Event> {
    seq(|raws|, i requires 0 <= i < |raws| => F.Event(raws[i].domain, raws[i].id, revision))
  }

  /**
   * `ops` is every operation on the world so far, `waiting` what was produced and not yet published, in no
   * particular order, and `published` what was, in the order the fan-out took it.
   */
  datatype State<!S, !B> = State(
    world: W.State<S>, ops: seq<W.Op<S, B, Raw>>, waiting: set<Production>, published: seq<Production>, fanout: F.State)

  datatype Action<!S, !B> =
    | Produce(op: W.Op<S, B, Raw>)
    | Publish(p: Production)
    | Fan(a: F.Action)

  /** What an operation that succeeds emits. */
  function Emitted<S, B>(reducers: seq<W.Reducer<S, B, Raw>>, w: W.State<S>, op: W.Op<S, B, Raw>): seq<Raw> {
    match op
    case Apply(batch) => W.Reduce(reducers, w.revision + 1, w.local, batch, w.store).events
    case Amend(mutate) => mutate(w.store).events
  }

  /** Publishing nothing is no publication; otherwise the fan-out's lock must be free. */
  predicate Enabled<S, B>(st: State<S, B>, a: Action<S, B>) {
    match a
    case Produce(_) => true
    case Publish(p) => p in st.waiting && (p.events == [] || F.Enabled(st.fanout, F.Begin(p.events)))
    case Fan(f) => !f.Begin? && F.Enabled(st.fanout, f)
  }

  /** The production of the operation, stamped with the revision the world has once it succeeded. */
  function Produced<S, B>(reducers: seq<W.Reducer<S, B, Raw>>, st: State<S, B>, op: W.Op<S, B, Raw>): Production {
    var after := W.Do(reducers, st.world, op);
    Production(|st.ops|, after.revision, Stamp(Emitted(reducers, st.world, op), after.revision))
  }

  function Do<S, B>(reducers: seq<W.Reducer<S, B, Raw>>, st: State<S, B>, a: Action<S, B>): State<S, B>
    requires Enabled(st, a)
  {
    match a
    case Produce(op) =>
      st.(world := W.Do(reducers, st.world, op), ops := st.ops + [op],
          waiting := if W.Succeeds(reducers, st.world, op) then st.waiting + {Produced(reducers, st, op)}
                     else st.waiting)
    case Publish(p) =>
      st.(waiting := st.waiting - {p}, published := st.published + [p],
          fanout := if p.events == [] then st.fanout else F.Do(st.fanout, F.Begin(p.events)))
    case Fan(f) => st.(fanout := F.Do(st.fanout, f))
  }

  // ----- Revisions count successes -----

  lemma RunAllMore<S, B>(
    reducers: seq<W.Reducer<S, B, Raw>>, start: W.State<S>, ops: seq<W.Op<S, B, Raw>>, op: W.Op<S, B, Raw>)
    ensures W.RunAll(reducers, start, ops + [op]) == W.Do(reducers, W.RunAll(reducers, start, ops), op)
    ensures W.Successes(reducers, start, ops + [op]) ==
            W.Successes(reducers, start, ops) +
            if W.Succeeds(reducers, W.RunAll(reducers, start, ops), op) then 1 else 0
  {
    assert (ops + [op])[..|ops|] == ops;
  }

  lemma {:induction false} RevisionCounts<S, B>(
    reducers: seq<W.Reducer<S, B, Raw>>, start: W.State<S>, ops: seq<W.Op<S, B, Raw>>)
    requires start.revision == 0
    ensures W.RunAll(reducers, start, ops).revision == W.Successes(reducers, start, ops)
    decreases |ops|
  {
    if ops != [] {
      RevisionCounts(reducers, start, ops[..|ops| - 1]);
    }
  }

  // ----- What holds of every production -----

  /** It is what its operation emitted, stamped with how many operations had succeeded once that one had. */
  ghost predicate Genuine<S, B>(
    reducers: seq<W.Reducer<S, B, Raw>>, start: W.State<S>, ops: seq<W.Op<S, B, Raw>>, p: Production)
  {
    && p.at < |ops|
    && var w := W.RunAll(reducers, start, ops[..p.at]);
       && W.Succeeds(reducers, w, ops[p.at])
       && p.revision == W.Successes(reducers, start, ops[..p.at + 1])
       && p.events == Stamp(Emitted(reducers, w, ops[p.at]), p.revision)
  }

  ghost predicate WorldFits<S, B>(reducers: seq<W.Reducer<S, B, Raw>>, start: W.State<S>, st: State<S, B>) {
    && start.revision == 0
    && st.world == W.RunAll(reducers, start, st.ops)
    && forall p :: p in st.waiting || p in st.published ==> Genuine(reducers, start, st.ops, p)
  }

  function Flatten(productions: seq<Production>): seq<F.Event>
    decreases |productions|
  {
    if productions == [] then []
    else Flatten(productions[..|productions| - 1]) + productions[|productions| - 1].events
  }

  /** Each production is published at most once, and the fan-out's stream is the published events in that order. */
  ghost predicate StreamFits<S, B>(st: State<S, B>) {
    && (forall p :: p in st.published ==> p !in st.waiting)
    && (forall i, j :: 0 <= i < j < |st.published| ==> st.published[i] != st.published[j])
    && st.fanout.stream == Flatten(st.published)
    && F.Inv(st.fanout)
  }

  ghost predicate Inv<S, B>(reducers: seq<W.Reducer<S, B, Raw>>, start: W.State<S>, st: State<S, B>) {
    WorldFits(reducers, start, st) && StreamFits(st)
  }

  lemma GenuineKept<S, B>(
    reducers: seq<W.Reducer<S, B, Raw>>, start: W.State<S>, ops: seq<W.Op<S, B, Raw>>,
    op: W.Op<S, B, Raw>, p: Production)
    requires Genuine(reducers, start, ops, p)
    ensures Genuine(reducers, start, ops + [op], p)
  {
    assert (ops + [op])[..p.at] == ops[..p.at] && (ops + [op])[..p.at + 1] == ops[..p.at + 1];
  }

  lemma ProducedGenuine<S, B>(
    reducers: seq<W.Reducer<S, B, Raw>>, start: W.State<S>, st: State<S, B>, op: W.Op<S, B, Raw>)
    requires WorldFits(reducers, start, st) && W.Succeeds(reducers, st.world, op)
    ensures Genuine(reducers, start, st.ops + [op], Produced(reducers, st, op))
    ensures Produced(reducers, st, op) !in st.waiting && Produced(reducers, st, op) !in st.published
  {
    var more := st.ops + [op];
    RunAllMore(reducers, start, st.ops, op);
    RevisionCounts(reducers, start, more);
    assert more[..|st.ops|] == st.ops && more[..|st.ops| + 1] == more;
  }

  lemma ProduceKeeps<S, B>(
    reducers: seq<W.Reducer<S, B, Raw>>, start: W.State<S>, st: State<S, B>, op: W.Op<S, B, Raw>)
    requires Inv(reducers, start, st)
    ensures Inv(reducers, start, Do(reducers, st, Produce(op)))
  {
    var st' := Do(reducers, st, Action<S, B>.Produce(op));
    RunAllMore(reducers, start, st.ops, op);
    if W.Succeeds(reducers, st.world, op) {
      ProducedGenuine(reducers, start, st, op);
    }
    forall p | p in st'.waiting || p in st'.published
      ensures Genuine(reducers, start, st'.ops, p)
    {
      if p in st.waiting || p in st.published {
        GenuineKept(reducers, start, st.ops, op, p);
      }
    }
  }

  lemma FlattenMore(productions: seq<Production>, p: Production)
    ensures Flatten(productions + [p]) == Flatten(productions) + p.events
  {
    assert (productions + [p])[..|productions|] == productions;
  }

  lemma PublishKeeps<S, B>(reducers: seq<W.Reducer<S, B, Raw>>, start: W.State<S>, st: State<S, B>, p: Production)
    requires Inv(reducers, start, st) && Enabled(st, Publish(p))
    ensures Inv(reducers, start, Do(reducers, st, Publish(p)))
  {
    FlattenMore(st.published, p);
    if p.events != [] {
      F.StepKeeps(st.fanout, F.Begin(p.events));
    }
  }

  lemma FanKeeps<S, B>(reducers: seq<W.Reducer<S, B, Raw>>, start: W.State<S>, st: State<S, B>, f: F.Action)
    requires Inv(reducers, start, st) && Enabled(st, Fan(f))
    ensures Inv(reducers, start, Do(reducers, st, Fan(f)))
  {
    F.StepKeeps(st.fanout, f);
  }

  // ----- Every interleaving -----

  ghost predicate Stepped<S, B>(
    reducers: seq<W.Reducer<S, B, Raw>>, trace: seq<State<S, B>>, actions: seq<Action<S, B>>, i: nat)
  {
    i < |actions| < |trace| && Enabled(trace[i], actions[i]) && trace[i + 1] == Do(reducers, trace[i], actions[i])
  }

  ghost predicate Run<S, B>(reducers: seq<W.Reducer<S, B, Raw>>, start: W.State<S>,
                            trace: seq<State<S, B>>, actions: seq<Action<S, B>>)
  {
    && start.revision == 0 && |trace| == |actions| + 1
    && trace[0] == State(start, [], {}, [], F.START)
    && forall i: nat :: i < |actions| ==> Stepped(reducers, trace, actions, i)
  }

  lemma {:induction false} RunKeeps<S, B>(reducers: seq<W.Reducer<S, B, Raw>>, start: W.State<S>,
                                          trace: seq<State<S, B>>, actions: seq<Action<S, B>>, n: nat)
    requires Run(reducers, start, trace, actions) && n <= |actions|
    ensures Inv(reducers, start, trace[n])
  {
    if n > 0 {
      RunKeeps(reducers, start, trace, actions, n - 1);
      assert Stepped(reducers, trace, actions, n - 1);
      match actions[n - 1]
      case Produce(op) => ProduceKeeps(reducers, start, trace[n - 1], op);
      case Publish(p) => PublishKeeps(reducers, start, trace[n - 1], p);
      case Fan(f) => FanKeeps(reducers, start, trace[n - 1], f);
    }
  }

  // ----- What a subscriber sees -----

  lemma {:induction false} SuccessesGrow<S, B>(
    reducers: seq<W.Reducer<S, B, Raw>>, start: W.State<S>, ops: seq<W.Op<S, B, Raw>>, m: nat)
    requires m <= |ops|
    ensures W.Successes(reducers, start, ops[..m]) <= W.Successes(reducers, start, ops)
    decreases |ops|
  {
    if m == |ops| {
      assert ops[..m] == ops;
    } else {
      assert ops[..|ops| - 1][..m] == ops[..m];
      SuccessesGrow(reducers, start, ops[..|ops| - 1], m);
    }
  }

  lemma StampedAll(raws: seq<Raw>, revision: nat, e: F.Event)
    requires e in Stamp(raws, revision)
    ensures e.revision == revision
  {
  }

  lemma {:induction false} InFlatten(productions: seq<Production>, e: F.Event) returns (p: Production)
    requires e in Flatten(productions)
    ensures p in productions && e in p.events
    decreases |productions|
  {
    p := productions[|productions| - 1];
    if e !in p.events {
      p := InFlatten(productions[..|productions| - 1], e);
    }
  }

  lemma {:induction false} InWanted(selector: bv16, events: seq<F.Event>, e: F.Event)
    requires e in F.Wanted(selector, events)
    ensures e in events
    decreases |events|
  {
    if e != events[|events| - 1] {
      InWanted(selector, events[..|events| - 1], e);
    }
  }

  /**
   * Under every interleaving of applying, amending, publishing and consuming, every event any subscription has been
   * sent carries the number of operations that had succeeded when the one that emitted it did - a revision the world
   * has reached.
   */
  lemma SentRevisionsExist<S, B>(
    reducers: seq<W.Reducer<S, B, Raw>>, start: W.State<S>, trace: seq<State<S, B>>, actions: seq<Action<S, B>>,
    n: nat, id: nat, e: F.Event) returns (p: Production)
    requires Run(reducers, start, trace, actions) && n <= |actions|
    requires id < |trace[n].fanout.all| && e in trace[n].fanout.all[id].Sent()
    ensures p in trace[n].published && e in p.events && Genuine(reducers, start, trace[n].ops, p)
    ensures e.revision == p.revision == W.Successes(reducers, start, trace[n].ops[..p.at + 1])
    ensures e.revision <= trace[n].world.revision
  {
    RunKeeps(reducers, start, trace, actions, n);
    var st := trace[n];
    var s := st.fanout.all[id];
    assert F.Faithful(s, st.fanout.stream);
    assert e in F.Wanted(s.selector, st.fanout.stream[s.from..]);
    InWanted(s.selector, st.fanout.stream[s.from..], e);
    p := InFlatten(st.published, e);
    StampedAll(Emitted(reducers, W.RunAll(reducers, start, st.ops[..p.at]), st.ops[p.at]), p.revision, e);
    SuccessesGrow(reducers, start, st.ops, p.at + 1);
    RevisionCounts(reducers, start, st.ops);
  }

  /** What one batch or mutation emitted has a revision of its own, larger than that of anything earlier. */
  lemma LaterIsLarger<S, B>(reducers: seq<W.Reducer<S, B, Raw>>, start: W.State<S>, ops: seq<W.Op<S, B, Raw>>,
                            p: Production, q: Production)
    requires Genuine(reducers, start, ops, p) && Genuine(reducers, start, ops, q)
    ensures p.at < q.at ==> p.revision < q.revision
    ensures p.at == q.at ==> p == q
  {
    if p.at < q.at {
      var older := ops[..q.at];
      assert older[..p.at + 1] == ops[..p.at + 1];
      SuccessesGrow(reducers, start, older, p.at + 1);
      assert ops[..q.at + 1] == older + [ops[q.at]];
      RunAllMore(reducers, start, older, ops[q.at]);
    }
  }

  // ----- When the order of revisions is kept -----

  ghost predicate Increasing(productions: seq<Production>) {
    forall i, j :: 0 <= i < j < |productions| ==> productions[i].revision < productions[j].revision
  }

  /** Step m publishes past q, which has a smaller revision, is waiting already, and is itself published by step n. */
  ghost predicate Overtakes<S, B>(trace: seq<State<S, B>>, actions: seq<Action<S, B>>, m: nat, q: Production, n: nat) {
    && m < n <= |actions| < |trace| && actions[m].Publish?
    && q in trace[m].waiting && q.revision < actions[m].p.revision && q in trace[n].published
  }

  ghost predicate NoneOvertaken<S, B>(trace: seq<State<S, B>>, actions: seq<Action<S, B>>, n: nat) {
    forall m: nat, q :: !Overtakes(trace, actions, m, q, n)
  }

  lemma AtMostWorld<S, B>(reducers: seq<W.Reducer<S, B, Raw>>, start: W.State<S>, st: State<S, B>, p: Production)
    requires WorldFits(reducers, start, st) && (p in st.waiting || p in st.published)
    ensures p.revision <= st.world.revision
  {
    SuccessesGrow(reducers, start, st.ops, p.at + 1);
    RevisionCounts(reducers, start, st.ops);
  }

  lemma {:induction false} RevisionGrows<S, B>(
    reducers: seq<W.Reducer<S, B, Raw>>, start: W.State<S>, trace: seq<State<S, B>>, actions: seq<Action<S, B>>,
    m: nat, n: nat)
    requires Run(reducers, start, trace, actions) && m <= n <= |actions|
    ensures trace[m].world.revision <= trace[n].world.revision
    decreases n
  {
    if m < n {
      RevisionGrows(reducers, start, trace, actions, m, n - 1);
      assert Stepped(reducers, trace, actions, n - 1);
    }
  }

  /** What waits now with a revision the world had then was waiting then. */
  lemma {:induction false} WaitedAlready<S, B>(
    reducers: seq<W.Reducer<S, B, Raw>>, start: W.State<S>, trace: seq<State<S, B>>, actions: seq<Action<S, B>>,
    m: nat, n: nat, q: Production)
    requires Run(reducers, start, trace, actions) && m <= n <= |actions|
    requires q in trace[n].waiting && q.revision <= trace[m].world.revision
    ensures q in trace[m].waiting
    decreases n
  {
    if m < n {
      assert Stepped(reducers, trace, actions, n - 1);
      RevisionGrows(reducers, start, trace, actions, m, n - 1);
      WaitedAlready(reducers, start, trace, actions, m, n - 1, q);
    }
  }

  lemma {:induction false} PublishedStays<S, B>(
    reducers: seq<W.Reducer<S, B, Raw>>, start: W.State<S>, trace: seq<State<S, B>>, actions: seq<Action<S, B>>,
    m: nat, n: nat, p: Production)
    requires Run(reducers, start, trace, actions) && m <= n <= |actions| && p in trace[m].published
    ensures p in trace[n].published
    decreases n
  {
    if m < n {
      PublishedStays(reducers, start, trace, actions, m, n - 1, p);
      assert Stepped(reducers, trace, actions, n - 1);
    }
  }

  lemma {:induction false} PublishedWhen<S, B>(
    reducers: seq<W.Reducer<S, B, Raw>>, start: W.State<S>, trace: seq<State<S, B>>, actions: seq<Action<S, B>>,
    n: nat, p: Production) returns (m: nat)
    requires Run(reducers, start, trace, actions) && n <= |actions| && p in trace[n].published
    ensures m < n && actions[m] == Publish(p) && p in trace[m].waiting && p in trace[m + 1].published
  {
    assert Stepped(reducers, trace, actions, n - 1);
    if p in trace[n - 1].published {
      m := PublishedWhen(reducers, start, trace, actions, n - 1, p);
    } else {
      m := n - 1;
    }
  }

  /** A publication that breaks the order overtakes, and one that overtakes breaks the order. */
  lemma LastOvertakes<S, B>(
    reducers: seq<W.Reducer<S, B, Raw>>, start: W.State<S>, trace: seq<State<S, B>>, actions: seq<Action<S, B>>,
    n: nat, k: nat) returns (m: nat)
    requires Run(reducers, start, trace, actions) && n < |actions| && actions[n].Publish?
    requires k < |trace[n].published| && trace[n].published[k].revision >= actions[n].p.revision
    ensures Overtakes(trace, actions, m, actions[n].p, n + 1)
  {
    var p, early := actions[n].p, trace[n].published[k];
    assert Stepped(reducers, trace, actions, n);
    RunKeeps(reducers, start, trace, actions, n);
    LaterIsLarger(reducers, start, trace[n].ops, p, early);
    LaterIsLarger(reducers, start, trace[n].ops, early, p);
    assert p != early && p.revision < early.revision;
    m := PublishedWhen(reducers, start, trace, actions, n, early);
    RunKeeps(reducers, start, trace, actions, m);
    AtMostWorld(reducers, start, trace[m], early);
    WaitedAlready(reducers, start, trace, actions, m, n, p);
  }

  lemma OvertakenIsOutOfOrder<S, B>(
    reducers: seq<W.Reducer<S, B, Raw>>, start: W.State<S>, trace: seq<State<S, B>>, actions: seq<Action<S, B>>,
    n: nat, m: nat, q: Production) returns (k: nat)
    requires Run(reducers, start, trace, actions) && n < |actions| && actions[n].Publish?
    requires Overtakes(trace, actions, m, q, n + 1) && !Overtakes(trace, actions, m, q, n)
    ensures k < |trace[n].published| && q == actions[n].p && trace[n].published[k].revision > q.revision
  {
    assert Stepped(reducers, trace, actions, n);
    RunKeeps(reducers, start, trace, actions, n);
    assert q == actions[n].p;
    assert Stepped(reducers, trace, actions, m);
    PublishedStays(reducers, start, trace, actions, m + 1, n, actions[m].p);
    k :| 0 <= k < |trace[n].published| && trace[n].published[k] == actions[m].p;
  }

  lemma OvertakesLater<S, B>(
    reducers: seq<W.Reducer<S, B, Raw>>, start: W.State<S>, trace: seq<State<S, B>>, actions: seq<Action<S, B>>,
    m: nat, q: Production, n: nat)
    requires Run(reducers, start, trace, actions) && n < |actions| && Overtakes(trace, actions, m, q, n)
    ensures Overtakes(trace, actions, m, q, n + 1)
  {
    PublishedStays(reducers, start, trace, actions, n, n + 1, q);
  }

  lemma OrderNext<S, B>(
    reducers: seq<W.Reducer<S, B, Raw>>, start: W.State<S>, trace: seq<State<S, B>>, actions: seq<Action<S, B>>,
    n: nat)
    requires Run(reducers, start, trace, actions) && n < |actions|
    requires Increasing(trace[n].published) <==> NoneOvertaken(trace, actions, n)
    ensures Increasing(trace[n + 1].published) <==> NoneOvertaken(trace, actions, n + 1)
  {
    assert Stepped(reducers, trace, actions, n);
    if !NoneOvertaken(trace, actions, n) {
      var m: nat, q :| Overtakes(trace, actions, m, q, n);
      OvertakesLater(reducers, start, trace, actions, m, q, n);
      StillOutOfOrder(reducers, trace, actions, n);
    } else if !actions[n].Publish? {
      var later := n + 1;
      forall m: nat, q
        ensures !Overtakes(trace, actions, m, q, later)
      {
        assert !Overtakes(trace, actions, m, q, n);
      }
    } else {
      OrderPublished(reducers, start, trace, actions, n);
    }
  }

  lemma StillOutOfOrder<S, B>(
    reducers: seq<W.Reducer<S, B, Raw>>, trace: seq<State<S, B>>, actions: seq<Action<S, B>>, n: nat)
    requires Stepped(reducers, trace, actions, n) && !Increasing(trace[n].published)
    ensures !Increasing(trace[n + 1].published)
  {
    var i, j :| 0 <= i < j < |trace[n].published|
                && trace[n].published[i].revision >= trace[n].published[j].revision;
    assert trace[n + 1].published[i] == trace[n].published[i] && trace[n + 1].published[j] == trace[n].published[j];
  }

  lemma OrderPublished<S, B>(
    reducers: seq<W.Reducer<S, B, Raw>>, start: W.State<S>, trace: seq<State<S, B>>, actions: seq<Action<S, B>>,
    n: nat)
    requires Run(reducers, start, trace, actions) && n < |actions| && actions[n].Publish?
    requires Increasing(trace[n].published) && NoneOvertaken(trace, actions, n)
    ensures Increasing(trace[n + 1].published) <==> NoneOvertaken(trace, actions, n + 1)
  {
    var before, p, after := trace[n].published, actions[n].p, trace[n + 1].published;
    assert Stepped(reducers, trace, actions, n);
    assert after == before + [p];
    if !NoneOvertaken(trace, actions, n + 1) {
      var m: nat, q :| Overtakes(trace, actions, m, q, n + 1);
      assert !Overtakes(trace, actions, m, q, n);
      var k := OvertakenIsOutOfOrder(reducers, start, trace, actions, n, m, q);
      assert after[k].revision > after[|before|].revision;
    } else if exists k: nat :: k < |before| && before[k].revision >= p.revision {
      var k: nat :| k < |before| && before[k].revision >= p.revision;
      var m := LastOvertakes(reducers, start, trace, actions, n, k);
    }
  }

  /**
   * What has been published is in the order of revisions if and only if no publication went past one with a smaller
   * revision that was waiting already and has been published since.
   */
  lemma {:induction false} OrderIff<S, B>(
    reducers: seq<W.Reducer<S, B, Raw>>, start: W.State<S>, trace: seq<State<S, B>>, actions: seq<Action<S, B>>,
    n: nat)
    requires Run(reducers, start, trace, actions) && n <= |actions|
    ensures Increasing(trace[n].published) <==> NoneOvertaken(trace, actions, n)
  {
    if n > 0 {
      OrderIff(reducers, start, trace, actions, n - 1);
      OrderNext(reducers, start, trace, actions, n - 1);
    }
  }

  // ----- A run out of order -----

  type Store = int
  type Batch = int

  /** A reducer that emits one event and a click that emits another. */
  const REDUCERS: seq<W.Reducer<Store, Batch, Raw>> :=
    [(ctx: W.Context, batch: Batch, store: Store) => W.Reduced(store, ctx.local, [Raw(1, 1)], false)]
  const BATCH := W.Op<Store, Batch, Raw>.Apply(0)
  const CLICK := W.Op<Store, Batch, Raw>.Amend((store: Store) => W.Amended(store, [Raw(1, 2)], false))
  const FRESH: W.State<Store> := W.State(0, false, W.LocalRef(0, false), 0)

  const APPLIED := Production(0, 1, [F.Event(1, 1, 1)])
  const CLICKED := Production(1, 2, [F.Event(1, 2, 2)])

  lemma BatchApplies(w: W.State<Store>)
    requires !w.poisoned
    ensures W.Succeeds(REDUCERS, w, BATCH) && Emitted(REDUCERS, w, BATCH) == [Raw(1, 1)]
    ensures W.Do(REDUCERS, w, BATCH) == w.(revision := w.revision + 1)
  {
    assert REDUCERS[..0] == [];
  }

  /**
   * Revisions can reach a subscriber out of order: the loop applies, a click amends and publishes, the loop
   * publishes.
   */
  lemma OrderIsNotPromised() returns (trace: seq<State<Store, Batch>>, actions: seq<Action<Store, Batch>>)
    ensures Run(REDUCERS, FRESH, trace, actions) && |actions| == 5
    ensures trace[5].fanout.stream == [F.Event(1, 2, 2), F.Event(1, 1, 1)]
    ensures !Increasing(trace[5].published)
  {
    var w1, w2 := FRESH.(revision := 1), FRESH.(revision := 2);
    var s0: State<Store, Batch> := State(FRESH, [], {}, [], F.START);
    var s1: State<Store, Batch> := State(w1, [BATCH], {APPLIED}, [], F.START);
    var s2: State<Store, Batch> := State(w2, [BATCH, CLICK], {APPLIED, CLICKED}, [], F.START);
    var s3 := Do(REDUCERS, s2, Action<Store, Batch>.Publish(CLICKED));
    var s4 := Do(REDUCERS, s3, Action<Store, Batch>.Fan(F.End));
    var s5 := Do(REDUCERS, s4, Action<Store, Batch>.Publish(APPLIED));
    BatchApplies(FRESH);
    assert Produced(REDUCERS, s0, BATCH) == APPLIED;
    assert Produced(REDUCERS, s1, CLICK) == CLICKED;
    assert s1.ops + [CLICK] == s2.ops && {APPLIED} + {CLICKED} == s2.waiting;
    trace := [s0, s1, s2, s3, s4, s5];
    actions := [Produce(BATCH), Produce(CLICK), Publish(CLICKED), Fan(F.End), Publish(APPLIED)];
    forall i: nat | i < 5
      ensures Stepped(REDUCERS, trace, actions, i)
    {
    }
    assert s5.published == [CLICKED, APPLIED] && s5.published[0].revision > s5.published[1].revision;
    assert s5.fanout.stream == CLICKED.events + APPLIED.events;
  }
}
