/** The world's revision counter, poisoning and snapshots: world/world.go. */
module Worlds {
  import opened Options

  datatype LocalRef = LocalRef(entityID: int, known: bool)

  /** What a reducer knows beyond its own state; `local` is how one reducer tells the ones after it. */
  datatype Context = Context(revision: nat, local: LocalRef)

  /** A reducer's effect: on success and on failure alike it may have changed the store and emitted events. */
  datatype Reduced<S, E> = Reduced(store: S, local: LocalRef, events: seq<E>, failed: bool)

  type Reducer<!S, !B, E> = (Context, B, S) -> Reduced<S, E>

  /** A client-side mutation's effect. */
  datatype Amended<S, E> = Amended(store: S, events: seq<E>, failed: bool)

  datatype State<S> = State(revision: nat, poisoned: bool, local: LocalRef, store: S)

  /** Every reducer in registration order, stopping at the first that fails. */
  function Reduce<S, B, E>(reducers: seq<Reducer<S, B, E>>, revision: nat, local: LocalRef, batch: B, store: S)
    : Reduced<S, E>
    decreases |reducers|
  {
    if reducers == [] then Reduced(store, local, [], false)
    else
      var before := Reduce(reducers[..|reducers| - 1], revision, local, batch, store);
      if before.failed then before
      else
        var r := reducers[|reducers| - 1](Context(revision, before.local), batch, before.store);
        r.(events := before.events + r.events)
  }

  function ApplyStep<S, B, E>(reducers: seq<Reducer<S, B, E>>, w: State<S>, batch: B): State<S> {
    if w.poisoned then w
    else
      var r := Reduce(reducers, w.revision + 1, w.local, batch, w.store);
      if r.failed then w.(poisoned := true, store := r.store)
      else State(w.revision + 1, false, r.local, r.store)
  }

  /** A reducer sees the store and the local player as the one before it left them, and they fail one by one. */
  lemma ReducersInOrder<S, B, E>(
    first: Reducer<S, B, E>, second: Reducer<S, B, E>, revision: nat, local: LocalRef, batch: B, store: S)
    ensures var a := first(Context(revision, local), batch, store);
            var b := second(Context(revision, a.local), batch, a.store);
            Reduce([first, second], revision, local, batch, store) ==
            if a.failed then a else Reduced(b.store, b.local, a.events + b.events, b.failed)
  {
    assert [first, second][..1] == [first] && [first][..0] == [];
    assert Reduce([first], revision, local, batch, store) == first(Context(revision, local), batch, store);
  }

  /**
   * A batch is reduced at the next revision, starting from the local player the batch before it left; its failure
   * keeps the revision and the local player, and whatever it has done to the store.
   */
  lemma BatchesInOrder<S, B, E>(r: Reducer<S, B, E>, w: State<S>, batch: B)
    requires !w.poisoned
    ensures var a := r(Context(w.revision + 1, w.local), batch, w.store);
            ApplyStep([r], w, batch) == if a.failed then State(w.revision, true, w.local, a.store)
                                        else State(w.revision + 1, false, a.local, a.store)
  {
    assert [r][..0] == [];
    assert Reduce([r], w.revision + 1, w.local, batch, w.store) == r(Context(w.revision + 1, w.local), batch, w.store);
  }

  function AmendStep<S, E>(w: State<S>, mutate: S -> Amended<S, E>): State<S> {
    if w.poisoned then w
    else
      var r := mutate(w.store);
      if r.failed then w.(store := r.store) else w.(revision := w.revision + 1, store := r.store)
  }

  /** A read of the whole world: nothing once poisoned. */
  function Snapshot<S>(w: State<S>): Option<(nat, S)> {
    if w.poisoned then None else Some((w.revision, w.store))
  }

  datatype Stamped<E> = Stamped(event: E, revision: nat)

  class World<S(==), B, E> {
    const reducers: seq<Reducer<S, B, E>>
    var revision: nat
    var poisoned: bool
    var started: bool
    var local: LocalRef
    var store: S

    ghost function Abs(): State<S>
      reads this
    {
      State(revision, poisoned, local, store)
    }

    constructor (reducers: seq<Reducer<S, B, E>>, store: S)
      ensures Abs() == State(0, false, LocalRef(0, false), store) && this.reducers == reducers && !started
    {
      this.reducers, this.store := reducers, store;
      revision, poisoned, started, local := 0, false, false, LocalRef(0, false);
    }

    /** One batch through every reducer. The events come back in emission order, all to be stamped alike. */
    method Apply(batch: B) returns (stamp: nat, events: seq<E>, ok: bool)
      modifies this
      ensures Abs() == ApplyStep(reducers, old(Abs()), batch)
      ensures ok <==> !poisoned
      ensures stamp == revision
      ensures ok ==> stamp == old(revision) + 1 &&
                     events == Reduce(reducers, stamp, old(local), batch, old(store)).events
      ensures started <==> old(started) || !old(poisoned)
    {
      events := [];
      if poisoned {
        return revision, events, false;
      }
      started := true;
      var now := local;
      for i := 0 to |reducers|
        invariant revision == old(revision) && local == old(local) && !poisoned && started
        invariant Reduce(reducers[..i], revision + 1, old(local), batch, old(store)) ==
                  Reduced(store, now, events, false)
      {
        assert reducers[..i + 1][..i] == reducers[..i];
        var r := reducers[i](Context(revision + 1, now), batch, store);
        store, now, events := r.store, r.local, events + r.events;
        if r.failed {
          poisoned := true;
          FailureStops(reducers, i + 1, revision + 1, old(local), batch, old(store));
          return revision, events, false;
        }
      }
      assert reducers[..|reducers|] == reducers;
      revision, local := revision + 1, now;
      return revision, events, true;
    }

    /** One client-side mutation under the same lock, its events stamped with the revision it produced. */
    method Amend(mutate: S -> Amended<S, E>) returns (events: seq<Stamped<E>>, ok: bool)
      modifies this
      ensures Abs() == AmendStep(old(Abs()), mutate)
      ensures ok <==> !old(poisoned) && !mutate(old(store)).failed
      ensures ok ==> |events| == |mutate(old(store)).events| &&
                     forall i :: 0 <= i < |events| ==> events[i] == Stamped(mutate(old(store)).events[i], revision)
    {
      if poisoned {
        return [], false;
      }
      var r := mutate(store);
      store := r.store;
      if r.failed {
        return [], false;
      }
      revision := revision + 1;
      var stamp := revision;
      return seq(|r.events|, i requires 0 <= i < |r.events| => Stamped(r.events[i], stamp)), true;
    }

    method SnapshotErr() returns (snapshot: Option<(nat, S)>)
      ensures snapshot == Snapshot(Abs())
    {
      snapshot := if poisoned then None else Some((revision, store));
    }
  }

  lemma {:induction false} FailureStops<S, B, E>(
    reducers: seq<Reducer<S, B, E>>, n: nat, revision: nat, local: LocalRef, batch: B, store: S)
    requires n <= |reducers| && Reduce(reducers[..n], revision, local, batch, store).failed
    ensures Reduce(reducers, revision, local, batch, store) == Reduce(reducers[..n], revision, local, batch, store)
    decreases |reducers|
  {
    if n == |reducers| {
      assert reducers[..n] == reducers;
    } else {
      assert reducers[..|reducers| - 1][..n] == reducers[..n];
      FailureStops(reducers[..|reducers| - 1], n, revision, local, batch, store);
    }
  }

  // ----- Runs -----

  datatype Op<!S, B, E> = Apply(batch: B) | Amend(mutate: S -> Amended<S, E>)

  function Do<S, B, E>(reducers: seq<Reducer<S, B, E>>, w: State<S>, op: Op<S, B, E>): State<S> {
    match op
    case Apply(batch) => ApplyStep(reducers, w, batch)
    case Amend(mutate) => AmendStep(w, mutate)
  }

  function RunAll<S, B, E>(reducers: seq<Reducer<S, B, E>>, start: State<S>, ops: seq<Op<S, B, E>>): State<S>
    decreases |ops|
  {
    if ops == [] then start else Do(reducers, RunAll(reducers, start, ops[..|ops| - 1]), ops[|ops| - 1])
  }

  /** Whether the operation, in that state, succeeds as a whole. */
  predicate Succeeds<S, B, E>(reducers: seq<Reducer<S, B, E>>, w: State<S>, op: Op<S, B, E>) {
    && !w.poisoned
    && match op
       case Apply(batch) => !Reduce(reducers, w.revision + 1, w.local, batch, w.store).failed
       case Amend(mutate) => !mutate(w.store).failed
  }

  function Successes<S, B, E>(reducers: seq<Reducer<S, B, E>>, start: State<S>, ops: seq<Op<S, B, E>>): nat
    decreases |ops|
  {
    if ops == [] then 0
    else
      var init := ops[..|ops| - 1];
      Successes(reducers, start, init)
      + if Succeeds(reducers, RunAll(reducers, start, init), ops[|ops| - 1]) then 1 else 0
  }

  /** The store as whole operations leave it: each batch entirely reduced or absent, each refused mutation absent. */
  function Whole<S, B, E>(reducers: seq<Reducer<S, B, E>>, start: State<S>, ops: seq<Op<S, B, E>>): S
    decreases |ops|
  {
    if ops == [] then start.store
    else
      var init, op := ops[..|ops| - 1], ops[|ops| - 1];
      var w := RunAll(reducers, start, init);
      var before := Whole(reducers, start, init);
      if !Succeeds(reducers, w, op) then before
      else
        match op
        case Apply(batch) => Reduce(reducers, w.revision + 1, w.local, batch, before).store
        case Amend(mutate) => mutate(before).store
  }

  /** A mutation that refuses does so before it mutates. */
  ghost predicate RefusesCleanly<S(!new), B, E>(op: Op<S, B, E>) {
    op.Amend? ==> forall s :: op.mutate(s).failed ==> op.mutate(s).store == s
  }

  /**
   * In every run the revision counts the operations that succeeded, and a snapshot - which exists until the
   * first reducer failure and never after - shows whole operations only.
   */
  lemma {:induction false} SnapshotsAreWhole<S(!new), B, E>(
    reducers: seq<Reducer<S, B, E>>, start: State<S>, ops: seq<Op<S, B, E>>)
    requires !start.poisoned && start.revision == 0
    requires forall i :: 0 <= i < |ops| ==> RefusesCleanly(ops[i])
    ensures var w := RunAll(reducers, start, ops);
            && w.revision == Successes(reducers, start, ops)
            && (Snapshot(w).Some? ==>
                  Snapshot(w).value == (Successes(reducers, start, ops), Whole(reducers, start, ops)))
    decreases |ops|
  {
    if ops != [] {
      SnapshotsAreWhole(reducers, start, ops[..|ops| - 1]);
      assert RefusesCleanly(ops[|ops| - 1]);
    }
  }

  /** A poisoned world stays exactly as it is, whatever is asked of it. */
  lemma {:induction false} PoisonAbsorbs<S, B, E>(
    reducers: seq<Reducer<S, B, E>>, start: State<S>, ops: seq<Op<S, B, E>>, n: nat)
    requires n <= |ops| && RunAll(reducers, start, ops[..n]).poisoned
    ensures RunAll(reducers, start, ops) == RunAll(reducers, start, ops[..n])
    ensures Snapshot(RunAll(reducers, start, ops)).None?
    decreases |ops|
  {
    if n == |ops| {
      assert ops[..n] == ops;
    } else {
      assert ops[..|ops| - 1][..n] == ops[..n];
      PoisonAbsorbs(reducers, start, ops[..|ops| - 1], n);
    }
  }
}

/** The server's answer to a click, inside a batch: the transaction case of internal/adapter/v1_8/reduce.go. */
module Verdicts {
  import opened Worlds
  import ClickLog

  datatype Transaction = Transaction(accepted: bool, sequence: int)

  type Store = ClickLog.State

  function Resolve(st: Store, t: Transaction): (Store, ClickLog.Verdict) {
    if t.accepted then (ClickLog.ConfirmStep(st, t.sequence), ClickLog.ConfirmVerdict(st, t.sequence))
    else (ClickLog.RejectStep(st, t.sequence), ClickLog.RejectVerdict(st, t.sequence))
  }

  /** An unknown sequence answers a click nobody is waiting on and is no error; any other failure is. */
  predicate Fails(st: Store, t: Transaction) {
    var verdict := Resolve(st, t).1;
    verdict != ClickLog.Resolved && verdict != ClickLog.UnknownSequence
  }

  /** The transactions of one batch in order, up to the first that fails. */
  function ResolveAll(st: Store, ts: seq<Transaction>): (Store, bool)
    decreases |ts|
  {
    if ts == [] then (st, false)
    else if Fails(st, ts[0]) then (Resolve(st, ts[0]).0, true)
    else ResolveAll(Resolve(st, ts[0]).0, ts[1..])
  }

  function ResolveReducer(ctx: Context, ts: seq<Transaction>, st: Store): Reduced<Store, int> {
    var (st', failed) := ResolveAll(st, ts);
    Reduced(st', ctx.local, [], failed)
  }

  /** The store when transaction i of the batch has its turn, if none before it failed. */
  function AtTurn(st: Store, ts: seq<Transaction>, i: nat): Store
    requires i <= |ts|
    decreases i
  {
    if i == 0 then st else AtTurn(Resolve(st, ts[0]).0, ts[1..], i - 1)
  }

  /** Transaction i accepts a click that is pending behind another. */
  ghost predicate OutOfTurn(st: Store, ts: seq<Transaction>, i: nat) {
    i < |ts| && ts[i].accepted && ClickLog.IndexOf(AtTurn(st, ts, i).pending, ts[i].sequence) > 0
  }

  lemma OutOfTurnTail(st: Store, ts: seq<Transaction>, i: nat)
    requires 0 < i < |ts|
    ensures OutOfTurn(st, ts, i) <==> OutOfTurn(Resolve(st, ts[0]).0, ts[1..], i - 1)
  {
  }

  lemma {:induction false} ResolveAllIs(st: Store, ts: seq<Transaction>) returns (n: nat)
    ensures n <= |ts| && ResolveAll(st, ts) == (AtTurn(st, ts, n), n < |ts|)
    ensures n < |ts| ==> OutOfTurn(st, ts, n)
    ensures forall i: nat :: i < n ==> !OutOfTurn(st, ts, i)
    decreases |ts|
  {
    if ts == [] || Fails(st, ts[0]) {
      return 0;
    }
    var st1 := Resolve(st, ts[0]).0;
    var rest := ResolveAllIs(st1, ts[1..]);
    n := rest + 1;
    if n < |ts| {
      OutOfTurnTail(st, ts, n);
    }
    forall i: nat | i < n
      ensures !OutOfTurn(st, ts, i)
    {
      if i > 0 {
        OutOfTurnTail(st, ts, i);
      }
    }
  }

  lemma BatchApplied(w: State<Store>, ts: seq<Transaction>)
    requires !w.poisoned
    ensures var w' := ApplyStep([ResolveReducer], w, ts);
            && (w'.store, w'.poisoned) == ResolveAll(w.store, ts)
            && w'.revision == (w.revision + if w'.poisoned then 0 else 1)
  {
    assert [ResolveReducer][..0] == [];
    assert Reduce([ResolveReducer], w.revision + 1, w.local, ts, w.store) ==
           ResolveReducer(Context(w.revision + 1, w.local), ts, w.store);
  }

  /** Transaction i is the first to accept out of turn. */
  ghost predicate FirstOutOfTurn(st: Store, ts: seq<Transaction>, i: nat) {
    OutOfTurn(st, ts, i) && forall j: nat :: j < i ==> !OutOfTurn(st, ts, j)
  }

  /**
   * A batch of verdicts poisons the world exactly when one of them, at its turn, accepts a click that is pending
   * behind another. The store is then as the verdicts before that one left it, and otherwise as all of them do; a
   * verdict nobody waits for changes no click.
   */
  lemma VerdictsPoisonIff(w: State<Store>, ts: seq<Transaction>)
    requires !w.poisoned
    ensures var w' := ApplyStep([ResolveReducer], w, ts);
            && (w'.poisoned <==> exists i: nat :: OutOfTurn(w.store, ts, i))
            && w'.revision == (w.revision + if w'.poisoned then 0 else 1)
            && (!w'.poisoned ==> w'.store == AtTurn(w.store, ts, |ts|))
            && (w'.poisoned ==> exists i: nat :: FirstOutOfTurn(w.store, ts, i) && w'.store == AtTurn(w.store, ts, i))
  {
    BatchApplied(w, ts);
    var n := ResolveAllIs(w.store, ts);
    if n < |ts| {
      assert FirstOutOfTurn(w.store, ts, n);
    }
  }

  lemma UnknownChangesNothing(st: Store, t: Transaction)
    requires ClickLog.IndexOf(st.pending, t.sequence) < 0
    ensures Resolve(st, t).0 == st && !Fails(st, t)
  {
  }

  /** Rolling back a click that never reached the wire, as the client amends the world with it. */
  function RollBack(sequence: int): Store -> Amended<Store, int> {
    (st: Store) => Amended(ClickLog.RejectStep(st, sequence), [],
                           ClickLog.RejectVerdict(st, sequence) != ClickLog.Resolved)
  }

  /** It refuses before it mutates, as the world's amendments assume. */
  lemma RollBackRefusesCleanly(sequence: int)
    ensures RefusesCleanly<Store, Transaction, int>(Op.Amend(RollBack(sequence)))
  {
    forall st: Store
      ensures RollBack(sequence)(st).failed ==> RollBack(sequence)(st).store == st
    {
      assert RollBack(sequence)(st).failed <==> ClickLog.IndexOf(st.pending, sequence) < 0;
    }
  }
}
