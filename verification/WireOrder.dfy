/**
 * Clicks that are recorded in one order and sent in another. client.Click takes a sequence number, records and sends
 * in three steps with nothing held across them, so two callers can overtake each other between any two of them; the
 * server answers in the order of the wire, and the store takes answers in the order of the recording.
 */
module WireOrder {
  import opened Options
  import opened ClickLog
  import opened ClickRuns
  import opened ServerRuns
  import opened UnsentClicks
  import opened Verdicts

  /** How many answers have come in before n. */
  ghost function Answers(ops: seq<Op>, n: nat): nat
    requires n <= |ops|
  {
    if n == 0 then 0 else Answers(ops, n - 1) + if ops[n - 1].Confirm? then 1 else 0
  }

  /** Operation n accepts the click that is next on the wire, which has been made by then. */
  ghost predicate AnswersNext(ops: seq<Op>, wire: seq<nat>, n: nat)
    requires n < |ops|
  {
    ops[n].Confirm? ==>
      && Answers(ops, n) < |wire|
      && var t := wire[Answers(ops, n)];
         t < n && ops[t].Click? && ops[t].sequence == ops[n].sequence
  }

  /**
   * A run of clicks, no two with one sequence, and of a server that rejects nothing, ends no window and accepts the
   * clicks in the order they were sent, whatever it writes in between: `wire` names each sent click by its position
   * in the run.
   */
  ghost predicate AcceptedRun(trace: seq<State>, ops: seq<Op>, wire: seq<nat>) {
    && AnyRun(trace, ops)
    && (forall n :: 0 <= n < |ops| ==> !ops[n].Reject? && !ops[n].Closed? && !ops[n].Superseded?)
    && (forall s, t :: 0 <= s < t < |ops| && ops[s].Click? && ops[t].Click? ==> ops[s].sequence != ops[t].sequence)
    && (forall i, j :: 0 <= i < j < |wire| ==> wire[i] != wire[j])
    && forall n :: 0 <= n < |ops| ==> AnswersNext(ops, wire, n)
  }

  /** The click at position t found room in the queue. */
  ghost predicate Recorded(trace: seq<State>, ops: seq<Op>, t: nat) {
    t < |ops| < |trace| && ops[t].Click? && |trace[t].pending| < MAX_PENDING
  }

  /** Click u was recorded before number j of the wire and not sent before it. */
  ghost predicate Overtakes(trace: seq<State>, ops: seq<Op>, wire: seq<nat>, j: nat, u: nat) {
    j < |wire| && Recorded(trace, ops, wire[j]) && Recorded(trace, ops, u) && u < wire[j] && u !in wire[..j]
  }

  /** What answer n would do to the world. */
  ghost predicate PoisonsAt(trace: seq<State>, ops: seq<Op>, n: nat) {
    n < |ops| < |trace| && ops[n].Confirm? && Fails(trace[n], Transaction(true, ops[n].sequence))
  }

  /** So far in order: what waits is exactly what has been recorded and not yet been answered. */
  ghost predicate InOrder(trace: seq<State>, ops: seq<Op>, wire: seq<nat>, n: nat)
    requires n <= |ops| < |trace|
  {
    && Answers(ops, n) <= |wire|
    && forall t: nat :: t in Unanswered(trace, ops, n) <==>
                          t < n && Recorded(trace, ops, t) && t !in wire[..Answers(ops, n)]
  }

  lemma ClickKeepsOrder(trace: seq<State>, ops: seq<Op>, wire: seq<nat>, n: nat)
    requires AcceptedRun(trace, ops, wire) && n < |ops| && !ops[n].Confirm? && InOrder(trace, ops, wire, n)
    requires forall j :: 0 <= j < Answers(ops, n) ==> wire[j] < n
    ensures InOrder(trace, ops, wire, n + 1)
  {
    var clicks, answered := Unanswered(trace, ops, n), wire[..Answers(ops, n)];
    assert n !in answered;
    forall t: nat
      ensures t in Unanswered(trace, ops, n + 1) <==> t < n + 1 && Recorded(trace, ops, t) && t !in answered
    {
      assert t in clicks + [n] <==> t in clicks || t == n;
    }
  }

  /** The answered clicks have all been made. */
  lemma {:induction false} AnsweredWereMade(trace: seq<State>, ops: seq<Op>, wire: seq<nat>, n: nat)
    requires AcceptedRun(trace, ops, wire) && n <= |ops|
    ensures Answers(ops, n) <= |wire| && forall j :: 0 <= j < Answers(ops, n) ==> wire[j] < n
  {
    if n > 0 {
      AnsweredWereMade(trace, ops, wire, n - 1);
      assert AnswersNext(ops, wire, n - 1);
    }
  }

  /** An answer is out of turn exactly when its click overtook one that still waits. */
  lemma PoisonsIffOvertook(trace: seq<State>, ops: seq<Op>, wire: seq<nat>, n: nat)
    requires AcceptedRun(trace, ops, wire) && n < |ops| && ops[n].Confirm? && InOrder(trace, ops, wire, n)
    ensures PoisonsAt(trace, ops, n) <==> exists u: nat :: Overtakes(trace, ops, wire, Answers(ops, n), u)
  {
    var j, ps, clicks := Answers(ops, n), trace[n].pending, Unanswered(trace, ops, n);
    assert AnswersNext(ops, wire, n);
    var t, at := wire[j], IndexOf(ps, ops[n].sequence);
    QueueNames(trace, ops, n);
    IndexOfIsFirst(ps, ops[n].sequence);
    if at > 0 {
      assert clicks[at] == t;
      assert clicks[0] in clicks;
      assert clicks[at] in clicks;
      assert Overtakes(trace, ops, wire, j, clicks[0]);
    }
    if exists u: nat :: Overtakes(trace, ops, wire, j, u) {
      var u: nat :| Overtakes(trace, ops, wire, j, u);
      NotYetAnswered(wire, j);
      assert t in clicks && u in clicks;
      var k :| 0 <= k < |clicks| && clicks[k] == u;
      var i :| 0 <= i < |clicks| && clicks[i] == t;
      assert ps[i].sequence == ops[n].sequence;
    }
  }

  lemma NotYetAnswered(wire: seq<nat>, j: nat)
    requires j < |wire| && forall i, k :: 0 <= i < k < |wire| ==> wire[i] != wire[k]
    ensures wire[j] !in wire[..j] && forall t :: t in wire[..j + 1] <==> t in wire[..j] || t == wire[j]
  {
    assert wire[..j + 1] == wire[..j] + [wire[j]];
  }

  lemma AnswerKeepsOrder(trace: seq<State>, ops: seq<Op>, wire: seq<nat>, n: nat)
    requires AcceptedRun(trace, ops, wire) && n < |ops| && ops[n].Confirm? && InOrder(trace, ops, wire, n)
    requires !PoisonsAt(trace, ops, n)
    ensures InOrder(trace, ops, wire, n + 1)
  {
    var j, ps, clicks := Answers(ops, n), trace[n].pending, Unanswered(trace, ops, n);
    assert AnswersNext(ops, wire, n);
    NotYetAnswered(wire, j);
    QueueNames(trace, ops, n);
    IndexOfIsFirst(ps, ops[n].sequence);
    ConfirmInAnyRun(trace, ops, n);
    if IndexOf(ps, ops[n].sequence) == 0 {
      assert clicks[0] == wire[j];
      assert forall t :: t in clicks[1..] <==> t in clicks && t != clicks[0];
    } else {
      NobodyCarries(trace, ops, n, ops[n].sequence);
      assert wire[j] !in clicks;
    }
  }

  ghost predicate NonePoisons(trace: seq<State>, ops: seq<Op>, n: nat) {
    forall k: nat :: k < n ==> !PoisonsAt(trace, ops, k)
  }

  lemma {:induction false} InOrderUntilPoisoned(trace: seq<State>, ops: seq<Op>, wire: seq<nat>, n: nat)
    requires AcceptedRun(trace, ops, wire) && n <= |ops| && NonePoisons(trace, ops, n)
    ensures InOrder(trace, ops, wire, n)
  {
    if n > 0 {
      InOrderUntilPoisoned(trace, ops, wire, n - 1);
      AnsweredWereMade(trace, ops, wire, n - 1);
      if ops[n - 1].Confirm? {
        AnswerKeepsOrder(trace, ops, wire, n - 1);
      } else {
        ClickKeepsOrder(trace, ops, wire, n - 1);
      }
    }
  }

  /** The position of answer number j. */
  lemma {:induction false} AnswerAt(ops: seq<Op>, j: nat, n: nat) returns (k: nat)
    requires n <= |ops| && j < Answers(ops, n)
    ensures k < n && ops[k].Confirm? && Answers(ops, k) == j
  {
    if j == Answers(ops, n - 1) {
      k := n - 1;
    } else {
      k := AnswerAt(ops, j, n - 1);
    }
  }

  lemma {:induction false} AnswersGrow(ops: seq<Op>, k: nat, n: nat)
    requires k <= n <= |ops|
    ensures Answers(ops, k) <= Answers(ops, n)
    decreases n
  {
    if k < n {
      AnswersGrow(ops, k, n - 1);
    }
  }

  /**
   * A server that accepts every click, in the order it is sent them, poisons the world if and only if a click it has
   * answered was recorded after one that was sent after it, or has not been sent yet.
   */
  lemma AcceptancePoisonsIff(trace: seq<State>, ops: seq<Op>, wire: seq<nat>)
    requires AcceptedRun(trace, ops, wire)
    ensures (exists n: nat :: PoisonsAt(trace, ops, n)) <==>
            exists j: nat, u: nat :: j < Answers(ops, |ops|) && Overtakes(trace, ops, wire, j, u)
  {
    if exists n: nat :: PoisonsAt(trace, ops, n) {
      var n := FirstPoison(trace, ops);
      InOrderUntilPoisoned(trace, ops, wire, n);
      PoisonsIffOvertook(trace, ops, wire, n);
      AnswersGrow(ops, n + 1, |ops|);
      var u: nat :| Overtakes(trace, ops, wire, Answers(ops, n), u);
      assert Answers(ops, n) < Answers(ops, |ops|);
    } else if exists j: nat, u: nat :: j < Answers(ops, |ops|) && Overtakes(trace, ops, wire, j, u) {
      var j: nat, u: nat :| j < Answers(ops, |ops|) && Overtakes(trace, ops, wire, j, u);
      var n := AnswerAt(ops, j, |ops|);
      InOrderUntilPoisoned(trace, ops, wire, n);
      PoisonsIffOvertook(trace, ops, wire, n);
    }
  }

  lemma FirstPoison(trace: seq<State>, ops: seq<Op>) returns (n: nat)
    requires exists k: nat :: PoisonsAt(trace, ops, k)
    ensures PoisonsAt(trace, ops, n) && NonePoisons(trace, ops, n)
  {
    n := 0;
    while !PoisonsAt(trace, ops, n)
      invariant NonePoisons(trace, ops, n) && n <= |ops|
      decreases |ops| - n
    {
      n := n + 1;
    }
  }

  // ----- Two callers -----

  const HAND := Some(Cursor(None, false))

  function Waiting(cursorSent: bool, pending: seq<Pending>): State {
    START.(cursorSent := cursorSent, pending := pending)
  }

  lemma NothingClicked(sequence: int, cursorSent: bool, pending: seq<Pending>) returns (p: Pending)
    requires |pending| < MAX_PENDING
    ensures Step(Waiting(cursorSent, pending), Click(sequence, 0, [], [], HAND), Waiting(true, pending + [p]))
    ensures p.sequence == sequence
  {
    p := TakeSnapshot(START.view, sequence, 0, []);
  }

  const FIRST := Click(1, 0, [], [], HAND)
  const SECOND := Click(2, 0, [], [], HAND)

  lemma BothRecorded() returns (p: Pending, q: Pending)
    ensures Step(START, FIRST, Waiting(true, [p])) && Step(Waiting(true, [p]), SECOND, Waiting(true, [p, q]))
    ensures ConfirmVerdict(Waiting(true, [p, q]), 2) == OutOfOrder
  {
    p := NothingClicked(1, false, []);
    q := NothingClicked(2, true, [p]);
    assert [] + [p] == [p] && [p] + [q] == [p, q];
    assert IndexOf([q], 2) == 0;
    assert [p, q][0].sequence == 1 && [p, q][1..] == [q] && IndexOf([p, q], 2) == 1;
  }

  /** Two clicks on nothing, the second sent first: its acceptance poisons the world. */
  lemma SwappedSends() returns (trace: seq<State>, ops: seq<Op>, wire: seq<nat>)
    ensures AcceptedRun(trace, ops, wire) && PoisonsAt(trace, ops, 2) && |ops| == 3
  {
    var p, q := BothRecorded();
    ops := [FIRST, SECOND, Confirm(2)];
    trace := [START, Waiting(true, [p]), Waiting(true, [p, q]), Waiting(true, [p, q])];
    wire := [1, 0];
    forall i: nat | i < 3
      ensures Stepped(trace, ops, i)
    {
    }
    assert Answers(ops, 0) == Answers(ops, 1) == Answers(ops, 2) == 0;
  }
}
