/**
 * A click that is recorded, fails to reach the wire, and is taken back - with anything at all happening to the store
 * between the recording and the taking back, which client.Click does under two separate locks.
 */
module UnsentClicks {
  import opened ClickLog
  import opened ClickRuns
  import opened ServerRuns

  /** Operation j ends the wait of the click at position t, should it be waiting. */
  ghost predicate Ends(trace: seq<State>, ops: seq<Op>, t: nat, j: nat)
    requires t < |ops| < |trace| && j < |ops| && ops[t].Click?
  {
    var clicks := Unanswered(trace, ops, j);
    match ops[j]
    case Confirm(sequence) => clicks != [] && clicks[0] == t && ops[t].sequence == sequence
    case Reject(sequence) =>
      exists u :: u in clicks && u <= t && u < |ops| && ops[u].Click? && ops[u].sequence == sequence
    case Closed(window) => window == ops[t].window && window in trace[j].view.menus
    case Superseded(window) => window == ops[t].window
    case _ => false
  }

  /** The queue's records carry the sequences of the clicks that wait. */
  lemma QueueNames(trace: seq<State>, ops: seq<Op>, n: nat)
    requires AnyRun(trace, ops) && n <= |ops|
    ensures var ps, clicks := trace[n].pending, Unanswered(trace, ops, n);
            && |ps| == |clicks| && Ascending(clicks, n)
            && forall k :: 0 <= k < |clicks| ==>
                             clicks[k] < |ops| && ops[clicks[k]].Click? && ps[k].sequence == ops[clicks[k]].sequence
  {
    QueueIsUnanswered(trace, ops, n);
    UnansweredBelow(trace, ops, n);
    forall k | 0 <= k < |trace[n].pending|
      ensures var t := Unanswered(trace, ops, n)[k];
              t < |ops| && ops[t].Click? && trace[n].pending[k].sequence == ops[t].sequence
    {
      assert TakenBy(trace, ops, trace[n].pending[k], Unanswered(trace, ops, n)[k]);
    }
  }

  lemma {:induction false} ElsewhereKeeps(clicks: seq<nat>, ops: seq<Op>, window: int, t: nat)
    ensures t in ClicksElsewhere(clicks, ops, window) <==> t in clicks && !ClickIn(ops, t, window)
    decreases |clicks|
  {
    if clicks != [] {
      ElsewhereKeeps(clicks[..|clicks| - 1], ops, window, t);
      assert clicks == clicks[..|clicks| - 1] + [clicks[|clicks| - 1]];
    }
  }

  lemma ConfirmEnds(trace: seq<State>, ops: seq<Op>, t: nat, j: nat)
    requires AnyRun(trace, ops) && j < |ops| && ops[j].Confirm?
    requires t in Unanswered(trace, ops, j) && t < |ops| && ops[t].Click?
    ensures t in Unanswered(trace, ops, j + 1) <==> !Ends(trace, ops, t, j)
  {
    var clicks := Unanswered(trace, ops, j);
    QueueNames(trace, ops, j);
    ConfirmInAnyRun(trace, ops, j);
    assert t in clicks[1..] <==> t != clicks[0];
  }

  lemma RejectEnds(trace: seq<State>, ops: seq<Op>, t: nat, j: nat)
    requires AnyRun(trace, ops) && j < |ops| && ops[j].Reject?
    requires t in Unanswered(trace, ops, j) && t < |ops| && ops[t].Click?
    ensures t in Unanswered(trace, ops, j + 1) <==> !Ends(trace, ops, t, j)
  {
    var clicks := Unanswered(trace, ops, j);
    var at := IndexOf(trace[j].pending, ops[j].sequence);
    QueueNames(trace, ops, j);
    IndexOfIsFirst(trace[j].pending, ops[j].sequence);
    if at >= 0 {
      BeforeIff(clicks, j, at, t);
      assert clicks[at] in clicks && ops[clicks[at]].sequence == ops[j].sequence;
      FirstCarrier(trace, ops, j, at);
    } else {
      NobodyCarries(trace, ops, j, ops[j].sequence);
    }
  }

  /** Of clicks in order, those before place `at` are those made before the one there. */
  lemma BeforeIff(clicks: seq<nat>, n: nat, at: nat, t: nat)
    requires Ascending(clicks, n) && at < |clicks|
    ensures t in clicks[..at] <==> t in clicks && t < clicks[at]
  {
    if t in clicks {
      var k :| 0 <= k < |clicks| && clicks[k] == t;
      assert k < at ==> clicks[..at][k] == t;
    }
  }

  lemma FirstCarrier(trace: seq<State>, ops: seq<Op>, n: nat, at: nat)
    requires AnyRun(trace, ops) && n < |ops| && ops[n].Reject? && at == IndexOf(trace[n].pending, ops[n].sequence)
    requires at < |Unanswered(trace, ops, n)|
    ensures var clicks := Unanswered(trace, ops, n);
            forall u :: u in clicks && u < clicks[at] ==>
                          u < |ops| && ops[u].Click? && ops[u].sequence != ops[n].sequence
  {
    var clicks := Unanswered(trace, ops, n);
    QueueNames(trace, ops, n);
    IndexOfIsFirst(trace[n].pending, ops[n].sequence);
    forall u | u in clicks && u < clicks[at]
      ensures u < |ops| && ops[u].Click? && ops[u].sequence != ops[n].sequence
    {
      var k :| 0 <= k < |clicks| && clicks[k] == u;
      assert k < at && trace[n].pending[k].sequence != ops[n].sequence;
    }
  }

  /** A waiting click stops waiting exactly when an operation ends its wait. */
  lemma EndsIff(trace: seq<State>, ops: seq<Op>, t: nat, j: nat)
    requires AnyRun(trace, ops) && j < |ops|
    requires t in Unanswered(trace, ops, j) && t < |ops| && ops[t].Click?
    ensures t in Unanswered(trace, ops, j + 1) <==> !Ends(trace, ops, t, j)
  {
    match ops[j]
    case Confirm(_) => ConfirmEnds(trace, ops, t, j);
    case Reject(_) => RejectEnds(trace, ops, t, j);
    case Closed(window) => ElsewhereKeeps(Unanswered(trace, ops, j), ops, window, t);
    case Superseded(window) => ElsewhereKeeps(Unanswered(trace, ops, j), ops, window, t);
    case _ =>
  }

  /** The click's wait has not ended by n. */
  ghost predicate Undisturbed(trace: seq<State>, ops: seq<Op>, t: nat, n: nat)
    requires t < |ops| < |trace| && n <= |ops| && ops[t].Click?
  {
    forall j :: t < j < n ==> !Ends(trace, ops, t, j)
  }

  lemma JustWaits(trace: seq<State>, ops: seq<Op>, t: nat)
    requires AnyRun(trace, ops) && t < |ops| && ops[t].Click?
    ensures t in Unanswered(trace, ops, t + 1) <==> |trace[t].pending| < MAX_PENDING
  {
    UnansweredBelow(trace, ops, t);
    assert t !in Unanswered(trace, ops, t);
  }

  lemma StillWaits(trace: seq<State>, ops: seq<Op>, t: nat, n: nat)
    requires AnyRun(trace, ops) && t < n < |ops| && ops[t].Click?
    ensures t in Unanswered(trace, ops, n + 1) <==> t in Unanswered(trace, ops, n) && !Ends(trace, ops, t, n)
  {
    UnansweredBelow(trace, ops, n);
    OnlyNewClickIsNew(Unanswered(trace, ops, n), trace[n], ops, n);
    if t in Unanswered(trace, ops, n) {
      EndsIff(trace, ops, t, n);
    }
  }

  ghost predicate WaitsUndisturbed(trace: seq<State>, ops: seq<Op>, t: nat, n: nat)
    requires t < |ops| < |trace| && n <= |ops| && ops[t].Click?
  {
    t in Unanswered(trace, ops, n) <==> |trace[t].pending| < MAX_PENDING && Undisturbed(trace, ops, t, n)
  }

  lemma WaitsNext(trace: seq<State>, ops: seq<Op>, t: nat, n: nat)
    requires AnyRun(trace, ops) && t < n < |ops| && ops[t].Click? && WaitsUndisturbed(trace, ops, t, n)
    ensures WaitsUndisturbed(trace, ops, t, n + 1)
  {
    StillWaits(trace, ops, t, n);
    UndisturbedNext(trace, ops, t, n);
  }

  lemma WaitsFirst(trace: seq<State>, ops: seq<Op>, t: nat)
    requires AnyRun(trace, ops) && t < |ops| && ops[t].Click?
    ensures WaitsUndisturbed(trace, ops, t, t + 1)
  {
    JustWaits(trace, ops, t);
  }

  /**
   * In any run a click waits exactly from its recording, which takes room in the queue, to the first operation that
   * ends its wait.
   */
  lemma {:induction false} WaitsIff(trace: seq<State>, ops: seq<Op>, t: nat, n: nat)
    requires AnyRun(trace, ops) && t < n <= |ops| && ops[t].Click?
    ensures WaitsUndisturbed(trace, ops, t, n)
    decreases n
  {
    if n == t + 1 {
      WaitsFirst(trace, ops, t);
    } else {
      WaitsIff(trace, ops, t, n - 1);
      WaitsNext(trace, ops, t, n - 1);
    }
  }

  lemma UndisturbedNext(trace: seq<State>, ops: seq<Op>, t: nat, n: nat)
    requires t < n < |ops| < |trace| && ops[t].Click?
    ensures Undisturbed(trace, ops, t, n + 1) <==> Undisturbed(trace, ops, t, n) && !Ends(trace, ops, t, n)
  {
  }

  /** No click that waits when this one is made, and none made after it, carries its sequence. */
  ghost predicate Unrepeated(trace: seq<State>, ops: seq<Op>, t: nat, n: nat)
    requires t < |ops| < |trace| && n <= |ops| && ops[t].Click?
  {
    && IndexOf(trace[t].pending, ops[t].sequence) < 0
    && forall j :: t < j < n && ops[j].Click? ==> ops[j].sequence != ops[t].sequence
  }

  lemma NobodyCarries(trace: seq<State>, ops: seq<Op>, n: nat, sequence: int)
    requires AnyRun(trace, ops) && n <= |ops| && IndexOf(trace[n].pending, sequence) < 0
    ensures forall u :: u in Unanswered(trace, ops, n) ==>
                          u < |ops| && ops[u].Click? && ops[u].sequence != sequence
  {
    QueueNames(trace, ops, n);
    IndexOfIsFirst(trace[n].pending, sequence);
    forall u | u in Unanswered(trace, ops, n)
      ensures u < |ops| && ops[u].Click? && ops[u].sequence != sequence
    {
      var k :| 0 <= k < |Unanswered(trace, ops, n)| && Unanswered(trace, ops, n)[k] == u;
      assert trace[n].pending[k].sequence != sequence;
    }
  }

  lemma OnlyCarrier(trace: seq<State>, ops: seq<Op>, t: nat, n: nat, u: nat)
    requires AnyRun(trace, ops) && t < n <= |ops| && ops[t].Click? && Unrepeated(trace, ops, t, n)
    requires u in Unanswered(trace, ops, n) && u < |ops| && ops[u].Click? && ops[u].sequence == ops[t].sequence
    ensures u == t
  {
    UnansweredBelow(trace, ops, n);
    NobodyCarries(trace, ops, t, ops[t].sequence);
    if u < t {
      UnansweredSince(trace, ops, u, t, n);
    }
  }

  /**
   * Taking an unsent click back, whatever came in between: while the click still waits, it and the later ones go and
   * the cursor is again what it was just before it; once its wait has ended the store answers that it knows no such
   * click, and stays exactly as it is - the cursor with it.
   */
  lemma TakenBackIff(trace: seq<State>, ops: seq<Op>, t: nat, n: nat)
    requires AnyRun(trace, ops) && t < n < |ops| && ops[t].Click? && ops[n] == Reject(ops[t].sequence)
    requires Unrepeated(trace, ops, t, n)
    ensures var waits := |trace[t].pending| < MAX_PENDING && Undisturbed(trace, ops, t, n);
            && (waits <==> RejectVerdict(trace[n], ops[n].sequence) == Resolved)
            && (waits ==> trace[n + 1].view.cursor == trace[t].view.cursor)
            && (waits ==> forall u :: u in Unanswered(trace, ops, n + 1) <==> u in Unanswered(trace, ops, n) && u < t)
            && (!waits ==> trace[n + 1] == trace[n])
  {
    var ps, clicks, at := trace[n].pending, Unanswered(trace, ops, n), IndexOf(trace[n].pending, ops[n].sequence);
    WaitsIff(trace, ops, t, n);
    QueueNames(trace, ops, n);
    IndexOfIsFirst(ps, ops[n].sequence);
    assert Stepped(trace, ops, n);
    if at >= 0 {
      OnlyCarrier(trace, ops, t, n, clicks[at]);
      CursorInAnyRun(trace, ops, n);
      forall u: nat
        ensures u in clicks[..at] <==> u in clicks && u < t
      {
        BeforeIff(clicks, n, at, u);
      }
    } else {
      NobodyCarries(trace, ops, n, ops[n].sequence);
    }
  }
}
