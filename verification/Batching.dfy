/** Grouping inbound packets at bundle boundaries: version/batch.go. */
module Batching {
  import opened Options

  datatype Packet = Packet(name: string, state: string, value: int)

  datatype Batch = Batch(packets: seq<Packet>, bundled: bool, state: string)

  /** What the batcher carries between packets; `state` is where the open bundle began. */
  datatype State = State(open: bool, state: string, pending: seq<Packet>)

  const START := State(false, "", [])

  datatype Step = Emitted(batch: Batch, next: State) | Held(next: State) | TooLarge

  /** An empty delimiter names a protocol without bundles. */
  function Accepts(delimiter: string, limit: nat, st: State, p: Packet): Step {
    if delimiter == "" then Emitted(Batch([p], false, p.state), st)
    else if p.name == delimiter then
      if !st.open then Held(st.(open := true, state := p.state))
      else Emitted(Batch(st.pending, true, st.state), st.(open := false, pending := []))
    else if !st.open then Emitted(Batch([p], false, p.state), st)
    else if |st.pending| >= limit then TooLarge
    else Held(st.(pending := st.pending + [p]))
  }

  datatype Run = Run(batches: seq<Batch>, last: State)

  /** Everything a stream is grouped into, or nothing when some bundle outgrows the limit. */
  function Group(delimiter: string, limit: nat, packets: seq<Packet>): Option<Run>
    decreases |packets|
  {
    if packets == [] then Some(Run([], START))
    else
      var before := Group(delimiter, limit, packets[..|packets| - 1]);
      if before.None? then None
      else
        match Accepts(delimiter, limit, before.value.last, packets[|packets| - 1])
        case Emitted(batch, next) => Some(Run(before.value.batches + [batch], next))
        case Held(next) => Some(Run(before.value.batches, next))
        case TooLarge => None
  }

  // ----- The batcher -----

  /** A batch as handed out: its packets live in memory of their own. */
  datatype BatchRef = BatchRef(packets: array<Packet>, bundled: bool, state: string) {
    ghost function Value(): Batch
      reads packets
    {
      Batch(packets[..], bundled, state)
    }
  }

  datatype Accepted = Ready(batch: BatchRef) | Accumulating | BundleTooLarge

  class Batcher {
    const delimiter: string
    const limit: nat
    // The open bundle is buffer[..count]; closing it keeps the memory for the next bundle.
    var buffer: array<Packet>
    var count: nat
    var open: bool
    var state: string

    ghost predicate Valid()
      reads this, buffer
    {
      count <= buffer.Length
    }

    ghost function Abs(): State
      requires Valid()
      reads this, buffer
    {
      State(open, state, buffer[..count])
    }

    constructor (delimiter: string, limit: nat)
      requires limit > 0
      ensures Valid() && Abs() == START && fresh(buffer)
      ensures this.delimiter == delimiter && this.limit == limit
    {
      this.delimiter, this.limit := delimiter, limit;
      buffer := new Packet[0];
      count, open, state := 0, false, "";
    }

    /** Null for a limit that cannot bound anything. */
    static method Make(delimiter: string, limit: int) returns (b: Batcher?)
      ensures b == null <==> limit <= 0
      ensures b != null ==> fresh(b) && b.Valid() && fresh(b.buffer) && b.Abs() == START
      ensures b != null ==> b.delimiter == delimiter && b.limit == limit
    {
      if limit <= 0 {
        return null;
      }
      b := new Batcher(delimiter, limit);
    }

    method Push(p: Packet)
      requires Valid()
      modifies this`buffer, this`count, buffer
      ensures Valid() && Abs() == old(Abs()).(pending := old(Abs()).pending + [p])
      ensures buffer == old(buffer) || fresh(buffer)
    {
      ghost var pending := buffer[..count];
      if count == buffer.Length {
        Grow();
      }
      buffer[count] := p;
      count := count + 1;
      assert buffer[..count] == pending + [p];
    }

    method Grow()
      requires Valid()
      modifies this`buffer
      ensures Valid() && count < buffer.Length && fresh(buffer) && buffer[..count] == old(buffer[..count])
    {
      var grown := new Packet[2 * count + 1];
      for i := 0 to count
        invariant Valid() && grown[..i] == buffer[..i]
        modifies grown
      {
        grown[i] := buffer[i];
      }
      buffer := grown;
    }

    static method Single(p: Packet) returns (batch: BatchRef)
      ensures fresh(batch.packets) && batch.Value() == Batch([p], false, p.state)
    {
      var packets := new Packet[1](_ => p);
      assert packets[..] == [p];
      batch := BatchRef(packets, false, p.state);
    }

    method CloneBundle() returns (packets: array<Packet>)
      requires Valid()
      ensures fresh(packets) && packets[..] == Abs().pending
    {
      packets := new Packet[count];
      for i := 0 to count
        invariant packets[..i] == buffer[..i]
      {
        packets[i] := buffer[i];
      }
      assert packets[..] == packets[..count];
    }

    /** Consumes one packet. A batch handed out shares no memory with the batcher. */
    method Accept(p: Packet) returns (r: Accepted)
      requires Valid()
      modifies this, buffer
      ensures Valid() && (buffer == old(buffer) || fresh(buffer))
      ensures match Accepts(delimiter, limit, old(Abs()), p)
              case Emitted(batch, next) =>
                && r.Ready? && fresh(r.batch.packets) && r.batch.packets != buffer
                && r.batch.Value() == batch && Abs() == next
              case Held(next) => r == Accumulating && Abs() == next
              case TooLarge => r == BundleTooLarge && Abs() == old(Abs())
    {
      if delimiter == "" {
        var single := Single(p);
        return Ready(single);
      }
      if p.name == delimiter {
        if !open {
          open, state := true, p.state;
          return Accumulating;
        }
        var packets := CloneBundle();
        count, open := 0, false;
        return Ready(BatchRef(packets, true, state));
      }
      if !open {
        var single := Single(p);
        return Ready(single);
      }
      if count >= limit {
        return BundleTooLarge;
      }
      Push(p);
      return Accumulating;
    }

    /** Whether the stream may end here. */
    method Finish() returns (ok: bool)
      ensures ok <==> !open
    {
      ok := !open;
    }
  }

  ghost function Values(refs: seq<BatchRef>): seq<Batch>
    reads set i | 0 <= i < |refs| :: refs[i].packets
  {
    seq(|refs|, i requires 0 <= i < |refs| reads set k | 0 <= k < |refs| :: refs[k].packets => refs[i].Value())
  }

  /**
   * A whole stream through one batcher: the batches still hold at the end what they held when handed out, though
   * the batcher reuses its buffer for every bundle.
   */
  method AcceptAll(delimiter: string, limit: nat, packets: seq<Packet>)
    returns (batches: seq<BatchRef>, ok: bool, finished: bool)
    requires limit > 0
    ensures ok <==> Group(delimiter, limit, packets).Some?
    ensures ok ==> Values(batches) == Group(delimiter, limit, packets).value.batches
    ensures ok ==> (finished <==> !Group(delimiter, limit, packets).value.last.open)
  {
    var b := new Batcher(delimiter, limit);
    batches := [];
    assert Values(batches) == [] && packets[..0] == [];
    for i := 0 to |packets|
      invariant b.Valid() && fresh(b) && fresh(b.buffer) && b.delimiter == delimiter && b.limit == limit
      invariant forall k :: 0 <= k < |batches| ==> fresh(batches[k].packets) && batches[k].packets != b.buffer
      invariant Group(delimiter, limit, packets[..i]) == Some(Run(Values(batches), b.Abs()))
    {
      assert packets[..i + 1][..i] == packets[..i];
      ghost var was := Values(batches);
      var r := b.Accept(packets[i]);
      match r
      case BundleTooLarge =>
        GroupPrefix(delimiter, limit, packets, i + 1);
        return batches, false, false;
      case Accumulating =>
        assert Values(batches) == was;
      case Ready(batch) =>
        assert Values(batches) == was;
        batches := batches + [batch];
        assert Values(batches) == was + [batch.Value()];
    }
    assert packets[..|packets|] == packets;
    ok := true;
    finished := b.Finish();
  }

  lemma {:induction false} GroupPrefix(delimiter: string, limit: nat, packets: seq<Packet>, n: nat)
    requires n <= |packets| && Group(delimiter, limit, packets[..n]).None?
    ensures Group(delimiter, limit, packets).None?
    decreases |packets|
  {
    if n == |packets| {
      assert packets[..n] == packets;
    } else {
      assert packets[..|packets| - 1][..n] == packets[..n];
      GroupPrefix(delimiter, limit, packets[..|packets| - 1], n);
    }
  }

  // ----- What grouping preserves -----

  function Flatten(batches: seq<Batch>): seq<Packet>
    decreases |batches|
  {
    if batches == [] then [] else Flatten(batches[..|batches| - 1]) + batches[|batches| - 1].packets
  }

  function Undelimited(delimiter: string, packets: seq<Packet>): seq<Packet>
    decreases |packets|
  {
    if packets == [] then []
    else
      var last := packets[|packets| - 1];
      Undelimited(delimiter, packets[..|packets| - 1]) +
      if delimiter != "" && last.name == delimiter then [] else [last]
  }

  function Delimiters(delimiter: string, packets: seq<Packet>): nat
    decreases |packets|
  {
    if packets == [] then 0
    else Delimiters(delimiter, packets[..|packets| - 1]) + if packets[|packets| - 1].name == delimiter then 1 else 0
  }

  /** A batch grouping can produce: a bundle of ordinary packets within the limit, or one packet on its own. */
  predicate Proper(delimiter: string, limit: nat, b: Batch) {
    && (delimiter != "" ==> forall i :: 0 <= i < |b.packets| ==> b.packets[i].name != delimiter)
    && if b.bundled then delimiter != "" && |b.packets| <= limit
       else |b.packets| == 1 && b.packets[0].state == b.state
  }

  /** The state between packets: nothing is pending outside a bundle, and a bundle holds ordinary packets only. */
  predicate Tidy(delimiter: string, limit: nat, st: State) {
    && (!st.open ==> st.pending == [])
    && |st.pending| <= limit
    && (delimiter == "" ==> !st.open)
    && forall i :: 0 <= i < |st.pending| ==> st.pending[i].name != delimiter
  }

  /** One packet keeps the state tidy, completes only proper batches, and moves packets without losing any. */
  lemma AcceptsTidy(delimiter: string, limit: nat, st: State, p: Packet)
    requires limit > 0 && Tidy(delimiter, limit, st)
    ensures var gone := delimiter != "" && p.name == delimiter;
            var kept := if gone then [] else [p];
            match Accepts(delimiter, limit, st, p)
            case Emitted(batch, next) =>
              && Tidy(delimiter, limit, next) && Proper(delimiter, limit, batch) && (gone ==> st.open && !next.open)
              && batch.packets + next.pending == st.pending + kept && (!gone ==> next.open == st.open)
            case Held(next) =>
              && Tidy(delimiter, limit, next) && next.pending == st.pending + kept && next.open
              && (gone ==> !st.open) && (!gone ==> st.open)
            case TooLarge => st.open && |st.pending| == limit && !gone
  {
  }

  lemma {:induction false} GroupTidy(delimiter: string, limit: nat, packets: seq<Packet>)
    requires limit > 0 && Group(delimiter, limit, packets).Some?
    ensures Tidy(delimiter, limit, Group(delimiter, limit, packets).value.last)
    decreases |packets|
  {
    if packets != [] {
      GroupTidy(delimiter, limit, packets[..|packets| - 1]);
      AcceptsTidy(delimiter, limit,
                  Group(delimiter, limit, packets[..|packets| - 1]).value.last, packets[|packets| - 1]);
    }
  }

  lemma FlattenMore(batches: seq<Batch>, b: Batch)
    ensures Flatten(batches + [b]) == Flatten(batches) + b.packets
  {
    assert (batches + [b])[..|batches|] == batches;
  }

  lemma Regroup(flat: seq<Packet>, done: seq<Packet>, open: seq<Packet>, pending: seq<Packet>,
                p: seq<Packet>, all: seq<Packet>)
    requires flat + pending == all && done + open == pending + p
    ensures flat + done + open == all + p
  {
    assert flat + done + open == flat + (done + open);
    assert flat + (pending + p) == flat + pending + p;
  }

  /** No packet of an accepted stream is lost, repeated or reordered; only delimiters disappear. */
  lemma {:induction false} GroupConserves(delimiter: string, limit: nat, packets: seq<Packet>)
    requires limit > 0 && Group(delimiter, limit, packets).Some?
    ensures var run := Group(delimiter, limit, packets).value;
            Flatten(run.batches) + run.last.pending == Undelimited(delimiter, packets)
    decreases |packets|
  {
    if packets != [] {
      var init, p := packets[..|packets| - 1], packets[|packets| - 1];
      GroupConserves(delimiter, limit, init);
      GroupTidy(delimiter, limit, init);
      var before := Group(delimiter, limit, init).value;
      AcceptsTidy(delimiter, limit, before.last, p);
      var kept := if delimiter != "" && p.name == delimiter then [] else [p];
      match Accepts(delimiter, limit, before.last, p)
      case Emitted(batch, next) =>
        FlattenMore(before.batches, batch);
        Regroup(Flatten(before.batches), batch.packets, next.pending,
                before.last.pending, kept, Undelimited(delimiter, init));
      case Held(next) =>
        Regroup(Flatten(before.batches), [], next.pending, before.last.pending, kept, Undelimited(delimiter, init));
    }
  }

  /** Every batch handed out is a bundle within the limit or a single packet. */
  lemma {:induction false} GroupProper(delimiter: string, limit: nat, packets: seq<Packet>)
    requires limit > 0 && Group(delimiter, limit, packets).Some?
    ensures var batches := Group(delimiter, limit, packets).value.batches;
            forall i :: 0 <= i < |batches| ==> Proper(delimiter, limit, batches[i])
    decreases |packets|
  {
    if packets != [] {
      var init := packets[..|packets| - 1];
      GroupProper(delimiter, limit, init);
      GroupTidy(delimiter, limit, init);
      AcceptsTidy(delimiter, limit, Group(delimiter, limit, init).value.last, packets[|packets| - 1]);
    }
  }

  /** The stream may end exactly when its delimiters pair up, and always where there are no bundles. */
  lemma {:induction false} FinishIff(delimiter: string, limit: nat, packets: seq<Packet>)
    requires limit > 0 && Group(delimiter, limit, packets).Some?
    ensures !Group(delimiter, limit, packets).value.last.open <==>
            delimiter == "" || Delimiters(delimiter, packets) % 2 == 0
    decreases |packets|
  {
    if packets != [] {
      var init := packets[..|packets| - 1];
      FinishIff(delimiter, limit, init);
      GroupTidy(delimiter, limit, init);
      AcceptsTidy(delimiter, limit, Group(delimiter, limit, init).value.last, packets[|packets| - 1]);
    }
  }

  // ----- Writing batches back out and grouping again -----

  function Serialise(delimiter: string, b: Batch): seq<Packet> {
    if b.bundled then [Packet(delimiter, b.state, 0)] + b.packets + [Packet(delimiter, b.state, 0)] else b.packets
  }

  function SerialiseAll(delimiter: string, batches: seq<Batch>): seq<Packet>
    decreases |batches|
  {
    if batches == [] then []
    else SerialiseAll(delimiter, batches[..|batches| - 1]) + Serialise(delimiter, batches[|batches| - 1])
  }

  lemma GroupOne(delimiter: string, limit: nat, packets: seq<Packet>, p: Packet)
    ensures Group(delimiter, limit, packets + [p]) ==
            var before := Group(delimiter, limit, packets);
            if before.None? then None
            else match Accepts(delimiter, limit, before.value.last, p)
                 case Emitted(batch, next) => Some(Run(before.value.batches + [batch], next))
                 case Held(next) => Some(Run(before.value.batches, next))
                 case TooLarge => None
  {
    assert (packets + [p])[..|packets|] == packets;
  }

  /** The packets of a bundle, read after its opening delimiter. */
  lemma {:induction false} GroupBundle(delimiter: string, limit: nat, before: seq<Packet>, b: Batch, n: nat)
    requires Proper(delimiter, limit, b) && b.bundled && n <= |b.packets|
    requires Group(delimiter, limit, before).Some? && !Group(delimiter, limit, before).value.last.open
    requires Group(delimiter, limit, before).value.last.pending == []
    ensures Group(delimiter, limit, before + [Packet(delimiter, b.state, 0)] + b.packets[..n]) ==
            Some(Run(Group(delimiter, limit, before).value.batches, State(true, b.state, b.packets[..n])))
  {
    var start := Packet(delimiter, b.state, 0);
    if n == 0 {
      GroupOne(delimiter, limit, before, start);
      assert before + [start] + b.packets[..0] == before + [start];
    } else {
      GroupBundle(delimiter, limit, before, b, n - 1);
      var begun := before + [start] + b.packets[..n - 1];
      GroupOne(delimiter, limit, begun, b.packets[n - 1]);
      assert b.packets[..n] == b.packets[..n - 1] + [b.packets[n - 1]];
      assert before + [start] + b.packets[..n] == begun + [b.packets[n - 1]];
    }
  }

  lemma SerialisedBundle(delimiter: string, before: seq<Packet>, b: Batch)
    requires b.bundled
    ensures var end := Packet(delimiter, b.state, 0);
            before + Serialise(delimiter, b) == before + [end] + b.packets + [end]
  {
  }

  /** One more batch written out is one more batch read back. */
  lemma GroupNext(delimiter: string, limit: nat, before: seq<Packet>, b: Batch)
    requires Proper(delimiter, limit, b) && Group(delimiter, limit, before).Some?
    requires Group(delimiter, limit, before).value.last.open == false
    requires Group(delimiter, limit, before).value.last.pending == []
    ensures var run := Group(delimiter, limit, before + Serialise(delimiter, b));
            && run.Some? && run.value.batches == Group(delimiter, limit, before).value.batches + [b]
            && !run.value.last.open && run.value.last.pending == []
  {
    if b.bundled {
      GroupBundle(delimiter, limit, before, b, |b.packets|);
      assert b.packets[..|b.packets|] == b.packets;
      var end := Packet(delimiter, b.state, 0);
      GroupOne(delimiter, limit, before + [end] + b.packets, end);
      SerialisedBundle(delimiter, before, b);
    } else {
      assert b.packets == [b.packets[0]];
      GroupOne(delimiter, limit, before, b.packets[0]);
    }
  }

  lemma {:induction false} GroupSerialised(delimiter: string, limit: nat, batches: seq<Batch>)
    requires forall i :: 0 <= i < |batches| ==> Proper(delimiter, limit, batches[i])
    ensures var run := Group(delimiter, limit, SerialiseAll(delimiter, batches));
            run.Some? && run.value.batches == batches && !run.value.last.open && run.value.last.pending == []
    decreases |batches|
  {
    if batches != [] {
      var init, b := batches[..|batches| - 1], batches[|batches| - 1];
      assert init + [b] == batches && Proper(delimiter, limit, b);
      GroupSerialised(delimiter, limit, init);
      GroupNext(delimiter, limit, SerialiseAll(delimiter, init), b);
    }
  }

  /** Writing out the batches of any accepted stream and grouping again gives the same batches. */
  lemma RegroupingIsIdentity(delimiter: string, limit: nat, packets: seq<Packet>)
    requires limit > 0 && Group(delimiter, limit, packets).Some?
    ensures var batches := Group(delimiter, limit, packets).value.batches;
            var again := Group(delimiter, limit, SerialiseAll(delimiter, batches));
            again.Some? && again.value.batches == batches && !again.value.last.open
  {
    GroupProper(delimiter, limit, packets);
    GroupSerialised(delimiter, limit, Group(delimiter, limit, packets).value.batches);
  }
}
