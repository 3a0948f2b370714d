/**
 * The event fan-out: client/subscription.go, as atomic steps of publishers, consumers and closers. A publisher
 * holds the fan-out's lock from `Begin` to `End` but each subscription's lock only for one delivery, so a
 * consumer may receive or close between any two deliveries.
 */
module Fanout {
  /** A delivered event carries the revision of the operation that produced it. */
  datatype Event = Event(domain: bv16, id: int, revision: nat)

  predicate Selects(selector: bv16, e: Event) {
    selector & e.domain != 0
  }

  /** A subscription; `from` is how much had been published when it was made. */
  datatype Sub = Sub(
    selector: bv16, capacity: nat, from: nat, closed: bool, overflowed: bool,
    buffer: seq<Event>, received: seq<Event>)
  {
    function Sent(): seq<Event> {
      received + buffer
    }
  }

  function Finish(s: Sub): Sub {
    if s.closed then s else s.(closed := true, overflowed := false)
  }

  /** One non-blocking send, and whether the subscription is still alive. */
  function Deliver(s: Sub, e: Event): (Sub, bool) {
    if s.closed then (s, false)
    else if |s.buffer| < s.capacity then (s.(buffer := s.buffer + [e]), true)
    else (s.(closed := true, overflowed := true), false)
  }

  datatype Phase = Idle | Publishing(events: seq<Event>, at: nat, next: nat, live: seq<nat>)

  /**
   * `all` is every subscription ever made; `subs` the fan-out's list; `doomed` those closeAll has taken off the
   * list and not yet closed; `stream` everything published.
   */
  datatype State = State(all: seq<Sub>, subs: seq<nat>, doomed: seq<nat>, stream: seq<Event>, phase: Phase)

  const START := State([], [], [], [], Idle)

  datatype Action =
    | Subscribe(selector: bv16, buffer: nat)
    | Begin(events: seq<Event>)
    | Offer
    | Pass
    | End
    | Receive(id: nat)
    | Close(id: nat)
    | CloseAll
    | FinishNext

  predicate Enabled(st: State, a: Action) {
    match a
    case Subscribe(selector, buffer) => st.phase.Idle? && buffer > 0 && selector != 0
    case Begin(events) => st.phase.Idle? && events != []
    case Offer => st.phase.Publishing? && st.phase.at < |st.subs| && st.phase.next < |st.phase.events|
                  && st.subs[st.phase.at] < |st.all|
    case Pass => st.phase.Publishing? && st.phase.at < |st.subs| && st.phase.next == |st.phase.events|
    case End => st.phase.Publishing? && st.phase.at == |st.subs|
    case Receive(id) => id < |st.all| && st.all[id].buffer != []
    case Close(id) => id < |st.all|
    case CloseAll => st.phase.Idle?
    case FinishNext => st.doomed != [] && st.doomed[0] < |st.all|
  }

  function Do(st: State, a: Action): State
    requires Enabled(st, a)
  {
    match a
    case Subscribe(selector, buffer) =>
      st.(all := st.all + [Sub(selector, buffer, |st.stream|, false, false, [], [])], subs := st.subs + [|st.all|])
    case Begin(events) => st.(stream := st.stream + events, phase := Publishing(events, 0, 0, []))
    case Offer =>
      var id, e := st.subs[st.phase.at], st.phase.events[st.phase.next];
      if !Selects(st.all[id].selector, e) then st.(phase := st.phase.(next := st.phase.next + 1))
      else
        var (sub, alive) := Deliver(st.all[id], e);
        st.(all := st.all[id := sub],
            phase := if alive then st.phase.(next := st.phase.next + 1)
                     else st.phase.(at := st.phase.at + 1, next := 0))
    case Pass =>
      st.(phase := st.phase.(at := st.phase.at + 1, next := 0, live := st.phase.live + [st.subs[st.phase.at]]))
    case End => st.(subs := st.phase.live, phase := Idle)
    case Receive(id) =>
      var s := st.all[id];
      st.(all := st.all[id := s.(received := s.received + [s.buffer[0]], buffer := s.buffer[1..])])
    case Close(id) => st.(all := st.all[id := Finish(st.all[id])])
    case CloseAll => st.(doomed := st.doomed + st.subs, subs := [])
    case FinishNext => st.(all := st.all[st.doomed[0] := Finish(st.all[st.doomed[0]])], doomed := st.doomed[1..])
  }

  // ----- What a subscription should have been sent -----

  function Wanted(selector: bv16, events: seq<Event>): seq<Event>
    decreases |events|
  {
    if events == [] then []
    else
      var last := events[|events| - 1];
      Wanted(selector, events[..|events| - 1]) + if Selects(selector, last) then [last] else []
  }

  /** Bit k of the mask is set. */
  predicate Has(mask: bv16, k: bv16)
    requires k < 16
  {
    (mask >> k) & 1 == 1
  }

  lemma BitOfBoth(a: bv16, b: bv16, k: bv16)
    requires k < 16
    ensures Has(a & b, k) <==> Has(a, k) && Has(b, k)
  {
  }

  lemma BitOfNone(k: bv16)
    requires k < 16
    ensures !Has(0, k)
  {
  }

  lemma SomeBit(mask: bv16) returns (k: bv16)
    requires mask != 0
    ensures k < 16 && Has(mask, k)
  {
    k := 0;
    while !Has(mask, k)
      invariant k < 16 && mask >> k != 0
      decreases 16 - k
    {
      k := k + 1;
    }
  }

  /** The event is in a domain that is selected. */
  predicate Shares(selector: bv16, e: Event, k: bv16) {
    k < 16 && Has(selector, k) && Has(e.domain, k)
  }

  lemma SharedIsSelected(selector: bv16, e: Event, k: bv16)
    requires Shares(selector, e, k)
    ensures Selects(selector, e)
  {
    BitOfBoth(selector, e.domain, k);
    BitOfNone(k);
  }

  lemma SelectedIsShared(selector: bv16, e: Event) returns (k: bv16)
    requires Selects(selector, e)
    ensures Shares(selector, e, k)
  {
    k := SomeBit(selector & e.domain);
    BitOfBoth(selector, e.domain, k);
  }

  /** A subscription wants an event exactly when it selects one of the event's domains. */
  lemma SelectsIff(selector: bv16, e: Event)
    ensures Selects(selector, e) <==> exists k :: Shares(selector, e, k)
  {
    if Selects(selector, e) {
      var k := SelectedIsShared(selector, e);
    } else {
      forall k
        ensures !Shares(selector, e, k)
      {
        if Shares(selector, e, k) {
          SharedIsSelected(selector, e, k);
        }
      }
    }
  }

  /** What is wanted of some events and then of more is wanted of all, in order; of one, whether it is selected. */
  lemma {:induction false} WantedSplits(selector: bv16, events: seq<Event>, more: seq<Event>)
    ensures Wanted(selector, events + more) == Wanted(selector, events) + Wanted(selector, more)
    decreases |more|
  {
    if more == [] {
      assert events + more == events;
    } else {
      var init, last := more[..|more| - 1], more[|more| - 1];
      WantedSplits(selector, events, init);
      WantedOne(selector, events + init, last);
      assert events + more == events + init + [last];
    }
  }

  lemma WantedOne(selector: bv16, events: seq<Event>, e: Event)
    ensures Wanted(selector, events + [e]) == Wanted(selector, events) + if Selects(selector, e) then [e] else []
  {
    assert (events + [e])[..|events|] == events;
  }

  lemma {:induction false} WantedPrefix(selector: bv16, events: seq<Event>, more: seq<Event>)
    ensures Wanted(selector, events) <= Wanted(selector, events + more)
    decreases |more|
  {
    if more == [] {
      assert events + more == events;
    } else {
      var init := more[..|more| - 1];
      WantedPrefix(selector, events, init);
      WantedOne(selector, events + init, more[|more| - 1]);
      assert events + more == events + init + [more[|more| - 1]];
    }
  }

  /** How much of the stream the publisher has put before the subscription at place j of the list. */
  function Offered(st: State, j: nat): int {
    if st.phase.Idle? || j < st.phase.at then |st.stream|
    else if j == st.phase.at then |st.stream| - |st.phase.events| + st.phase.next
    else |st.stream| - |st.phase.events|
  }

  /** What holds of every subscription, listed or not. */
  ghost predicate Faithful(s: Sub, stream: seq<Event>) {
    && s.from <= |stream| && 0 < s.capacity && |s.buffer| <= s.capacity
    && s.Sent() <= Wanted(s.selector, stream[s.from..])
    && (s.overflowed ==> s.closed && |s.Sent()| < |Wanted(s.selector, stream[s.from..])|)
  }

  /** An open subscription has been sent everything it selects of what was put before it. */
  ghost predicate CaughtUp(s: Sub, stream: seq<Event>, offered: int) {
    !s.closed ==> s.from <= offered <= |stream| && s.Sent() == Wanted(s.selector, stream[s.from..offered])
  }

  /** The survivors kept so far: places of the list passed, in order, and only closed ones skipped. */
  ghost predicate Compacted(st: State, kept: seq<nat>, n: nat)
    requires n <= |st.subs|
  {
    exists places: seq<nat> :: IsCompaction(st, kept, n, places)
  }

  ghost predicate IsCompaction(st: State, kept: seq<nat>, n: nat, places: seq<nat>)
    requires n <= |st.subs|
  {
    && |places| == |kept|
    && (forall k :: 0 <= k < |places| ==> places[k] < n && kept[k] == st.subs[places[k]])
    && (forall j, k :: 0 <= j < k < |places| ==> places[j] < places[k])
    && forall j: nat :: j < n ==> j in places || Gone(st, st.subs[j])
  }

  ghost predicate Gone(st: State, id: nat) {
    id < |st.all| && st.all[id].closed
  }

  ghost predicate PhaseFits(st: State) {
    st.phase.Publishing? ==>
      && st.phase.at <= |st.subs| && st.phase.next <= |st.phase.events| <= |st.stream|
      && st.phase.events == st.stream[|st.stream| - |st.phase.events|..]
      && (st.phase.at == |st.subs| ==> st.phase.next == 0)
      && Compacted(st, st.phase.live, st.phase.at)
  }

  ghost predicate Listed(st: State) {
    && (forall j :: 0 <= j < |st.subs| ==> st.subs[j] < |st.all|)
    && (forall i, j :: 0 <= i < j < |st.subs| ==> st.subs[i] != st.subs[j])
    && (forall j :: 0 <= j < |st.doomed| ==> st.doomed[j] < |st.all|)
    && (forall i :: 0 <= i < |st.all| && !st.all[i].closed ==> i in st.subs || i in st.doomed)
  }

  ghost predicate Inv(st: State) {
    && (forall i :: 0 <= i < |st.all| ==> Faithful(st.all[i], st.stream))
    && Listed(st)
    && (forall j :: 0 <= j < |st.subs| ==> CaughtUp(st.all[st.subs[j]], st.stream, Offered(st, j)))
    && PhaseFits(st)
  }

  lemma CompactedKept(st: State, st': State, kept: seq<nat>, n: nat)
    requires n <= |st.subs| && Compacted(st, kept, n) && st'.subs == st.subs && |st.all| <= |st'.all|
    requires forall i :: 0 <= i < |st.all| && st.all[i].closed ==> st'.all[i].closed
    ensures Compacted(st', kept, n)
  {
    var places: seq<nat> :| IsCompaction(st, kept, n, places);
    assert IsCompaction(st', kept, n, places);
  }

  lemma SubscribeListed(st: State, a: Action)
    requires Listed(st) && Enabled(st, a) && a.Subscribe?
    ensures Listed(Do(st, a))
  {
    var st' := Do(st, a);
    forall i | 0 <= i < |st'.all| && !st'.all[i].closed
      ensures i in st'.subs || i in st'.doomed
    {
      if i == |st.all| {
        assert st'.subs[|st.subs|] == i;
      }
    }
  }

  lemma SubscribeKeeps(st: State, a: Action)
    requires Inv(st) && Enabled(st, a) && a.Subscribe?
    ensures Inv(Do(st, a))
  {
    SubscribeListed(st, a);
    assert st.stream[|st.stream|..] == [];
    var st' := Do(st, a);
    forall j | 0 <= j < |st'.subs|
      ensures CaughtUp(st'.all[st'.subs[j]], st'.stream, Offered(st', j))
    {
      if j < |st.subs| {
        assert CaughtUp(st.all[st.subs[j]], st.stream, Offered(st, j));
      }
    }
  }

  lemma BeginKeeps(st: State, a: Action)
    requires Inv(st) && Enabled(st, a) && a.Begin?
    ensures Inv(Do(st, a))
  {
    var st' := Do(st, a);
    forall i | 0 <= i < |st.all|
      ensures Faithful(st'.all[i], st'.stream)
    {
      var s := st.all[i];
      WantedPrefix(s.selector, st.stream[s.from..], a.events);
      assert st'.stream[s.from..] == st.stream[s.from..] + a.events;
    }
    forall j | 0 <= j < |st.subs|
      ensures CaughtUp(st'.all[st'.subs[j]], st'.stream, Offered(st', j))
    {
      var s := st.all[st.subs[j]];
      assert CaughtUp(s, st.stream, Offered(st, j));
      assert st'.stream[s.from..|st.stream|] == st.stream[s.from..|st.stream|];
    }
    assert IsCompaction(st', [], 0, []);
  }

  /** Putting one more event of the stream before a subscription adds it to what is wanted if it is selected. */
  lemma WantedNext(selector: bv16, stream: seq<Event>, from: nat, offered: nat)
    requires from <= offered < |stream|
    ensures Wanted(selector, stream[from..offered + 1]) ==
            Wanted(selector, stream[from..offered]) +
            if Selects(selector, stream[offered]) then [stream[offered]] else []
    ensures Wanted(selector, stream[from..offered + 1]) <= Wanted(selector, stream[from..])
  {
    StreamSplits(stream, from, offered);
    WantedOne(selector, stream[from..offered], stream[offered]);
    WantedPrefix(selector, stream[from..offered + 1], stream[offered + 1..]);
  }

  lemma StreamSplits(stream: seq<Event>, from: nat, offered: nat)
    requires from <= offered < |stream|
    ensures stream[from..offered] + [stream[offered]] == stream[from..offered + 1]
    ensures stream[from..offered + 1] + stream[offered + 1..] == stream[from..]
  {
  }

  lemma OfferSub(s: Sub, stream: seq<Event>, offered: nat, s': Sub)
    requires Faithful(s, stream) && offered < |stream| && CaughtUp(s, stream, offered)
    requires s' == if Selects(s.selector, stream[offered]) then Deliver(s, stream[offered]).0 else s
    ensures Faithful(s', stream) && CaughtUp(s', stream, offered + 1)
  {
    if !s.closed {
      WantedNext(s.selector, stream, s.from, offered);
      if Selects(s.selector, stream[offered]) && |s.buffer| < s.capacity {
        assert s'.Sent() == s.Sent() + [stream[offered]];
      }
    }
  }

  /** Replacing one subscription by what an offer makes of it keeps the lists sound. */
  lemma ListedKept(st: State, id: nat, s': Sub, phase: Phase)
    requires Listed(st) && id < |st.all| && (st.all[id].closed ==> s'.closed)
    ensures Listed(st.(all := st.all[id := s'], phase := phase))
  {
  }

  lemma OfferDoes(st: State, a: Action)
    requires Enabled(st, a) && a.Offer?
    ensures var st' := Do(st, a);
            var id, e := st.subs[st.phase.at], st.phase.events[st.phase.next];
            && id < |st'.all| && st'.all == st.all[id := st'.all[id]] && st'.subs == st.subs && st'.stream == st.stream
            && st'.all[id] == (if Selects(st.all[id].selector, e) then Deliver(st.all[id], e).0 else st.all[id])
            && (st'.phase.at == st.phase.at || st'.all[id].closed)
  {
  }

  lemma OfferEffect(st: State, a: Action)
    requires Inv(st) && Enabled(st, a) && a.Offer?
    ensures var st' := Do(st, a);
            var id := st.subs[st.phase.at];
            && id < |st'.all| && st'.all == st.all[id := st'.all[id]] && st'.subs == st.subs && st'.stream == st.stream
            && Faithful(st'.all[id], st.stream)
            && CaughtUp(st'.all[id], st.stream, Offered(st, st.phase.at) + 1)
            && (st'.phase.at == st.phase.at || st'.all[id].closed)
  {
    OfferDoes(st, a);
    var at, id := st.phase.at, st.subs[st.phase.at];
    var offered := Offered(st, at);
    assert 0 <= offered < |st.stream| && st.stream[offered] == st.phase.events[st.phase.next];
    assert Faithful(st.all[id], st.stream) && CaughtUp(st.all[id], st.stream, offered);
    OfferSub(st.all[id], st.stream, offered, Do(st, a).all[id]);
  }

  lemma OfferedMoves(st: State, a: Action, j: nat)
    requires Enabled(st, a) && a.Offer? && j < |st.subs|
    ensures var st' := Do(st, a);
            if j != st.phase.at then Offered(st', j) == Offered(st, j)
            else st'.phase.at == st.phase.at ==> Offered(st', j) == Offered(st, j) + 1
  {
  }

  lemma OfferCatchesUp(st: State, a: Action, j: nat)
    requires Inv(st) && Enabled(st, a) && a.Offer? && j < |st.subs|
    ensures var st' := Do(st, a);
            j < |st'.subs| && st'.subs[j] < |st'.all| && CaughtUp(st'.all[st'.subs[j]], st'.stream, Offered(st', j))
  {
    OfferEffect(st, a);
    OfferedMoves(st, a, j);
    assert CaughtUp(st.all[st.subs[j]], st.stream, Offered(st, j));
    assert j != st.phase.at ==> Do(st, a).all[st.subs[j]] == st.all[st.subs[j]];
  }

  lemma OfferCaughtUp(st: State, a: Action)
    requires Inv(st) && Enabled(st, a) && a.Offer?
    ensures var st' := Do(st, a);
            && (forall i :: 0 <= i < |st'.all| ==> Faithful(st'.all[i], st'.stream))
            && |st'.subs| == |st.subs| && (forall j :: 0 <= j < |st'.subs| ==> st'.subs[j] < |st'.all|)
            && (forall j :: 0 <= j < |st'.subs| ==> CaughtUp(st'.all[st'.subs[j]], st'.stream, Offered(st', j)))
  {
    OfferEffect(st, a);
    var st' := Do(st, a);
    forall j | 0 <= j < |st.subs|
      ensures CaughtUp(st'.all[st'.subs[j]], st'.stream, Offered(st', j))
    {
      OfferCatchesUp(st, a, j);
    }
  }

  lemma OfferPhase(st: State, a: Action)
    requires Inv(st) && Enabled(st, a) && a.Offer?
    ensures PhaseFits(Do(st, a))
  {
    var st' := Do(st, a);
    var at, id := st.phase.at, st.subs[st.phase.at];
    CompactedKept(st, st', st.phase.live, at);
    if st'.phase.at == at + 1 {
      CompactedPast(st', st.phase.live, at);
    }
  }

  lemma CompactedPast(st: State, kept: seq<nat>, n: nat)
    requires n < |st.subs| && Compacted(st, kept, n) && Gone(st, st.subs[n])
    ensures Compacted(st, kept, n + 1)
  {
    var places: seq<nat> :| IsCompaction(st, kept, n, places);
    assert IsCompaction(st, kept, n + 1, places);
  }

  lemma CompactedWith(st: State, kept: seq<nat>, n: nat)
    requires n < |st.subs| && Compacted(st, kept, n)
    ensures Compacted(st, kept + [st.subs[n]], n + 1)
  {
    var places: seq<nat> :| IsCompaction(st, kept, n, places);
    var more := places + [n];
    assert more[|places|] == n;
    assert forall j :: j in places ==> j in more;
    assert IsCompaction(st, kept + [st.subs[n]], n + 1, more);
  }

  lemma OfferKeeps(st: State, a: Action)
    requires Inv(st) && Enabled(st, a) && a.Offer?
    ensures Inv(Do(st, a))
  {
    OfferCaughtUp(st, a);
    OfferPhase(st, a);
    var id := st.subs[st.phase.at];
    ListedKept(st, id, Do(st, a).all[id], Do(st, a).phase);
    assert Do(st, a).all == st.all[id := Do(st, a).all[id]];
  }

  lemma PassKeeps(st: State, a: Action)
    requires Inv(st) && Enabled(st, a) && a.Pass?
    ensures Inv(Do(st, a))
  {
    var st' := Do(st, a);
    var at := st.phase.at;
    forall j | 0 <= j < |st.subs|
      ensures CaughtUp(st'.all[st'.subs[j]], st'.stream, Offered(st', j))
    {
      assert CaughtUp(st.all[st.subs[j]], st.stream, Offered(st, j));
    }
    CompactedWith(st, st.phase.live, at);
    CompactedKept(st, st', st.phase.live + [st.subs[at]], at + 1);
  }

  lemma EndKeeps(st: State, a: Action)
    requires Inv(st) && Enabled(st, a) && a.End?
    ensures Inv(Do(st, a))
  {
    var places: seq<nat> :| IsCompaction(st, st.phase.live, |st.subs|, places);
    EndListed(st, places);
    EndCaughtUp(st, places);
  }

  /** What is left of the list once a publication is over. */
  function Ended(st: State): State
    requires st.phase.Publishing?
  {
    st.(subs := st.phase.live, phase := Idle)
  }

  lemma EndCaughtUp(st: State, places: seq<nat>)
    requires Inv(st) && st.phase.Publishing? && st.phase.at == |st.subs|
    requires IsCompaction(st, st.phase.live, |st.subs|, places)
    ensures forall j :: 0 <= j < |st.phase.live| ==>
              st.phase.live[j] < |st.all| && CaughtUp(st.all[st.phase.live[j]], st.stream, Offered(Ended(st), j))
  {
    forall j | 0 <= j < |st.phase.live|
      ensures st.phase.live[j] < |st.all| && CaughtUp(st.all[st.phase.live[j]], st.stream, Offered(Ended(st), j))
    {
      assert CaughtUp(st.all[st.subs[places[j]]], st.stream, Offered(st, places[j]));
    }
  }

  lemma EndListed(st: State, places: seq<nat>)
    requires Listed(st) && st.phase.Publishing? && IsCompaction(st, st.phase.live, |st.subs|, places)
    ensures Listed(Ended(st))
  {
    forall i | 0 <= i < |st.all| && !st.all[i].closed
      ensures i in st.phase.live || i in st.doomed
    {
      if i in st.subs {
        var j: nat :| j < |st.subs| && st.subs[j] == i;
        assert !Gone(st, st.subs[j]);
        assert j in places;
        var k :| 0 <= k < |places| && places[k] == j;
        assert st.phase.live[k] == i;
      }
    }
  }

  /** A consumer's step: nothing new is sent, and a subscription is at most closed. */
  lemma ConsumerKeeps(st: State, id: nat, s': Sub, st': State)
    requires Inv(st) && id < |st.all| && st' == st.(all := st.all[id := s'])
    requires s'.Sent() == st.all[id].Sent() && |s'.buffer| <= |st.all[id].buffer|
    requires s'.selector == st.all[id].selector && s'.capacity == st.all[id].capacity && s'.from == st.all[id].from
    requires st.all[id].closed ==> s'.closed
    requires s'.overflowed == st.all[id].overflowed
    ensures Inv(st')
  {
    forall j | 0 <= j < |st.subs|
      ensures CaughtUp(st'.all[st'.subs[j]], st'.stream, Offered(st', j))
    {
      assert CaughtUp(st.all[st.subs[j]], st.stream, Offered(st, j));
    }
    if st.phase.Publishing? {
      CompactedKept(st, st', st.phase.live, st.phase.at);
    }
  }

  lemma ReceiveKeeps(st: State, a: Action)
    requires Inv(st) && Enabled(st, a) && a.Receive?
    ensures Inv(Do(st, a))
  {
    var s := st.all[a.id];
    var s' := s.(received := s.received + [s.buffer[0]], buffer := s.buffer[1..]);
    assert s.buffer == [s.buffer[0]] + s.buffer[1..];
    assert s'.Sent() == s.Sent();
    ConsumerKeeps(st, a.id, s', Do(st, a));
  }

  lemma CloseAllKeeps(st: State, a: Action)
    requires Inv(st) && Enabled(st, a) && a.CloseAll?
    ensures Inv(Do(st, a))
  {
    var st' := Do(st, a);
    forall i | 0 <= i < |st.all| && !st.all[i].closed
      ensures i in st'.doomed
    {
    }
  }

  lemma FinishNextKeeps(st: State, a: Action)
    requires Inv(st) && Enabled(st, a) && a.FinishNext?
    ensures Inv(Do(st, a))
  {
    var id := st.doomed[0];
    var st1 := st.(all := st.all[id := Finish(st.all[id])]);
    ConsumerKeeps(st, id, Finish(st.all[id]), st1);
    DoomedDropped(st1);
  }

  lemma DoomedDropped(st: State)
    requires Inv(st) && st.doomed != [] && st.doomed[0] < |st.all| && st.all[st.doomed[0]].closed
    ensures Inv(st.(doomed := st.doomed[1..]))
  {
    var st' := st.(doomed := st.doomed[1..]);
    forall i | 0 <= i < |st'.all| && !st'.all[i].closed
      ensures i in st'.subs || i in st'.doomed
    {
      if i in st.doomed {
        var k :| 0 <= k < |st.doomed| && st.doomed[k] == i;
        assert k > 0 && st'.doomed[k - 1] == i;
      }
    }
    if st'.phase.Publishing? {
      CompactedKept(st, st', st'.phase.live, st'.phase.at);
    }
    forall j | 0 <= j < |st'.subs|
      ensures CaughtUp(st'.all[st'.subs[j]], st'.stream, Offered(st', j))
    {
      assert CaughtUp(st.all[st.subs[j]], st.stream, Offered(st, j));
    }
  }

  lemma StepKeeps(st: State, a: Action)
    requires Inv(st) && Enabled(st, a)
    ensures Inv(Do(st, a))
  {
    match a
    case Subscribe(_, _) => SubscribeKeeps(st, a);
    case Begin(_) => BeginKeeps(st, a);
    case Offer => OfferKeeps(st, a);
    case Pass => PassKeeps(st, a);
    case End => EndKeeps(st, a);
    case Receive(_) => ReceiveKeeps(st, a);
    case Close(id) => ConsumerKeeps(st, id, Finish(st.all[id]), Do(st, a));
    case CloseAll => CloseAllKeeps(st, a);
    case FinishNext => FinishNextKeeps(st, a);
  }

  // ----- Every interleaving -----

  ghost predicate Run(trace: seq<State>, actions: seq<Action>) {
    && |trace| == |actions| + 1 && trace[0] == START
    && forall i :: 0 <= i < |actions| ==> Enabled(trace[i], actions[i]) && trace[i + 1] == Do(trace[i], actions[i])
  }

  lemma {:induction false} RunKeeps(trace: seq<State>, actions: seq<Action>, n: nat)
    requires Run(trace, actions) && n <= |actions|
    ensures Inv(trace[n])
  {
    if n > 0 {
      RunKeeps(trace, actions, n - 1);
      StepKeeps(trace[n - 1], actions[n - 1]);
    }
  }

  /**
   * Under every interleaving: what a subscription was sent is a gap-free prefix of the selected events published
   * since it was made; one that overflowed missed something and is closed; and between publications an open one
   * has been sent all of them, unless closeAll has already taken it off the list to close it.
   */
  lemma GapFreeOrClosed(trace: seq<State>, actions: seq<Action>, n: nat, id: nat)
    requires Run(trace, actions) && n <= |actions| && id < |trace[n].all|
    ensures var st := trace[n];
            var s := st.all[id];
            && s.from <= |st.stream|
            && var wanted := Wanted(s.selector, st.stream[s.from..]);
               && s.Sent() <= wanted
               && (s.overflowed ==> s.closed && s.Sent() != wanted)
               && (st.phase.Idle? && !s.closed && s.Sent() != wanted ==> id in st.doomed)
  {
    RunKeeps(trace, actions, n);
    var st := trace[n];
    assert Faithful(st.all[id], st.stream);
    if st.phase.Idle? && !st.all[id].closed && id in st.subs {
      var j: nat :| j < |st.subs| && st.subs[j] == id;
      assert CaughtUp(st.all[st.subs[j]], st.stream, Offered(st, j));
      assert st.stream[st.all[id].from..|st.stream|] == st.stream[st.all[id].from..];
    }
  }

  /** Once closed, a subscription is sent nothing more and keeps the reason it closed for. */
  lemma ClosedIsFinal(st: State, a: Action, id: nat)
    requires Enabled(st, a) && id < |st.all| && st.all[id].closed
    ensures var st' := Do(st, a);
            && id < |st'.all| && st'.all[id].closed && st'.all[id].overflowed == st.all[id].overflowed
            && st'.all[id].Sent() == st.all[id].Sent()
  {
    if a.Receive? && a.id == id {
      var s := st.all[id];
      assert s.buffer == [s.buffer[0]] + s.buffer[1..];
    }
  }

  /** A subscription closes for overflow exactly when a selected event finds it open with a full buffer. */
  lemma OverflowsIff(st: State, a: Action, id: nat)
    requires Enabled(st, a) && id < |st.all| && !st.all[id].overflowed
    ensures Do(st, a).all[id].overflowed <==>
            && a.Offer? && st.subs[st.phase.at] == id && !st.all[id].closed
            && Selects(st.all[id].selector, st.phase.events[st.phase.next])
            && |st.all[id].buffer| >= st.all[id].capacity
  {
  }

  /** Ending a publication drops closed subscriptions only, and keeps the order of the rest. */
  lemma EndDropsOnlyClosed(trace: seq<State>, actions: seq<Action>, n: nat)
    requires Run(trace, actions) && n < |actions| && actions[n].End?
    ensures Compacted(trace[n], trace[n + 1].subs, |trace[n].subs|)
  {
    RunKeeps(trace, actions, n);
  }
}
