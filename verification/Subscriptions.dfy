/** Subscriptions and the fan-out's list as objects: client/subscription.go, including the in-place compaction. */
module Subscriptions {
  import opened Options
  import F = Fanout

  class Subscription {
    const selector: bv16
    const capacity: nat
    ghost const from: nat
    // The channel's buffered events, and whether it has been closed and why.
    var channel: seq<F.Event>
    var closed: bool
    var overflowed: bool
    ghost var received: seq<F.Event>

    ghost function Abs(): F.Sub
      reads this
    {
      F.Sub(selector, capacity, from, closed, overflowed, channel, received)
    }

    constructor (selector: bv16, capacity: nat, ghost from: nat)
      ensures Abs() == F.Sub(selector, capacity, from, false, false, [], [])
    {
      this.selector, this.capacity, this.from := selector, capacity, from;
      channel, closed, overflowed, received := [], false, false, [];
    }

    /** Closes the channel exactly once. */
    method Close()
      modifies this
      ensures Abs() == F.Finish(old(Abs()))
    {
      if closed {
        return;
      }
      closed, overflowed := true, false;
    }

    /** One receive by the consumer; a closed channel still gives up what it buffered. */
    method Receive() returns (e: Option<F.Event>)
      modifies this
      ensures e.None? <==> old(channel) == []
      ensures e.Some? ==> e.value == old(channel)[0]
      ensures Abs().Sent() == old(Abs().Sent()) && closed == old(closed) && overflowed == old(overflowed)
      ensures received == old(received) + if e.Some? then [e.value] else []
    {
      if |channel| == 0 {
        return None;
      }
      e := Some(channel[0]);
      assert channel == [channel[0]] + channel[1..];
      received, channel := received + [channel[0]], channel[1..];
    }

    /** One non-blocking send; a full buffer closes the subscription instead of waiting. */
    method Deliver(e: F.Event) returns (alive: bool)
      modifies this
      ensures (Abs(), alive) == F.Deliver(old(Abs()), e)
    {
      if closed {
        return false;
      }
      if |channel| < capacity {
        channel := channel + [e];
        return true;
      }
      closed, overflowed := true, true;
      return false;
    }

    /** Every selected event of a publication, up to the first that cannot be sent. */
    method DeliverAll(events: seq<F.Event>) returns (alive: bool)
      modifies this
      ensures (Abs(), alive) == Offered(old(Abs()), events)
    {
      for i := 0 to |events|
        invariant Offered(Abs(), events[i..]) == Offered(old(Abs()), events)
      {
        assert events[i..][1..] == events[i + 1..];
        if !F.Selects(selector, events[i]) {
          continue;
        }
        var sent := Deliver(events[i]);
        if !sent {
          return false;
        }
      }
      return true;
    }
  }

  /** The subscription after a whole publication, and whether it is still alive. */
  function Offered(s: F.Sub, events: seq<F.Event>): (F.Sub, bool)
    decreases |events|
  {
    if events == [] then (s, true)
    else if !F.Selects(s.selector, events[0]) then Offered(s, events[1..])
    else
      var (s', alive) := F.Deliver(s, events[0]);
      if alive then Offered(s', events[1..]) else (s', false)
  }

  function WantedFrom(selector: bv16, events: seq<F.Event>): seq<F.Event> {
    if events == [] then []
    else (if F.Selects(selector, events[0]) then [events[0]] else []) + WantedFrom(selector, events[1..])
  }

  lemma DeliverSends(s: F.Sub, e: F.Event)
    ensures var (s', alive) := F.Deliver(s, e);
            if alive then s'.Sent() == s.Sent() + [e] && s'.closed == s.closed && s'.selector == s.selector
            else s'.Sent() == s.Sent() && s'.closed
  {
  }

  /** A publication sends some first part of what is selected, all of it unless the subscription ends closed. */
  lemma {:induction false} OfferedSends(s: F.Sub, events: seq<F.Event>) returns (unsent: seq<F.Event>)
    ensures var (s', alive) := Offered(s, events);
            && s'.Sent() + unsent == s.Sent() + WantedFrom(s.selector, events) && s.Sent() <= s'.Sent()
            && if alive then unsent == [] && s'.closed == s.closed else s'.closed
    decreases |events|
  {
    unsent := WantedFrom(s.selector, events);
    if events != [] {
      if !F.Selects(s.selector, events[0]) {
        unsent := OfferedSends(s, events[1..]);
      } else {
        DeliverSends(s, events[0]);
        var (s1, alive) := F.Deliver(s, events[0]);
        if alive {
          unsent := OfferedSends(s1, events[1..]);
          Associates(s.Sent(), events[0], WantedFrom(s.selector, events[1..]));
        }
      }
    }
  }

  lemma Associates(sent: seq<F.Event>, e: F.Event, rest: seq<F.Event>)
    ensures (sent + [e]) + rest == sent + ([e] + rest)
  {
  }

  lemma {:induction false} OfferedFits(s: F.Sub, events: seq<F.Event>)
    requires |s.buffer| <= s.capacity
    ensures var (s', alive) := Offered(s, events);
            var wanted := |WantedFrom(s.selector, events)|;
            && (alive <==> wanted == 0 || (!s.closed && wanted <= s.capacity - |s.buffer|))
            && (s'.overflowed <==> s.overflowed || (!s.closed && wanted > s.capacity - |s.buffer|))
    decreases |events|
  {
    if events == [] {
    } else if !F.Selects(s.selector, events[0]) {
      OfferedFits(s, events[1..]);
    } else {
      var (s1, alive) := F.Deliver(s, events[0]);
      if alive {
        OfferedFits(s1, events[1..]);
      }
    }
  }

  /**
   * A publication, to one subscription: either it survives having been sent exactly the events it selects, or it
   * is closed having been sent some first part of them. It fails to survive exactly when it selects something
   * and was closed already, or selects more than its buffer had room for.
   */
  lemma OfferedMeans(s: F.Sub, events: seq<F.Event>)
    requires |s.buffer| <= s.capacity
    ensures var (s', alive) := Offered(s, events);
            var wanted := WantedFrom(s.selector, events);
            && s.Sent() <= s'.Sent() <= s.Sent() + wanted
            && (alive ==> s'.Sent() == s.Sent() + wanted && s'.closed == s.closed)
            && (!alive ==> s'.closed)
            && (alive <==> wanted == [] || (!s.closed && |wanted| <= s.capacity - |s.buffer|))
            && (s'.overflowed <==> s.overflowed || (!s.closed && |wanted| > s.capacity - |s.buffer|))
  {
    var unsent := OfferedSends(s, events);
    OfferedFits(s, events);
    var (s', alive) := Offered(s, events);
    assert s'.Sent() <= s'.Sent() + unsent;
    assert s'.Sent() + [] == s'.Sent();
  }

  class Fanout {
    // The list is subs[..count]; what lies past it is cleared.
    var subs: array<Subscription?>
    var count: nat
    ghost var list: seq<Subscription>

    ghost predicate Valid()
      reads this, subs
    {
      && count == |list| <= subs.Length
      && (forall i :: 0 <= i < count ==> subs[i] == list[i])
      && (forall i :: count <= i < subs.Length ==> subs[i] == null)
      && (forall i, j :: 0 <= i < j < count ==> list[i] != list[j])
    }

    constructor ()
      ensures Valid() && list == [] && fresh(subs)
    {
      subs := new Subscription?[0];
      count, list := 0, [];
    }

    method Grow()
      requires Valid()
      modifies this`subs
      ensures Valid() && fresh(subs) && count < subs.Length
    {
      var grown := new Subscription?[2 * count + 1](_ => null);
      for i := 0 to count
        invariant Valid()
        invariant forall k :: 0 <= k < i ==> grown[k] == subs[k]
        invariant forall k :: i <= k < grown.Length ==> grown[k] == null
        modifies grown
      {
        grown[i] := subs[i];
      }
      subs := grown;
    }

    /** A new subscription at the end of the list; refused without a buffer or a domain. */
    method Subscribe(selector: bv16, buffer: int, ghost from: nat) returns (sub: Subscription?)
      requires Valid()
      modifies this, subs
      ensures Valid() && (subs == old(subs) || fresh(subs))
      ensures sub == null <==> buffer <= 0 || selector == 0
      ensures sub == null ==> list == old(list)
      ensures sub != null ==>
                && fresh(sub) && list == old(list) + [sub]
                && sub.Abs() == F.Sub(selector, buffer, from, false, false, [], [])
    {
      if buffer <= 0 || selector == 0 {
        return null;
      }
      sub := new Subscription(selector, buffer, from);
      if count == subs.Length {
        Grow();
      }
      subs[count] := sub;
      count, list := count + 1, list + [sub];
    }

    /** The turn of subscription i: offered the events, and kept at place n if it survives them. */
    static method Settle(subs: array<Subscription?>, n: nat, i: nat, events: seq<F.Event>,
                         ghost list: seq<Subscription>, ghost before: seq<F.Sub>)
      returns (kept: bool)
      requires n <= i < |list| <= subs.Length && subs[i] == list[i]
      requires forall j, k :: 0 <= j < k < |list| ==> list[j] != list[k]
      requires Offering(list, before, events, i)
      modifies subs, list[i]
      ensures Offering(list, before, events, i + 1) && kept == Offered(before[i], events).1
      ensures subs[..] == if kept then old(subs[..])[n := list[i]] else old(subs[..])
    {
      var sub := subs[i];
      kept := sub.DeliverAll(events);
      if kept {
        subs[n] := sub;
      }
    }

    /** The sweep over the list: survivors slide down over those that did not survive. */
    static method Sweep(subs: array<Subscription?>, ghost list: seq<Subscription>, count: nat, events: seq<F.Event>)
      returns (n: nat)
      requires count == |list| <= subs.Length && forall k :: 0 <= k < count ==> subs[k] == list[k]
      requires forall j, k :: 0 <= j < k < count ==> list[j] != list[k]
      modifies subs, list
      ensures Slid(subs[..], list, old(Alive(list, events)), count, n)
      ensures Offering(list, old(Values(list)), events, count)
    {
      ghost var alive, before := Alive(list, events), Values(list);
      n := 0;
      for i := 0 to count
        invariant n <= i && Slid(subs[..], list, alive, i, n)
        invariant Offering(list, before, events, i)
      {
        ghost var cells := subs[..];
        var kept := Settle(subs, n, i, events, list, before);
        SlidMore(cells, list, alive, i, n);
        if kept {
          n := n + 1;
        }
      }
    }

    /**
     * Delivers one batch to every subscription and slides the survivors down the same array, in order; the tail
     * is cleared.
     */
    method Publish(events: seq<F.Event>)
      requires Valid()
      modifies this`count, this`list, subs, list
      ensures Valid()
      ensures forall s :: s in old(list) ==> s.Abs() == Offered(old(s.Abs()), events).0
      ensures list == Survivors(old(list), old(Alive(list, events)), |old(list)|)
    {
      if |events| == 0 {
        AllSurvive(list, Alive(list, events), count);
        return;
      }
      ghost var alive, before := Alive(list, events), Values(list);
      SurvivorsDistinct(list, alive, count);
      var n := Sweep(subs, list, count, events);
      ClearTail(n);
      OfferedAll(list, before, events);
      count, list := n, Survivors(list, alive, count);
    }

    method ClearTail(n: nat)
      requires n <= subs.Length
      modifies subs
      ensures forall k :: 0 <= k < n ==> subs[k] == old(subs[k])
      ensures forall k :: n <= k < subs.Length ==> subs[k] == null
    {
      for i := n to subs.Length
        invariant forall k :: 0 <= k < n ==> subs[k] == old(subs[k])
        invariant forall k :: n <= k < i ==> subs[k] == null
      {
        subs[i] := null;
      }
    }
  }

  /** Which subscriptions outlive a publication. */
  ghost function Alive(list: seq<Subscription>, events: seq<F.Event>): seq<bool>
    reads list
  {
    seq(|list|, i requires 0 <= i < |list| reads list => Offered(list[i].Abs(), events).1)
  }

  ghost function Values(list: seq<Subscription>): seq<F.Sub>
    reads list
  {
    seq(|list|, i requires 0 <= i < |list| reads list => list[i].Abs())
  }

  /** The first i of the list have been offered the events. */
  ghost predicate Offering(list: seq<Subscription>, before: seq<F.Sub>, events: seq<F.Event>, i: nat)
    reads list
  {
    && |before| == |list|
    && forall k :: 0 <= k < |list| ==> list[k].Abs() == if k < i then Offered(before[k], events).0 else before[k]
  }

  lemma OfferedAll(list: seq<Subscription>, before: seq<F.Sub>, events: seq<F.Event>)
    requires Offering(list, before, events, |list|)
    ensures forall s :: s in list ==>
                          exists k :: 0 <= k < |list| && list[k] == s && s.Abs() == Offered(before[k], events).0
  {
  }

  /** Those of the first n that are alive, in order. */
  ghost function Survivors(list: seq<Subscription>, alive: seq<bool>, n: nat): seq<Subscription>
    requires n <= |list| == |alive|
  {
    if n == 0 then []
    else Survivors(list, alive, n - 1) + if alive[n - 1] then [list[n - 1]] else []
  }

  /** Of the first i, the n survivors have slid to the front, and those after still stand where they stood. */
  ghost predicate Slid(cells: seq<Subscription?>, list: seq<Subscription>, alive: seq<bool>, i: nat, n: nat) {
    && n <= i <= |list| == |alive| && |list| <= |cells|
    && n == |Survivors(list, alive, i)|
    && (forall k :: 0 <= k < n ==> cells[k] == Survivors(list, alive, i)[k])
    && forall k :: i <= k < |list| ==> cells[k] == list[k]
  }

  lemma SlidMore(cells: seq<Subscription?>, list: seq<Subscription>, alive: seq<bool>, i: nat, n: nat)
    requires i < |list| && Slid(cells, list, alive, i, n)
    ensures if alive[i] then Slid(cells[n := list[i]], list, alive, i + 1, n + 1)
            else Slid(cells, list, alive, i + 1, n)
  {
  }

  lemma {:induction false} AllSurvive(list: seq<Subscription>, alive: seq<bool>, n: nat)
    requires n <= |list| == |alive| && forall i :: 0 <= i < |alive| ==> alive[i]
    ensures Survivors(list, alive, n) == list[..n]
  {
    if n > 0 {
      AllSurvive(list, alive, n - 1);
    }
  }

  lemma {:induction false} SurvivorsDistinct(list: seq<Subscription>, alive: seq<bool>, n: nat)
    requires n <= |list| == |alive| && forall i, j :: 0 <= i < j < |list| ==> list[i] != list[j]
    ensures var kept := Survivors(list, alive, n);
            && (forall s :: s in kept ==> s in list[..n])
            && forall i, j :: 0 <= i < j < |kept| ==> kept[i] != kept[j]
  {
    if n > 0 {
      SurvivorsDistinct(list, alive, n - 1);
      assert list[n - 1] !in list[..n - 1];
    }
  }
}
