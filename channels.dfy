/** The per-stream channel state that both timestamp readers keep: four parallel vectors
    (`started`, `total`, `last_timestamp`, `counter`) of two entries each. */
module Channels {

  /** Number of channels of either reader (`pins` and `sensors` in the readers). */
  const Pins := 2

  /** Largest value of the `int64_t` counters. */
  const MaxCounter := 0x7FFF_FFFF_FFFF_FFFF

  type ChannelIndex = i: int | 0 <= i < Pins

  /** One entry of the four vectors. */
  datatype Channel = Channel(started: bool, total: int, lastTimestamp: int, counter: int)

  // ---------------------------------------------------------------------------
  // Value-level specification of the table
  // ---------------------------------------------------------------------------

  /** The table after `reset`: no channel started, everything zero. */
  function Cleared(): (cs: seq<Channel>)
    ensures |cs| == Pins
    ensures forall i :: 0 <= i < Pins ==>
      !cs[i].started && cs[i].total == 0 && cs[i].lastTimestamp == 0 && cs[i].counter == 0
  {
    seq(Pins, _ => Channel(false, 0, 0, 0))
  }

  /** The table after one `++counter[i]`. */
  function Advance(cs: seq<Channel>, i: ChannelIndex): (next: seq<Channel>)
    requires |cs| == Pins
    ensures |next| == Pins
    ensures next[i].counter == cs[i].counter + 1
    ensures next[i].started == cs[i].started && next[i].total == cs[i].total
    ensures next[i].lastTimestamp == cs[i].lastTimestamp
    ensures forall j :: 0 <= j < Pins && j != i ==> next[j] == cs[j]
  {
    cs[i := cs[i].(counter := cs[i].counter + 1)]
  }

  /** The table after a run of counter requests, the k-th of them on channel `calls[k]`. */
  function AfterCalls(cs: seq<Channel>, calls: seq<ChannelIndex>): (final: seq<Channel>)
    requires |cs| == Pins
    ensures |final| == Pins
    decreases |calls|
  {
    if calls == [] then cs
    else Advance(AfterCalls(cs, calls[..|calls| - 1]), calls[|calls| - 1])
  }

  /** What the run of counter requests returns, one value per request. */
  function Returned(cs: seq<Channel>, calls: seq<ChannelIndex>): (values: seq<int>)
    requires |cs| == Pins
    ensures |values| == |calls|
    decreases |calls|
  {
    if calls == [] then []
    else Returned(cs, calls[..|calls| - 1]) + [AfterCalls(cs, calls)[calls[|calls| - 1]].counter]
  }

  /** How many of `calls` are on channel `c`. */
  function Count(calls: seq<ChannelIndex>, c: ChannelIndex): nat
    decreases |calls|
  {
    if calls == [] then 0
    else Count(calls[..|calls| - 1], c) + (if calls[|calls| - 1] == c then 1 else 0)
  }

  /** The values among `values` that answered requests on channel `c`, in call order. */
  function OnChannel(calls: seq<ChannelIndex>, values: seq<int>, c: ChannelIndex): seq<int>
    requires |values| == |calls|
    decreases |calls|
  {
    if calls == [] then []
    else
      var last := if calls[|calls| - 1] == c then [values[|values| - 1]] else [];
      OnChannel(calls[..|calls| - 1], values[..|values| - 1], c) + last
  }

  /** 1, 2, ..., n. */
  function OneTo(n: nat): (s: seq<int>)
    ensures |s| == n
  {
    seq(n, i => i + 1)
  }

  /** After a run of requests, each counter has grown by the number of requests on its
      channel, and no other field of any channel has changed. */
  lemma {:induction false} CounterTalliesCalls(cs: seq<Channel>, calls: seq<ChannelIndex>, c: ChannelIndex)
    requires |cs| == Pins
    ensures AfterCalls(cs, calls)[c].counter == cs[c].counter + Count(calls, c)
    ensures AfterCalls(cs, calls)[c].started == cs[c].started
    ensures AfterCalls(cs, calls)[c].total == cs[c].total
    ensures AfterCalls(cs, calls)[c].lastTimestamp == cs[c].lastTimestamp
    decreases |calls|
  {
    if calls != [] {
      CounterTalliesCalls(cs, calls[..|calls| - 1], c);
    }
  }

  /** No channel gets more requests than there are. */
  lemma {:induction false} CountAtMostLength(calls: seq<ChannelIndex>, c: ChannelIndex)
    ensures Count(calls, c) <= |calls|
    decreases |calls|
  {
    if calls != [] {
      CountAtMostLength(calls[..|calls| - 1], c);
    }
  }

  /** A request returns the number of requests made so far on its channel, itself included. */
  lemma {:induction false} ReturnsRunningCount(cs: seq<Channel>, calls: seq<ChannelIndex>, k: nat)
    requires |cs| == Pins && k < |calls|
    ensures Returned(cs, calls)[k] == cs[calls[k]].counter + Count(calls[..k + 1], calls[k])
    decreases |calls|
  {
    var n := |calls|;
    if k == n - 1 {
      assert calls[..k + 1] == calls;
      CounterTalliesCalls(cs, calls, calls[k]);
    } else {
      var prefix := calls[..n - 1];
      assert prefix[..k + 1] == calls[..k + 1];
      ReturnsRunningCount(cs, prefix, k);
    }
  }

  /** Starting from a cleared table, the n-th request on a channel returns n. */
  lemma {:induction false} NthRequestReturnsN(calls: seq<ChannelIndex>, k: nat)
    requires k < |calls|
    ensures Returned(Cleared(), calls)[k] == Count(calls[..k + 1], calls[k])
    ensures Returned(Cleared(), calls)[k] >= 1
  {
    ReturnsRunningCount(Cleared(), calls, k);
    var run := calls[..k + 1];
    assert run[..|run| - 1] == calls[..k];
    assert run[|run| - 1] == calls[k];
    assert Count(run, calls[k]) == Count(calls[..k], calls[k]) + 1;
  }

  /** Starting from a cleared table, the values one channel sees are exactly 1, 2, ..., n
      for its n requests: strictly increasing, no repeats, no gaps, whatever the requests on
      the other channel in between. */
  lemma {:induction false} ChannelSeesOneToN(calls: seq<ChannelIndex>, c: ChannelIndex)
    ensures OnChannel(calls, Returned(Cleared(), calls), c) == OneTo(Count(calls, c))
    decreases |calls|
  {
    if calls != [] {
      var n := |calls|;
      var prefix := calls[..n - 1];
      var values := Returned(Cleared(), calls);
      assert values[..n - 1] == Returned(Cleared(), prefix);
      ChannelSeesOneToN(prefix, c);
      if calls[n - 1] == c {
        CounterTalliesCalls(Cleared(), calls, c);
        assert values[n - 1] == Count(calls, c);
        assert OneTo(Count(prefix, c)) + [Count(prefix, c) + 1] == OneTo(Count(calls, c));
      }
    }
  }

  // ---------------------------------------------------------------------------
  // The table as the readers hold it: four arrays updated in place
  // ---------------------------------------------------------------------------

  class ChannelTable {
    const started: array<bool>
    const total: array<int>
    const lastTimestamp: array<int>
    const counter: array<int>
    ghost const Repr: set<object>

    /** Four distinct vectors of `Pins` entries; every counter is a non-negative `int64_t`. */
    ghost predicate Valid()
      reads this, Repr
    {
      && Repr == {started as object, total, lastTimestamp, counter}
      && started.Length == Pins && total.Length == Pins
      && lastTimestamp.Length == Pins && counter.Length == Pins
      && total != lastTimestamp && total != counter && lastTimestamp != counter
      && forall i :: 0 <= i < Pins ==> 0 <= counter[i] <= MaxCounter
    }

    /** The table as a value. */
    ghost function Channels(): (cs: seq<Channel>)
      reads this, Repr
      requires Valid()
      ensures |cs| == Pins
    {
      seq(Pins, i requires 0 <= i < Pins reads started, total, lastTimestamp, counter =>
        Channel(started[i], total[i], lastTimestamp[i], counter[i]))
    }

    /** Vectors of `Pins` value-initialised entries, then `reset`. */
    constructor ()
      ensures Valid() && fresh(Repr)
      ensures Channels() == Cleared()
    {
      var s := new bool[Pins](_ => false);
      var t := new int[Pins](_ => 0);
      var l := new int[Pins](_ => 0);
      var c := new int[Pins](_ => 0);
      started, total, lastTimestamp, counter := s, t, l, c;
      Repr := {s as object, t, l, c};
      new;
      Reset();
    }

    /** Sets every channel back to not started, with zero total, timestamp and counter. */
    method Reset()
      requires Valid()
      modifies Repr
      ensures Valid()
      ensures Channels() == Cleared()
    {
      for i := 0 to Pins
        invariant Valid()
        invariant forall j :: 0 <= j < i ==>
          !started[j] && total[j] == 0 && lastTimestamp[j] == 0 && counter[j] == 0
      {
        started[i] := false;
        total[i] := 0;
        lastTimestamp[i] := 0;
        counter[i] := 0;
      }
      assert Channels() == Cleared();
    }

    /** `++counter[i]`: bumps channel `i`'s counter and returns its new value. */
    method Increment(i: ChannelIndex) returns (n: nat)
      requires Valid()
      requires counter[i] < MaxCounter
      modifies counter
      ensures Valid()
      ensures Channels() == Advance(old(Channels()), i)
      ensures n == old(counter[i]) + 1 == Channels()[i].counter
    {
      counter[i] := counter[i] + 1;
      n := counter[i];
    }
  }
}
