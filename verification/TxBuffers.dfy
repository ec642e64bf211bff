/** The buffer manager: a bounded channel of free buffers over fixed memory. */
module TxBuffers {
  import opened Basics
  import opened TxSystem

  class TxBufferManager {
    const buffers: seq<array<Byte>>
    const size: nat
    /** The channel; it holds at most as many entries as there are buffers. */
    var channel: seq<nat>
    /** The buffers handed out and not yet dropped. */
    ghost var out: set<nat>

    ghost predicate Valid()
      reads this, buffers
    {
      && (forall i :: 0 <= i < |buffers| ==> buffers[i].Length == size)
      && Distinct(buffers)
      && Distinct(channel) && out <= Buffers(|buffers|)
      && (forall b: nat :: b < |buffers| ==> (b in channel <==> b !in out))
      && (forall i :: 0 <= i < |channel| ==> channel[i] < |buffers| && buffers[channel[i]][..] == Zeros(size))
    }

    /** Channel and memory are those of the transmit side's world. */
    ghost predicate Represents(w: World)
      reads this, buffers
    {
      && |buffers| == w.n && size == w.size && channel == w.pool && w.memory.Keys == Buffers(w.n)
      && forall b: nat :: b < |buffers| && b in w.memory ==> buffers[b][..] == w.memory[b]
    }

    /** Each buffer is sent to the channel once. */
    constructor (buffers: seq<array<Byte>>, size: nat)
      requires Distinct(buffers)
      requires forall i :: 0 <= i < |buffers| ==> buffers[i].Length == size && buffers[i][..] == Zeros(size)
      ensures Valid() && this.buffers == buffers && this.size == size
      ensures out == {} && |channel| == |buffers| && forall k :: 0 <= k < |channel| ==> channel[k] == k
    {
      this.buffers := buffers;
      this.size := size;
      var queue: seq<nat> := [];
      for i := 0 to |buffers|
        invariant |queue| == i && forall k :: 0 <= k < i ==> queue[k] == k
      {
        queue := queue + [i];
      }
      channel := queue;
      out := {};
      forall b: nat | b < |buffers| ensures b in queue {
        assert queue[b] == b;
      }
    }

    method TryAlloc() returns (buffer: Option<nat>)
      requires Valid()
      modifies this`channel, this`out
      ensures Valid()
      ensures buffer.None? <==> old(channel) == []
      ensures match buffer
              case None => channel == [] && out == old(out)
              case Some(b) => old(channel) == [b] + channel && b !in old(out) && out == old(out) + {b}
                              && b < |buffers| && buffers[b][..] == Zeros(size)
    {
      if channel == [] {
        return None;
      }
      var b := channel[0];
      var rest := channel[1..];
      assert forall x :: x in channel <==> x == b || x in rest;
      buffer := Some(b);
      channel := rest;
      out := out + {b};
    }

    /** `TxBuffer::drop`: wipe, then try to send. The channel always has room. */
    method DropBuffer(b: nat)
      requires Valid() && b in out
      modifies this`channel, this`out, buffers[b]
      ensures Valid()
      ensures channel == old(channel) + [b] && out == old(out) - {b}
      ensures buffers[b][..] == Zeros(size)
    {
      var memory := buffers[b];
      for i := 0 to size
        invariant forall k :: 0 <= k < i ==> memory[k] == 0
        invariant forall c :: 0 <= c < |buffers| && c != b ==> buffers[c][..] == old(buffers[c][..])
        modifies memory
      {
        memory[i] := 0;
        assert forall c :: 0 <= c < |buffers| && c != b ==> buffers[c] != memory;
      }
      assert memory[..] == Zeros(size);
      RoomForOneMore(channel, b, |buffers|);
      if |channel| < |buffers| {
        channel := channel + [b];
      }
      out := out - {b};
    }
  }

  /** The manager of a fresh world. */
  method NewManager(buffers: seq<array<Byte>>, size: nat) returns (m: TxBufferManager)
    requires Distinct(buffers)
    requires forall i :: 0 <= i < |buffers| ==> buffers[i].Length == size && buffers[i][..] == Zeros(size)
    ensures fresh(m) && m.Valid() && m.buffers == buffers && m.Represents(Init(|buffers|, size))
  {
    m := new TxBufferManager(buffers, size);
  }

  /** Allocation succeeds exactly when the world allows it, and hands out the
      buffer that the world gives to the caller. */
  method Allocate(m: TxBufferManager, ghost w: World) returns (buffer: Option<nat>)
    requires m.Valid() && m.Represents(w)
    modifies m
    ensures m.Valid() && (buffer.Some? <==> Enabled(w, Alloc))
    ensures buffer.None? ==> m.Represents(w)
    ensures buffer.Some? ==>
              && m.Represents(Apply(w, Alloc))
              && Apply(w, Alloc).callers == w.callers + {buffer.value} && buffer.value !in Elems(m.channel)
  {
    buffer := m.TryAlloc();
  }

  /** Dropping a buffer that is not in the pool does to channel and memory what
      the world says. */
  method ReleaseBuffer(m: TxBufferManager, ghost w: World, b: nat)
    requires m.Valid() && m.Represents(w) && b < w.n && b !in w.pool
    modifies m, m.buffers[b]
    ensures m.Valid() && m.Represents(Release(w, b))
  {
    ghost var before := m.channel;
    assert forall c: nat :: c < |m.buffers| && c != b ==> m.buffers[c] != m.buffers[b];
    m.DropBuffer(b);
    RoomForOneMore(before, b, w.n);
  }
}
