/**
 The byte queue of RingBuffer.h: a circular buffer with an input and an output
 pointer. One slot always stays free, and a write that does not fit empties the
 whole queue.
 */
module RingBuffer {

  class Ring<T(0)> {
    const length: nat
    const buffer: array<T>
    var iPtr: nat
    var oPtr: nat

    ghost predicate Valid()
      reads this
    {
      0 < length == buffer.Length && iPtr < length && oPtr < length
    }

    /** Position k places behind the output pointer. */
    function At(k: nat): (p: nat)
      requires Valid() && k < length
      reads this
      ensures p < length
    {
      if oPtr + k < length then oPtr + k else oPtr + k - length
    }

    /** What is queued, oldest first. */
    function Contents(): (s: seq<T>)
      requires Valid()
      reads this, buffer
      ensures |s| == DataSize() && forall k: nat | k < |s| :: s[k] == buffer[At(k)]
    {
      if oPtr <= iPtr then buffer[oPtr..iPtr] else buffer[oPtr..] + buffer[..iPtr]
    }

    constructor (n: nat, init: T)
      requires 0 < n
      ensures Valid() && length == n && fresh(buffer) && Contents() == []
    {
      length := n;
      buffer := new T[n](_ => init);
      iPtr, oPtr := 0, 0;
    }

    function FreeSpace(): nat
      requires Valid()
      reads this
    {
      if oPtr > iPtr then oPtr - iPtr
      else if iPtr > oPtr then length - (iPtr - oPtr)
      else length
    }

    function DataSize(): nat
      requires Valid()
      reads this
    {
      length - FreeSpace()
    }

    method Clear()
      requires Valid()
      modifies this
      ensures Valid() && Contents() == []
    {
      iPtr, oPtr := 0, 0;
    }

    /** Appends the samples, or empties the queue when they do not leave a free slot. */
    method AddData(samples: seq<T>) returns (ok: bool)
      requires Valid()
      modifies this, buffer
      ensures Valid()
      ensures ok == (old(|Contents()|) + |samples| < length)
      ensures Contents() == if ok then old(Contents()) + samples else []
    {
      if |samples| >= FreeSpace() {
        Clear();
        return false;
      }
      ghost var before := Contents();
      for i := 0 to |samples|
        invariant Valid() && oPtr == old(oPtr)
        invariant Contents() == before + samples[..i]
      {
        assert samples[..i + 1] == samples[..i] + [samples[i]];
        Push(samples[i]);
      }
      return true;
    }

    /** One step of the writing loop. */
    method Push(x: T)
      requires Valid() && |Contents()| + 1 < length
      modifies this`iPtr, buffer
      ensures Valid() && Contents() == old(Contents()) + [x]
    {
      buffer[iPtr] := x;
      iPtr := iPtr + 1;
      if iPtr == length {
        iPtr := 0;
      }
    }

    /** One step of the reading loop. */
    method Pop() returns (x: T)
      requires Valid() && Contents() != []
      modifies this`oPtr
      ensures Valid() && x == old(Contents())[0] && Contents() == old(Contents())[1..]
    {
      x := buffer[oPtr];
      oPtr := oPtr + 1;
      if oPtr == length {
        oPtr := 0;
      }
    }

    /** Removes the n oldest samples, or fails and removes nothing. */
    method GetData(n: nat) returns (ok: bool, samples: seq<T>)
      requires Valid()
      modifies this
      ensures Valid()
      ensures ok == (n <= old(|Contents()|))
      ensures ok ==> samples == old(Contents())[..n] && Contents() == old(Contents())[n..]
      ensures !ok ==> samples == [] && Contents() == old(Contents())
    {
      samples := [];
      if DataSize() < n {
        return false, samples;
      }
      ghost var before := Contents();
      for i := 0 to n
        invariant Valid() && iPtr == old(iPtr)
        invariant samples == before[..i] && Contents() == before[i..]
      {
        var x := Pop();
        samples := samples + [x];
      }
      return true, samples;
    }

    /** Reads the n oldest samples without removing them. */
    method Peek(n: nat) returns (ok: bool, samples: seq<T>)
      requires Valid()
      ensures ok == (n <= |Contents()|)
      ensures samples == if ok then Contents()[..n] else []
    {
      samples := [];
      if DataSize() < n {
        return false, samples;
      }
      var ptr := oPtr;
      for i := 0 to n
        invariant ptr < length && (i < |Contents()| ==> ptr == At(i))
        invariant samples == Contents()[..i]
      {
        samples := samples + [buffer[ptr]];
        ptr := ptr + 1;
        if ptr == length {
          ptr := 0;
        }
      }
      return true, samples;
    }
  }
}
