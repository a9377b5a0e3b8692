// The wrap-around byte buffer in front of the voice stream.
module RingBuffer {
  import opened Bytes

  /** The place of the i-th stored byte. */
  function Slot(capacity: nat, tail: nat, i: nat): nat {
    if tail + i < capacity then tail + i else tail + i - capacity
  }

  /** What a ring of this content, read position and fill level holds, oldest byte first. */
  function Ring(a: seq<byte>, tail: nat, used: nat): (s: seq<byte>)
    requires used <= |a| && (tail < |a| || tail == used == 0)
    ensures |s| == used
    ensures forall i :: 0 <= i < used ==> s[i] == a[Slot(|a|, tail, i)]
  {
    if tail + used <= |a| then a[tail..tail + used] else a[tail..] + a[..tail + used - |a|]
  }

  lemma RingPushed(a: seq<byte>, b: seq<byte>, tail: nat, used: nat, data: seq<byte>)
    requires |a| == |b| && tail < |a| && used + |data| <= |a|
    requires forall i :: 0 <= i < used ==> b[Slot(|a|, tail, i)] == a[Slot(|a|, tail, i)]
    requires forall i :: 0 <= i < |data| ==> b[Slot(|a|, tail, used + i)] == data[i]
    ensures Ring(b, tail, used + |data|) == Ring(a, tail, used) + data
  {
    var r := Ring(b, tail, used + |data|);
    forall i | 0 <= i < |r|
      ensures r[i] == (Ring(a, tail, used) + data)[i]
    {
      assert r[i] == b[Slot(|b|, tail, i)];
      if i < used {
        assert Ring(a, tail, used)[i] == a[Slot(|a|, tail, i)];
      } else {
        assert b[Slot(|a|, tail, used + (i - used))] == data[i - used];
      }
    }
  }

  lemma RingPopped(a: seq<byte>, tail: nat, used: nat, count: nat)
    requires tail < |a| && count <= used <= |a|
    ensures Slot(|a|, tail, count) < |a|
    ensures Ring(a, Slot(|a|, tail, count), used - count) == Ring(a, tail, used)[count..]
  {
    var r := Ring(a, Slot(|a|, tail, count), used - count);
    forall i | 0 <= i < |r|
      ensures r[i] == Ring(a, tail, used)[count + i]
    {
    }
  }

  /** What two copies, count1 bytes at head and count2 bytes at the start, leave in a buffer. */
  ghost predicate Written(a: seq<byte>, b: seq<byte>, head: nat, data: seq<byte>, count1: nat, count2: nat)
    requires count1 + count2 <= |data|
  {
    && |b| == |a|
    && forall i {:trigger b[i]} :: 0 <= i < |b| ==>
         b[i] == if i < count2 then data[count1 + i] else if head <= i < head + count1 then data[i - head] else a[i]
  }

  lemma RingWritten(a: seq<byte>, b: seq<byte>, tail: nat, used: nat, data: seq<byte>, count1: nat, count2: nat)
    requires tail < |a| && used + count1 + count2 <= |a| && count1 + count2 <= |data|
    requires Slot(|a|, tail, used) + count1 <= |a|
    requires count2 != 0 ==> Slot(|a|, tail, used) + count1 == |a| && count2 <= tail < Slot(|a|, tail, used) + count1
    requires count2 != 0 ==> tail <= Slot(|a|, tail, used)
    requires Written(a, b, Slot(|a|, tail, used), data, count1, count2)
    ensures Ring(b, tail, used + count1 + count2) == Ring(a, tail, used) + data[..count1 + count2]
  {
    RingPushed(a, b, tail, used, data[..count1 + count2]);
  }

  class RingBuffer {
    var buffer: array<byte>  // its length is the capacity and its end the buffer end
    var head: nat            // where the next byte is written
    var tail: nat            // where the next byte is read
    var used: nat

    /** Both positions lie before the buffer end, and head is used bytes ahead of tail. */
    ghost predicate Valid()
      reads this
    {
      && used <= buffer.Length
      && (if buffer.Length == 0 then head == tail == 0
          else head < buffer.Length && tail < buffer.Length)
      && head == (if tail + used < buffer.Length then tail + used
                  else if buffer.Length == 0 then 0 else tail + used - buffer.Length)
    }

    /** The bytes stored, oldest first. */
    ghost function Contents(): (s: seq<byte>)
      reads this, buffer
      requires Valid()
      ensures |s| == used
    {
      Ring(buffer[..], tail, used)
    }

    function Free(): nat
      reads this
      requires Valid()
    {
      buffer.Length - used
    }

    constructor (capacity: nat)
      ensures Valid() && Contents() == [] && buffer.Length == capacity && fresh(buffer)
    {
      buffer := new byte[capacity];
      head, tail, used := 0, 0, 0;
    }

    method Reset()
      modifies this
      ensures Valid() && Contents() == [] && buffer == old(buffer)
    {
      head := 0;
      tail := head;
      used := 0;
    }

    /** Appends the first bytes of data, as many as fit. */
    method Push(length: nat, data: seq<byte>) returns (count: nat)
      requires Valid() && length <= |data|
      modifies this, buffer
      ensures Valid() && buffer == old(buffer)
      ensures count == Min(length, old(Free()))
      ensures Contents() == old(Contents()) + data[..count]
    {
      var end := if tail <= head then buffer.Length else tail;
      count := if buffer.Length == used then 0 else Min(length, end - head);
      if count != 0 {
        count := Append(count, length, data, end);
        used := used + count;
      } else {
        assert data[..count] == [];
      }
    }

    /** The part of Push that writes; used is still what it was. */
    method Append(count: nat, length: nat, data: seq<byte>, end: nat) returns (total: nat)
      requires Valid() && used < buffer.Length && 0 < count <= length <= |data|
      requires end == (if tail <= head then buffer.Length else tail) && count == Min(length, end - head)
      modifies this`head, buffer
      ensures total == Min(length, buffer.Length - used) && head < buffer.Length
      ensures head == if tail + used + total < buffer.Length then tail + used + total else tail + used + total - buffer.Length
      ensures Ring(buffer[..], tail, used + total) == old(Contents()) + data[..total]
    {
      ghost var a := buffer[..];
      total := Write(count, length, data, end);
      RingWritten(a, buffer[..], tail, used, data, count, total - count);
    }

    /** The copies of Push: count bytes up to end and, past the buffer end, what fits before tail. */
    method Write(count: nat, length: nat, data: seq<byte>, end: nat) returns (total: nat)
      requires Valid() && used < buffer.Length && 0 < count <= length <= |data|
      requires end == (if tail <= head then buffer.Length else tail) && count == Min(length, end - head)
      modifies this`head, buffer
      ensures count <= total == Min(length, buffer.Length - used)
      ensures total != count ==> old(head) + count == buffer.Length && total - count <= tail <= old(head)
      ensures head == Slot(buffer.Length, tail, used + total) || (used + total == buffer.Length && head == tail)
      ensures head < buffer.Length
      ensures Written(old(buffer[..]), buffer[..], old(head), data, count, total - count)
    {
      total := count;
      forall i | 0 <= i < count { buffer[head + i] := data[i]; }
      head := head + count;

      if end == buffer.Length {
        var wrap := length - count;
        if wrap != 0 {
          var count2 := Min(wrap, tail);
          if count2 != 0 {
            forall i | 0 <= i < count2 { buffer[i] := data[count + i]; }
            head := count2;
            total := count + count2;
          }
        }
      }

      if head == buffer.Length {
        head := 0;
      }
    }

    /** Takes out the oldest bytes, as many as asked for and present. */
    method Pop(length: nat, data: array<byte>) returns (count: nat)
      requires Valid() && length <= data.Length && data != buffer
      modifies this`tail, this`used, data
      ensures Valid()
      ensures count == Min(length, old(used))
      ensures data[..count] == old(Contents())[..count]
      ensures forall i :: count <= i < data.Length ==> data[i] == old(data[i])
      ensures Contents() == old(Contents())[count..]
    {
      var end := if head <= tail then buffer.Length else head;
      count := if used == 0 then 0 else Min(length, end - tail);
      if count != 0 {
        count := Extract(count, length, data, end);
        used := used - count;
      }
    }

    /** The part of Pop that reads; used is still what it was. */
    method Extract(count: nat, length: nat, data: array<byte>, end: nat) returns (total: nat)
      requires Valid() && data != buffer && 0 < used && 0 < count <= length <= data.Length
      requires end == (if head <= tail then buffer.Length else head) && count == Min(length, end - tail)
      modifies this`tail, data
      ensures total == Min(length, used) && tail == Slot(buffer.Length, old(tail), total) && tail < buffer.Length
      ensures data[..total] == old(Contents())[..total]
      ensures forall i :: total <= i < data.Length ==> data[i] == old(data[i])
      ensures Ring(buffer[..], tail, used - total) == old(Contents())[total..]
    {
      ghost var r := Contents();
      RingPopped(buffer[..], tail, used, Min(length, used));
      total := Read(count, length, data, end);
      assert data[..total] == r[..total];
    }

    /** The copies of Pop: count bytes up to end and, past the buffer end, what was stored there. */
    method Read(count: nat, length: nat, data: array<byte>, end: nat) returns (total: nat)
      requires Valid() && data != buffer && 0 < used && 0 < count <= length <= data.Length
      requires end == (if head <= tail then buffer.Length else head) && count == Min(length, end - tail)
      modifies this`tail, data
      ensures total == Min(length, used)
      ensures tail == Slot(buffer.Length, old(tail), total)
      ensures forall i :: 0 <= i < total ==> data[i] == buffer[Slot(buffer.Length, old(tail), i)]
      ensures forall i :: total <= i < data.Length ==> data[i] == old(data[i])
    {
      total := count;
      forall i | 0 <= i < count { data[i] := buffer[tail + i]; }
      tail := tail + count;

      if end == buffer.Length {
        var wrap := length - count;
        if wrap != 0 {
          var count2 := Min(wrap, head);
          if count2 != 0 {
            forall i | 0 <= i < count2 { data[count + i] := buffer[i]; }
            tail := count2;
            total := count + count2;
          }
        }
      }

      if tail == buffer.Length {
        tail := 0;
      }
    }

    /** Moves the stored bytes, as many as fit, into a buffer of another size. A new size the bytes
        fill up completely leaves head at the buffer end, which no later operation expects. */
    method Resize(newCapacity: nat)
      requires Valid()
      modifies this
      ensures buffer.Length == newCapacity
      ensures if newCapacity == old(buffer.Length) then buffer == old(buffer) else fresh(buffer)
      ensures Valid() <==> newCapacity == old(buffer.Length) || newCapacity == 0 || old(used) < newCapacity
      ensures used == Min(old(used), newCapacity)
      ensures if newCapacity == old(buffer.Length) then Contents() == old(Contents())
              else tail == 0 && buffer[..used] == old(Contents())[..used]
      ensures Valid() ==> Contents() == old(Contents())[..used]
    {
      if newCapacity != buffer.Length {
        var newBuffer := new byte[newCapacity];
        var kept := Min(used, newCapacity);
        kept := Pop(kept, newBuffer);
        buffer := newBuffer;
        head := kept;
        tail := 0;
        used := kept;
      }
    }
  }

  /** Any bytes stored, and the ring resized to them or to fewer, but not to nothing: head is left at the buffer end. */
  method ResizeBreaks(bytes: seq<byte>, newCapacity: nat) returns (ring: RingBuffer)
    requires 0 < newCapacity <= |bytes|
    ensures fresh(ring) && ring.buffer.Length == newCapacity == ring.used && !ring.Valid()
  {
    ring := new RingBuffer(|bytes| + 1);
    var _ := ring.Push(|bytes|, bytes);
    ring.Resize(newCapacity);
  }
}
