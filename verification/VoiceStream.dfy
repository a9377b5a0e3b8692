// The voice path of the remote control plugin: packets go through the ring buffer and leave as chunks.
module VoiceStream {
  import opened Bytes
  import opened RingBuffer
  import opened VoiceRuns

  /** Largest chunk size and buffer size the configuration accepts. */
  const SANE_SIZE: nat := 512 * 1024

  /** Largest packet: its length is a uint16_t. */
  const PACKET_SIZE: nat := 0xFFFF

  lemma NoWrap(capacity: nat, length: nat)
    requires capacity < TWO_32 / 2 && length < TWO_16
    ensures (capacity * 2) % TWO_32 == capacity * 2 && (capacity + length) % TWO_32 == capacity + length
  {
  }

  class VoiceStream {
    const config: Config
    const buffer: RingBuffer?  // absent when both chunk sizes are zero
    var sequence: nat
    var transmission: bool
    var log: seq<Event>        // what the audio handler was told

    ghost predicate Valid()
      reads this, buffer
    {
      && config.firstChunk <= SANE_SIZE && config.chunk <= SANE_SIZE && sequence < TWO_16
      && (buffer == null ==> config == Config(0, 0))
      && (buffer != null ==> buffer.Valid() && (buffer.used == 0 || buffer.used < Max(config.firstChunk, config.chunk)))
    }

    ghost function View(): State
      reads this, buffer, if buffer == null then {} else {buffer.buffer}
      requires buffer != null ==> buffer.Valid()
    {
      State(transmission, sequence, if buffer == null then [] else buffer.Contents(), log)
    }

    constructor (config: Config, bufferSize: nat)
      requires config.firstChunk <= SANE_SIZE && config.chunk <= SANE_SIZE
      ensures Valid() && View() == INITIAL && this.config == config
    {
      this.config := config;
      sequence, transmission, log := 0, false, [];
      if config == Config(0, 0) {
        buffer := null;
      } else {
        buffer := new RingBuffer(bufferSize);
      }
    }

    /** Takes the oldest bytes out of the ring and hands them on as one chunk. */
    method SendOut(length: nat)
      requires buffer != null && buffer.Valid() && sequence < TWO_16
      modifies this`sequence, this`log, buffer`tail, buffer`used
      ensures buffer.Valid() && sequence < TWO_16
      ensures View() == VoiceRuns.SendOut(old(View()), length)
    {
      if length != 0 {
        var bytes := new byte[length];
        var read := buffer.Pop(length, bytes);
        if read > 0 {
          log := log + [Chunk(sequence, bytes[..read])];
          sequence := (sequence + 1) % TWO_16;
        }
      }
    }

    /** A packet of the running transmission. */
    method DataReceived(number: nat, bytes: seq<byte>)
      requires Valid() && |bytes| <= PACKET_SIZE
      modifies this`sequence, this`log, buffer, if buffer == null then {} else {buffer.buffer}
      ensures Valid() && (buffer != null ==> buffer.buffer == old(buffer.buffer) || fresh(buffer.buffer))
      ensures View() == DataStep(config, old(View()), number, bytes)
    {
      if transmission {
        var chunkSize := if config.firstChunk != 0 && sequence == 0 then config.firstChunk else config.chunk;
        if chunkSize != 0 {
          Buffer(bytes);
          DrainKeeps(View(), chunkSize);
          DrainBuffer(chunkSize);
        } else if |bytes| > 0 {
          log := log + [Chunk(number, bytes)];
        }
      }
    }

    /** Stores a packet, growing the ring when it does not fit. */
    method Buffer(bytes: seq<byte>)
      requires Valid() && buffer != null && |bytes| <= PACKET_SIZE
      modifies buffer, buffer.buffer
      ensures buffer.Valid() && buffer.Contents() == old(buffer.Contents()) + bytes
      ensures buffer.buffer == old(buffer.buffer) || fresh(buffer.buffer)
    {
      if buffer.Free() < |bytes| {
        Grow(|bytes|);
      }
      var written := buffer.Push(|bytes|, bytes);
      assert bytes[..written] == bytes;
    }

    /** A ring of twice the size, or larger by a packet; neither thirty-two bit sum wraps. */
    method Grow(length: nat)
      requires Valid() && buffer != null && buffer.Free() < length <= PACKET_SIZE
      modifies buffer
      ensures buffer.Valid() && buffer.Contents() == old(buffer.Contents())
      ensures fresh(buffer.buffer) && buffer.Free() >= length
    {
      var capacity := buffer.buffer.Length;
      NoWrap(capacity, length);
      var newSize := Max((capacity * 2) % TWO_32, (capacity + length) % TWO_32);
      buffer.Resize(newSize);
    }

    method DrainBuffer(chunkSize: nat)
      requires buffer != null && buffer.Valid() && sequence < TWO_16 && chunkSize > 0
      modifies this`sequence, this`log, buffer`tail, buffer`used
      ensures buffer.Valid() && sequence < TWO_16
      ensures View() == Drain(old(View()), chunkSize)
    {
      while buffer.used >= chunkSize
        invariant buffer.Valid() && sequence < TWO_16
        invariant Drain(View(), chunkSize) == Drain(old(View()), chunkSize)
        decreases buffer.used
      {
        SendOut(chunkSize);
      }
    }

    /** The end of a transmission: the rest goes out, but only after a complete first chunk did. Tells whether
        the assertion that there is a buffer held; without chunk sizes there is none. */
    method EndReceived() returns (asserted: bool)
      requires Valid()
      modifies this`sequence, this`log, this`transmission, buffer
      ensures Valid() && (buffer != null ==> buffer.buffer == old(buffer.buffer))
      ensures View() == EndStep(old(View()))
      ensures asserted <==> !old(transmission) || buffer != null
    {
      asserted := !transmission || buffer != null;
      if transmission {
        if buffer != null {
          if sequence != 0 {
            SendOut(buffer.used);
          }
          buffer.Reset();
        }
        transmission := false;
        log := log + [Stopped];
      }
    }

    /** The start of a transmission; a missing end is made up for first. */
    method StartReceived() returns (asserted: bool)
      requires Valid()
      modifies this`sequence, this`log, this`transmission, buffer
      ensures Valid() && (buffer != null ==> buffer.buffer == old(buffer.buffer))
      ensures View() == StartStep(old(View()))
      ensures asserted <==> !old(transmission) || buffer != null
    {
      asserted := true;
      if transmission {
        asserted := EndReceived();
      }
      log := log + [Started];
      sequence := 0;
      transmission := true;
    }
  }
}
