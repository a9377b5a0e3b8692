// The audio player: a thread that moves bytes from the shared buffer through a staging buffer to the
// transport.
module AudioPlayer {
  import opened Bytes
  import opened PlayerRuns
  import PlayerClock

  lemma Slices<T>(a: seq<T>, i: nat, k: nat, n: nat)
    requires i + k <= |a| && n <= k
    ensures a[i..i + k][..n] == a[i..i + n] && a[i..i + k][n..] == a[i + n..i + k]
  {
  }

  class AudioPlayer {
    const sizes: Sizes
    var buffer: array<byte>
    var readCursor: nat
    var available: nat
    var offset: nat
    var timestamp: nat  // the transport's odometer
    var eos: bool

    /** Pending bytes lie inside the buffer. */
    ghost predicate Valid()
      reads this
    {
      && Sane(sizes)
      && buffer.Length == BufferSize(sizes.preferred, sizes.max) && readCursor + available <= buffer.Length
    }

    ghost function View(): Stage
      reads this, buffer
      requires readCursor + available <= buffer.Length
    {
      Stage(buffer[readCursor..readCursor + available], offset, timestamp, eos)
    }

    constructor (sizes: Sizes)
      requires Sane(sizes)
      ensures this.sizes == sizes && fresh(buffer) && readCursor == available == 0 && Valid()
      ensures View() == FRESH.stage
    {
      this.sizes := sizes;
      var multiplier := 2 * sizes.preferred / sizes.max + 1;
      buffer := new byte[multiplier * sizes.max](_ => 0);
      readCursor, available, offset, timestamp, eos := 0, 0, 0, 0, false;
    }

    /** Refused unless buffers and transport are usable. */
    method Play(usable: bool) returns (ok: bool)
      requires Valid()
      modifies this
      ensures Valid() && buffer == old(buffer) && ok == usable
      ensures View() == if usable then Started(old(View())) else old(View())
    {
      ok := usable;
      if usable {
        readCursor, available, eos := 0, 0, false;
      }
    }

    method Stop(usable: bool) returns (ok: bool)
      requires Valid()
      modifies this
      ensures Valid() && buffer == old(buffer) && ok == usable
      ensures View() == if usable then Stopped(old(View()), sizes) else old(View())
    {
      ok := usable;
      if usable {
        FoldTime();
        eos := true;
      }
    }

    /** Milliseconds played, zero when unusable. */
    method Time(usable: bool) returns (ok: bool, time: nat)
      requires Valid()
      ensures ok == usable && time == if usable then PlayerClock.Time(View(), sizes) else 0
    {
      ok, time := usable, if usable then (offset + 1000 * timestamp / sizes.rate) % TWO_32 else 0;
    }

    method FoldTime()
      requires Valid()
      modifies this
      ensures Valid() && buffer == old(buffer) && View() == Fold(old(View()), sizes)
    {
      offset, timestamp := (offset + PlayTime(timestamp, sizes)) % TWO_32, 0;
    }

    /** The pending bytes go to the front of the buffer. */
    method MoveToFront()
      requires Valid()
      modifies this`readCursor, buffer
      ensures Valid() && readCursor == 0 && View() == old(View())
    {
      ghost var pending := View().pending;
      forall i | 0 <= i < available {
        buffer[i] := buffer[readCursor + i];
      }
      assert buffer[..available] == pending;
      readCursor := 0;
    }

    /** ReceiveBuffer::Get behind the pending bytes; the count comes back as a sixteen-bit number. */
    method Fetch(frame: seq<byte>) returns (bytesRead: nat)
      requires Valid() && readCursor == 0 && HasRoom(available, sizes.preferred, sizes.max)
      modifies this`available, buffer
      ensures Valid() && readCursor == 0 && bytesRead == Taken(frame, sizes.max)
      ensures View() == old(View()).(pending := old(View()).pending + frame[..bytesRead])
    {
      ghost var pending := View().pending;
      var size := Min(|frame|, sizes.max);
      forall i | 0 <= i < size {
        buffer[available + i] := frame[i];
      }
      bytesRead := size % TWO_16;
      assert buffer[..available + bytesRead] == pending + frame[..bytesRead];
      available := available + bytesRead;
    }

    /** Fetching until the preferred amount is there or the source has nothing. */
    method Replenish(frames: seq<seq<byte>>) returns (used: nat, dry: bool)
      requires Valid() && readCursor == 0 && !Overruns(available, frames, sizes)
      modifies this`available, buffer
      ensures Valid() && readCursor == 0
      ensures var f := Fill(old(View()).pending, frames, sizes);
              View() == old(View()).(pending := f.pending) && used == f.used && dry == f.dry
    {
      used, dry := 0, false;
      assert frames[0..] == frames;
      while available < sizes.preferred && !dry
        invariant Valid() && readCursor == 0 && used <= |frames|
        invariant !dry ==> !Overruns(available, frames[used..], sizes)
        invariant View() == old(View()).(pending := View().pending)
        invariant dry ==> Fill(old(View()).pending, frames, sizes) == Filled(View().pending, used, true)
        invariant !dry ==> var f := Fill(View().pending, frames[used..], sizes);
                           Fill(old(View()).pending, frames, sizes) == f.(used := f.used + used)
        decreases !dry, |frames| - used
      {
        if used == |frames| {
          dry := true;
        } else {
          var bytesRead := Fetch(frames[used]);
          assert frames[used..][1..] == frames[used + 1..];
          used := used + 1;
          dry := bytesRead == 0;
        }
      }
    }

    /** The first half of the worker. */
    method RefillBuffer(frames: seq<seq<byte>>) returns (used: nat)
      requires Valid() && (available < sizes.min && !eos ==> !Overruns(available, frames, sizes))
      modifies this, buffer
      ensures Valid() && buffer == old(buffer) && (View(), used) == Refill(old(View()), frames, sizes)
    {
      used := 0;
      if available < sizes.min && !eos {
        MoveToFront();
        var dry;
        used, dry := Replenish(frames);
        if dry && available < sizes.min {
          FoldTime();
        }
      }
    }

    /** So many pending bytes go out, and the odometer counts them. */
    method SendOut(transmitted: nat) returns (sent: seq<byte>)
      requires Valid() && transmitted <= available
      modifies this`readCursor, this`available, this`timestamp
      ensures Valid() && sent == old(View()).pending[..transmitted]
      ensures View() == old(View()).(pending := old(View()).pending[transmitted..],
                                     timestamp := (old(timestamp) + Samples(transmitted, sizes)) % TWO_32)
    {
      Slices(buffer[..], readCursor, available, transmitted);
      sent := buffer[readCursor..readCursor + transmitted];
      timestamp := (timestamp + Samples(transmitted, sizes)) % TWO_32;
      readCursor, available := readCursor + transmitted, available - transmitted;
    }

    /** The second half: as much goes out as the transport takes of what it is offered. */
    method Drain(open: bool, capacity: nat) returns (sent: seq<byte>)
      requires Valid()
      modifies this
      ensures Valid() && buffer == old(buffer)
      ensures (View(), sent) == Transmit(old(View()), Round([], open, capacity), sizes)
    {
      sent := [];
      if open {
        if available >= sizes.min {
          assert |View().pending| == available;
          sent := SendOut(Offered(available, capacity));
        }
      } else {
        eos := true;
      }
    }

    /** One round of the thread, and whether it blocks afterwards. Every frame fetched has to find room, which it
        always does when the sizes fit. */
    method Worker(round: Round) returns (used: nat, sent: seq<byte>, blocked: bool)
      requires Valid() && (available < sizes.min && !eos ==> !Overruns(available, round.frames, sizes))
      modifies this, buffer
      ensures Valid() && buffer == old(buffer)
      ensures Outcome(View(), used, sent, blocked) == Work(old(View()), round, sizes)
    {
      used := RefillBuffer(round.frames);
      sent := Drain(round.open, round.capacity);
      blocked := sent == [] && eos;
    }
  }
}
