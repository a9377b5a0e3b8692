// The Tech4Home decoders as objects: header, footer and audio packets told apart by their length.
module Tech4HomeDecoder {
  import opened Bytes
  import opened ImaAdpcm
  import opened Tech4HomeRuns

  const HEADER_SIZE: nat := 5
  const PREAMBLE_SIZE: nat := 4

  /** Little-endian sixteen bits. */
  function Word(low: nat, high: nat): (w: nat)
    ensures low < 0x100 ==> w / 0x100 == high && w % 0x100 == low
  {
    high * 0x100 + low
  }

  /** The value a header carries: low byte first, and signed. */
  lemma HeaderValue(low: byte, high: byte)
    ensures var v := ToInt16(Word(low, high)); v % 0x100 == low && v / 0x100 % 0x100 == high
  {
  }

  /** What any packet does to the counters. */
  function PacketStep(c: Counters, data: seq<byte>): Counters
    requires c.nextFrame < WINDOW_SIZE
  {
    if |data| == HEADER_SIZE then HeaderStep(c, data[0])
    else if |data| == 1 then c
    else AudioStep(c)
  }

  /** The packet on the wire is the packet of the stream. */
  predicate Carries(data: seq<byte>, p: Packet) {
    match p
    case Header(index, start) =>
      |data| == HEADER_SIZE && data[0] == index % WINDOW_SIZE && start == Predictor(ToInt16(Word(data[2], data[3])), data[1])
    case Footer => |data| == 1
    case Audio(bytes) => data == bytes && |data| != HEADER_SIZE && |data| != 1
  }

  /** So the objects' counters follow the stream's. */
  lemma CarriedStep(c: Counters, data: seq<byte>, p: Packet)
    requires c.nextFrame < WINDOW_SIZE && Carries(data, p)
    ensures PacketStep(c, data) == Tech4HomeRuns.Step(c, p)
  {
  }

  class Accounting {
    var nextFrame: nat
    var frames: nat
    var dropped: nat

    ghost function View(): Counters
      reads this
    {
      Counters(nextFrame, frames, dropped)
    }

    constructor ()
      ensures View() == Fresh(0)
    {
      nextFrame, frames, dropped := 0, UNSET, UNSET;
    }

    method Reset()
      modifies this
      ensures View() == Fresh(old(nextFrame))
    {
      frames := UNSET;
      dropped := UNSET;
    }

    method HeaderReceived(number: nat)
      requires nextFrame < WINDOW_SIZE
      modifies this
      ensures View() == HeaderStep(old(View()), number)
    {
      if dropped != UNSET {
        if number > nextFrame {
          dropped := (dropped + (number - nextFrame)) % TWO_32;
        } else if number < nextFrame {
          dropped := (dropped + (number + (WINDOW_SIZE - nextFrame))) % TWO_32;
        }
        frames := (frames + 1) % TWO_32;
      } else {
        frames := 0;
      }
      nextFrame := (number + 1) % WINDOW_SIZE;
    }

    method AudioReceived() returns (accepted: bool)
      modifies this
      ensures View() == AudioStep(old(View())) && (accepted <==> old(frames) != UNSET)
    {
      accepted := frames != UNSET;
      if accepted {
        if dropped == UNSET {
          dropped := 0;
        }
      }
    }
  }

  class Adpcm {
    const counters: Accounting
    var number: byte
    var stepIdx: byte
    var pred: nat
    var compression: byte

    constructor ()
      ensures counters.View() == Fresh(0) && fresh(counters)
    {
      counters := new Accounting();
      number, stepIdx, pred, compression := 0, 0, 0, 0;
    }

    /** Audio leaves behind the preamble of its header; the returned length counts all of it, stored or not. */
    method Decode(data: seq<byte>, output: array<byte>) returns (result: nat)
      requires counters.nextFrame < WINDOW_SIZE && |data| < TWO_16 && pred < TWO_16
      requires PREAMBLE_SIZE <= output.Length < TWO_16
      modifies this, counters, output
      ensures counters.View() == PacketStep(old(counters.View()), data) && pred < TWO_16
      ensures |data| == HEADER_SIZE ==> stepIdx == data[1] && pred == Word(data[2], data[3])
      ensures if |data| != HEADER_SIZE && |data| != 1 && old(counters.frames) != UNSET
              then var stored := PREAMBLE_SIZE + Min(output.Length - PREAMBLE_SIZE, |data|);
                   && result == (PREAMBLE_SIZE + |data|) % TWO_16
                   && output[..stored] == ([pred % 0x100, pred / 0x100, stepIdx, 0] + data)[..stored]
              else result == 0
    {
      result := 0;
      if |data| == HEADER_SIZE {
        number := data[0];
        stepIdx := data[1];
        pred := Word(data[2], data[3]);
        compression := data[4];
        counters.HeaderReceived(number);
      } else if |data| == 1 {
        // a footer carries nothing
      } else {
        var accepted := counters.AudioReceived();
        if accepted {
          output[0] := pred % 0x100;
          output[1] := pred / 0x100;
          output[2] := stepIdx;
          output[3] := 0;
          var stored := Min(output.Length - PREAMBLE_SIZE, |data|);
          forall i | 0 <= i < stored { output[PREAMBLE_SIZE + i] := data[i]; }
          result := (PREAMBLE_SIZE + |data|) % TWO_16;
        }
      }
    }
  }

  class Pcm {
    const counters: Accounting
    const decoder: Decoder

    constructor ()
      ensures counters.View() == Fresh(0) && Sane(decoder.tables) && fresh(counters) && fresh(decoder)
      ensures decoder.tables == IMA && decoder.index == 0 && decoder.View() == Predictor(0, 0)
    {
      counters := new Accounting();
      decoder := new Decoder();
    }

    /** A header sets the decoder, audio goes on from where the decoder stands. */
    method Decode(data: seq<byte>, lengthOut: nat, output: array<int16>) returns (result: nat)
      requires counters.nextFrame < WINDOW_SIZE && |data| < TWO_16 && Sane(decoder.tables) && 0 <= decoder.index <= LAST_INDEX
      requires |data| == HEADER_SIZE ==> data[1] <= LAST_INDEX
      requires lengthOut < TWO_16 && output.Length >= lengthOut / 2
      modifies counters, decoder, output
      ensures counters.View() == PacketStep(old(counters.View()), data) && 0 <= decoder.index <= LAST_INDEX
      ensures |data| == HEADER_SIZE ==> decoder.View() == Predictor(ToInt16(Word(data[2], data[3])), data[1])
      ensures |data| == 1 ==> decoder.View() == old(decoder.View())
      ensures if |data| != HEADER_SIZE && |data| != 1 && old(counters.frames) != UNSET
              then var stored := Stored(|data|, lengthOut);
                   && result == (4 * |data|) % TWO_16 && decoder.View() == After(decoder.tables, old(decoder.View()), data)
                   && output[..stored] == Samples(decoder.tables, old(decoder.View()), data)[..stored]
              else result == 0 && (|data| == HEADER_SIZE || decoder.View() == old(decoder.View()))
    {
      result := 0;
      if |data| == HEADER_SIZE {
        decoder.value := ToInt16(Word(data[2], data[3]));
        decoder.index := data[1];
        counters.HeaderReceived(data[0]);
      } else if |data| == 1 {
        // a footer carries nothing
      } else {
        var accepted := counters.AudioReceived();
        if accepted {
          result := decoder.DecodeStream(data, lengthOut, output);
        }
      }
    }
  }

  // ---------------------------------------------------------------- whole streams through the PCM form

  /** The packets on the wire carry the stream, and their headers start inside the tables. */
  predicate CarriesAll(wires: seq<seq<byte>>, ps: seq<Packet>) {
    && |wires| == |ps| < UNSET && StartsValid(ps)
    && forall k :: 0 <= k < |ps| ==> Carries(wires[k], ps[k]) && 16 * |wires[k]| < TWO_16
  }

  /** The decoder object after the first packets. */
  ghost predicate Follows(pcm: Pcm, ps: seq<Packet>, k: nat, samples: seq<int16>)
    requires k <= |ps| && StartsValid(ps[..k])
    reads pcm, pcm.counters, pcm.decoder
  {
    && Sane(pcm.decoder.tables) && 0 <= pcm.decoder.index && pcm.counters.View() == Run(0, ps[..k])
    && (pcm.decoder.View(), samples) == Decoding(pcm.decoder.tables, ps[..k])
  }

  lemma {:induction false} PrefixStartsValid(ps: seq<Packet>, k: nat)
    requires StartsValid(ps) && k <= |ps|
    ensures StartsValid(ps[..k])
    decreases |ps|
  {
    if k < |ps| {
      assert ps[..|ps| - 1][..k] == ps[..k];
      PrefixStartsValid(ps[..|ps| - 1], k);
    } else {
      assert ps[..k] == ps;
    }
  }

  /** What one packet does to state and samples. */
  function DecodingStep(t: Tables, r: (Predictor, seq<int16>), heard: bool, p: Packet): (Predictor, seq<int16>)
    requires Sane(t) && Valid(r.0) && (p.Header? ==> Valid(p.start))
  {
    match p
    case Header(_, start) => (start, [])
    case Footer => r
    case Audio(bytes) => if heard then (After(t, r.0, bytes), r.1 + Samples(t, r.0, bytes)) else r
  }

  lemma DecodingNext(t: Tables, ps: seq<Packet>, k: nat)
    requires Sane(t) && k < |ps| < UNSET && StartsValid(ps[..k]) && StartsValid(ps[..k + 1])
    ensures ps[k].Header? ==> Valid(ps[k].start)
    ensures Decoding(t, ps[..k + 1]) == DecodingStep(t, Decoding(t, ps[..k]), Run(0, ps[..k]).frames != UNSET, ps[k])
    ensures Run(0, ps[..k + 1]) == Tech4HomeRuns.Step(Run(0, ps[..k]), ps[k])
  {
    assert ps[..k + 1][..k] == ps[..k];
    FramesHeard(0, ps[..k]);
  }

  /** One packet, with room for everything; a header starts a new run of samples. */
  method DecodePacket(pcm: Pcm, wire: seq<byte>, ghost p: Packet, samples: seq<int16>) returns (more: seq<int16>)
    requires Carries(wire, p) && 16 * |wire| < TWO_16 && (p.Header? ==> Valid(p.start))
    requires Sane(pcm.decoder.tables) && 0 <= pcm.decoder.index <= LAST_INDEX && pcm.counters.nextFrame < WINDOW_SIZE
    modifies pcm.counters, pcm.decoder
    ensures pcm.counters.View() == Tech4HomeRuns.Step(old(pcm.counters.View()), p) && 0 <= pcm.decoder.index
    ensures (pcm.decoder.View(), more)
         == DecodingStep(pcm.decoder.tables, (old(pcm.decoder.View()), samples), old(pcm.counters.frames) != UNSET, p)
  {
    CarriedStep(pcm.counters.View(), wire, p);
    var output := new int16[4 * |wire|];
    RoomForAll(|wire|);
    var length := pcm.Decode(wire, 8 * |wire|, output);
    more := if |wire| == HEADER_SIZE then [] else samples + output[..length / 2];
    if p.Audio? && old(pcm.counters.frames) != UNSET {
      ghost var all := Samples(pcm.decoder.tables, old(pcm.decoder.View()), wire);
      assert all[..2 * |wire|] == all;
    } else {
      assert samples + output[..0] == samples;
    }
  }

  lemma RoomForAll(n: nat)
    requires 16 * n < TWO_16
    ensures Stored(n, 8 * n) == 2 * n && (4 * n) % TWO_16 / 2 == 2 * n
  {
  }

  method DecodeOne(pcm: Pcm, wires: seq<seq<byte>>, ghost ps: seq<Packet>, k: nat, samples: seq<int16>) returns (more: seq<int16>)
    requires CarriesAll(wires, ps) && k < |wires| && StartsValid(ps[..k]) && StartsValid(ps[..k + 1])
    requires Follows(pcm, ps, k, samples)
    modifies pcm.counters, pcm.decoder
    ensures Follows(pcm, ps, k + 1, more)
  {
    DecodingNext(pcm.decoder.tables, ps, k);
    more := DecodePacket(pcm, wires[k], ps[k], samples);
  }

  /** A stream fed to a new decoder packet by packet: the samples it stores since the latest header are those
      of the specification. */
  method DecodeAll(wires: seq<seq<byte>>, ghost ps: seq<Packet>) returns (t: Tables, samples: seq<int16>)
    requires CarriesAll(wires, ps)
    ensures t == IMA && Sane(t) && samples == Decoding(t, ps).1
  {
    var pcm := new Pcm();
    t, samples := pcm.decoder.tables, [];
    assert ps[..0] == [];
    for k := 0 to |wires|
      invariant fresh(pcm.counters) && fresh(pcm.decoder) && StartsValid(ps[..k]) && Follows(pcm, ps, k, samples)
    {
      PrefixStartsValid(ps, k + 1);
      samples := DecodeOne(pcm, wires, ps, k, samples);
    }
    assert ps[..|ps|] == ps;
  }
}
