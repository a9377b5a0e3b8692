// The 4MOD decoders as objects: the packet reassembly in place, and the ADPCM and PCM forms over it.
module FourModDecoder {
  import opened Bytes
  import opened ImaAdpcm
  import opened FourModRuns

  class Adpcm {
    var stepIdx: byte
    var pred: nat
    var frames: nat
    var dropped: nat
    var frame: nat
    var offset: nat
    const package: array<byte>

    ghost function View(): Assembly
      reads this, package
    {
      Assembly(stepIdx, pred, frames, dropped, frame, offset, package[..])
    }

    constructor ()
      ensures View() == Empty() && fresh(package)
    {
      stepIdx, pred, frames, dropped, frame, offset := 0, 0, 0, 0, 0, 0;
      package := new byte[PACKAGE_SIZE](i => 0);
    }

    /** Restarts the counters; a group in progress goes on. */
    method Reset()
      modifies this`frames, this`dropped
      ensures View() == old(View()).(frames := 0, dropped := 0)
    {
      frames := 0;
      dropped := 0;
    }

    /** One packet; true when it completes the package. */
    method AddFrame(data: seq<byte>) returns (sendFrame: bool)
      requires Sound(View()) && Fits(View(), data)
      modifies this, package
      ensures Sound(View()) && (View(), sendFrame) == AddStep(old(View()), data)
    {
      sendFrame := false;
      frames := (frames + 1) % TWO_32;
      if |data| >= LONG_SIZE {
        AddLong(data);
      } else {
        sendFrame := AddShort(data);
      }
    }

    method AddLong(data: seq<byte>)
      requires Sound(View()) && Fits(View(), data) && |data| >= LONG_SIZE
      modifies this, package
      ensures Sound(View()) && View() == LongStep(old(View()), data)
    {
      if frame == 0 || frame >= 6 {
        pred := Word(data[0], data[1]);
        stepIdx := data[2];
        offset := (|data| - 3) % 0x100;
        if frame >= 6 {
          frame := 0;
          dropped := (dropped + 1) % TWO_32;
        }
        CopyIn(package, 0, data[3..3 + offset]);
      } else if |data| + offset < PACKAGE_SIZE {
        CopyIn(package, offset, data);
        offset := offset + |data|;
      }
      frame := frame + 1;
    }

    method AddShort(data: seq<byte>) returns (sendFrame: bool)
      requires Sound(View()) && |data| < LONG_SIZE
      modifies this, package
      ensures Sound(View()) && (View(), sendFrame) == ShortStep(old(View()), data)
    {
      sendFrame := false;
      var copyLength := Min(|data|, PACKAGE_SIZE - offset);
      if copyLength == |data| {
        CopyIn(package, offset, data);
        offset := offset + |data|;
      }
      if offset < PACKAGE_SIZE {
        dropped := (dropped + 1) % TWO_32;
      } else {
        sendFrame := true;
      }
      frame := 0;
      offset := 0;
    }

    /** The ADPCM form: preamble and package, as much as there is room for. */
    method Decode(data: seq<byte>, output: array<byte>) returns (result: nat)
      requires Sound(View()) && Fits(View(), data) && output != package && output.Length < TWO_16
      requires AddStep(View(), data).1 ==> output.Length > 4
      modifies this, package, output
      ensures Sound(View()) && View() == AddStep(old(View()), data).0
      ensures if AddStep(old(View()), data).1
              then result == Min(output.Length, 4 + PACKAGE_SIZE) && output[..result] == AdpcmFrame(View())[..result]
              else result == 0
    {
      result := 0;
      var complete := AddFrame(data);
      if complete {
        output[0] := pred % 0x100;
        output[1] := pred / 0x100;
        output[2] := stepIdx;
        output[3] := 0;
        result := Min(output.Length - 4, PACKAGE_SIZE);
        CopyIn(output, 4, package[..result]);
        result := result + 4;
      }
    }
  }

  /** ::memcpy of a read-only source into an array. */
  method CopyIn(target: array<byte>, at: nat, source: seq<byte>)
    requires at + |source| <= target.Length
    modifies target
    ensures target[..] == Copied(old(target[..]), at, source)
  {
    forall i | 0 <= i < |source| { target[at + i] := source[i]; }
  }

  /** The PCM form: the same reassembly, each package decoded from its own header. */
  class Pcm {
    const adpcm: Adpcm
    const decoder: Decoder

    constructor ()
      ensures adpcm.View() == Empty() && Sane(decoder.tables) && decoder.tables == IMA && fresh(adpcm) && fresh(adpcm.package) && fresh(decoder)
    {
      adpcm := new Adpcm();
      decoder := new Decoder();
    }

    method Decode(data: seq<byte>, lengthOut: nat, output: array<int16>) returns (result: nat)
      requires Sound(adpcm.View()) && Fits(adpcm.View(), data) && Sane(decoder.tables)
      requires lengthOut < TWO_16 && output.Length >= lengthOut / 2
      requires AddStep(adpcm.View(), data).1 ==> AddStep(adpcm.View(), data).0.stepIdx <= LAST_INDEX
      modifies adpcm, adpcm.package, decoder, output
      ensures Sound(adpcm.View()) && adpcm.View() == AddStep(old(adpcm.View()), data).0
      ensures if AddStep(old(adpcm.View()), data).1
              then var stored := Stored(PACKAGE_SIZE, lengthOut);
                   result == 4 * PACKAGE_SIZE && output[..stored] == PcmFrame(decoder.tables, adpcm.View())[..stored]
              else result == 0
    {
      result := 0;
      var complete := adpcm.AddFrame(data);
      if complete {
        result := DecodePackage(adpcm.View(), adpcm.package[..], lengthOut, output);
      }
    }

    /** Decodes a package from its own header. */
    method DecodePackage(ghost a: Assembly, package: seq<byte>, lengthOut: nat, output: array<int16>) returns (result: nat)
      requires Sound(a) && a.pred == adpcm.pred && a.stepIdx == adpcm.stepIdx <= LAST_INDEX && a.package == package
      requires Sane(decoder.tables) && lengthOut < TWO_16 && output.Length >= lengthOut / 2
      modifies decoder, output
      ensures var stored := Stored(PACKAGE_SIZE, lengthOut);
              result == 4 * PACKAGE_SIZE && output[..stored] == PcmFrame(decoder.tables, a)[..stored]
    {
      decoder.value := ToInt16(adpcm.pred);
      decoder.index := adpcm.stepIdx;
      result := decoder.DecodeStream(package, lengthOut, output);
    }
  }

  // ---------------------------------------------------------------- both forms side by side

  /** The header of every package that completes carries a step index the tables have. */
  predicate HeadersFit(h: seq<seq<byte>>) {
    forall k :: 0 <= k < |h| && Completes(h[..k], h[k]) ==> h[..k][k - 6][2] <= LAST_INDEX
  }

  /** What the two forms give out for the k-th packet: both something or both nothing, and then the same samples. */
  predicate SameOutput(t: Tables, h: seq<seq<byte>>, k: nat, frame: seq<byte>, samples: seq<int16>)
    requires Sane(t) && k < |h|
  {
    if Completes(h[..k], h[k]) then |frame| >= 4 && frame[2] <= LAST_INDEX && samples != [] && Received(t, frame) == samples
    else frame == [] && samples == []
  }

  /** The k-th packet leaves the assembly after it, and says whether a package completed. */
  lemma StepAt(h: seq<seq<byte>>, k: nat)
    requires Regular(h) && k < |h|
    ensures Regular(h[..k]) && AddStep(Fed(h[..k]), h[k]) == (Then(h, k), Completes(h[..k], h[k]))
  {
    ThenStep(h, k);
    CompletesExactly(h[..k], h[k]);
  }

  /** The step index decoding starts from. */
  lemma StartFits(h: seq<seq<byte>>, k: nat)
    requires Regular(h) && HeadersFit(h) && k < |h| && Completes(h[..k], h[k])
    ensures Then(h, k).stepIdx <= LAST_INDEX
  {
    HeaderFits(h, k);
  }

  function AdpcmOut(h: seq<seq<byte>>, k: nat): seq<byte>
    requires Regular(h) && k < |h|
  {
    if Completes(h[..k], h[k]) then AdpcmFrame(Then(h, k)) else []
  }

  function PcmOut(t: Tables, h: seq<seq<byte>>, k: nat): seq<int16>
    requires Sane(t) && Regular(h) && HeadersFit(h) && k < |h|
  {
    if Completes(h[..k], h[k]) then
      StartFits(h, k);
      PcmFrame(t, Then(h, k))
    else []
  }

  lemma OutputsSame(t: Tables, h: seq<seq<byte>>, k: nat)
    requires Sane(t) && Regular(h) && HeadersFit(h) && k < |h|
    ensures SameOutput(t, h, k, AdpcmOut(h, k), PcmOut(t, h, k))
  {
    if Completes(h[..k], h[k]) {
      TwoForms(t, h, k);
    }
  }

  /** One packet for the ADPCM form, with room for everything. */
  method FeedAdpcm(adpcm: Adpcm, h: seq<seq<byte>>, k: nat) returns (frame: seq<byte>)
    requires k < |h| && Regular(h) && Regular(h[..k]) && adpcm.View() == Fed(h[..k])
    modifies adpcm, adpcm.package
    ensures adpcm.View() == Then(h, k) && frame == AdpcmOut(h, k)
  {
    StepAt(h, k);
    var output := new byte[4 + PACKAGE_SIZE];
    var stored := adpcm.Decode(h[k], output);
    frame := output[..stored];
  }

  /** One packet for the PCM form, with room for everything. */
  method FeedPcm(pcm: Pcm, h: seq<seq<byte>>, k: nat) returns (samples: seq<int16>)
    requires Sane(pcm.decoder.tables) && k < |h| && Regular(h) && HeadersFit(h)
    requires Regular(h[..k]) && pcm.adpcm.View() == Fed(h[..k])
    modifies pcm.adpcm, pcm.adpcm.package, pcm.decoder
    ensures pcm.adpcm.View() == Then(h, k) && samples == PcmOut(pcm.decoder.tables, h, k)
  {
    StepAt(h, k);
    if Completes(h[..k], h[k]) {
      StartFits(h, k);
    }
    var output := new int16[512];
    var length := pcm.Decode(h[k], 1024, output);
    samples := output[..length / 2];
  }

  /** The outputs for the first packets agree. */
  predicate AllSame(t: Tables, h: seq<seq<byte>>, frames: seq<seq<byte>>, samples: seq<seq<int16>>)
    requires Sane(t) && |frames| == |samples| <= |h|
  {
    forall k :: 0 <= k < |frames| ==> SameOutput(t, h, k, frames[k], samples[k])
  }

  lemma AllSameNext(t: Tables, h: seq<seq<byte>>, frames: seq<seq<byte>>, samples: seq<seq<int16>>, frame: seq<byte>, more: seq<int16>)
    requires Sane(t) && |frames| == |samples| < |h| && AllSame(t, h, frames, samples)
    requires SameOutput(t, h, |frames|, frame, more)
    ensures AllSame(t, h, frames + [frame], samples + [more])
  {
  }

  lemma AllSameEach(t: Tables, h: seq<seq<byte>>, frames: seq<seq<byte>>, samples: seq<seq<int16>>)
    requires Sane(t) && |frames| == |samples| <= |h| && AllSame(t, h, frames, samples)
    ensures forall k :: 0 <= k < |frames| ==> SameOutput(t, h, k, frames[k], samples[k])
  {
  }

  /** Two objects of their own that were fed the first packets. */
  ghost predicate BothFed(adpcm: Adpcm, pcm: Pcm, h: seq<seq<byte>>, k: nat)
    requires Regular(h) && k <= |h|
    reads adpcm, adpcm.package, pcm.adpcm, pcm.adpcm.package
  {
    && adpcm != pcm.adpcm && adpcm.package != pcm.adpcm.package
    && Regular(h[..k]) && adpcm.View() == Fed(h[..k]) && pcm.adpcm.View() == Fed(h[..k])
  }

  method FeedOne(adpcm: Adpcm, pcm: Pcm, h: seq<seq<byte>>, k: nat) returns (frame: seq<byte>, samples: seq<int16>)
    requires Sane(pcm.decoder.tables) && Regular(h) && HeadersFit(h) && k < |h| && BothFed(adpcm, pcm, h, k)
    modifies adpcm, adpcm.package, pcm.adpcm, pcm.adpcm.package, pcm.decoder
    ensures BothFed(adpcm, pcm, h, k + 1) && SameOutput(pcm.decoder.tables, h, k, frame, samples)
  {
    frame := FeedAdpcm(adpcm, h, k);
    samples := FeedPcm(pcm, h, k);
    OutputsSame(pcm.decoder.tables, h, k);
  }

  /** Fed any packets, from the beginning, the two forms give something out at the same calls, and the ADPCM
      form's frames decode, from their own preambles, to exactly the PCM form's samples. */
  method FeedBoth(h: seq<seq<byte>>) returns (t: Tables, frames: seq<seq<byte>>, samples: seq<seq<int16>>)
    requires Regular(h) && HeadersFit(h)
    ensures t == IMA && Sane(t) && |frames| == |samples| == |h|
    ensures forall k :: 0 <= k < |h| ==> SameOutput(t, h, k, frames[k], samples[k])
  {
    var adpcm := new Adpcm();
    var pcm := new Pcm();
    t, frames, samples := pcm.decoder.tables, [], [];
    assert h[..0] == [];
    for k := 0 to |h|
      invariant |frames| == |samples| == k && BothFed(adpcm, pcm, h, k)
      invariant AllSame(t, h, frames, samples)
    {
      var frame, more := FeedOne(adpcm, pcm, h, k);
      AllSameNext(t, h, frames, samples, frame, more);
      frames, samples := frames + [frame], samples + [more];
    }
    AllSameEach(t, h, frames, samples);
  }
}
