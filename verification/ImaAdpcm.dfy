// The IMA ADPCM decoder shared by both remote control decoders: the DVI4 algorithm of section 4.5.1
// of RFC 3551, low nibble first.
module ImaAdpcm {
  import opened Bytes

  type int16 = x: int | -0x8000 <= x <= 0x7FFF
  type nibble = x: nat | x < 16

  const LAST_INDEX: nat := 88

  /** The two lookup tables of the algorithm. */
  datatype Tables = Tables(steps: seq<nat>, shifts: seq<int>)

  /** Small magnitudes lower the step index by one, large ones raise it; steps fit fifteen bits. */
  ghost predicate Sane(t: Tables) {
    && |t.steps| == LAST_INDEX + 1 && (forall i :: 0 <= i <= LAST_INDEX ==> 7 <= t.steps[i] <= 32767)
    && |t.shifts| == 16 && (forall n: nibble :: if Quiet(n) then t.shifts[n] == -1 else 0 < t.shifts[n] <= 8)
  }

  /** A nibble of small magnitude. */
  predicate Quiet(n: nibble) {
    n % 8 < 4
  }

  /** StepSizeLUT and IndexLUT. */
  const IMA: Tables := Tables(STEP_SIZE_LUT, INDEX_LUT)

  const INDEX_LUT: seq<int> := [-1, -1, -1, -1, 2, 4, 6, 8, -1, -1, -1, -1, 2, 4, 6, 8]

  const STEP_SIZE_LUT: seq<nat> :=
    [7, 8, 9, 10, 11, 12, 13, 14] +
    [16, 17, 19, 21, 23, 25, 28, 31] +
    [34, 37, 41, 45, 50, 55, 60, 66] +
    [73, 80, 88, 97, 107, 118, 130, 143] +
    [157, 173, 190, 209, 230, 253, 279, 307] +
    [337, 371, 408, 449, 494, 544, 598, 658] +
    [724, 796, 876, 963, 1060, 1166, 1282, 1411] +
    [1552, 1707, 1878, 2066, 2272, 2499, 2749, 3024] +
    [3327, 3660, 4026, 4428, 4871, 5358, 5894, 6484] +
    [7132, 7845, 8630, 9493, 10442, 11487, 12635, 13899] +
    [15289, 16818, 18500, 20350, 22385, 24623, 27086, 29794] +
    [32767]

  lemma StepsInRange(step: nat)
    ensures |STEP_SIZE_LUT| == LAST_INDEX + 1
    ensures step in STEP_SIZE_LUT ==> 7 <= step <= 32767
  {
  }

  lemma ImaSane()
    ensures Sane(IMA)
  {
    StepsInRange(0);
    forall i | 0 <= i <= LAST_INDEX
      ensures 7 <= STEP_SIZE_LUT[i] <= 32767
    {
      StepsInRange(STEP_SIZE_LUT[i]);
    }
  }

  /** Predicted value and step index: all the state there is. */
  datatype Predictor = Predictor(value: int16, index: nat)

  predicate Valid(p: Predictor) {
    p.index <= LAST_INDEX
  }

  // ---------------------------------------------------------------- one nibble

  /** The magnitude a nibble stands for: its three low bits, in eighths of the step, each rounded down. */
  function Difference(step: nat, n: nibble): nat {
    step / 8
    + (if n / 4 % 2 == 1 then step else 0)
    + (if n / 2 % 2 == 1 then step / 2 else 0)
    + (if n % 2 == 1 then step / 4 else 0)
  }

  function NextIndex(t: Tables, index: nat, n: nibble): (next: nat)
    requires Sane(t) && index <= LAST_INDEX
    ensures next <= LAST_INDEX
  {
    var i: int := index + t.shifts[n];
    if i < 0 then 0 else if i > LAST_INDEX then LAST_INDEX else i
  }

  /** The predicted value moves by the difference, down for the sign bit, and saturates. */
  function NextValue(value: int16, difference: nat, n: nibble): int16 {
    if n >= 8 then
      if value < -32767 + difference then -32767 else value - difference
    else
      if value > 0x7FFF - difference then 0x7FFF else value + difference
  }

  function Next(t: Tables, p: Predictor, n: nibble): (q: Predictor)
    requires Sane(t) && Valid(p)
    ensures Valid(q)
  {
    Predictor(NextValue(p.value, Difference(t.steps[p.index], n), n), NextIndex(t, p.index, n))
  }

  /** What a magnitude is worth before rounding, bit by bit. */
  lemma BitByBit(step: nat, n: nibble)
    ensures (2 * (n % 8) + 1) * step
         == step + (if n / 4 % 2 == 1 then 8 * step else 0) + (if n / 2 % 2 == 1 then 4 * step else 0)
            + (if n % 2 == 1 then 2 * step else 0)
  {
    var b2, b1, b0 := n / 4 % 2, n / 2 % 2, n % 2;
    assert n % 8 == 4 * b2 + 2 * b1 + b0;
    assert (2 * (4 * b2 + 2 * b1 + b0) + 1) * step == 8 * (b2 * step) + 4 * (b1 * step) + 2 * (b0 * step) + step;
  }

  /** The rounded difference falls short of (2 * magnitude + 1) / 8 of the step by at most 17 eighths,
      and fits the sixteen bits it is computed in. */
  lemma DifferenceBounds(step: nat, n: nibble)
    requires step <= 32767
    ensures 0 <= (2 * (n % 8) + 1) * step - 8 * Difference(step, n) <= 17
    ensures Difference(step, n) <= 61436
  {
    BitByBit(step, n);
    var e, h, q := step / 8, step / 2, step / 4;
    assert 8 * e <= step <= 8 * e + 7 && 2 * h <= step <= 2 * h + 1 && 4 * q <= step <= 4 * q + 3;
  }

  // ---------------------------------------------------------------- streams of nibbles and bytes

  function AfterNibbles(t: Tables, p: Predictor, ns: seq<nibble>): (q: Predictor)
    requires Sane(t) && Valid(p)
    ensures Valid(q)
    decreases |ns|
  {
    if ns == [] then p else AfterNibbles(t, Next(t, p, ns[0]), ns[1..])
  }

  function Low(b: byte): nibble {
    b % 16
  }

  function High(b: byte): nibble {
    b / 16
  }

  /** The predictor after a byte stream. */
  function After(t: Tables, p: Predictor, bytes: seq<byte>): (q: Predictor)
    requires Sane(t) && Valid(p)
    ensures Valid(q)
  {
    if bytes == [] then p
    else
      var front := After(t, p, bytes[..|bytes| - 1]);
      var b := bytes[|bytes| - 1];
      Next(t, Next(t, front, Low(b)), High(b))
  }

  /** The samples of a byte stream, two for every byte. */
  function Samples(t: Tables, p: Predictor, bytes: seq<byte>): (samples: seq<int16>)
    requires Sane(t) && Valid(p)
    ensures |samples| == 2 * |bytes|
  {
    if bytes == [] then []
    else
      var front := bytes[..|bytes| - 1];
      var b := bytes[|bytes| - 1];
      var q := Next(t, After(t, p, front), Low(b));
      Samples(t, p, front) + [q.value, Next(t, q, High(b)).value]
  }

  lemma DecodeSnoc(t: Tables, p: Predictor, bytes: seq<byte>, b: byte)
    requires Sane(t) && Valid(p)
    ensures var q := Next(t, After(t, p, bytes), Low(b));
            && After(t, p, bytes + [b]) == Next(t, q, High(b))
            && Samples(t, p, bytes + [b]) == Samples(t, p, bytes) + [q.value, Next(t, q, High(b)).value]
  {
    assert (bytes + [b])[..|bytes|] == bytes;
  }

  lemma SplitLast<T>(a: seq<T>, b: seq<T>)
    requires b != []
    ensures b == b[..|b| - 1] + [b[|b| - 1]] && a + b == (a + b[..|b| - 1]) + [b[|b| - 1]]
  {
  }

  lemma PrefixSnoc<T>(a: seq<T>, k: nat)
    requires k < |a|
    ensures a[..k + 1] == a[..k] + [a[k]]
  {
  }

  lemma Associative<T>(a: seq<T>, b: seq<T>, c: seq<T>)
    ensures (a + b) + c == a + (b + c)
  {
  }

  /** Decoding in pieces is decoding the whole. */
  lemma {:induction false} DecodeConcat(t: Tables, p: Predictor, a: seq<byte>, b: seq<byte>)
    requires Sane(t) && Valid(p)
    ensures After(t, p, a + b) == After(t, After(t, p, a), b)
    ensures Samples(t, p, a + b) == Samples(t, p, a) + Samples(t, After(t, p, a), b)
    decreases |b|
  {
    if b == [] {
      assert a + b == a;
    } else {
      var front, last := b[..|b| - 1], b[|b| - 1];
      DecodeConcat(t, p, a, front);
      DecodeSnoc(t, p, a + front, last);
      DecodeSnoc(t, After(t, p, a), front, last);
      SplitLast(a, b);
      var x := Next(t, After(t, After(t, p, a), front), Low(last));
      Associative(Samples(t, p, a), Samples(t, After(t, p, a), front), [x.value, Next(t, x, High(last)).value]);
    }
  }

  // ---------------------------------------------------------------- transmission errors die out

  function Distance(a: int, b: int): nat {
    if a < b then b - a else a - b
  }

  lemma NextNoWorse(t: Tables, p: Predictor, q: Predictor, n: nibble)
    requires Sane(t) && Valid(p) && Valid(q)
    ensures Distance(Next(t, p, n).index, Next(t, q, n).index) <= Distance(p.index, q.index)
    ensures p.index == q.index ==> Distance(Next(t, p, n).value, Next(t, q, n).value) <= Distance(p.value, q.value)
  {
  }

  /** Two decoders fed the same stream: their step indices never drift apart, and once they agree they
      agree for ever and the predicted values never drift apart either, saturation included. */
  lemma {:induction false} ErrorNeverGrows(t: Tables, p: Predictor, q: Predictor, ns: seq<nibble>)
    requires Sane(t) && Valid(p) && Valid(q)
    ensures var p', q' := AfterNibbles(t, p, ns), AfterNibbles(t, q, ns);
            && Distance(p'.index, q'.index) <= Distance(p.index, q.index)
            && (p.index == q.index ==> p'.index == q'.index && Distance(p'.value, q'.value) <= Distance(p.value, q.value))
    decreases |ns|
  {
    if ns != [] {
      NextNoWorse(t, p, q, ns[0]);
      ErrorNeverGrows(t, Next(t, p, ns[0]), Next(t, q, ns[0]), ns[1..]);
    }
  }

  lemma {:induction false} QuietLowers(t: Tables, p: Predictor, ns: seq<nibble>)
    requires Sane(t) && Valid(p) && forall i :: 0 <= i < |ns| ==> Quiet(ns[i])
    ensures AfterNibbles(t, p, ns).index == if p.index <= |ns| then 0 else p.index - |ns|
    decreases |ns|
  {
    if ns != [] {
      assert Quiet(ns[0]);
      QuietLowers(t, Next(t, p, ns[0]), ns[1..]);
    }
  }

  lemma {:induction false} AfterNibblesConcat(t: Tables, p: Predictor, a: seq<nibble>, b: seq<nibble>)
    requires Sane(t) && Valid(p)
    ensures AfterNibbles(t, p, a + b) == AfterNibbles(t, AfterNibbles(t, p, a), b)
    decreases |a|
  {
    if a == [] {
      assert a + b == b;
    } else {
      AfterNibblesConcat(t, Next(t, p, a[0]), a[1..], b);
      assert (a + b)[1..] == a[1..] + b;
    }
  }

  /** Whatever the two decoders started from, after eighty-eight quiet nibbles in a row their step
      indices agree, and from there on the predicted values never drift apart. */
  lemma Resynchronises(t: Tables, p: Predictor, q: Predictor, before: seq<nibble>, quiet: seq<nibble>, after: seq<nibble>)
    requires Sane(t) && Valid(p) && Valid(q) && |quiet| >= LAST_INDEX && forall i :: 0 <= i < |quiet| ==> Quiet(quiet[i])
    ensures var p1, q1 := AfterNibbles(t, p, before + quiet), AfterNibbles(t, q, before + quiet);
            var p2, q2 := AfterNibbles(t, p, before + quiet + after), AfterNibbles(t, q, before + quiet + after);
            p2.index == q2.index && Distance(p2.value, q2.value) <= Distance(p1.value, q1.value)
  {
    AfterNibblesConcat(t, p, before, quiet);
    AfterNibblesConcat(t, q, before, quiet);
    AfterNibblesConcat(t, p, before + quiet, after);
    AfterNibblesConcat(t, q, before + quiet, after);
    QuietLowers(t, AfterNibbles(t, p, before), quiet);
    QuietLowers(t, AfterNibbles(t, q, before), quiet);
    ErrorNeverGrows(t, AfterNibbles(t, p, before + quiet), AfterNibbles(t, q, before + quiet), after);
  }

  // ---------------------------------------------------------------- the decoder object

  /** Conversion to int16_t of a uint16_t. */
  function ToInt16(u: nat): int16
    requires u < TWO_16
  {
    if u < 0x8000 then u else u - 0x1_0000
  }

  /** cum_diff, summed up in sixteen bits. */
  method Accumulate(step: nat, n: nibble) returns (cumDiff: nat)
    requires step <= 32767
    ensures cumDiff == Difference(step, n)
  {
    DifferenceBounds(step, n);
    cumDiff := step / 8;
    if n / 4 % 2 == 1 {
      cumDiff := Add16(cumDiff, step);
    }
    if n / 2 % 2 == 1 {
      cumDiff := Add16(cumDiff, step / 2);
    }
    if n % 2 == 1 {
      cumDiff := Add16(cumDiff, step / 4);
    }
  }

  /** Decoding bytes from p leads to q and yields the samples. */
  ghost predicate Decoded(t: Tables, p: Predictor, bytes: seq<byte>, q: Predictor, samples: seq<int16>)
    requires Sane(t)
  {
    Valid(p) && q == After(t, p, bytes) && samples == Samples(t, p, bytes)
  }

  class Decoder {
    const tables: Tables
    var value: int16  // _PV_dec
    var index: int    // _SI_dec, an int8_t

    constructor ()
      ensures value == 0 && index == 0 && tables == IMA && Sane(tables)
    {
      value, index := 0, 0;
      tables := IMA;
      ImaSane();
    }

    ghost function View(): Predictor
      reads this
      requires 0 <= index
    {
      Predictor(value, index)
    }

    /** One nibble; the sums of cum_diff are taken in sixteen bits. */
    method DecodeNibble(n: nibble) returns (sample: int16)
      requires Sane(tables) && 0 <= index <= LAST_INDEX
      modifies this
      ensures 0 <= index <= LAST_INDEX
      ensures View() == Next(tables, old(View()), n) && sample == View().value
    {
      var step := tables.steps[index];
      var cumDiff: int := Accumulate(step, n);
      index := index + tables.shifts[n];
      if index < 0 {
        index := 0;
      } else if index > 88 {
        index := 88;
      }
      if n / 8 % 2 != 0 {
        if value < -32767 + cumDiff {
          value := -32767;
        } else {
          value := value - cumDiff;
        }
      } else {
        if value > 0x7FFF - cumDiff {
          value := 0x7FFF;
        } else {
          value := value + cumDiff;
        }
      }
      sample := value;
    }

    /** The two samples of one byte, low nibble first, after the bytes already decoded. */
    method DecodeByte(b: byte, ghost p: Predictor, ghost before: seq<byte>, ghost samples: seq<int16>)
      returns (dec1: int16, dec2: int16)
      requires Sane(tables) && 0 <= index <= LAST_INDEX && Decoded(tables, p, before, View(), samples)
      modifies this
      ensures 0 <= index <= LAST_INDEX && Decoded(tables, p, before + [b], View(), samples + [dec1, dec2])
    {
      DecodeSnoc(tables, p, before, b);
      dec1 := DecodeNibble(Low(b));
      dec2 := DecodeNibble(High(b));
    }

    /** Decodes all bytes, storing the samples while a quarter of the output space lasts. The returned
        length counts four bytes for every byte decoded, in sixteen bits, stored or not. */
    method DecodeStream(bytes: seq<byte>, lengthOut: nat, output: array<int16>) returns (length: nat)
      requires Sane(tables) && 0 <= index <= LAST_INDEX && |bytes| < TWO_16
      requires lengthOut < TWO_16 && output.Length >= lengthOut / 2
      modifies this, output
      ensures 0 <= index <= LAST_INDEX && View() == After(tables, old(View()), bytes)
      ensures length == (4 * |bytes|) % TWO_16
      ensures var stored := Stored(|bytes|, lengthOut);
              && output[..stored] == Samples(tables, old(View()), bytes)[..stored]
              && forall i :: stored <= i < output.Length ==> output[i] == old(output[i])
    {
      ghost var samples := DecodeInto(bytes, lengthOut / 4, output);
      length := (4 * |bytes|) % TWO_16;
    }

    /** The decoding loop, with room for so many samples. */
    method DecodeInto(bytes: seq<byte>, room: nat, output: array<int16>) returns (ghost samples: seq<int16>)
      requires Sane(tables) && 0 <= index <= LAST_INDEX && room <= output.Length
      modifies this, output
      ensures 0 <= index <= LAST_INDEX && Decoded(tables, old(View()), bytes, View(), samples)
      ensures |samples| == 2 * |bytes|
      ensures output[..Min(2 * |bytes|, room)] == samples[..Min(2 * |bytes|, room)]
      ensures forall i :: Min(2 * |bytes|, room) <= i < output.Length ==> output[i] == old(output[i])
    {
      var maxStorage := room;
      var at := 0;
      ghost var p, before := View(), output[..];
      samples := [];
      for k := 0 to |bytes|
        invariant 0 <= index <= LAST_INDEX && Decoded(tables, p, bytes[..k], View(), samples) && |samples| == 2 * k
        invariant at == Min(2 * k, room) && maxStorage == room - at
        invariant Filled(output[..], before, samples, room)
      {
        PrefixSnoc(bytes, k);
        var dec1, dec2 := DecodeByte(bytes[k], p, bytes[..k], samples);
        var stored := Store(output, at, maxStorage, dec1, dec2, before, samples);
        samples := samples + [dec1, dec2];
        at := at + stored;
        maxStorage := maxStorage - stored;
      }
      assert bytes[..|bytes|] == bytes;
      FilledIs(output[..], before, samples, room);
    }
  }

  /** The samples fill the output from the front as far as there is room; the rest is as before. */
  ghost predicate Filled(output: seq<int16>, before: seq<int16>, samples: seq<int16>, room: nat) {
    && |output| == |before| && room <= |output|
    && forall i :: 0 <= i < |output| ==> output[i] == if i < Min(|samples|, room) then samples[i] else before[i]
  }

  lemma FilledIs(output: seq<int16>, before: seq<int16>, samples: seq<int16>, room: nat)
    requires Filled(output, before, samples, room)
    ensures var n := Min(|samples|, room); output[..n] == samples[..n] && output[n..] == before[n..]
  {
  }

  /** Stores two samples, one, or none, as the remaining room allows. */
  method Store(output: array<int16>, at: nat, room: nat, dec1: int16, dec2: int16,
               ghost before: seq<int16>, ghost samples: seq<int16>) returns (stored: nat)
    requires at + room <= output.Length && at == Min(|samples|, at + room)
    requires Filled(output[..], before, samples, at + room)
    modifies output
    ensures stored == Min(2, room)
    ensures Filled(output[..], before, samples + [dec1, dec2], at + room)
  {
    stored := 0;
    if room >= 2 {
      output[at] := dec1;
      output[at + 1] := dec2;
      stored := 2;
    } else if room >= 1 {
      output[at] := dec1;
      stored := 1;
    }
  }

  /** Addition of uint16_t. */
  function Add16(a: nat, b: nat): (c: nat)
    ensures a + b < 0x1_0000 ==> c == a + b
  {
    (a + b) % 0x1_0000
  }

  /** How many samples DecodeStream stores. */
  function Stored(lengthIn: nat, lengthOut: nat): nat {
    Min(2 * lengthIn, lengthOut / 4)
  }

  /** The returned length is the number of bytes written if and only if all samples were stored, or the
      length has wrapped and the room happens to be what is left of it. */
  lemma LengthTruthful(lengthIn: nat, lengthOut: nat)
    requires lengthIn < TWO_16 && lengthOut < TWO_16
    ensures (4 * lengthIn) % TWO_16 == 2 * Stored(lengthIn, lengthOut)
       <==> 2 * lengthIn <= lengthOut / 4 || lengthOut / 4 == 2 * (lengthIn % 0x4000)
  {
    QuarterWraps(lengthIn);
  }

  lemma QuarterWraps(n: nat)
    ensures (4 * n) % 0x1_0000 == 4 * (n % 0x4000)
  {
  }

  /** The largest inputs: nothing is reported although the output is full. */
  lemma LengthWraps()
    ensures Stored(0x4000, 0xFFFF) == 16383 && (4 * 0x4000) % TWO_16 == 0
  {
  }
}
