// The decoder arithmetic against its definition: which way a nibble moves the value and how far, which nibble
// comes first, and where the tables come from.
module ImaReference {
  import opened Bytes
  import opened ImaAdpcm

  // ---------------------------------------------------------------- one nibble

  /** The low half of the nibbles moves the value up, the high half down, by (2 * magnitude + 1) eighths of the
      step less at most 17 eighths for rounding; or to the end of the range, if that far reaches it. */
  lemma NibbleMoves(t: Tables, p: Predictor, n: nibble)
    requires Sane(t) && Valid(p)
    ensures var q, far := Next(t, p, n), (2 * (n % 8) + 1) * t.steps[p.index];
            if n < 8 then
              || (p.value <= q.value && far - 17 <= 8 * (q.value - p.value) <= far)
              || (q.value == 32767 && 8 * (32767 - p.value) <= far)
            else
              || (q.value <= p.value && far - 17 <= 8 * (p.value - q.value) <= far)
              || (q.value == -32767 && 8 * (p.value + 32767) <= far)
  {
    DifferenceBounds(t.steps[p.index], n);
  }

  /** Small magnitudes lower the step index by one; larger ones raise it by two for every one above three. */
  lemma IndexMoves(p: Predictor, n: nibble)
    requires Sane(IMA) && Valid(p)
    ensures var i, j, m := p.index, Next(IMA, p, n).index, n % 8;
            if m < 4 then j == if i == 0 then 0 else i - 1
            else j == if i + 2 * (m - 3) > 88 then 88 else i + 2 * (m - 3)
  {
    assert INDEX_LUT[n] == if n % 8 < 4 then -1 else 2 * (n % 8 - 3);
  }

  // ---------------------------------------------------------------- bytes are two nibbles, low one first

  function NibblesOf(bytes: seq<byte>): (ns: seq<nibble>)
    ensures |ns| == 2 * |bytes|
    ensures forall k :: 0 <= k < |bytes| ==> ns[2 * k] == bytes[k] % 16 && ns[2 * k + 1] == bytes[k] / 16
  {
    if bytes == [] then []
    else NibblesOf(bytes[..|bytes| - 1]) + [bytes[|bytes| - 1] % 16, bytes[|bytes| - 1] / 16]
  }

  lemma {:induction false} AfterSnoc(t: Tables, p: Predictor, ns: seq<nibble>, n: nibble)
    requires Sane(t) && Valid(p)
    ensures AfterNibbles(t, p, ns + [n]) == Next(t, AfterNibbles(t, p, ns), n)
  {
    AfterNibblesConcat(t, p, ns, [n]);
    assert [n][1..] == [];
  }

  lemma AfterTwo(t: Tables, p: Predictor, ns: seq<nibble>, a: nibble, b: nibble)
    requires Sane(t) && Valid(p)
    ensures AfterNibbles(t, p, ns + [a]) == Next(t, AfterNibbles(t, p, ns), a)
    ensures AfterNibbles(t, p, ns + [a, b]) == Next(t, Next(t, AfterNibbles(t, p, ns), a), b)
  {
    AfterSnoc(t, p, ns, a);
    AfterSnoc(t, p, ns + [a], b);
    assert ns + [a] + [b] == ns + [a, b];
  }

  /** Decoding bytes is decoding their nibbles one by one; the i-th sample is the value after i + 1 of them. */
  lemma {:induction false} SamplesByNibble(t: Tables, p: Predictor, bytes: seq<byte>)
    requires Sane(t) && Valid(p)
    ensures After(t, p, bytes) == AfterNibbles(t, p, NibblesOf(bytes))
    ensures |Samples(t, p, bytes)| == 2 * |bytes|
    ensures forall i :: 0 <= i < 2 * |bytes| ==> Samples(t, p, bytes)[i] == AfterNibbles(t, p, NibblesOf(bytes)[..i + 1]).value
    decreases |bytes|
  {
    if bytes != [] {
      var front, b := bytes[..|bytes| - 1], bytes[|bytes| - 1];
      assert bytes == front + [b];
      SamplesByNibble(t, p, front);
      DecodeSnoc(t, p, front, b);
      var ns := NibblesOf(front);
      AfterTwo(t, p, ns, b % 16, b / 16);
      assert NibblesOf(bytes) == ns + [b % 16, b / 16];
      forall i | 0 <= i < 2 * |bytes|
        ensures Samples(t, p, bytes)[i] == AfterNibbles(t, p, NibblesOf(bytes)[..i + 1]).value
      {
        if i < |ns| {
          assert NibblesOf(bytes)[..i + 1] == ns[..i + 1];
        } else if i == |ns| {
          assert NibblesOf(bytes)[..i + 1] == ns + [b % 16];
        } else {
          assert NibblesOf(bytes)[..i + 1] == ns + [b % 16, b / 16];
        }
      }
    }
  }

  /** A sixteen-bit pattern and its signed reading differ by a multiple of 65536. */
  lemma SignedExact(u: nat)
    requires u < 0x1_0000
    ensures (ToInt16(u) - u) % 0x1_0000 == 0 && -0x8000 <= ToInt16(u) < 0x8000
  {
  }

  // ---------------------------------------------------------------- the step sizes

  function Power(b: nat, e: nat): (p: nat)
    ensures b > 0 ==> p > 0
  {
    if e == 0 then 1 else b * Power(b, e - 1)
  }

  /** Sixteen growing by a tenth at a time, rounded down only when read. */
  function Grown(n: nat, a: nat, b: nat): (s: seq<nat>)
    requires b > 0
    ensures |s| == n
  {
    if n == 0 then [] else [a / b] + Grown(n - 1, 11 * a, 10 * b)
  }

  lemma {:induction false} GrownAt(n: nat, a: nat, b: nat, k: nat)
    requires b > 0 && k < n
    ensures Grown(n, a, b)[k] == (a * Power(11, k)) / (b * Power(10, k))
    decreases k
  {
    if k > 0 {
      GrownAt(n - 1, 11 * a, 10 * b, k - 1);
      Shift(11, a, Power(11, k - 1));
      Shift(10, b, Power(10, k - 1));
    }
  }

  lemma Shift(x: nat, a: nat, p: nat)
    ensures (x * a) * p == a * (x * p)
  {
  }

  lemma {:induction false} PowerSum(b: nat, e: nat, f: nat)
    ensures Power(b, e + f) == Power(b, e) * Power(b, f)
    decreases f
  {
    if f > 0 {
      PowerSum(b, e, f - 1);
      Shift(b, Power(b, e), Power(b, f - 1));
    }
  }

  const ELEVENS: nat := 214358881
  const TENS: nat := 1_0000_0000

  lemma EighthPowers()
    ensures Power(11, 8) == ELEVENS && Power(10, 8) == TENS
  {
  }

  /** What eight rows of growth start from. */
  function RowStart(x: nat, row: nat): (p: nat)
    ensures x > 0 ==> p > 0
  {
    if row == 0 then 1 else RowStart(x, row - 1) * x
  }

  lemma {:induction false} RowStarts(row: nat)
    ensures RowStart(ELEVENS, row) == Power(11, 8 * row) && RowStart(TENS, row) == Power(10, 8 * row)
    decreases row
  {
    if row > 0 {
      RowStarts(row - 1);
      EighthPowers();
      PowerSum(11, 8 * (row - 1), 8);
      PowerSum(10, 8 * (row - 1), 8);
    }
  }

  lemma RowStartsAre()
    ensures RowStart(ELEVENS, 0) == 1
    ensures RowStart(TENS, 0) == 1
    ensures RowStart(ELEVENS, 1) == 214358881
    ensures RowStart(TENS, 1) == 100000000
    ensures RowStart(ELEVENS, 2) == 45949729863572161
    ensures RowStart(TENS, 2) == 10000000000000000
    ensures RowStart(ELEVENS, 3) == 9849732675807611094711841
    ensures RowStart(TENS, 3) == 1000000000000000000000000
    ensures RowStart(ELEVENS, 4) == 2111377674535255285545615254209921
    ensures RowStart(TENS, 4) == 100000000000000000000000000000000
    ensures RowStart(ELEVENS, 5) == 452592555681759518058893560348969204658401
    ensures RowStart(TENS, 5) == 10000000000000000000000000000000000000000
    ensures RowStart(ELEVENS, 6) == 97017233784872162402203715694511008214034825609281
    ensures RowStart(TENS, 6) == 1000000000000000000000000000000000000000000000000
    ensures RowStart(ELEVENS, 7) == 20796505671840591460586660430317517562942313712635618374561
    ensures RowStart(TENS, 7) == 100000000000000000000000000000000000000000000000000000000
    ensures RowStart(ELEVENS, 8) == 4457915684525902395869512133369841539490161434991526715513934826241
    ensures RowStart(TENS, 8) == 10000000000000000000000000000000000000000000000000000000000000000
    ensures RowStart(ELEVENS, 9) == 955593817727321453093807642925081991552428315714137911219172409259950196321
    ensures RowStart(TENS, 9) == 1000000000000000000000000000000000000000000000000000000000000000000000000
  {
  }

  /** The rows of the table as they stand in the source. */
  lemma TableRows()
    ensures |STEP_SIZE_LUT| == 89 && STEP_SIZE_LUT[..8] == [7, 8, 9, 10, 11, 12, 13, 14] && STEP_SIZE_LUT[88] == 32767
    ensures STEP_SIZE_LUT[8..16] == [16, 17, 19, 21, 23, 25, 28, 31]
    ensures STEP_SIZE_LUT[16..24] == [34, 37, 41, 45, 50, 55, 60, 66]
    ensures STEP_SIZE_LUT[24..32] == [73, 80, 88, 97, 107, 118, 130, 143]
    ensures STEP_SIZE_LUT[32..40] == [157, 173, 190, 209, 230, 253, 279, 307]
    ensures STEP_SIZE_LUT[40..48] == [337, 371, 408, 449, 494, 544, 598, 658]
    ensures STEP_SIZE_LUT[48..56] == [724, 796, 876, 963, 1060, 1166, 1282, 1411]
    ensures STEP_SIZE_LUT[56..64] == [1552, 1707, 1878, 2066, 2272, 2499, 2749, 3024]
    ensures STEP_SIZE_LUT[64..72] == [3327, 3660, 4026, 4428, 4871, 5358, 5894, 6484]
    ensures STEP_SIZE_LUT[72..80] == [7132, 7845, 8630, 9493, 10442, 11487, 12635, 13899]
    ensures STEP_SIZE_LUT[80..88] == [15289, 16818, 18500, 20350, 22385, 24623, 27086, 29794]
  {
  }

  /** A row of the table is a row of growth. */
  predicate RowGrows(row: nat) {
    |STEP_SIZE_LUT| == 89 && row < 10
    && STEP_SIZE_LUT[8 * row + 8..8 * row + 16] == Grown(8, 16 * RowStart(ELEVENS, row), RowStart(TENS, row))
  }

  lemma FirstRow()
    ensures Grown(8, 16, 1) == [16, 17, 19, 21, 23, 25, 28, 31]
  {
  }

  lemma Row0(row: nat)
    requires row == 0
    ensures RowGrows(row)
  {
    TableRows();
    RowStartsAre();
    FirstRow();
  }

  lemma Row1(row: nat)
    requires row == 1
    ensures RowGrows(row)
  {
    TableRows();
    RowStartsAre();
    assert Grown(8, 3429742096, 100000000)
        == [34, 37, 41, 45, 50, 55, 60, 66];
  }

  lemma Row2(row: nat)
    requires row == 2
    ensures RowGrows(row)
  {
    TableRows();
    RowStartsAre();
    assert Grown(8, 735195677817154576, 10000000000000000)
        == [73, 80, 88, 97, 107, 118, 130, 143];
  }

  lemma Row3(row: nat)
    requires row == 3
    ensures RowGrows(row)
  {
    TableRows();
    RowStartsAre();
    assert Grown(8, 157595722812921777515389456, 1000000000000000000000000)
        == [157, 173, 190, 209, 230, 253, 279, 307];
  }

  lemma Row4(row: nat)
    requires row == 4
    ensures RowGrows(row)
  {
    TableRows();
    RowStartsAre();
    assert Grown(8, 33782042792564084568729844067358736, 100000000000000000000000000000000)
        == [337, 371, 408, 449, 494, 544, 598, 658];
  }

  lemma Row5(row: nat)
    requires row == 5
    ensures RowGrows(row)
  {
    TableRows();
    RowStartsAre();
    assert Grown(8, 7241480890908152288942296965583507274534416, 10000000000000000000000000000000000000000)
        == [724, 796, 876, 963, 1060, 1166, 1282, 1411];
  }

  lemma Row6(row: nat)
    requires row == 6
    ensures RowGrows(row)
  {
    TableRows();
    RowStartsAre();
    assert Grown(8, 1552275740557954598435259451112176131424557209748496, 1000000000000000000000000000000000000000000000000)
        == [1552, 1707, 1878, 2066, 2272, 2499, 2749, 3024];
  }

  lemma Row7(row: nat)
    requires row == 7
    ensures RowGrows(row)
  {
    TableRows();
    RowStartsAre();
    assert Grown(8, 332744090749449463369386566885080281007077019402169893992976, 100000000000000000000000000000000000000000000000000000000)
        == [3327, 3660, 4026, 4428, 4871, 5358, 5894, 6484];
  }

  lemma Row8(row: nat)
    requires row == 8
    ensures RowGrows(row)
  {
    TableRows();
    RowStartsAre();
    assert Grown(8, 71326650952414438333912194133917464631842582959864427448222957219856, 10000000000000000000000000000000000000000000000000000000000000000)
        == [7132, 7845, 8630, 9493, 10442, 11487, 12635, 13899];
  }

  lemma Row9(row: nat)
    requires row == 9
    ensures RowGrows(row)
  {
    TableRows();
    RowStartsAre();
    assert Grown(8, 15289501083637143249500922286801311864838853051426206579506758548159203141136, 1000000000000000000000000000000000000000000000000000000000000000000000000)
        == [15289, 16818, 18500, 20350, 22385, 24623, 27086, 29794];
  }

  lemma RowIs(row: nat)
    requires row < 10
    ensures RowGrows(row)
  {
    match row
    case 0 => Row0(row);
    case 1 => Row1(row);
    case 2 => Row2(row);
    case 3 => Row3(row);
    case 4 => Row4(row);
    case 5 => Row5(row);
    case 6 => Row6(row);
    case 7 => Row7(row);
    case 8 => Row8(row);
    case _ => Row9(row);
  }

  lemma EntryIs(row: nat, k: nat)
    requires row < 10 && k < 8
    ensures |STEP_SIZE_LUT| == 89
    ensures STEP_SIZE_LUT[8 * row + 8 + k] == 16 * Power(11, 8 * row + k) / Power(10, 8 * row + k)
  {
    RowIs(row);
    var a, b := 16 * RowStart(ELEVENS, row), RowStart(TENS, row);
    assert STEP_SIZE_LUT[8 * row + 8 + k] == STEP_SIZE_LUT[8 * row + 8..8 * row + 16][k];
    GrownAt(8, a, b, k);
    RowStarts(row);
    PowerSum(11, 8 * row, k);
    PowerSum(10, 8 * row, k);
    Associative3(16, Power(11, 8 * row), Power(11, k));
  }

  lemma Associative3(a: nat, b: nat, c: nat)
    ensures (a * b) * c == a * (b * c)
  {
  }

  /** The last entry is cut off at the largest sixteen-bit value. */
  lemma LastEntry()
    ensures |STEP_SIZE_LUT| == 89 && STEP_SIZE_LUT[88] == 32767 <= 16 * Power(11, 80) / Power(10, 80)
  {
    TableRows();
    EighthPowers();
    RowStarts(9);
    RowStartsAre();
    PowerSum(11, 72, 8);
    PowerSum(10, 72, 8);
    assert Power(11, 80) == RowStart(ELEVENS, 9) * ELEVENS && Power(10, 80) == RowStart(TENS, 9) * TENS;
  }

  /** From seven up by ones, then sixteen growing by a tenth at a time, rounded down, as far as sixteen bits go. */
  function Rule(i: nat): nat {
    if i < 8 then i + 7 else Min(32767, 16 * Power(11, i - 8) / Power(10, i - 8))
  }

  /** The step table follows the rule. */
  lemma StepRule(i: nat)
    requires i <= 88
    ensures |IMA.steps| == 89 && IMA.steps[i] == Rule(i)
  {
    if i < 8 {
      TableRows();
      assert STEP_SIZE_LUT[i] == STEP_SIZE_LUT[..8][i];
    } else if i < 88 {
      EntryIs((i - 8) / 8, (i - 8) % 8);
      StepsInRange(STEP_SIZE_LUT[i]);
    } else {
      LastEntry();
    }
  }
}
