// Reassembly of 4MOD audio packets into 128-byte packages: one step, whole histories, and the two
// output forms made from the packages.
module FourModRuns {
  import opened Bytes
  import opened ImaAdpcm

  const PACKAGE_SIZE: nat := 128
  const LONG_SIZE: nat := 20

  datatype Assembly = Assembly(stepIdx: byte, pred: nat, frames: nat, dropped: nat, frame: nat, offset: nat, package: seq<byte>)

  function Empty(): Assembly {
    Assembly(0, 0, 0, 0, 0, 0, seq(PACKAGE_SIZE, i => 0))
  }

  /** memcpy into the package. */
  function Copied(package: seq<byte>, at: nat, data: seq<byte>): (p: seq<byte>)
    requires at + |data| <= |package|
    ensures |p| == |package|
  {
    package[..at] + data + package[at + |data|..]
  }

  /** Big-endian sixteen bits. */
  function Word(high: nat, low: nat): (w: nat)
    ensures low < 0x100 ==> w / 0x100 == high && w % 0x100 == low
  {
    high * 0x100 + low
  }

  predicate Sound(a: Assembly) {
    |a.package| == PACKAGE_SIZE && a.offset <= PACKAGE_SIZE && a.frame <= 6 && a.pred < TWO_16
  }

  /** A long packet that begins a group must leave, after its three header bytes and counted in eight
      bits, no more than a package: the source copies without checking. */
  predicate Fits(a: Assembly, data: seq<byte>) {
    |data| < TWO_16 && (|data| >= LONG_SIZE && (a.frame == 0 || a.frame >= 6) ==> (|data| - 3) % 0x100 <= PACKAGE_SIZE)
  }

  /** A long packet begins a group, or goes on with one while there is room. */
  function LongStep(a: Assembly, data: seq<byte>): (b: Assembly)
    requires Sound(a) && Fits(a, data) && |data| >= LONG_SIZE
    ensures Sound(b)
  {
    var b :=
      if a.frame == 0 || a.frame >= 6 then
        var offset := (|data| - 3) % 0x100;
        a.(pred := Word(data[0], data[1]), stepIdx := data[2], offset := offset,
           dropped := if a.frame >= 6 then (a.dropped + 1) % TWO_32 else a.dropped,
           frame := 0, package := Copied(a.package, 0, data[3..3 + offset]))
      else if |data| + a.offset < PACKAGE_SIZE then
        a.(package := Copied(a.package, a.offset, data), offset := a.offset + |data|)
      else a;
    b.(frame := b.frame + 1)
  }

  /** A short packet ends a group, and completes the package if it fills it up. */
  function ShortStep(a: Assembly, data: seq<byte>): (r: (Assembly, bool))
    requires Sound(a) && |data| < LONG_SIZE
    ensures Sound(r.0)
  {
    var b := if |data| <= PACKAGE_SIZE - a.offset
             then a.(package := Copied(a.package, a.offset, data), offset := a.offset + |data|) else a;
    if b.offset < PACKAGE_SIZE then (b.(dropped := (b.dropped + 1) % TWO_32, frame := 0, offset := 0), false)
    else (b.(frame := 0, offset := 0), true)
  }

  function AddStep(a: Assembly, data: seq<byte>): (r: (Assembly, bool))
    requires Sound(a) && Fits(a, data)
    ensures Sound(r.0)
  {
    var counted := a.(frames := (a.frames + 1) % TWO_32);
    if |data| >= LONG_SIZE then (LongStep(counted, data), false) else ShortStep(counted, data)
  }

  // ---------------------------------------------------------------- whole histories

  /** Long packets are exactly twenty bytes. */
  predicate Regular(h: seq<seq<byte>>) {
    forall i :: 0 <= i < |h| ==> |h[i]| <= LONG_SIZE
  }

  predicate Long(data: seq<byte>) {
    |data| >= LONG_SIZE
  }

  /** Number of long packets at the end of the history. */
  function Trailing(h: seq<seq<byte>>): (n: nat)
    ensures n <= |h|
    ensures forall i :: |h| - n <= i < |h| ==> Long(h[i])
  {
    if h == [] || !Long(h[|h| - 1]) then 0 else Trailing(h[..|h| - 1]) + 1
  }

  /** Position of the last long packet in its group of six. */
  function Position(n: nat): nat {
    if n == 0 then 0 else (n - 1) % 6 + 1
  }

  /** The bytes a group of long packets contributes: the first without its header, the others whole. */
  function Gathered(group: seq<seq<byte>>): seq<byte> {
    if group == [] then []
    else if |group| == 1 then (if |group[0]| >= 3 then group[0][3..] else [])
    else Gathered(group[..|group| - 1]) + group[|group| - 1]
  }

  /** The long packets of the unfinished group. */
  function Group(h: seq<seq<byte>>): seq<seq<byte>> {
    h[|h| - Position(Trailing(h))..]
  }

  function Fed(h: seq<seq<byte>>): (a: Assembly)
    requires Regular(h)
    ensures Sound(a) && a.frame == Position(Trailing(h))
  {
    if h == [] then Empty()
    else
      var front := h[..|h| - 1];
      assert forall i :: 0 <= i < |front| ==> front[i] == h[i];
      FrameStep(Fed(front), Trailing(front), h[|h| - 1]);
      AddStep(Fed(front), h[|h| - 1]).0
  }

  lemma FrameStep(a: Assembly, trailing: nat, data: seq<byte>)
    requires Sound(a) && a.frame == Position(trailing) && |data| <= LONG_SIZE
    ensures Fits(a, data) && AddStep(a, data).0.frame == Position(if Long(data) then trailing + 1 else 0)
  {
    PositionStep(trailing);
  }

  /** Does the packet complete a package after this history? */
  predicate Completes(h: seq<seq<byte>>, data: seq<byte>) {
    |data| == 11 && Trailing(h) > 0 && Trailing(h) % 6 == 0
  }

  /** The assembly holds the bytes of the unfinished group, and the header of its first packet. */
  predicate Holds(a: Assembly, group: seq<seq<byte>>) {
    && a.frame == |group| <= 6
    && a.offset == |Gathered(group)| == (if group == [] then 0 else 20 * |group| - 3)
    && a.offset <= |a.package| && a.package[..a.offset] == Gathered(group)
    && (group != [] ==> |group[0]| == LONG_SIZE && a.pred == Word(group[0][0], group[0][1]) && a.stepIdx == group[0][2])
  }

  lemma HoldsLong(a: Assembly, group: seq<seq<byte>>, data: seq<byte>)
    requires Sound(a) && Holds(a, group) && |data| == LONG_SIZE
    ensures Holds(AddStep(a, data).0, if |group| == 0 || |group| == 6 then [data] else group + [data])
  {
    if |group| != 0 && |group| != 6 {
      var more := group + [data];
      assert more[..|group|] == group && more[|group|] == data;
      var b := AddStep(a, data).0;
      assert b.package == Copied(a.package, a.offset, data);
      assert b.package[..b.offset] == a.package[..a.offset] + data;
    } else {
      var b := AddStep(a, data).0;
      assert b.package == Copied(a.package, 0, data[3..]) && b.offset == 17;
      assert b.package[..17] == data[3..] == Gathered([data]);
    }
  }

  lemma HoldsShort(a: Assembly, group: seq<seq<byte>>, data: seq<byte>)
    requires Sound(a) && Holds(a, group) && |data| < LONG_SIZE
    ensures Holds(AddStep(a, data).0, [])
  {
  }

  lemma GroupStep(h: seq<seq<byte>>, data: seq<byte>)
    ensures var g := Group(h);
            Group(h + [data]) == if !Long(data) then [] else if |g| == 0 || |g| == 6 then [data] else g + [data]
  {
    assert (h + [data])[..|h|] == h;
    var n := Trailing(h);
    if Long(data) {
      assert Trailing(h + [data]) == n + 1;
      PositionStep(n);
    }
  }

  lemma PositionStep(n: nat)
    ensures Position(n + 1) == if n % 6 == 0 then 1 else Position(n) + 1
    ensures n % 6 == 0 <==> Position(n) == 0 || Position(n) == 6
  {
  }

  /** After any history the assembly holds exactly the unfinished group. */
  lemma {:induction false} FedHolds(h: seq<seq<byte>>)
    requires Regular(h)
    ensures Holds(Fed(h), Group(h))
    decreases |h|
  {
    if h != [] {
      var front, data := h[..|h| - 1], h[|h| - 1];
      assert h == front + [data];
      FedHolds(front);
      GroupStep(front, data);
      if Long(data) {
        HoldsLong(Fed(front), Group(front), data);
      } else {
        HoldsShort(Fed(front), Group(front), data);
      }
    }
  }

  /** A package is completed exactly by an eleven byte packet after six, twelve, ... long ones in a
      row, and then consists of the last six of them, the first without its header, and that packet. */
  lemma CompletesExactly(h: seq<seq<byte>>, data: seq<byte>)
    requires Regular(h) && |data| <= LONG_SIZE
    ensures AddStep(Fed(h), data).1 <==> Completes(h, data)
    ensures Completes(h, data) ==>
              var a, g := AddStep(Fed(h), data).0, h[|h| - 6..];
              && a.package == Gathered(g) + data && |g[0]| == LONG_SIZE
              && a.pred == Word(g[0][0], g[0][1]) && a.stepIdx == g[0][2]
  {
    FedHolds(h);
    var a, n := Fed(h), Trailing(h);
    PositionStep(n);
    if n > 0 && n % 6 == 0 {
      assert Group(h) == h[|h| - 6..];
      assert a.offset == 117;
      if |data| == 11 {
        var b := AddStep(a, data).0;
        assert b.package == Copied(a.package, a.offset, data);
        assert b.package == a.package[..a.offset] + data;
      }
    }
  }

  // ---------------------------------------------------------------- counting

  /** Packages completed over the history. */
  function Completed(h: seq<seq<byte>>): nat {
    if h == [] then 0
    else Completed(h[..|h| - 1]) + if Completes(h[..|h| - 1], h[|h| - 1]) then 1 else 0
  }

  function Shorts(h: seq<seq<byte>>): nat {
    if h == [] then 0 else Shorts(h[..|h| - 1]) + if Long(h[|h| - 1]) then 0 else 1
  }

  /** Long packets that start a group although the one before was never closed. */
  function Restarts(h: seq<seq<byte>>): nat {
    if h == [] then 0
    else
      var n := Trailing(h[..|h| - 1]);
      Restarts(h[..|h| - 1]) + if Long(h[|h| - 1]) && n > 0 && n % 6 == 0 then 1 else 0
  }

  /** Drops charged to one packet. */
  function DropsOf(h: seq<seq<byte>>, data: seq<byte>): nat {
    if Long(data) then (if Trailing(h) > 0 && Trailing(h) % 6 == 0 then 1 else 0)
    else if Completes(h, data) then 0 else 1
  }

  lemma CountersStep(h: seq<seq<byte>>, data: seq<byte>)
    requires Regular(h) && |data| <= LONG_SIZE
    ensures var a, b := Fed(h), AddStep(Fed(h), data).0;
            b.frames == (a.frames + 1) % TWO_32 && b.dropped == (if DropsOf(h, data) == 1 then (a.dropped + 1) % TWO_32 else a.dropped)
  {
    CompletesExactly(h, data);
    PositionStep(Trailing(h));
  }

  lemma {:induction false} CompletedAreShort(h: seq<seq<byte>>)
    ensures Completed(h) <= Shorts(h)
    decreases |h|
  {
    if h != [] {
      CompletedAreShort(h[..|h| - 1]);
    }
  }

  function Drops(h: seq<seq<byte>>): nat {
    CompletedAreShort(h);
    Shorts(h) + Restarts(h) - Completed(h)
  }

  lemma DropsStep(h: seq<seq<byte>>)
    requires h != []
    ensures Drops(h) == Drops(h[..|h| - 1]) + DropsOf(h[..|h| - 1], h[|h| - 1])
  {
  }

  lemma FedSnoc(h: seq<seq<byte>>)
    requires Regular(h) && h != []
    ensures Regular(h[..|h| - 1]) && Fed(h) == AddStep(Fed(h[..|h| - 1]), h[|h| - 1]).0
  {
  }

  lemma {:induction false} FramesCount(h: seq<seq<byte>>)
    requires Regular(h)
    ensures Fed(h).frames == |h| % TWO_32
    decreases |h|
  {
    if h != [] {
      var front, data := h[..|h| - 1], h[|h| - 1];
      FedSnoc(h);
      FramesCount(front);
      CountersStep(front, data);
      NextCount(|front|);
    }
  }

  /** The counters: every packet is a frame; every short packet and every restart that does not
      complete a package is a drop. Both count in thirty-two bits. */
  lemma {:induction false} Accounting(h: seq<seq<byte>>)
    requires Regular(h)
    ensures Completed(h) <= Shorts(h)
    ensures Fed(h).frames == |h| % TWO_32
    ensures Fed(h).dropped == (Shorts(h) + Restarts(h) - Completed(h)) % TWO_32
    decreases |h|
  {
    CompletedAreShort(h);
    FramesCount(h);
    if h != [] {
      var front, data := h[..|h| - 1], h[|h| - 1];
      FedSnoc(h);
      Accounting(front);
      CountersStep(front, data);
      DropsStep(h);
      NextCount(Drops(front));
    }
  }

  lemma NextCount(n: nat)
    ensures (n % TWO_32 + 1) % TWO_32 == (n + 1) % TWO_32
  {
  }

  // ---------------------------------------------------------------- the two output forms

  /** What the ADPCM form hands on: little-endian predicted value, step index, padding, package. */
  function AdpcmFrame(a: Assembly): seq<byte>
    requires Sound(a)
  {
    [a.pred % 0x100, a.pred / 0x100, a.stepIdx, 0] + a.package
  }

  /** Where decoding of the package starts. */
  function Start(a: Assembly): Predictor
    requires Sound(a)
  {
    Predictor(ToInt16(a.pred), a.stepIdx)
  }

  /** What the PCM form hands on. */
  function PcmFrame(t: Tables, a: Assembly): seq<int16>
    requires Sane(t) && Sound(a) && a.stepIdx <= LAST_INDEX
  {
    Samples(t, Start(a), a.package)
  }

  /** A receiver of the ADPCM form: takes the preamble, decodes the rest. */
  function Received(t: Tables, frame: seq<byte>): seq<int16>
    requires Sane(t) && |frame| >= 4 && frame[2] <= LAST_INDEX
  {
    Samples(t, Predictor(ToInt16(Word(frame[1], frame[0])), frame[2]), frame[4..])
  }

  /** The assembly right after the k-th packet. */
  function Then(h: seq<seq<byte>>, k: nat): (a: Assembly)
    requires Regular(h) && k < |h|
    ensures Sound(a)
  {
    Fed(h[..k + 1])
  }

  lemma ThenStep(h: seq<seq<byte>>, k: nat)
    requires Regular(h) && k < |h|
    ensures Regular(h[..k]) && Then(h, k) == AddStep(Fed(h[..k]), h[k]).0
  {
    assert h[..k + 1][..k] == h[..k];
  }

  /** The step index decoding starts from is the header's. */
  lemma HeaderFits(h: seq<seq<byte>>, k: nat)
    requires Regular(h) && k < |h| && Completes(h[..k], h[k])
    ensures k >= 6 && Then(h, k).stepIdx == h[..k][k - 6][2]
  {
    ThenStep(h, k);
    CompletesExactly(h[..k], h[k]);
    assert h[..k][|h[..k]| - 6..][0] == h[..k][k - 6];
  }

  /** When a package completes, the ADPCM frame begins with the first packet's header, its two value bytes turned
      round for a little-endian reader, and goes on with the package. */
  lemma FrameHeader(h: seq<seq<byte>>, k: nat)
    requires Regular(h) && k < |h| && Completes(h[..k], h[k])
    ensures k >= 6 && |AdpcmFrame(Then(h, k))| == 4 + PACKAGE_SIZE
    ensures var frame, first := AdpcmFrame(Then(h, k)), h[..k][k - 6];
            |first| == LONG_SIZE && frame[0] == first[1] && frame[1] == first[0] && frame[2] == first[2] && frame[3] == 0
            && frame[4..] == Gathered(h[..k][k - 6..]) + h[k]
  {
    ThenStep(h, k);
    CompletesExactly(h[..k], h[k]);
    assert h[..k][|h[..k]| - 6..][0] == h[..k][k - 6];
    assert AdpcmFrame(Then(h, k))[4..] == Then(h, k).package;
  }

  /** The PCM form's first sample is decoded from that header: high byte first, and signed. */
  lemma StartValue(a: Assembly, high: byte, low: byte)
    requires Sound(a) && a.pred == Word(high, low)
    ensures Start(a).value % 0x100 == low && Start(a).value / 0x100 % 0x100 == high && Start(a).index == a.stepIdx
  {
  }

  /** When a package completes, decoding the ADPCM form from its own preamble gives exactly the samples of
      the PCM form. */
  lemma TwoForms(t: Tables, h: seq<seq<byte>>, k: nat)
    requires Sane(t) && Regular(h) && k < |h| && Completes(h[..k], h[k])
    requires h[..k][k - 6][2] <= LAST_INDEX
    ensures Then(h, k).stepIdx <= LAST_INDEX
    ensures |AdpcmFrame(Then(h, k))| == 4 + PACKAGE_SIZE
    ensures Received(t, AdpcmFrame(Then(h, k))) == PcmFrame(t, Then(h, k))
  {
    HeaderFits(h, k);
    FrameDecodes(t, Then(h, k));
  }

  /** A frame decoded from its own preamble. */
  lemma FrameDecodes(t: Tables, a: Assembly)
    requires Sane(t) && Sound(a) && a.stepIdx <= LAST_INDEX
    ensures |AdpcmFrame(a)| == 4 + PACKAGE_SIZE && AdpcmFrame(a)[2] <= LAST_INDEX
    ensures Received(t, AdpcmFrame(a)) == PcmFrame(t, a)
  {
    assert AdpcmFrame(a)[4..] == a.package;
  }
}
