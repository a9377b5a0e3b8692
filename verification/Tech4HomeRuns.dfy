// Sequence accounting of the Tech4Home decoders: five-bit frame numbers on the wire, and what the
// frame and drop counters make of them over a whole stream.
module Tech4HomeRuns {
  import opened Bytes
  import opened ImaAdpcm

  const WINDOW_SIZE: nat := 32

  /** static_cast<uint32_t>(~0): nothing counted yet. */
  const UNSET: nat := 0xFFFF_FFFF

  datatype Counters = Counters(nextFrame: nat, frames: nat, dropped: nat)

  /** Counters as Reset leaves them; the next frame number is whatever it was. */
  function Fresh(nextFrame: nat): Counters {
    Counters(nextFrame, UNSET, UNSET)
  }

  function HeaderStep(c: Counters, number: nat): Counters
    requires c.nextFrame < WINDOW_SIZE
  {
    var dropped :=
      if c.dropped == UNSET then UNSET
      else if number > c.nextFrame then (c.dropped + (number - c.nextFrame)) % TWO_32
      else if number < c.nextFrame then (c.dropped + (number + (WINDOW_SIZE - c.nextFrame))) % TWO_32
      else c.dropped;
    var frames := if c.dropped == UNSET then 0 else (c.frames + 1) % TWO_32;
    Counters((number + 1) % WINDOW_SIZE, frames, dropped)
  }

  function AudioStep(c: Counters): Counters {
    if c.frames != UNSET && c.dropped == UNSET then c.(dropped := 0) else c
  }

  // ---------------------------------------------------------------- whole streams

  /** What arrives: a header carries its frame's place in the stream, of which the wire shows five bits. */
  datatype Packet =
    | Header(index: nat, start: Predictor)
    | Footer
    | Audio(bytes: seq<byte>)

  function Step(c: Counters, p: Packet): (d: Counters)
    requires c.nextFrame < WINDOW_SIZE
    ensures d.nextFrame < WINDOW_SIZE
  {
    match p
    case Header(index, _) => HeaderStep(c, index % WINDOW_SIZE)
    case Footer => c
    case Audio(_) => AudioStep(c)
  }

  function Run(nextFrame: nat, ps: seq<Packet>): (c: Counters)
    requires nextFrame < WINDOW_SIZE
    ensures c.nextFrame < WINDOW_SIZE
  {
    if ps == [] then Fresh(nextFrame) else Step(Run(nextFrame, ps[..|ps| - 1]), ps[|ps| - 1])
  }

  /** The truth about a stream: has a header come, has audio followed, the header counting started
      from, the latest header, and the headers received since the start. */
  datatype Truth = Truth(heard: bool, started: bool, base: nat, latest: nat, headers: nat)

  function Follow(t: Truth, p: Packet): Truth {
    match p
    case Header(index, _) =>
      t.(heard := true, latest := index, base := if t.started then t.base else index,
         headers := if t.started then t.headers + 1 else 0)
    case Footer => t
    case Audio(_) => t.(started := t.heard)
  }

  function Track(ps: seq<Packet>): Truth {
    if ps == [] then Truth(false, false, 0, 0, 0) else Follow(Track(ps[..|ps| - 1]), ps[|ps| - 1])
  }

  /** Headers never received between the first counted one and the latest. */
  function Lost(t: Truth): int {
    t.latest - t.base - t.headers
  }

  /** Frames come in order. */
  predicate Increasing(ps: seq<Packet>) {
    ps == [] ||
    var front, p := ps[..|ps| - 1], ps[|ps| - 1];
    Increasing(front) && (p.Header? && Track(front).heard ==> p.index > Track(front).latest)
  }

  /** Once counting, fewer than thirty-two headers in a row are lost. */
  predicate ShortGaps(ps: seq<Packet>) {
    ps == [] ||
    var front, p := ps[..|ps| - 1], ps[|ps| - 1];
    ShortGaps(front) && (p.Header? && Track(front).started ==> p.index - Track(front).latest - 1 < WINDOW_SIZE)
  }

  /** The five-bit difference to the expected number is the number of lost headers, modulo thirty-two. */
  lemma Unwrap(latest: nat, index: nat)
    requires index > latest
    ensures var expected, number := (latest + 1) % WINDOW_SIZE, index % WINDOW_SIZE;
            (index - latest - 1) % WINDOW_SIZE
            == if number >= expected then number - expected else number + (WINDOW_SIZE - expected)
  {
  }

  /** What ties the counters to the truth. */
  predicate Agrees(c: Counters, t: Truth, exact: bool) {
    && (t.heard ==> c.nextFrame == (t.latest + 1) % WINDOW_SIZE)
    && (if t.started then t.heard && t.base <= t.latest else t.base == t.latest && t.headers == 0)
    && (if !t.heard then c.frames == c.dropped == UNSET
        else if !t.started then c.frames == 0 && c.dropped == UNSET
        else c.frames == t.headers && c.dropped <= 31 * t.headers && c.dropped <= Lost(t) && (c.dropped == Lost(t) <==> exact))
  }

  lemma StepAgrees(c: Counters, t: Truth, exact: bool, p: Packet)
    requires c.nextFrame < WINDOW_SIZE && Agrees(c, t, exact)
    requires 32 * (t.headers + 1) < UNSET
    requires !t.started ==> exact
    requires p.Header? && t.heard ==> p.index > t.latest
    ensures Agrees(Step(c, p), Follow(t, p), exact && (p.Header? && t.started ==> p.index - t.latest - 1 < WINDOW_SIZE))
  {
    if p.Header? {
      NextNumber(p.index);
      if t.started {
        var gap := p.index - t.latest - 1;
        Unwrap(t.latest, p.index);
        GapInWindow(gap);
        SumFits(c.dropped, gap % WINDOW_SIZE);
        SumFits(c.frames, 1);
        assert Step(c, p).dropped == c.dropped + gap % WINDOW_SIZE;
      }
    }
  }

  lemma NextNumber(index: nat)
    ensures (index % WINDOW_SIZE + 1) % WINDOW_SIZE == (index + 1) % WINDOW_SIZE
  {
  }

  lemma GapInWindow(gap: nat)
    ensures gap % WINDOW_SIZE <= gap && gap % WINDOW_SIZE <= 31 && (gap % WINDOW_SIZE == gap <==> gap < WINDOW_SIZE)
  {
  }

  lemma SumFits(a: nat, b: nat)
    requires a + b < UNSET
    ensures (a + b) % TWO_32 == a + b
  {
  }

  /** Over every stream, as long as the counters do not overflow: the frame counter is exact, the drop
      counter never exceeds the truth, and it is exact if and only if no gap hid a full window. */
  lemma {:induction false} DropsExact(nextFrame: nat, ps: seq<Packet>)
    requires nextFrame < WINDOW_SIZE && Increasing(ps) && 32 * (|ps| + 1) < UNSET
    ensures Agrees(Run(nextFrame, ps), Track(ps), ShortGaps(ps))
    ensures Track(ps).headers <= |ps| && (!Track(ps).started ==> ShortGaps(ps))
    decreases |ps|
  {
    if ps != [] {
      DropsExact(nextFrame, ps[..|ps| - 1]);
      StepAgrees(Run(nextFrame, ps[..|ps| - 1]), Track(ps[..|ps| - 1]), ShortGaps(ps[..|ps| - 1]), ps[|ps| - 1]);
    }
  }

  /** Thirty-two headers lost in a row look like none: the counter stays at zero. */
  lemma HiddenGap(start: Predictor, bytes: seq<byte>)
    ensures var ps := [Header(0, start)] + [Audio(bytes)] + [Header(33, start)];
            Increasing(ps) && Lost(Track(ps)) == 32 && Run(0, ps).dropped == 0
  {
    var one := [Header(0, start)];
    var two := one + [Audio(bytes)];
    var three := two + [Header(33, start)];
    assert three[..2] == two && two[..1] == one && one[..0] == [];
    assert Track(one) == Truth(true, false, 0, 0, 0) && Run(0, one) == Counters(1, 0, UNSET);
    assert Track(two) == Truth(true, true, 0, 0, 0) && Run(0, two) == Counters(1, 0, 0);
    assert Increasing(one) && Increasing(two);
  }

  /** One header less, and every lost one is counted. */
  lemma WidestGap(start: Predictor, bytes: seq<byte>)
    ensures var ps := [Header(0, start)] + [Audio(bytes)] + [Header(32, start)];
            Increasing(ps) && Lost(Track(ps)) == 31 && Run(0, ps).dropped == 31
  {
    var one := [Header(0, start)];
    var two := one + [Audio(bytes)];
    var three := two + [Header(32, start)];
    assert three[..2] == two && two[..1] == one && one[..0] == [];
    assert Track(one) == Truth(true, false, 0, 0, 0) && Run(0, one) == Counters(1, 0, UNSET);
    assert Track(two) == Truth(true, true, 0, 0, 0) && Run(0, two) == Counters(1, 0, 0);
    assert Increasing(one) && Increasing(two);
  }

  /** With short gaps, frames and drops together measure the distance travelled since counting began. */
  lemma Distance(nextFrame: nat, ps: seq<Packet>)
    requires nextFrame < WINDOW_SIZE && Increasing(ps) && 32 * (|ps| + 1) < UNSET && Track(ps).started
    ensures var c, t := Run(nextFrame, ps), Track(ps);
            && c.frames + c.dropped <= t.latest - t.base
            && (c.frames + c.dropped == t.latest - t.base <==> ShortGaps(ps))
  {
    DropsExact(nextFrame, ps);
  }

  // ---------------------------------------------------------------- samples between two headers

  /** Where the latest header told the decoder to start, and the audio bytes since; before the first header
      there is nothing to start from. */
  function SinceHeader(ps: seq<Packet>): (Predictor, seq<byte>) {
    if ps == [] then (Predictor(0, 0), [])
    else
      var (start, bytes) := SinceHeader(ps[..|ps| - 1]);
      match ps[|ps| - 1]
      case Header(_, start') => (start', [])
      case Footer => (start, bytes)
      case Audio(more) => (start, if Track(ps[..|ps| - 1]).heard then bytes + more else bytes)
  }

  /** The decoder's state and the samples it gave out since the latest header. */
  function Decoding(t: Tables, ps: seq<Packet>): (r: (Predictor, seq<int16>))
    requires Sane(t) && StartsValid(ps)
    ensures Valid(r.0)
  {
    if ps == [] then (Predictor(0, 0), [])
    else
      var (p, samples) := Decoding(t, ps[..|ps| - 1]);
      match ps[|ps| - 1]
      case Header(_, start) => (start, [])
      case Footer => (p, samples)
      case Audio(bytes) =>
        if Track(ps[..|ps| - 1]).heard then (After(t, p, bytes), samples + Samples(t, p, bytes)) else (p, samples)
  }

  predicate StartsValid(ps: seq<Packet>) {
    ps == [] || (StartsValid(ps[..|ps| - 1]) && (ps[|ps| - 1].Header? ==> Valid(ps[|ps| - 1].start)))
  }

  /** However the audio after a header is cut into packets, the samples are those of one stream. */
  lemma {:induction false} PacketsDecodeAsOne(t: Tables, ps: seq<Packet>)
    requires Sane(t) && StartsValid(ps)
    ensures var (start, bytes) := SinceHeader(ps);
            Valid(start) && Decoding(t, ps) == (After(t, start, bytes), Samples(t, start, bytes))
    decreases |ps|
  {
    if ps != [] {
      var front := ps[..|ps| - 1];
      PacketsDecodeAsOne(t, front);
      if ps[|ps| - 1].Audio? && Track(front).heard {
        DecodeConcat(t, SinceHeader(front).0, SinceHeader(front).1, ps[|ps| - 1].bytes);
      }
    }
  }

  /** Audio counts once a header was heard: the frame counter is set, for streams it can count. */
  lemma {:induction false} FramesHeard(nextFrame: nat, ps: seq<Packet>)
    requires nextFrame < WINDOW_SIZE && |ps| < UNSET
    ensures var c, t := Run(nextFrame, ps), Track(ps);
            if t.heard then c.frames <= |ps| else c.frames == c.dropped == UNSET
    decreases |ps|
  {
    if ps != [] {
      FramesHeard(nextFrame, ps[..|ps| - 1]);
    }
  }
}
