// The audio player's staging buffer and clock: frames come in from the source, encoder-sized pieces go
// out, and the play time is folded into an offset whenever the stream pauses.
module PlayerRuns {
  import opened Bytes

  // ---------------------------------------------------------------- the size of the buffer

  /** Room for a whole number of frames. */
  function BufferSize(preferred: nat, max: nat): nat
    requires max > 0
  {
    (2 * preferred / max + 1) * max
  }

  predicate HasRoom(available: nat, preferred: nat, max: nat)
    requires max > 0
  {
    available + max <= BufferSize(preferred, max)
  }

  /** A frame is fetched only while less than the preferred amount is there: does one always fit? */
  predicate Roomy(preferred: nat, max: nat)
    requires max > 0
  {
    forall available: nat :: available < preferred ==> HasRoom(available, preferred, max)
  }

  predicate Fits(preferred: nat, max: nat) {
    max <= 2 * preferred || preferred <= 1
  }

  lemma SizeBounds(preferred: nat, max: nat)
    requires max > 0
    ensures var rest := 2 * preferred % max; BufferSize(preferred, max) == 2 * preferred - rest + max && rest < max
  {
    var quotient := 2 * preferred / max;
    assert 2 * preferred == quotient * max + 2 * preferred % max;
  }

  lemma AtLeastOnce(quotient: nat, max: nat)
    requires quotient > 0
    ensures quotient * max >= max
  {
  }

  lemma RestAtMost(preferred: nat, max: nat)
    requires 0 < max <= 2 * preferred
    ensures 2 * preferred % max <= preferred
  {
    AtLeastOnce(2 * preferred / max, max);
  }

  /** The multiplier is large enough exactly when a frame is at most twice the preferred amount. */
  lemma RoomyExact(preferred: nat, max: nat)
    requires max > 0
    ensures Roomy(preferred, max) <==> Fits(preferred, max)
  {
    SizeBounds(preferred, max);
    if max <= 2 * preferred {
      RestAtMost(preferred, max);
    } else {
      assert 2 * preferred % max == 2 * preferred;
      if preferred > 1 {
        var available: nat := preferred - 1;
        assert !HasRoom(available, preferred, max);
      }
    }
  }

  // ---------------------------------------------------------------- one round of the worker

  /** Minimum, maximum and preferred sizes, and how the transport counts: bytes per sample of all
      channels, and samples per second. */
  datatype Sizes = Sizes(min: nat, max: nat, preferred: nat, sample: nat, rate: nat)

  predicate Sane(s: Sizes) {
    0 < s.min <= s.preferred && s.max > 0 && s.sample > 0 && s.rate > 0
  }

  datatype Stage = Stage(pending: seq<byte>, offset: nat, timestamp: nat, eos: bool)

  /** What the surroundings do in one round: the frames the source has, whether the transport is open,
      and how much it is ready to take. */
  datatype Round = Round(frames: seq<seq<byte>>, open: bool, capacity: nat)

  datatype Outcome = Outcome(stage: Stage, used: nat, sent: seq<byte>, blocked: bool)

  /** Does some fetch find too little room? */
  predicate Overruns(available: nat, frames: seq<seq<byte>>, s: Sizes)
    requires Sane(s)
    decreases |frames|
  {
    available < s.preferred &&
    (!HasRoom(available, s.preferred, s.max)
     || (frames != [] && Taken(frames[0], s.max) > 0 && Overruns(available + Taken(frames[0], s.max), frames[1..], s)))
  }

  /** Starting with an empty buffer. */
  predicate Overflows(frames: seq<seq<byte>>, s: Sizes)
    requires Sane(s)
  {
    Overruns(0, frames, s)
  }

  lemma {:induction false} NeverOverruns(available: nat, frames: seq<seq<byte>>, s: Sizes)
    requires Sane(s) && Fits(s.preferred, s.max)
    ensures !Overruns(available, frames, s)
    decreases |frames|
  {
    RoomyExact(s.preferred, s.max);
    if frames != [] {
      NeverOverruns(available + Taken(frames[0], s.max), frames[1..], s);
    }
  }

  /** Whatever the source delivers, there is room for it, exactly when the sizes fit. */
  lemma OverrunsExact(s: Sizes)
    requires Sane(s)
    ensures !Fits(s.preferred, s.max) <==> exists frames :: Overflows(frames, s)
  {
    if Fits(s.preferred, s.max) {
      forall frames
        ensures !Overflows(frames, s)
      {
        NeverOverruns(0, frames, s);
      }
    } else {
      var frames := Overrunning(s);
    }
  }

  /** A single byte from the source makes too little room. */
  lemma Overrunning(s: Sizes) returns (frames: seq<seq<byte>>)
    requires Sane(s) && !Fits(s.preferred, s.max)
    ensures Overflows(frames, s)
  {
    frames := [[0]];
    SizeBounds(s.preferred, s.max);
    assert 2 * s.preferred % s.max == 2 * s.preferred;
    assert frames[1..] == [] && Taken(frames[0], s.max) == 1;
    assert Overruns(1, frames[1..], s);
  }

  /** How much of a frame is taken: its length as a sixteen-bit number. */
  function Taken(frame: seq<byte>, max: nat): (n: nat)
    ensures n <= |frame| && n <= max && n < TWO_16
  {
    Min(|frame|, max) % TWO_16
  }

  datatype Filled = Filled(pending: seq<byte>, used: nat, dry: bool)

  /** Fetching frames until the preferred amount is there or the source has none. */
  function Fill(pending: seq<byte>, frames: seq<seq<byte>>, s: Sizes): (r: Filled)
    ensures r.used <= |frames| && |pending| <= |r.pending|
    ensures |r.pending| < Max(s.preferred + s.max, |pending| + 1)
    decreases |frames|
  {
    if |pending| >= s.preferred then Filled(pending, 0, false)
    else if frames == [] then Filled(pending, 0, true)
    else
      var n := Taken(frames[0], s.max);
      if n == 0 then Filled(pending, 1, true)
      else var r := Fill(pending + frames[0][..n], frames[1..], s); r.(used := r.used + 1)
  }

  function PlayTime(timestamp: nat, s: Sizes): nat
    requires Sane(s)
  {
    1000 * timestamp / s.rate % TWO_32
  }

  /** The play time so far goes into the offset, and the transport counts from zero again. */
  function Fold(g: Stage, s: Sizes): Stage
    requires Sane(s)
  {
    g.(offset := (g.offset + PlayTime(g.timestamp, s)) % TWO_32, timestamp := 0)
  }

  function Refill(g: Stage, frames: seq<seq<byte>>, s: Sizes): (r: (Stage, nat))
    requires Sane(s)
  {
    if |g.pending| < s.min && !g.eos then
      var f := Fill(g.pending, frames, s);
      var h := g.(pending := f.pending);
      (if f.dry && |h.pending| < s.min then Fold(h, s) else h, f.used)
    else (g, 0)
  }

  /** Samples of all channels. */
  function Samples(bytes: nat, s: Sizes): nat
    requires Sane(s)
  {
    bytes / s.sample
  }

  /** How much goes out: the transport is offered a sixteen-bit length. */
  function Offered(pending: nat, capacity: nat): nat {
    Min(capacity, pending % TWO_16)
  }

  function Transmit(g: Stage, r: Round, s: Sizes): (t: (Stage, seq<byte>))
    requires Sane(s)
  {
    if !r.open then (g.(eos := true), [])
    else if |g.pending| < s.min then (g, [])
    else
      var n := Offered(|g.pending|, r.capacity);
      (g.(pending := g.pending[n..], timestamp := (g.timestamp + Samples(n, s)) % TWO_32), g.pending[..n])
  }

  function Work(g: Stage, r: Round, s: Sizes): Outcome
    requires Sane(s)
  {
    var (h, used) := Refill(g, r.frames, s);
    var (t, sent) := Transmit(h, r, s);
    Outcome(t, used, sent, sent == [] && t.eos)
  }

  // ---------------------------------------------------------------- nothing lost, nothing reordered

  /** The bytes taken out of some frames. */
  function Accepted(frames: seq<seq<byte>>, s: Sizes): seq<byte> {
    if frames == [] then [] else Accepted(frames[..|frames| - 1], s) + frames[|frames| - 1][..Taken(frames[|frames| - 1], s.max)]
  }

  function Joined(frames: seq<seq<byte>>): seq<byte> {
    if frames == [] then [] else Joined(frames[..|frames| - 1]) + frames[|frames| - 1]
  }

  lemma {:induction false} AcceptedFirst(frames: seq<seq<byte>>, s: Sizes)
    requires frames != []
    ensures Accepted(frames, s) == frames[0][..Taken(frames[0], s.max)] + Accepted(frames[1..], s)
    decreases |frames|
  {
    if |frames| > 1 {
      AcceptedFirst(frames[..|frames| - 1], s);
      assert frames[..|frames| - 1][1..] == frames[1..][..|frames| - 2];
    } else {
      assert frames[..0] == [] && frames[1..] == [];
    }
  }

  lemma {:induction false} AcceptedConcat(a: seq<seq<byte>>, b: seq<seq<byte>>, s: Sizes)
    ensures Accepted(a + b, s) == Accepted(a, s) + Accepted(b, s)
    decreases |b|
  {
    if b == [] {
      assert a + b == a;
    } else {
      AcceptedConcat(a, b[..|b| - 1], s);
      assert (a + b)[..|a + b| - 1] == a + b[..|b| - 1];
    }
  }

  lemma {:induction false} FillAccepts(pending: seq<byte>, frames: seq<seq<byte>>, s: Sizes)
    ensures var r := Fill(pending, frames, s); r.pending == pending + Accepted(frames[..r.used], s)
    decreases |frames|
  {
    var r := Fill(pending, frames, s);
    if |pending| < s.preferred && frames != [] {
      var n := Taken(frames[0], s.max);
      if n == 0 {
        AcceptedFirst(frames[..1], s);
        assert frames[..1][1..] == [];
      } else {
        FillAccepts(pending + frames[0][..n], frames[1..], s);
        AcceptedFirst(frames[..r.used], s);
        assert frames[..r.used][1..] == frames[1..][..r.used - 1];
      }
    }
  }

  lemma RefillKeeps(g: Stage, frames: seq<seq<byte>>, s: Sizes)
    requires Sane(s)
    ensures var (h, used) := Refill(g, frames, s);
            used <= |frames| && h.pending == g.pending + Accepted(frames[..used], s)
  {
    FillAccepts(g.pending, frames, s);
    assert frames[..0] == [];
  }

  lemma TransmitKeeps(g: Stage, r: Round, s: Sizes)
    requires Sane(s)
    ensures var (t, sent) := Transmit(g, r, s); sent + t.pending == g.pending
  {
  }

  /** Of one round: what went out and what is left is what was there and what came in. */
  lemma WorkKeeps(g: Stage, r: Round, s: Sizes)
    requires Sane(s)
    ensures var o := Work(g, r, s);
            o.used <= |r.frames| && o.sent + o.stage.pending == g.pending + Accepted(r.frames[..o.used], s)
  {
    RefillKeeps(g, r.frames, s);
    TransmitKeeps(Refill(g, r.frames, s).0, r, s);
  }

  // ---------------------------------------------------------------- runs

  datatype Event = Turn(round: Round) | Play | Stop

  /** The stage, and since the last start what was sent and which frames were used; and since the player
      was made the samples played and how often play time was folded. */
  datatype Log = Log(stage: Stage, sent: seq<byte>, used: seq<seq<byte>>, played: nat, folds: nat)

  const FRESH: Log := Log(Stage([], 0, 0, false), [], [], 0, 0)

  /** Does this round find the source stalled? */
  predicate Stalls(g: Stage, frames: seq<seq<byte>>, s: Sizes) {
    |g.pending| < s.min && !g.eos && var f := Fill(g.pending, frames, s); f.dry && |f.pending| < s.min
  }

  function Stopped(g: Stage, s: Sizes): Stage
    requires Sane(s)
  {
    Fold(g, s).(eos := true)
  }

  function Started(g: Stage): Stage {
    g.(pending := [], eos := false)
  }

  function Next(l: Log, e: Event, s: Sizes): Log
    requires Sane(s)
  {
    match e
    case Turn(round) =>
      var o := Work(l.stage, round, s);
      WorkKeeps(l.stage, round, s);
      Log(o.stage, l.sent + o.sent, l.used + round.frames[..o.used], l.played + Samples(|o.sent|, s),
          l.folds + if Stalls(l.stage, round.frames, s) then 1 else 0)
    case Play => Log(Started(l.stage), [], [], l.played, l.folds)
    case Stop => l.(stage := Stopped(l.stage, s), folds := l.folds + 1)
  }

  function Run(l: Log, es: seq<Event>, s: Sizes): Log
    requires Sane(s)
    decreases |es|
  {
    if es == [] then l else Run(Next(l, es[0], s), es[1..], s)
  }

  /** What was sent, and what is pending, are the bytes accepted since the start, in order. */
  ghost predicate Kept(l: Log, s: Sizes) {
    l.sent + l.stage.pending == Accepted(l.used, s)
  }

  lemma NextKeeps(l: Log, e: Event, s: Sizes)
    requires Sane(s) && Kept(l, s)
    ensures Kept(Next(l, e, s), s)
  {
    if e.Turn? {
      var o, frames := Work(l.stage, e.round, s), e.round.frames;
      WorkKeeps(l.stage, e.round, s);
      AcceptedConcat(l.used, frames[..o.used], s);
      assert (l.sent + o.sent) + o.stage.pending == l.sent + (o.sent + o.stage.pending);
      assert l.sent + (l.stage.pending + Accepted(frames[..o.used], s)) == (l.sent + l.stage.pending) + Accepted(frames[..o.used], s);
    }
  }

  /** Every run: nothing is lost, repeated or reordered between source and transport. */
  lemma {:induction false} RunKeeps(l: Log, es: seq<Event>, s: Sizes)
    requires Sane(s) && Kept(l, s)
    ensures Kept(Run(l, es, s), s)
    decreases |es|
  {
    if es != [] {
      NextKeeps(l, es[0], s);
      RunKeeps(Next(l, es[0], s), es[1..], s);
    }
  }

  lemma {:induction false} AcceptedShort(frames: seq<seq<byte>>, s: Sizes)
    ensures |Accepted(frames, s)| <= |Joined(frames)|
  {
    if frames != [] {
      AcceptedShort(frames[..|frames| - 1], s);
    }
  }

  lemma TakenExact(frame: seq<byte>, max: nat)
    ensures Taken(frame, max) == |frame| <==> |frame| <= max && |frame| < TWO_16
  {
    if |frame| <= max && |frame| >= TWO_16 {
      assert |frame| % TWO_16 < |frame|;
    }
  }

  /** Two parts put together are the same as two others, the first ones no longer than these, exactly when each is. */
  lemma SameParts(a: seq<byte>, b: seq<byte>, x: seq<byte>, y: seq<byte>)
    requires |a| <= |x| && |b| <= |y|
    ensures a + b == x + y <==> a == x && b == y
  {
    if a + b == x + y {
      assert |a + b| == |x + y|;
      assert (a + b)[..|a|] == a && (x + y)[..|x|] == x && (a + b)[|a|..] == b && (x + y)[|x|..] == y;
    }
  }

  lemma TakenWhole(frame: seq<byte>, max: nat)
    ensures frame[..Taken(frame, max)] == frame <==> |frame| <= max && |frame| < TWO_16
  {
    TakenExact(frame, max);
  }

  /** Nothing of the source's frames is lost exactly when each fits the buffer and a sixteen-bit length. */
  lemma {:induction false} AcceptsAllExact(frames: seq<seq<byte>>, s: Sizes)
    ensures Accepted(frames, s) == Joined(frames)
       <==> forall k :: 0 <= k < |frames| ==> |frames[k]| <= s.max && |frames[k]| < TWO_16
    decreases |frames|
  {
    if frames != [] {
      var front, frame := frames[..|frames| - 1], frames[|frames| - 1];
      AcceptsAllExact(front, s);
      AcceptedShort(front, s);
      TakenWhole(frame, s.max);
      SameParts(Accepted(front, s), frame[..Taken(frame, s.max)], Joined(front), frame);
      AllOfFront(frames, s.max);
    }
  }

  lemma AllOfFront(frames: seq<seq<byte>>, max: nat)
    requires frames != []
    ensures var front, frame := frames[..|frames| - 1], frames[|frames| - 1];
            ((forall k :: 0 <= k < |frames| ==> |frames[k]| <= max && |frames[k]| < TWO_16)
             <==> (forall k :: 0 <= k < |front| ==> |front[k]| <= max && |front[k]| < TWO_16) && |frame| <= max && |frame| < TWO_16)
  {
    var front := frames[..|frames| - 1];
    assert forall k :: 0 <= k < |front| ==> front[k] == frames[k];
  }

  // ---------------------------------------------------------------- when nothing moves any more

  /** Enough is pending, but its length is zero in sixteen bits. */
  predicate Halted(g: Stage, s: Sizes) {
    |g.pending| >= s.min && |g.pending| % TWO_16 == 0
  }

  /** A willing transport with enough pending gets nothing exactly in this case. */
  lemma SendsExact(g: Stage, r: Round, s: Sizes)
    requires Sane(s) && r.open && r.capacity > 0 && |g.pending| >= s.min
    ensures Transmit(g, r, s).1 == [] <==> Halted(g, s)
  {
  }

  lemma HaltedTurn(g: Stage, r: Round, s: Sizes)
    requires Sane(s) && Halted(g, s)
    ensures var o := Work(g, r, s); o.sent == [] && o.used == 0 && o.stage.pending == g.pending
  {
  }

  /** Then nothing is fetched and nothing sent any more, whatever source and transport do, until the player is
      started again. */
  lemma {:induction false} HaltedRun(l: Log, es: seq<Event>, s: Sizes)
    requires Sane(s) && Halted(l.stage, s) && forall k :: 0 <= k < |es| ==> !es[k].Play?
    ensures var m := Run(l, es, s);
            m.stage.pending == l.stage.pending && m.sent == l.sent && m.used == l.used && m.played == l.played
    decreases |es|
  {
    if es != [] {
      var m := Next(l, es[0], s);
      if es[0].Turn? {
        HaltedTurn(l.stage, es[0].round, s);
        NothingPlayed(s);
        assert l.used + es[0].round.frames[..0] == l.used;
      }
      assert m.stage.pending == l.stage.pending && m.sent == l.sent && m.used == l.used && m.played == l.played;
      HaltedRun(m, es[1..], s);
    }
  }

  lemma NothingPlayed(s: Sizes)
    requires Sane(s)
    ensures Samples(0, s) == 0
  {
  }

  const HALTING: Sizes := Sizes(1, 0x8000, 0x8001, 4, 44100)

  function Silence(n: nat): seq<byte> {
    seq(n, i => 0)
  }

  /** Two frames of half the limit, with a preferred size just above one: the player halts at once. */
  lemma HaltingRun(capacity: nat)
    ensures Sane(HALTING) && Fits(HALTING.preferred, HALTING.max)
    ensures var frames := [Silence(0x8000), Silence(0x8000)];
            Halted(Run(FRESH, [Turn(Round(frames, true, capacity))], HALTING).stage, HALTING)
  {
    var s, frame := HALTING, Silence(0x8000);
    var one: seq<seq<byte>> := [frame];
    var frames := [frame, frame];
    var r := Round(frames, true, capacity);
    assert frames[1..] == one && one[1..] == [];
    assert frame[..0x8000] == frame && Taken(frame, s.max) == 0x8000;
    assert Fill([] + frame + frame, [], s) == Filled([] + frame + frame, 0, false);
    assert Fill([] + frame, one, s) == Filled([] + frame + frame, 1, false);
    assert Fill([], frames, s) == Filled([] + frame + frame, 2, false);
    assert Halted(Refill(FRESH.stage, frames, s).0, s);
    assert Transmit(Refill(FRESH.stage, frames, s).0, r, s).0.pending == [] + frame + frame;
    var turns: seq<Event> := [Turn(r)];
    assert turns[1..] == [];
  }

  // ---------------------------------------------------------------- what exactly one turn does

  /** Fetching stops as soon as the preferred amount is there, or at a frame from which nothing is taken, or at
      the end of the frames; every frame fetched before then gave something. */
  lemma {:induction false} FillExact(pending: seq<byte>, frames: seq<seq<byte>>, s: Sizes)
    ensures var r := Fill(pending, frames, s);
            && (r.dry <==> |r.pending| < s.preferred)
            && (!r.dry && r.used > 0 ==> |pending + Accepted(frames[..r.used - 1], s)| < s.preferred)
            && (r.dry ==> r.used == |frames| || (r.used > 0 && Taken(frames[r.used - 1], s.max) == 0))
            && (forall k :: 0 <= k < r.used - 1 ==> Taken(frames[k], s.max) > 0)
            && (|pending| < s.preferred && frames != [] ==> r.used > 0)
    decreases |frames|
  {
    if |pending| < s.preferred && frames != [] {
      var n := Taken(frames[0], s.max);
      if n > 0 {
        var more := pending + frames[0][..n];
        FillExact(more, frames[1..], s);
        var r := Fill(more, frames[1..], s);
        forall k | 0 <= k < r.used
          ensures Taken(frames[k], s.max) > 0
        {
          assert k > 0 ==> frames[k] == frames[1..][k - 1];
        }
        if !r.dry {
          if r.used > 0 {
            AcceptedFirst(frames[..r.used], s);
            assert frames[..r.used][1..] == frames[1..][..r.used - 1];
            assert pending + (frames[0][..n] + Accepted(frames[1..][..r.used - 1], s)) == more + Accepted(frames[1..][..r.used - 1], s);
          } else {
            assert frames[..0] == [] && pending + [] == pending;
          }
        }
      }
    }
  }

  /** A turn fetches exactly when less than the minimum is pending and the end was not signalled, and then as
      above; otherwise it fetches nothing. */
  lemma FetchesExact(g: Stage, r: Round, s: Sizes)
    requires Sane(s)
    ensures var o := Work(g, r, s);
            if |g.pending| < s.min && !g.eos then
              var f := Fill(g.pending, r.frames, s); o.used == f.used && o.sent + o.stage.pending == f.pending
            else o.used == 0 && o.sent + o.stage.pending == g.pending
  {
    RefillKeeps(g, r.frames, s);
    TransmitKeeps(Refill(g, r.frames, s).0, r, s);
  }

  /** What goes out: the front of what is pending, as much as the transport is ready to take of the offered
      sixteen-bit length; nothing through a closed transport, or below the minimum. */
  lemma SendsPrefix(g: Stage, r: Round, s: Sizes)
    requires Sane(s)
    ensures var (t, sent) := Transmit(g, r, s);
            && sent <= g.pending
            && |sent| == (if !r.open || |g.pending| < s.min then 0
                          else if r.capacity < |g.pending| % 0x1_0000 then r.capacity else |g.pending| % 0x1_0000)
            && t.eos == (g.eos || !r.open)
  {
  }

  /** The thread blocks exactly when nothing went out and the end was signalled, before or by a closed transport. */
  lemma BlocksExact(g: Stage, r: Round, s: Sizes)
    requires Sane(s)
    ensures var o := Work(g, r, s); o.blocked <==> o.sent == [] && (g.eos || !r.open)
  {
  }

  /** Samples are whole groups of bytes of all channels. */
  lemma SamplesExact(bytes: nat, s: Sizes)
    requires Sane(s)
    ensures Samples(bytes, s) * s.sample <= bytes < (Samples(bytes, s) + 1) * s.sample
  {
  }

  /** The play time is in milliseconds: a thousand for every second's worth of samples. */
  lemma PlayTimeExact(seconds: nat, s: Sizes)
    requires Sane(s) && 1000 * seconds < TWO_32
    ensures PlayTime(seconds * s.rate, s) == 1000 * seconds
  {
    assert 1000 * (seconds * s.rate) == 1000 * seconds * s.rate;
    Divides(1000 * seconds, s.rate);
  }

  lemma Divides(n: nat, d: nat)
    requires d > 0
    ensures n * d / d == n
  {
    var q := n * d / d;
    assert q * d <= n * d < (q + 1) * d;
    if q < n {
      TimesMore(q + 1, n, d);
    } else if q > n {
      TimesMore(n + 1, q, d);
    }
  }

  lemma TimesMore(a: nat, b: nat, d: nat)
    requires a <= b
    ensures a * d <= b * d
  {
  }

  // ---------------------------------------------------------------- stopping and starting again

  /** After a stop no frame is fetched any more until the player is started again. */
  lemma {:induction false} StoppedFetchesNothing(l: Log, es: seq<Event>, s: Sizes)
    requires Sane(s) && l.stage.eos && forall k :: 0 <= k < |es| ==> !es[k].Play?
    ensures var m := Run(l, es, s); m.stage.eos && m.used == l.used
    decreases |es|
  {
    if es != [] {
      if es[0].Turn? {
        assert l.used + es[0].round.frames[..0] == l.used;
      }
      StoppedFetchesNothing(Next(l, es[0], s), es[1..], s);
    }
  }

  /** Started again, it is empty and fetches at once. */
  lemma RestartFetches(l: Log, r: Round, s: Sizes)
    requires Sane(s) && r.frames != []
    ensures var started := Next(l, Play, s);
            && started.stage.pending == [] && !started.stage.eos
            && Work(started.stage, r, s).used > 0
            && (r.open ==> !Work(started.stage, r, s).blocked)
  {
    FillExact([], r.frames, s);
  }

  /** A stop folds the play time, signals the end, and leaves what is pending. */
  lemma StopExact(l: Log, s: Sizes)
    requires Sane(s)
    ensures var m := Next(l, Stop, s);
            m.stage.eos && m.stage.timestamp == 0 && m.stage.pending == l.stage.pending && m.folds == l.folds + 1
  {
  }

  /** The odometer goes back to zero in a turn exactly when the source stalls: less than the minimum is there even
      with all it has. */
  lemma StallsExact(g: Stage, r: Round, s: Sizes)
    requires Sane(s)
    ensures var o := Work(g, r, s);
            && (Stalls(g, r.frames, s) <==> |g.pending| < s.min && !g.eos && |g.pending + Accepted(r.frames[..o.used], s)| < s.min)
            && (Stalls(g, r.frames, s) ==> o.sent == [] && o.stage.timestamp == 0)
  {
    FillExact(g.pending, r.frames, s);
    FillAccepts(g.pending, r.frames, s);
  }
}
