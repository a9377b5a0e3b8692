// The playback clock: play time is folded into an offset in whole milliseconds, so every fold may lose
// part of one, but never shows.
module PlayerClock {
  import opened Bytes
  import opened PlayerRuns

  /** What the player reports, in milliseconds. */
  function Time(g: Stage, s: Sizes): nat
    requires Sane(s)
  {
    (g.offset + 1000 * g.timestamp / s.rate) % TWO_32
  }

  lemma Unwrapped(x: int, k: int)
    ensures (x + k * 0x1_0000_0000) % 0x1_0000_0000 == x % 0x1_0000_0000
  {
  }

  lemma WrappedSum(a: nat, b: nat)
    ensures (a + b % 0x1_0000_0000) % 0x1_0000_0000 == (a + b) % 0x1_0000_0000
  {
    Unwrapped(a + b % 0x1_0000_0000, b / 0x1_0000_0000);
  }

  /** Folding never changes the time reported, whatever the counters hold. */
  lemma FoldKeepsTime(g: Stage, s: Sizes)
    requires Sane(s)
    ensures Time(Fold(g, s), s) == Time(g, s)
  {
    WrappedSum(g.offset, 1000 * g.timestamp / s.rate);
    assert 1000 * 0 / s.rate == 0;
  }

  /** What the counters can hold without wrapping. */
  predicate InRange(played: nat, s: Sizes) {
    played < TWO_32 && 1000 * played < s.rate * TWO_32
  }

  /** The offset stands for the samples folded so far, rounded down once per fold. */
  predicate Ticks(l: Log, s: Sizes) {
    && l.stage.timestamp <= l.played
    && var folded := 1000 * (l.played - l.stage.timestamp);
       s.rate * l.stage.offset <= folded <= s.rate * l.stage.offset + l.folds * (s.rate - 1)
  }

  lemma Floor(a: nat, c: nat)
    requires c > 0
    ensures c * (a / c) <= a <= c * (a / c) + (c - 1)
  {
  }

  lemma Cancel(c: nat, a: nat, b: nat)
    requires c * a < c * b
    ensures a < b
  {
    if b <= a {
      CancelAtMost(c, a, b);
    }
  }

  lemma CancelAtMost(c: nat, a: nat, b: nat)
    requires b <= a
    ensures c * b <= c * a
  {
  }

  /** Bounds add up over a fold. */
  lemma FoldBound(c: nat, offset: nat, folded: nat, folds: nat, q: nat, t: nat)
    requires c > 0 && c * offset <= folded <= c * offset + folds * (c - 1) && c * q <= t <= c * q + (c - 1)
    ensures c * (offset + q) <= folded + t <= c * (offset + q) + (folds + 1) * (c - 1)
  {
    assert c * (offset + q) == c * offset + c * q;
    assert (folds + 1) * (c - 1) == folds * (c - 1) + (c - 1);
  }

  lemma Small(x: nat)
    requires x < 0x1_0000_0000
    ensures x % 0x1_0000_0000 == x
  {
  }

  lemma FoldOffset(g: Stage, s: Sizes)
    requires Sane(s) && g.offset + 1000 * g.timestamp / s.rate < TWO_32
    ensures Fold(g, s).offset == g.offset + 1000 * g.timestamp / s.rate && Fold(g, s).timestamp == 0
  {
    Small(1000 * g.timestamp / s.rate);
    Small(g.offset + 1000 * g.timestamp / s.rate);
  }

  /** A fold rounds once. */
  lemma FoldTicks(l: Log, s: Sizes)
    requires Sane(s) && InRange(l.played, s) && Ticks(l, s)
    ensures Fold(l.stage, s).offset == l.stage.offset + 1000 * l.stage.timestamp / s.rate
    ensures Ticks(l.(stage := Fold(l.stage, s), folds := l.folds + 1), s)
  {
    var g := l.stage;
    var q := 1000 * g.timestamp / s.rate;
    var folded := 1000 * (l.played - g.timestamp);
    Floor(1000 * g.timestamp, s.rate);
    FoldBound(s.rate, g.offset, folded, l.folds, q, 1000 * g.timestamp);
    assert folded + 1000 * g.timestamp == 1000 * l.played;
    Cancel(s.rate, g.offset + q, TWO_32);
    FoldOffset(g, s);
  }

  /** Playing moves the transport's clock only. */
  lemma PlayTicks(l: Log, n: nat, s: Sizes)
    requires Sane(s) && InRange(l.played + n, s) && Ticks(l, s)
    ensures var g := l.stage.(timestamp := (l.stage.timestamp + n) % TWO_32);
            g.timestamp == l.stage.timestamp + n && Ticks(l.(stage := g, played := l.played + n), s)
  {
  }

  /** The reported time and the true one: never ahead, and less than one millisecond behind for every fold
      and one for itself. */
  lemma TicksTime(l: Log, s: Sizes)
    requires Sane(s) && InRange(l.played, s) && Ticks(l, s)
    ensures Time(l.stage, s) == l.stage.offset + 1000 * l.stage.timestamp / s.rate
    ensures s.rate * Time(l.stage, s) <= 1000 * l.played < s.rate * (Time(l.stage, s) + l.folds + 1)
  {
    FoldTicks(l, s);
    var t := l.stage.offset + 1000 * l.stage.timestamp / s.rate;
    Behind(s.rate, t, 1000 * l.played, l.folds);
    Cancel(s.rate, t, TWO_32);
  }

  lemma Behind(c: nat, t: nat, n: nat, folds: nat)
    requires c > 0 && n <= c * t + (folds + 1) * (c - 1)
    ensures n < c * (t + folds + 1)
  {
    assert (folds + 1) * (c - 1) == c * (folds + 1) - (folds + 1);
    assert c * (t + folds + 1) == c * t + c * (folds + 1);
  }

  // ---------------------------------------------------------------- runs

  lemma RefillParts(g: Stage, frames: seq<seq<byte>>, s: Sizes)
    requires Sane(s)
    ensures var (h, _) := Refill(g, frames, s);
            var f := if Stalls(g, frames, s) then Fold(g, s) else g;
            h.offset == f.offset && h.timestamp == f.timestamp
  {
  }

  lemma TransmitParts(g: Stage, r: Round, s: Sizes)
    requires Sane(s) && g.timestamp < TWO_32
    ensures var (t, sent) := Transmit(g, r, s);
            t.offset == g.offset && t.timestamp == (g.timestamp + Samples(|sent|, s)) % TWO_32
  {
    assert 0 / s.sample == 0;
  }

  /** The log after an event that folds or not and plays n samples. */
  predicate Moves(l: Log, m: Log, fold: bool, n: nat, s: Sizes)
    requires Sane(s)
  {
    var h := if fold then Fold(l.stage, s) else l.stage;
    && m.stage.offset == h.offset && m.stage.timestamp == (h.timestamp + n) % TWO_32
    && m.played == l.played + n && m.folds == l.folds + if fold then 1 else 0
  }

  lemma TurnMoves(l: Log, r: Round, s: Sizes)
    requires Sane(s) && l.stage.timestamp < TWO_32
    ensures Moves(l, Next(l, Turn(r), s), Stalls(l.stage, r.frames, s), Samples(|Work(l.stage, r, s).sent|, s), s)
  {
    RefillParts(l.stage, r.frames, s);
    TransmitParts(Refill(l.stage, r.frames, s).0, r, s);
  }

  lemma StopMoves(l: Log, s: Sizes)
    requires Sane(s)
    ensures Moves(l, Next(l, Stop, s), true, 0, s)
  {
  }

  lemma PlayMoves(l: Log, s: Sizes)
    requires Sane(s) && l.stage.timestamp < TWO_32
    ensures Moves(l, Next(l, Play, s), false, 0, s)
  {
  }

  /** Whatever moves the clock keeps it true, and never turns it back. */
  lemma MovesTick(l: Log, m: Log, fold: bool, n: nat, s: Sizes)
    requires Sane(s) && Ticks(l, s) && Moves(l, m, fold, n, s) && InRange(m.played, s)
    ensures Ticks(m, s) && Time(l.stage, s) <= Time(m.stage, s)
  {
    var h := if fold then l.(stage := Fold(l.stage, s), folds := l.folds + 1) else l;
    assert InRange(l.played, s);
    if fold {
      FoldTicks(l, s);
      FoldKeepsTime(l.stage, s);
    }
    PlayTicks(h, n, s);
    TicksTime(h, s);
    TicksTime(m, s);
    Later(1000 * h.stage.timestamp, 1000 * m.stage.timestamp, s.rate);
  }

  lemma Later(a: nat, b: nat, c: nat)
    requires a <= b && c > 0
    ensures a / c <= b / c
  {
    if b / c < a / c {
      CancelAtMost(c, a / c, b / c + 1);
    }
  }

  lemma NextMoves(l: Log, e: Event, s: Sizes) returns (fold: bool, n: nat)
    requires Sane(s) && l.stage.timestamp < TWO_32
    ensures Moves(l, Next(l, e, s), fold, n, s)
  {
    match e
    case Turn(round) =>
      TurnMoves(l, round, s);
      fold, n := Stalls(l.stage, round.frames, s), Samples(|Work(l.stage, round, s).sent|, s);
    case Stop =>
      StopMoves(l, s);
      fold, n := true, 0;
    case Play =>
      PlayMoves(l, s);
      fold, n := false, 0;
  }

  lemma PlayedStep(l: Log, e: Event, s: Sizes)
    requires Sane(s)
    ensures l.played <= Next(l, e, s).played
  {
  }

  lemma NextTicks(l: Log, e: Event, s: Sizes)
    requires Sane(s) && Ticks(l, s) && InRange(Next(l, e, s).played, s)
    ensures Ticks(Next(l, e, s), s) && Time(l.stage, s) <= Time(Next(l, e, s).stage, s)
  {
    PlayedStep(l, e, s);
    var fold, n := NextMoves(l, e, s);
    MovesTick(l, Next(l, e, s), fold, n, s);
  }

  lemma {:induction false} PlayedGrows(l: Log, es: seq<Event>, s: Sizes)
    requires Sane(s)
    ensures l.played <= Run(l, es, s).played
    decreases |es|
  {
    if es != [] {
      PlayedStep(l, es[0], s);
      PlayedGrows(Next(l, es[0], s), es[1..], s);
    }
  }

  /** Every run: the reported time never goes back, is never ahead of the samples played, and lags them
      by less than a millisecond for every fold and one more. */
  lemma {:induction false} RunTime(l: Log, es: seq<Event>, s: Sizes)
    requires Sane(s) && Ticks(l, s) && InRange(Run(l, es, s).played, s)
    ensures var m := Run(l, es, s);
            && Ticks(m, s) && Time(l.stage, s) <= Time(m.stage, s)
            && s.rate * Time(m.stage, s) <= 1000 * m.played < s.rate * (Time(m.stage, s) + m.folds + 1)
    decreases |es|
  {
    if es == [] {
      TicksTime(l, s);
    } else {
      PlayedGrows(Next(l, es[0], s), es[1..], s);
      NextTicks(l, es[0], s);
      RunTime(Next(l, es[0], s), es[1..], s);
    }
  }

  /** A new player, whatever happens to it. */
  lemma PlayerTime(es: seq<Event>, s: Sizes)
    requires Sane(s) && InRange(Run(FRESH, es, s).played, s)
    ensures var m := Run(FRESH, es, s);
            s.rate * Time(m.stage, s) <= 1000 * m.played < s.rate * (Time(m.stage, s) + m.folds + 1)
  {
    RunTime(FRESH, es, s);
  }
}
