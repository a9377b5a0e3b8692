// The voice stream as a state machine over whole transmissions: what start, data and end events do,
// and what becomes of every byte received.
module VoiceRuns {
  import opened Bytes

  /** Chunk sizes in bytes; zero disables the first-chunk or the general buffering. */
  datatype Config = Config(firstChunk: nat, chunk: nat)

  /** What the audio handler is told. */
  datatype Event = Started | Chunk(number: nat, bytes: seq<byte>) | Stopped

  datatype State = State(active: bool, sequence: nat, ring: seq<byte>, log: seq<Event>)

  datatype Operation = Start | Data(number: nat, bytes: seq<byte>) | End

  const INITIAL: State := State(false, 0, [], [])

  // ---------------------------------------------------------------- single steps

  function ChunkSize(c: Config, sequence: nat): nat {
    if c.firstChunk != 0 && sequence == 0 then c.firstChunk else c.chunk
  }

  /** Sends the oldest bytes of the ring as one numbered chunk. */
  function SendOut(s: State, length: nat): State {
    var read := Min(length, |s.ring|);
    if read == 0 then s
    else s.(ring := s.ring[read..], log := s.log + [Chunk(s.sequence, s.ring[..read])], sequence := (s.sequence + 1) % TWO_16)
  }

  /** Sends full chunks until less than one chunk is left. */
  function Drain(s: State, size: nat): State
    requires size > 0
    decreases |s.ring|
  {
    if |s.ring| < size then s else Drain(SendOut(s, size), size)
  }

  function DataStep(c: Config, s: State, number: nat, bytes: seq<byte>): State {
    var size := ChunkSize(c, s.sequence);
    if !s.active then s
    else if size != 0 then Drain(s.(ring := s.ring + bytes), size)
    else if bytes != [] then s.(log := s.log + [Chunk(number, bytes)])
    else s
  }

  function EndStep(s: State): State {
    if !s.active then s
    else
      var sent := if s.sequence != 0 then SendOut(s, |s.ring|) else s;
      State(false, sent.sequence, [], sent.log + [Stopped])
  }

  function StartStep(s: State): State {
    var ended := EndStep(s);
    State(true, 0, ended.ring, ended.log + [Started])
  }

  function Step(c: Config, s: State, op: Operation): State {
    match op
    case Start => StartStep(s)
    case Data(number, bytes) => DataStep(c, s, number, bytes)
    case End => EndStep(s)
  }

  function Run(c: Config, ops: seq<Operation>): State {
    if ops == [] then INITIAL
    else Step(c, Run(c, ops[..|ops| - 1]), ops[|ops| - 1])
  }

  // ---------------------------------------------------------------- what goes in and what comes out

  /** Whether a transmission is going on, and the bytes received since the last one began. */
  function Heard(ops: seq<Operation>): (bool, seq<byte>) {
    if ops == [] then (false, [])
    else
      var (active, bytes) := Heard(ops[..|ops| - 1]);
      match ops[|ops| - 1]
      case Start => (true, [])
      case Data(_, more) => (active, if active then bytes + more else bytes)
      case End => (false, bytes)
  }

  /** The chunks delivered since the last transmission began. */
  function Chunks(log: seq<Event>): seq<Event> {
    if log == [] then []
    else
      match log[|log| - 1]
      case Started => []
      case Chunk(_, _) => Chunks(log[..|log| - 1]) + [log[|log| - 1]]
      case Stopped => Chunks(log[..|log| - 1])
  }

  function Payload(chunks: seq<Event>): seq<byte> {
    if chunks == [] then []
    else Payload(chunks[..|chunks| - 1]) + (if chunks[|chunks| - 1].Chunk? then chunks[|chunks| - 1].bytes else [])
  }

  /** All bytes delivered since the last transmission began. */
  function Sent(log: seq<Event>): seq<byte> {
    Payload(Chunks(log))
  }

  lemma ChunksSnoc(log: seq<Event>, e: Event)
    ensures Chunks(log + [e]) == if e.Started? then [] else if e.Chunk? then Chunks(log) + [e] else Chunks(log)
    ensures Sent(log + [e]) == if e.Started? then [] else if e.Chunk? then Sent(log) + e.bytes else Sent(log)
  {
    assert (log + [e])[..|log|] == log;
    assert (Chunks(log) + [e])[..|Chunks(log)|] == Chunks(log);
  }

  lemma RunSnoc(c: Config, ops: seq<Operation>, op: Operation)
    ensures Run(c, ops + [op]) == Step(c, Run(c, ops), op)
    ensures var (active, bytes) := Heard(ops);
            Heard(ops + [op]) == match op
                                 case Start => (true, [])
                                 case Data(_, more) => (active, if active then bytes + more else bytes)
                                 case End => (false, bytes)
  {
    assert (ops + [op])[..|ops|] == ops;
  }

  // ---------------------------------------------------------------- conservation

  /** At most what does not fill a chunk waits in the ring between events. */
  predicate Bounded(c: Config, s: State) {
    s.ring == [] || |s.ring| < Max(c.firstChunk, c.chunk)
  }

  /** No byte lost, none invented, none out of order; nothing waits outside a transmission. */
  ghost predicate Conserves(c: Config, ops: seq<Operation>) {
    var s := Run(c, ops);
    var (active, bytes) := Heard(ops);
    && s.active == active
    && (if active then Sent(s.log) + s.ring == bytes else s.ring == [])
  }

  lemma SendOutKeeps(s: State, length: nat)
    ensures var t := SendOut(s, length);
            t.active == s.active && Sent(t.log) + t.ring == Sent(s.log) + s.ring
  {
    var read := Min(length, |s.ring|);
    if read != 0 {
      ChunksSnoc(s.log, Chunk(s.sequence, s.ring[..read]));
      TakeKeeps(Sent(s.log), s.ring, read);
    }
  }

  lemma TakeKeeps(sent: seq<byte>, ring: seq<byte>, read: nat)
    requires read <= |ring|
    ensures sent + ring[..read] + ring[read..] == sent + ring
  {
  }

  lemma {:induction false} DrainKeeps(s: State, size: nat)
    requires size > 0
    ensures var t := Drain(s, size);
            t.active == s.active && Sent(t.log) + t.ring == Sent(s.log) + s.ring && |t.ring| < size
    decreases |s.ring|
  {
    if |s.ring| >= size {
      SendOutKeeps(s, size);
      DrainKeeps(SendOut(s, size), size);
    }
  }

  lemma StepBounded(c: Config, s: State, op: Operation)
    requires Bounded(c, s)
    ensures Bounded(c, Step(c, s, op))
  {
    if op.Data? && s.active && ChunkSize(c, s.sequence) != 0 {
      DrainKeeps(s.(ring := s.ring + op.bytes), ChunkSize(c, s.sequence));
    }
  }

  lemma {:induction false} RunBounded(c: Config, ops: seq<Operation>)
    ensures Bounded(c, Run(c, ops))
    decreases |ops|
  {
    if ops != [] {
      RunBounded(c, ops[..|ops| - 1]);
      StepBounded(c, Run(c, ops[..|ops| - 1]), ops[|ops| - 1]);
    }
  }

  /** With general buffering on, or no first chunk larger than one byte, every run conserves its bytes. */
  lemma {:induction false} RunConserves(c: Config, ops: seq<Operation>)
    requires c.chunk > 0 || c.firstChunk <= 1
    ensures Conserves(c, ops)
    decreases |ops|
  {
    if ops != [] {
      var front, op := ops[..|ops| - 1], ops[|ops| - 1];
      assert ops == front + [op];
      RunConserves(c, front);
      RunBounded(c, front);
      RunSnoc(c, front, op);
      StepConserves(c, Run(c, front), op, Heard(front).1);
    }
  }

  lemma DataConserves(c: Config, s: State, number: nat, more: seq<byte>, bytes: seq<byte>)
    requires c.chunk > 0 || c.firstChunk <= 1
    requires Bounded(c, s) && s.active && Sent(s.log) + s.ring == bytes
    ensures var t := DataStep(c, s, number, more); t.active && Sent(t.log) + t.ring == bytes + more
  {
    var size := ChunkSize(c, s.sequence);
    if size != 0 {
      DrainKeeps(s.(ring := s.ring + more), size);
      assert Sent(s.log) + (s.ring + more) == bytes + more;
    } else {
      ChunksSnoc(s.log, Chunk(number, more));
      assert s.ring == [];
      assert Sent(s.log) + more + [] == bytes + more;
    }
  }

  lemma StepConserves(c: Config, s: State, op: Operation, bytes: seq<byte>)
    requires c.chunk > 0 || c.firstChunk <= 1
    requires Bounded(c, s) && if s.active then Sent(s.log) + s.ring == bytes else s.ring == []
    ensures var t := Step(c, s, op);
            match op
            case Start => t.active && Sent(t.log) + t.ring == []
            case Data(_, more) => t.active == s.active && (if s.active then Sent(t.log) + t.ring == bytes + more else t.ring == [])
            case End => !t.active && t.ring == []
  {
    match op
    case Start =>
      ChunksSnoc(EndStep(s).log, Started);
    case Data(number, more) =>
      if s.active {
        DataConserves(c, s, number, more, bytes);
      }
    case End =>
  }

  // ---------------------------------------------------------------- when it does not conserve

  function Zeros(n: nat): seq<byte> {
    seq(n, i => 0)
  }

  /** A transmission that starts with single bytes. */
  function Singles(n: nat): seq<Operation> {
    [Start] + seq(n, i => Data(0, [0]))
  }

  lemma {:induction false} SinglesWait(c: Config, n: nat)
    requires n < ChunkSize(c, 0)
    ensures Run(c, Singles(n)) == State(true, 0, Zeros(n), [Started])
    ensures Heard(Singles(n)) == (true, Zeros(n))
  {
    if n == 0 {
      assert Singles(0) == [] + [Start];
      RunSnoc(c, [], Start);
    } else {
      SinglesWait(c, n - 1);
      assert Singles(n) == Singles(n - 1) + [Data(0, [0])];
      RunSnoc(c, Singles(n - 1), Data(0, [0]));
      assert Zeros(n - 1) + [0] == Zeros(n);
    }
  }

  /** A packet that overfills the first chunk by one byte, and another packet. */
  function Overfilled(c: Config): seq<Operation>
    requires c.firstChunk >= 2
  {
    Singles(c.firstChunk - 1) + [Data(0, [0, 0])] + [Data(1, [1])]
  }

  /** The packet that overfills the first chunk leaves one byte behind. */
  lemma FirstOverfilled(c: Config)
    requires c.firstChunk >= 2
    ensures var n := c.firstChunk;
            Run(c, Singles(n - 1) + [Data(0, [0, 0])]) == State(true, 1, [0], [Started] + [Chunk(0, Zeros(n))])
  {
    var n := c.firstChunk;
    SinglesWait(c, n - 1);
    RunSnoc(c, Singles(n - 1), Data(0, [0, 0]));
    var full := State(true, 0, Zeros(n - 1) + [0, 0], [Started]);
    assert full.ring == Zeros(n) + [0];
    assert full.ring[..n] == Zeros(n) && full.ring[n..] == [0];
    assert Drain(full, n) == SendOut(full, n);
  }

  lemma OverfilledHeard(c: Config)
    requires c.firstChunk >= 2
    ensures Heard(Overfilled(c)) == (true, Zeros(c.firstChunk - 1) + [0, 0] + [1])
  {
    var n := c.firstChunk;
    SinglesWait(c, n - 1);
    RunSnoc(c, Singles(n - 1), Data(0, [0, 0]));
    RunSnoc(c, Singles(n - 1) + [Data(0, [0, 0])], Data(1, [1]));
  }

  lemma TwoChunks(a: seq<byte>, b: seq<byte>)
    ensures var log := [Started] + [Chunk(0, a)] + [Chunk(1, b)]; Sent(log) == a + b && Chunks(log) != []
  {
    assert [Started] == [] + [Started];
    ChunksSnoc([], Started);
    ChunksSnoc([Started], Chunk(0, a));
    ChunksSnoc([Started] + [Chunk(0, a)], Chunk(1, b));
    assert [] + a == a;
  }

  lemma OverfilledStep(c: Config, log: seq<Event>)
    requires c.chunk == 0 && c.firstChunk >= 2
    ensures Step(c, State(true, 1, [0], log), Data(1, [1])) == State(true, 1, [0], log + [Chunk(1, [1])])
  {
  }

  lemma OverfilledState(c: Config)
    requires c.chunk == 0 && c.firstChunk >= 2
    ensures var s := Run(c, Overfilled(c));
            s.active && s.sequence == 1 && s.ring == [0] && Sent(s.log) == Zeros(c.firstChunk) + [1] && Chunks(s.log) != []
  {
    FirstOverfilled(c);
    RunSnoc(c, Singles(c.firstChunk - 1) + [Data(0, [0, 0])], Data(1, [1]));
    OverfilledStep(c, [Started] + [Chunk(0, Zeros(c.firstChunk))]);
    TwoChunks(Zeros(c.firstChunk), [1]);
  }

  /** Without general buffering, a byte left over from the first chunk is overtaken by the next packet. */
  lemma Overtaking(c: Config)
    requires c.chunk == 0 && c.firstChunk >= 2
    ensures !Conserves(c, Overfilled(c))
  {
    OverfilledState(c);
    OverfilledHeard(c);
    var s, n := Run(c, Overfilled(c)), c.firstChunk;
    assert (Sent(s.log) + s.ring)[n] == 1;
    assert (Zeros(n - 1) + [0, 0] + [1])[n] == 0;
  }

  /** Exactly which chunk sizes make every run conserve its bytes. */
  lemma ConservingConfigs(c: Config)
    ensures (forall ops: seq<Operation> :: Conserves(c, ops)) <==> c.chunk > 0 || c.firstChunk <= 1
  {
    if c.chunk > 0 || c.firstChunk <= 1 {
      forall ops: seq<Operation>
        ensures Conserves(c, ops)
      {
        RunConserves(c, ops);
      }
    } else {
      Overtaking(c);
    }
  }

  // ---------------------------------------------------------------- numbering and the end of a transmission

  /** The k-th chunk of a transmission carries number k, in sixteen bits. */
  ghost predicate Numbered(s: State) {
    && (forall k :: 0 <= k < |Chunks(s.log)| ==> Chunks(s.log)[k].Chunk? && Chunks(s.log)[k].number == k % TWO_16)
    && (s.active ==> s.sequence == |Chunks(s.log)| % TWO_16)
  }

  lemma SendOutNumbered(s: State, length: nat)
    requires Numbered(s) && s.active
    ensures Numbered(SendOut(s, length)) && SendOut(s, length).active
  {
    ChunksSnoc(s.log, Chunk(s.sequence, s.ring[..Min(length, |s.ring|)]));
    ModSucc(|Chunks(s.log)|);
  }

  lemma ModSucc(n: nat)
    ensures (n % TWO_16 + 1) % TWO_16 == (n + 1) % TWO_16
  {
  }

  lemma {:induction false} DrainNumbered(s: State, size: nat)
    requires size > 0 && Numbered(s) && s.active
    ensures Numbered(Drain(s, size))
    decreases |s.ring|
  {
    if |s.ring| >= size {
      SendOutNumbered(s, size);
      DrainNumbered(SendOut(s, size), size);
    }
  }

  lemma StepNumbered(c: Config, s: State, op: Operation)
    requires c.chunk > 0 && Numbered(s)
    ensures Numbered(Step(c, s, op))
  {
    match op
    case Start =>
      ChunksSnoc(EndStep(s).log, Started);
    case Data(number, bytes) =>
      if s.active {
        DrainNumbered(s.(ring := s.ring + bytes), ChunkSize(c, s.sequence));
      }
    case End =>
      if s.active {
        SendOutNumbered(s, |s.ring|);
        var sent := if s.sequence != 0 then SendOut(s, |s.ring|) else s;
        ChunksSnoc(sent.log, Stopped);
      }
  }

  /** In every run with buffering, chunks are numbered 0, 1, 2, ... from the start of the transmission. */
  lemma {:induction false} RunNumbered(c: Config, ops: seq<Operation>)
    requires c.chunk > 0
    ensures Numbered(Run(c, ops))
    decreases |ops|
  {
    if ops != [] {
      RunNumbered(c, ops[..|ops| - 1]);
      StepNumbered(c, Run(c, ops[..|ops| - 1]), ops[|ops| - 1]);
    }
  }

  /** In a run without chunk sizes every packet is passed on as it came, with the number it came with. */
  lemma {:induction false} RunPassesOn(c: Config, ops: seq<Operation>)
    requires c == Config(0, 0)
    ensures Chunks(Run(c, ops).log) == Packets(ops) && Run(c, ops).ring == [] && Run(c, ops).active == Heard(ops).0
    decreases |ops|
  {
    if ops != [] {
      var front, op := ops[..|ops| - 1], ops[|ops| - 1];
      RunPassesOn(c, front);
      var s := Run(c, front);
      match op
      case Start =>
        ChunksSnoc(s.log, Stopped);
        ChunksSnoc(EndStep(s).log, Started);
      case Data(number, bytes) =>
        ChunksSnoc(s.log, Chunk(number, bytes));
      case End =>
        ChunksSnoc(s.log, Stopped);
    }
  }

  /** The packets with any bytes since the last transmission began, as chunks. */
  function Packets(ops: seq<Operation>): seq<Event> {
    if ops == [] then []
    else
      var front := Packets(ops[..|ops| - 1]);
      match ops[|ops| - 1]
      case Start => []
      case Data(number, bytes) => if Heard(ops[..|ops| - 1]).0 && bytes != [] then front + [Chunk(number, bytes)] else front
      case End => front
  }

  /** What an end does to the bytes sent and waiting. */
  lemma EndSends(s: State)
    requires s.active
    ensures Sent(EndStep(s).log) == Sent(s.log) + if s.sequence != 0 then s.ring else []
    ensures s.sequence == 0 || s.ring == [] ==> Chunks(EndStep(s).log) == Chunks(s.log)
  {
    SendOutKeeps(s, |s.ring|);
    var sent := if s.sequence != 0 then SendOut(s, |s.ring|) else s;
    ChunksSnoc(sent.log, Stopped);
  }

  /** What waits at the end goes out exactly if the number of chunks is no multiple of 65536. */
  lemma EndCounts(c: Config, ops: seq<Operation>)
    requires c.chunk > 0 || c.firstChunk <= 1
    requires Run(c, ops).active && Run(c, ops).ring != []
    ensures Run(c, ops).sequence == |Chunks(Run(c, ops).log)| % TWO_16
  {
    if c.chunk > 0 {
      RunNumbered(c, ops);
    } else {
      RunBounded(c, ops);
    }
  }

  /** At the end of a transmission everything received was sent, in order, if and only if nothing was
      waiting or the number of chunks sent is not a multiple of 65536; otherwise what waited is dropped. */
  lemma EndDelivers(c: Config, ops: seq<Operation>)
    requires c.chunk > 0 || c.firstChunk <= 1
    requires Run(c, ops).active
    ensures var s, t := Run(c, ops), Run(c, ops + [End]);
            && (Sent(t.log) == Heard(ops).1 <==> s.ring == [] || |Chunks(s.log)| % TWO_16 != 0)
            && (Sent(t.log) != Heard(ops).1 ==> Sent(t.log) == Sent(s.log) && Chunks(t.log) == Chunks(s.log))
  {
    var s := Run(c, ops);
    RunConserves(c, ops);
    RunSnoc(c, ops, End);
    EndSends(s);
    if s.ring == [] {
      assert Sent(s.log) + [] == Sent(s.log);
    } else {
      EndCounts(c, ops);
      assert |Sent(s.log) + s.ring| != |Sent(s.log) + []|;
    }
  }

  /** Did the transmission deliver everything, or nothing at all? */
  ghost predicate AllOrNothing(c: Config, ops: seq<Operation>) {
    var t := Run(c, ops + [End]);
    Sent(t.log) == Heard(ops).1 || Chunks(t.log) == []
  }

  /** In transmissions of fewer than 65536 chunks: all or nothing. */
  lemma ShortAllOrNothing(c: Config, ops: seq<Operation>)
    requires c.chunk > 0 || c.firstChunk <= 1
    requires Run(c, ops).active && |Chunks(Run(c, ops).log)| < TWO_16
    ensures AllOrNothing(c, ops)
  {
    EndDelivers(c, ops);
    NoMultiple(|Chunks(Run(c, ops).log)|);
  }

  lemma NoMultiple(n: nat)
    requires n < TWO_16
    ensures n % TWO_16 == 0 <==> n == 0
  {
  }
}
