// What exactly leaves at each packet, and what the listeners are told over a run.
module VoiceChunks {
  import opened Bytes
  import opened VoiceRuns

  // ---------------------------------------------------------------- one packet

  /** From s to t exactly these chunks left: each of the given size, numbered on from the sequence number, and
      their bytes with what still waits are what waited. */
  ghost predicate SentChunks(s: State, t: State, size: nat, es: seq<Event>) {
    && t.active == s.active && t.sequence == (s.sequence + |es|) % TWO_16 && t.log == s.log + es
    && NumberedFrom(es, s.sequence, size) && Payload(es) + t.ring == s.ring
  }

  /** Chunks of one size, numbered from here on in sixteen bits. */
  ghost predicate NumberedFrom(es: seq<Event>, number: nat, size: nat) {
    forall i :: 0 <= i < |es| ==> es[i].Chunk? && es[i].number == (number + i) % 0x1_0000 && |es[i].bytes| == size
  }

  lemma {:induction false} PayloadFirst(e: Event, es: seq<Event>)
    requires e.Chunk?
    ensures Payload([e] + es) == e.bytes + Payload(es)
    decreases |es|
  {
    if es == [] {
      assert [e] + es == [e] && [e][..0] == [];
    } else {
      var front := es[..|es| - 1];
      PayloadFirst(e, front);
      assert ([e] + es)[..|es|] == [e] + front;
    }
  }

  lemma Wraps(a: nat, b: nat)
    ensures (a % 0x1_0000 + b) % 0x1_0000 == (a + b) % 0x1_0000
  {
  }

  lemma NumberedOneMore(e: Event, es: seq<Event>, number: nat, size: nat)
    requires number < TWO_16 && e.Chunk? && e.number == number && |e.bytes| == size
    requires NumberedFrom(es, (number + 1) % 0x1_0000, size)
    ensures NumberedFrom([e] + es, number, size)
  {
    var all := [e] + es;
    forall i | 0 <= i < |all|
      ensures all[i].Chunk? && all[i].number == (number + i) % 0x1_0000 && |all[i].bytes| == size
    {
      if i > 0 {
        assert all[i] == es[i - 1];
        Wraps(number + 1, i - 1);
      }
    }
  }

  lemma Regroup<T>(a: seq<T>, b: seq<T>, c: seq<T>)
    ensures (a + b) + c == a + (b + c)
  {
  }

  /** One chunk, and then the others. */
  lemma OneMore(s: State, size: nat, t: State, es: seq<Event>)
    requires 0 < size <= |s.ring| && s.sequence < TWO_16 && SentChunks(SendOut(s, size), t, size, es)
    ensures SentChunks(s, t, size, [Chunk(s.sequence, s.ring[..size])] + es)
  {
    var e := Chunk(s.sequence, s.ring[..size]);
    Regroup(s.log, [e], es);
    Wraps(s.sequence + 1, |es|);
    NumberedOneMore(e, es, s.sequence, size);
    PayloadFirst(e, es);
    Regroup(e.bytes, Payload(es), t.ring);
    assert s.ring[..size] + s.ring[size..] == s.ring;
  }

  lemma {:induction false} DrainChunks(s: State, size: nat) returns (es: seq<Event>)
    requires size > 0 && s.sequence < TWO_16
    ensures SentChunks(s, Drain(s, size), size, es) && |Drain(s, size).ring| < size
    decreases |s.ring|
  {
    if |s.ring| < size {
      es := [];
      assert s.log + [] == s.log && [] + s.ring == s.ring;
    } else {
      es := DrainChunks(SendOut(s, size), size);
      OneMore(s, size, Drain(s, size), es);
      es := [Chunk(s.sequence, s.ring[..size])] + es;
    }
  }

  lemma {:induction false} PayloadSize(chunks: seq<Event>, size: nat)
    requires forall k :: 0 <= k < |chunks| ==> chunks[k].Chunk? && |chunks[k].bytes| == size
    ensures |Payload(chunks)| == |chunks| * size
    decreases |chunks|
  {
    if chunks != [] {
      PayloadSize(chunks[..|chunks| - 1], size);
      assert |chunks| * size == (|chunks| - 1) * size + size;
    }
  }

  lemma Times(i: nat, n: nat, size: nat)
    requires i <= n
    ensures i * size <= n * size
  {
  }

  lemma QuotientIs(total: nat, n: nat, size: nat, rest: nat)
    requires total == n * size + rest && rest < size
    ensures total / size == n && total % size == rest
  {
    assert n * size == size * n;
    if total / size < n {
      Times(total / size + 1, n, size);
    } else if total / size > n {
      Times(n + 1, total / size, size);
    }
  }

  /** The chunks that leave are as many as fit. */
  lemma AsManyAsFit(s: State, t: State, size: nat, es: seq<Event>)
    requires SentChunks(s, t, size, es) && |t.ring| < size
    ensures |es| == |s.ring| / size && |t.ring| == |s.ring| % size
  {
    PayloadSize(es, size);
    QuotientIs(|s.ring|, |es|, size, |t.ring|);
  }

  /** A packet of a transmission: with a chunk size, every whole chunk of what waited and what came leaves at once,
      each of exactly that size, numbered one after the other, and the rest waits; without one the packet
      itself leaves with its own number, if it has any bytes. The size is the first chunk's as long as the number
      is zero, if there is one. */
  lemma PacketSends(c: Config, s: State, number: nat, bytes: seq<byte>, size: nat) returns (es: seq<Event>)
    requires s.active && s.sequence < TWO_16 && size == if c.firstChunk != 0 && s.sequence == 0 then c.firstChunk else c.chunk
    ensures var t := Step(c, s, Data(number, bytes));
            if size > 0 then
              && SentChunks(s.(ring := s.ring + bytes), t, size, es)
              && |es| == (|s.ring| + |bytes|) / size && |t.ring| == (|s.ring| + |bytes|) % size
            else t == s.(log := s.log + es) && es == if bytes == [] then [] else [Chunk(number, bytes)]
  {
    if size > 0 {
      var waiting := s.(ring := s.ring + bytes);
      es := DrainChunks(waiting, size);
      AsManyAsFit(waiting, Drain(waiting, size), size, es);
    } else if bytes == [] {
      es := [];
      assert s.log + [] == s.log;
    } else {
      es := [Chunk(number, bytes)];
    }
  }

  lemma {:induction false} RunSequence(c: Config, ops: seq<Operation>)
    ensures Run(c, ops).sequence < 0x1_0000
    decreases |ops|
  {
    if ops != [] {
      var front, op := ops[..|ops| - 1], ops[|ops| - 1];
      var s := Run(c, front);
      RunSequence(c, front);
      if op.Data? && s.active && ChunkSize(c, s.sequence) != 0 {
        var es := DrainChunks(s.(ring := s.ring + op.bytes), ChunkSize(c, s.sequence));
      }
    }
  }

  /** The same at any point of any run. */
  lemma RunSends(c: Config, ops: seq<Operation>, number: nat, bytes: seq<byte>, size: nat) returns (es: seq<Event>)
    requires Run(c, ops).active && size == if c.firstChunk != 0 && Run(c, ops).sequence == 0 then c.firstChunk else c.chunk
    ensures var s, t := Run(c, ops), Run(c, ops + [Data(number, bytes)]);
            if size > 0 then
              && SentChunks(s.(ring := s.ring + bytes), t, size, es)
              && |es| == (|s.ring| + |bytes|) / size && |t.ring| == (|s.ring| + |bytes|) % size
            else t == s.(log := s.log + es) && es == if bytes == [] then [] else [Chunk(number, bytes)]
  {
    RunSequence(c, ops);
    RunSnoc(c, ops, Data(number, bytes));
    es := PacketSends(c, Run(c, ops), number, bytes, size);
  }

  // ---------------------------------------------------------------- sizes over runs

  predicate AllSized(chunks: seq<Event>, first: nat, later: nat) {
    forall k :: 0 <= k < |chunks| ==> chunks[k].Chunk? && (|chunks[k].bytes| == later || |chunks[k].bytes| == first)
  }

  /** The first chunk of a transmission has the first size, every other one of the two sizes. */
  predicate Sized(c: Config, chunks: seq<Event>) {
    var first := if c.firstChunk != 0 then c.firstChunk else c.chunk;
    AllSized(chunks, first, c.chunk) && (chunks != [] ==> |chunks[0].bytes| == first)
  }

  lemma OneSized(c: Config, chunks: seq<Event>, e: Event)
    requires Sized(c, chunks) && e.Chunk? && (|e.bytes| == c.chunk || |e.bytes| == c.firstChunk)
    requires c.firstChunk == 0 ==> |e.bytes| == c.chunk
    requires chunks == [] ==> |e.bytes| == if c.firstChunk != 0 then c.firstChunk else c.chunk
    ensures Sized(c, chunks + [e])
  {
  }

  lemma SendOutSized(c: Config, s: State, size: nat)
    requires 0 < size <= |s.ring| && Sized(c, Chunks(s.log))
    requires size == c.chunk || size == c.firstChunk
    requires Chunks(s.log) == [] ==> size == if c.firstChunk != 0 then c.firstChunk else c.chunk
    ensures var t := SendOut(s, size); Sized(c, Chunks(t.log)) && Chunks(t.log) != []
  {
    var e := SendOutLogs(s, size);
    OneSized(c, Chunks(s.log), e);
  }

  lemma SendOutLogs(s: State, size: nat) returns (e: Event)
    requires 0 < size <= |s.ring|
    ensures e == Chunk(s.sequence, s.ring[..size]) && |e.bytes| == size && Chunks(SendOut(s, size).log) == Chunks(s.log) + [e]
  {
    e := Chunk(s.sequence, s.ring[..size]);
    ChunksSnoc(s.log, e);
  }

  lemma {:induction false} DrainSized(c: Config, s: State, size: nat)
    requires size > 0 && Sized(c, Chunks(s.log)) && (size == c.chunk || size == c.firstChunk)
    requires Chunks(s.log) == [] ==> size == if c.firstChunk != 0 then c.firstChunk else c.chunk
    ensures Sized(c, Chunks(Drain(s, size).log))
    decreases |s.ring|
  {
    if |s.ring| >= size {
      SendOutSized(c, s, size);
      DrainSized(c, SendOut(s, size), size);
    }
  }

  /** While a transmission goes on. */
  lemma {:induction false} RunSized(c: Config, ops: seq<Operation>)
    requires c.chunk > 0
    ensures Run(c, ops).active ==> Sized(c, Chunks(Run(c, ops).log))
    decreases |ops|
  {
    if ops != [] {
      var front, op := ops[..|ops| - 1], ops[|ops| - 1];
      var s := Run(c, front);
      RunSized(c, front);
      RunNumbered(c, front);
      match op
      case Start =>
        ChunksSnoc(EndStep(s).log, Started);
      case Data(number, bytes) =>
        if s.active {
          DrainSized(c, s.(ring := s.ring + bytes), ChunkSize(c, s.sequence));
        }
      case End =>
    }
  }

  /** With one chunk size only: as many chunks are out as fit into what was received, and the rest waits. */
  lemma ChunkCount(c: Config, ops: seq<Operation>)
    requires c.chunk > 0 && (c.firstChunk == 0 || c.firstChunk == c.chunk) && Run(c, ops).active
    ensures var s, received := Run(c, ops), |Heard(ops).1|;
            && |Chunks(s.log)| == received / c.chunk && |s.ring| == received % c.chunk
            && forall k :: 0 <= k < |Chunks(s.log)| ==> Chunks(s.log)[k].Chunk? && |Chunks(s.log)[k].bytes| == c.chunk
  {
    var s := Run(c, ops);
    RunSized(c, ops);
    RunConserves(c, ops);
    RunBounded(c, ops);
    PayloadSize(Chunks(s.log), c.chunk);
    QuotientIs(|Heard(ops).1|, |Chunks(s.log)|, c.chunk, |s.ring|);
  }

  // ---------------------------------------------------------------- starts and ends

  /** A start in the middle of a transmission ends it first, just as an end would have. */
  lemma StartEndsFirst(c: Config, ops: seq<Operation>)
    ensures Run(c, ops + [Start]) == Run(c, ops + [End] + [Start])
    ensures Run(c, ops + [Start]).log == Run(c, ops + [End]).log + [Started]
    ensures var s := Run(c, ops + [Start]); s.active && s.sequence == 0 && s.ring == []
  {
    RunSnoc(c, ops, Start);
    RunSnoc(c, ops, End);
    RunSnoc(c, ops + [End], Start);
    RunIdle(c, ops);
  }

  /** Nothing waits outside a transmission. */
  lemma {:induction false} RunIdle(c: Config, ops: seq<Operation>)
    ensures !Run(c, ops).active ==> Run(c, ops).ring == []
    decreases |ops|
  {
    if ops != [] {
      var front, op := ops[..|ops| - 1], ops[|ops| - 1];
      RunIdle(c, front);
      if op.Data? && Run(c, front).active {
        StaysOn(c, Run(c, front), op.number, op.bytes);
      }
    }
  }

  lemma StaysOn(c: Config, s: State, number: nat, bytes: seq<byte>)
    requires s.active
    ensures DataStep(c, s, number, bytes).active
  {
    if ChunkSize(c, s.sequence) != 0 {
      DrainKeeps(s.(ring := s.ring + bytes), ChunkSize(c, s.sequence));
    }
  }

  /** Outside a transmission packets and ends change nothing. */
  lemma OutsideIgnored(c: Config, ops: seq<Operation>, number: nat, bytes: seq<byte>)
    requires !Run(c, ops).active
    ensures Run(c, ops + [Data(number, bytes)]) == Run(c, ops) && Run(c, ops + [End]) == Run(c, ops)
  {
    RunSnoc(c, ops, Data(number, bytes));
    RunSnoc(c, ops, End);
  }

  /** Is a transmission announced as going on, in a log where starts and ends alternate and chunks come only
      between them? */
  datatype Announced = Broken | Going | Quiet

  function Announcement(log: seq<Event>): Announced {
    if log == [] then Quiet
    else
      match (Announcement(log[..|log| - 1]), log[|log| - 1])
      case (Quiet, Started) => Going
      case (Going, Chunk(_, _)) => Going
      case (Going, Stopped) => Quiet
      case _ => Broken
  }

  lemma AnnouncementSnoc(log: seq<Event>, e: Event)
    ensures Announcement(log + [e]) == match (Announcement(log), e)
                                       case (Quiet, Started) => Going
                                       case (Going, Chunk(_, _)) => Going
                                       case (Going, Stopped) => Quiet
                                       case _ => Broken
  {
    assert (log + [e])[..|log|] == log;
  }

  ghost predicate Announces(s: State) {
    Announcement(s.log) == if s.active then Going else Quiet
  }

  lemma SendOutAnnounces(s: State, length: nat)
    requires s.active && Announces(s)
    ensures SendOut(s, length).active && Announces(SendOut(s, length))
  {
    AnnouncementSnoc(s.log, Chunk(s.sequence, s.ring[..Min(length, |s.ring|)]));
  }

  lemma {:induction false} DrainAnnounces(s: State, size: nat)
    requires size > 0 && s.active && Announces(s)
    ensures Drain(s, size).active && Announces(Drain(s, size))
    decreases |s.ring|
  {
    if |s.ring| >= size {
      SendOutAnnounces(s, size);
      DrainAnnounces(SendOut(s, size), size);
    }
  }

  lemma EndAnnounces(s: State)
    requires Announces(s)
    ensures !EndStep(s).active && Announces(EndStep(s))
  {
    if s.active {
      SendOutAnnounces(s, |s.ring|);
      var sent := if s.sequence != 0 then SendOut(s, |s.ring|) else s;
      AnnouncementSnoc(sent.log, Stopped);
    }
  }

  lemma StepAnnounces(c: Config, s: State, op: Operation)
    requires Announces(s)
    ensures Announces(Step(c, s, op))
  {
    match op
    case Start =>
      EndAnnounces(s);
      AnnouncementSnoc(EndStep(s).log, Started);
    case Data(number, bytes) =>
      if s.active {
        var size := ChunkSize(c, s.sequence);
        if size != 0 {
          DrainAnnounces(s.(ring := s.ring + bytes), size);
        } else {
          AnnouncementSnoc(s.log, Chunk(number, bytes));
        }
      }
    case End =>
      EndAnnounces(s);
  }

  /** Over every run listeners hear starts and ends in turn, chunks only in between, and at any time whether a
      transmission is going on. */
  lemma {:induction false} RunAnnounces(c: Config, ops: seq<Operation>)
    ensures Announces(Run(c, ops)) && Run(c, ops).active == Heard(ops).0
    decreases |ops|
  {
    if ops != [] {
      var front, op := ops[..|ops| - 1], ops[|ops| - 1];
      RunAnnounces(c, front);
      StepAnnounces(c, Run(c, front), op);
      if op.Data? && Run(c, front).active {
        StaysOn(c, Run(c, front), op.number, op.bytes);
      }
    }
  }
}
