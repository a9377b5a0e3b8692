// Transmissions that lose their end: the sequence number comes round to zero, and what waits then is taken
// for a first chunk that never filled up.
module VoiceLosses {
  import opened Bytes
  import opened VoiceRuns

  lemma ZerosMore(n: nat)
    ensures Zeros(n) + [0] == Zeros(n + 1) && Singles(n + 1) == Singles(n) + [Data(0, [0])]
  {
  }

  lemma DrainNothing(s: State, size: nat)
    requires |s.ring| < size
    ensures Drain(s, size) == s
  {
  }

  /** A ring that holds exactly one chunk is sent whole. */
  lemma DrainOne(s: State, size: nat)
    requires |s.ring| == size > 0
    ensures Drain(s, size) == State(s.active, (s.sequence + 1) % TWO_16, [], s.log + [Chunk(s.sequence, s.ring)])
  {
    assert s.ring[..size] == s.ring && s.ring[size..] == [];
    DrainNothing(SendOut(s, size), size);
  }

  /** After so many single bytes: so many chunks are out, and so many bytes wait. */
  ghost predicate Waiting(c: Config, n: nat, chunks: nat, waiting: nat) {
    var s := Run(c, Singles(n));
    s.active && s.sequence == chunks % TWO_16 && s.ring == Zeros(waiting)
  }

  lemma OneWaits(c: Config, n: nat, chunks: nat, waiting: nat)
    requires Waiting(c, n, chunks, waiting) && waiting + 1 < ChunkSize(c, chunks % TWO_16)
    ensures Waiting(c, n + 1, chunks, waiting + 1)
  {
    ZerosMore(n);
    ZerosMore(waiting);
    RunSnoc(c, Singles(n), Data(0, [0]));
    var s := Run(c, Singles(n));
    DrainNothing(s.(ring := s.ring + [0]), ChunkSize(c, s.sequence));
  }

  lemma OneFills(c: Config, n: nat, chunks: nat, waiting: nat)
    requires Waiting(c, n, chunks, waiting) && waiting + 1 == ChunkSize(c, chunks % TWO_16)
    ensures Waiting(c, n + 1, chunks + 1, 0)
  {
    ZerosMore(n);
    ZerosMore(waiting);
    RunSnoc(c, Singles(n), Data(0, [0]));
    var s := Run(c, Singles(n));
    DrainOne(s.(ring := s.ring + [0]), ChunkSize(c, s.sequence));
    NextChunk(chunks);
  }

  lemma NextChunk(chunks: nat)
    ensures (chunks % TWO_16 + 1) % TWO_16 == (chunks + 1) % TWO_16
  {
  }

  /** How many single bytes make so many chunks, with so many bytes over. */
  function SinglesFor(c: Config, chunks: nat, waiting: nat): nat
    requires chunks > 0
  {
    ChunkSize(c, 0) + (chunks - 1) * c.chunk + waiting
  }

  lemma NextSingles(c: Config, chunks: nat)
    requires c.chunk > 0 && chunks > 1
    ensures SinglesFor(c, chunks, 0) == SinglesFor(c, chunks - 1, c.chunk - 1) + 1
  {
    assert (chunks - 1) * c.chunk == (chunks - 2) * c.chunk + c.chunk;
  }

  lemma LaterSize(c: Config, chunks: nat)
    requires 0 < chunks < TWO_16
    ensures ChunkSize(c, chunks % TWO_16) == c.chunk
  {
  }

  /** Up to the last chunk before the number comes round, every full chunk goes out at once. */
  lemma {:induction false} SinglesChunks(c: Config, chunks: nat, waiting: nat)
    requires c.chunk > 0 && 0 < chunks < TWO_16 && waiting < c.chunk
    ensures Waiting(c, SinglesFor(c, chunks, waiting), chunks, waiting)
    decreases chunks, waiting
  {
    if waiting > 0 {
      SinglesChunks(c, chunks, waiting - 1);
      LaterSize(c, chunks);
      OneWaits(c, SinglesFor(c, chunks, waiting - 1), chunks, waiting - 1);
    } else if chunks > 1 {
      SinglesChunks(c, chunks - 1, c.chunk - 1);
      LaterSize(c, chunks - 1);
      NextSingles(c, chunks);
      OneFills(c, SinglesFor(c, chunks - 1, c.chunk - 1), chunks - 1, c.chunk - 1);
    } else {
      var first := ChunkSize(c, 0);
      SinglesWait(c, first - 1);
      OneFills(c, first - 1, 0, first - 1);
      assert SinglesFor(c, 1, 0) == first;
    }
  }

  // ---------------------------------------------------------------- the loss

  /** A run that ends with the number back at zero and something waiting is neither all nor nothing. */
  lemma RoundedLoses(c: Config, ops: seq<Operation>)
    requires c.chunk > 0
    requires var s := Run(c, ops); s.active && s.sequence == 0 && s.ring != [] && Chunks(s.log) != []
    ensures !AllOrNothing(c, ops)
  {
    EndDelivers(c, ops);
    RunNumbered(c, ops);
    RunSnoc(c, ops, End);
    EndSends(Run(c, ops));
  }

  /** Single bytes up to one less than a chunk more than 65535 chunks, and a packet of two bytes. */
  function LongRun(c: Config): seq<Operation>
    requires c.chunk >= 2
  {
    Singles(SinglesFor(c, TWO_16 - 1, c.chunk - 1)) + [Data(0, [0, 0])]
  }

  lemma {:induction false} LongRunLoses(c: Config)
    requires c.chunk >= 2
    ensures !AllOrNothing(c, LongRun(c))
  {
    var ops := Singles(SinglesFor(c, TWO_16 - 1, c.chunk - 1));
    SinglesChunks(c, TWO_16 - 1, c.chunk - 1);
    var s := Run(c, ops);
    RunSnoc(c, ops, Data(0, [0, 0]));
    var full := s.(ring := s.ring + [0, 0]);
    assert full.ring == Zeros(c.chunk) + [0];
    var t := SendOut(full, c.chunk);
    assert t.ring == [0] && t.sequence == 0;
    DrainNothing(t, c.chunk);
    assert Run(c, LongRun(c)) == t;
    ChunksSnoc(s.log, Chunk(s.sequence, full.ring[..c.chunk]));
    RoundedLoses(c, LongRun(c));
  }

  /** Chunks of single bytes after a longer first one: 65536 chunks, and a byte that waits for another first one. */
  lemma {:induction false} SingleChunksLose(c: Config)
    requires c.chunk == 1 && c.firstChunk >= 2
    ensures !AllOrNothing(c, Singles(SinglesFor(c, TWO_16 - 1, 0) + 2))
  {
    var n := SinglesFor(c, TWO_16 - 1, 0);
    SinglesChunks(c, TWO_16 - 1, 0);
    OneFills(c, n, TWO_16 - 1, 0);
    OneWaits(c, n + 1, TWO_16, 0);
    SinglesHeard(n + 2);
    SomeSent(c, n + 2);
    RoundedLoses(c, Singles(n + 2));
  }

  /** More bytes received than wait: some chunk went out. */
  lemma SomeSent(c: Config, n: nat)
    requires c.chunk > 0 && Run(c, Singles(n)).active && |Run(c, Singles(n)).ring| < |Heard(Singles(n)).1|
    ensures Chunks(Run(c, Singles(n)).log) != []
  {
    RunConserves(c, Singles(n));
  }

  lemma {:induction false} SinglesHeard(n: nat)
    ensures Heard(Singles(n)) == (true, Zeros(n))
  {
    if n == 0 {
      assert Singles(0) == [Start] && [Start][..0] == [] && Zeros(0) == [];
    } else {
      SinglesHeard(n - 1);
      ZerosMore(n - 1);
      assert Singles(n)[..|Singles(n)| - 1] == Singles(n - 1);
    }
  }

  lemma OvertakingLoses(c: Config)
    requires c.chunk == 0 && c.firstChunk >= 2
    ensures !AllOrNothing(c, Overfilled(c))
  {
    OverfilledState(c);
    OverfilledHeard(c);
    var s, n := Run(c, Overfilled(c)), c.firstChunk;
    RunSnoc(c, Overfilled(c), End);
    EndSends(s);
    assert (Zeros(n) + [1] + [0])[n] == 1;
    assert (Zeros(n - 1) + [0, 0] + [1])[n] == 0;
    SendOutKeeps(s, |s.ring|);
  }

  /** Exactly which chunk sizes make every transmission deliver all or nothing. */
  lemma {:induction false} AllOrNothingConfigs(c: Config)
    ensures (forall ops: seq<Operation> :: Run(c, ops).active ==> AllOrNothing(c, ops))
       <==> c.chunk <= 1 && c.firstChunk <= 1
  {
    if c.chunk <= 1 && c.firstChunk <= 1 {
      forall ops: seq<Operation> | Run(c, ops).active
        ensures AllOrNothing(c, ops)
      {
        RunBounded(c, ops);
        EndDelivers(c, ops);
      }
    } else if c.chunk >= 2 {
      LongRunLoses(c);
      StaysActive(c, LongRun(c));
    } else if c.chunk == 1 {
      SingleChunksLose(c);
      StaysActive(c, Singles(SinglesFor(c, TWO_16 - 1, 0) + 2));
    } else {
      OvertakingLoses(c);
      StaysActive(c, Overfilled(c));
    }
  }

  /** Only an end ends a transmission. */
  lemma {:induction false} StaysActive(c: Config, ops: seq<Operation>)
    requires ops != [] && ops[0] == Start && forall k :: 0 < k < |ops| ==> ops[k].Data?
    ensures Run(c, ops).active
    decreases |ops|
  {
    if |ops| > 1 {
      StaysActive(c, ops[..|ops| - 1]);
      var s := Run(c, ops[..|ops| - 1]);
      var size := ChunkSize(c, s.sequence);
      if size != 0 {
        DrainKeeps(s.(ring := s.ring + ops[|ops| - 1].bytes), size);
      }
    }
  }
}
