// The two state machines of a Bluetooth audio sink, the stream endpoint and the sink device, and the
// calls by which they keep in step.
module SinkRuns {

  datatype EndpointState = IDLE | CONFIGURED | OPENED | STARTED | CLOSING | ABORTING

  datatype SinkState = DISCONNECTED | CONNECTED | CONNECTED_BAD | READY | STREAMING

  datatype Code = NONE | ILLEGAL_STATE | UNAVAILABLE | BAD_REQUEST | OPENING_FAILED | NOT_SUPPORTED | REFUSED

  /** Both machines: whether the sink has an endpoint, a player and a source, and how many players were
      made and destroyed. */
  datatype World = World(endpoint: EndpointState, sink: SinkState, attached: bool, player: bool, source: bool,
                         made: nat, destroyed: nat)

  const START: World := World(IDLE, CONNECTED, true, false, false, 0, 0)

  /** What the surroundings answer during one operation: the remote device, the codec, the transport, the
      new player, the source, the player when started or stopped, and whether the device is connected. */
  datatype Answers = Answers(remote: Code, codec: bool, transport: bool, valid: bool, sourceSpeed: Code,
                             sourceRelinquish: Code, playing: bool, connected: bool)

  // ---------------------------------------------------------------- the sink device

  function Destroy(w: World): World {
    w.(player := false, destroyed := w.destroyed + if w.player then 1 else 0)
  }

  function SinkOnSetConfiguration(w: World): Code {
    if !w.attached then ILLEGAL_STATE else if w.player then UNAVAILABLE else NONE
  }

  /** A player replaces the one there was. */
  function SinkOnAcquire(w: World, a: Answers): (World, Code) {
    if !w.attached then (w, ILLEGAL_STATE)
    else if !a.transport then (w, OPENING_FAILED)
    else
      var v := Destroy(w).(player := true, made := w.made + 1);
      if a.valid then (v.(sink := READY), NONE) else (Destroy(v), OPENING_FAILED)
  }

  /** Only a sink with a player can be told a speed. */
  function SinkOnSetSpeed(w: World, speed: int, a: Answers): (World, Code)
    requires w.player
  {
    if speed != 100 && speed != 0 then (w, ILLEGAL_STATE)
    else if !a.playing then (w, ILLEGAL_STATE)
    else (w.(sink := if speed == 100 then STREAMING else READY), NONE)
  }

  function SinkOnRelinquish(w: World, a: Answers): (World, Code) {
    if w.attached && w.player then
      (Destroy(w).(sink := if a.connected then CONNECTED else w.sink), NONE)
    else (w, ILLEGAL_STATE)
  }

  // ---------------------------------------------------------------- the handler between them

  function OnSetSpeed(w: World, speed: int, a: Answers): (World, Code)
    requires w.player
  {
    if w.source && a.sourceSpeed != NONE then (w, a.sourceSpeed) else SinkOnSetSpeed(w, speed, a)
  }

  function OnRelinquish(w: World, a: Answers): (World, Code) {
    if w.source && a.sourceRelinquish != NONE then (w, a.sourceRelinquish) else SinkOnRelinquish(w, a)
  }

  // ---------------------------------------------------------------- the endpoint, asked by the remote device

  function OnSetConfiguration(w: World, a: Answers): (World, Code) {
    if w.endpoint != IDLE then (w, ILLEGAL_STATE)
    else if a.codec && SinkOnSetConfiguration(w) == NONE then (w.(endpoint := CONFIGURED), NONE)
    else (w, BAD_REQUEST)
  }

  function OnOpen(w: World, a: Answers): (World, Code) {
    if w.endpoint != CONFIGURED then (w, ILLEGAL_STATE)
    else
      var (v, code) := SinkOnAcquire(w, a);
      (if code == NONE then v.(endpoint := OPENED) else v, code)
  }

  function OnStart(w: World, a: Answers): (World, Code)
    requires w.endpoint == OPENED ==> w.player
  {
    if w.endpoint != OPENED then (w, ILLEGAL_STATE)
    else
      var (v, code) := OnSetSpeed(w, 100, a);
      (if code == NONE then v.(endpoint := STARTED) else v, code)
  }

  function OnSuspend(w: World, a: Answers): (World, Code)
    requires w.endpoint == STARTED ==> w.player
  {
    if w.endpoint != STARTED then (w, ILLEGAL_STATE)
    else
      var (v, code) := OnSetSpeed(w, 0, a);
      (if code == NONE then v.(endpoint := OPENED) else v, code)
  }

  function OnClose(w: World, a: Answers): (World, Code) {
    if w.endpoint != OPENED && w.endpoint != STARTED then (w, ILLEGAL_STATE)
    else
      var (v, code) := OnRelinquish(w.(endpoint := CLOSING), a);
      (v.(endpoint := IDLE), code)
  }

  function OnAbort(w: World, a: Answers): (World, Code) {
    if w.endpoint == IDLE then (w, NONE)
    else
      var (v, code) := OnRelinquish(w.(endpoint := ABORTING), a);
      (v.(endpoint := IDLE), code)
  }

  // ---------------------------------------------------------------- the endpoint, asked by its own side

  function Configure(w: World, a: Answers): (World, Code) {
    if a.remote != NONE then (w, a.remote) else OnSetConfiguration(w, a)
  }

  function Open(w: World, a: Answers): (World, Code) {
    if w.endpoint != CONFIGURED then (w, ILLEGAL_STATE)
    else if a.remote != NONE then (w, a.remote)
    else OnOpen(w, a)
  }

  function Start(w: World, a: Answers): (World, Code)
    requires w.endpoint == OPENED ==> w.player
  {
    if w.endpoint != OPENED then (w, ILLEGAL_STATE)
    else if a.remote != NONE then (w, a.remote)
    else OnStart(w, a)
  }

  function Suspend(w: World, a: Answers): (World, Code)
    requires w.endpoint == STARTED ==> w.player
  {
    if w.endpoint != STARTED then (w, ILLEGAL_STATE)
    else if a.remote != NONE then (w, a.remote)
    else OnSuspend(w, a)
  }

  function Close(w: World, a: Answers): (World, Code) {
    if w.endpoint != OPENED && w.endpoint != STARTED then (w, ILLEGAL_STATE)
    else if a.remote != NONE then (w, a.remote)
    else OnClose(w, a)
  }

  function Abort(w: World, a: Answers): (World, Code) {
    if w.endpoint != CONFIGURED && w.endpoint != OPENED && w.endpoint != STARTED then (w, ILLEGAL_STATE)
    else if a.remote != NONE then (w, a.remote)
    else OnAbort(w, a)
  }

  /** The signalling channel closed. */
  function Disconnected(w: World, a: Answers): World {
    if w.endpoint in {IDLE, CLOSING, ABORTING} then w else OnAbort(w, a).0
  }

  // ---------------------------------------------------------------- the sink, asked by its clients

  function SetConfiguration(w: World, a: Answers): (World, Code) {
    if !w.attached then (w, ILLEGAL_STATE) else if w.player then (w, UNAVAILABLE) else Configure(w, a)
  }

  function Acquire(w: World, a: Answers): (World, Code) {
    if !w.attached then (w, ILLEGAL_STATE) else if w.player then (w, UNAVAILABLE) else Open(w, a)
  }

  function SetSpeed(w: World, speed: int, a: Answers): (World, Code) {
    if !w.attached || !w.player then (w, ILLEGAL_STATE)
    else if speed == 100 then
      if w.sink == READY then Start(w, a) else (w, if w.sink == STREAMING then NONE else ILLEGAL_STATE)
    else if speed == 0 then
      if w.sink == STREAMING then Suspend(w, a) else (w, if w.sink == READY then NONE else ILLEGAL_STATE)
    else (w, NOT_SUPPORTED)
  }

  function Relinquish(w: World, a: Answers): (World, Code) {
    if w.attached && w.player then Close(w, a) else (w, ILLEGAL_STATE)
  }

  function Source(w: World, install: bool): (World, Code) {
    if install == w.source then (w, UNAVAILABLE) else (w.(source := install), NONE)
  }

  /** The device went away: the sink drops everything, the endpoint's state stays. */
  function DeviceLost(w: World): World {
    Destroy(w).(attached := false, sink := DISCONNECTED)
  }

  /** The device came back, and its services were discovered. */
  function DeviceFound(w: World, matching: bool): World {
    if w.sink != DISCONNECTED then w
    else if matching then w.(attached := true, sink := CONNECTED)
    else w.(sink := CONNECTED_BAD)
  }

  // ---------------------------------------------------------------- operations

  datatype Op =
    | ClientConfigure | ClientAcquire | ClientSpeed(speed: int) | ClientRelinquish | ClientSource(install: bool)
    | PeerConfigure | PeerOpen | PeerStart | PeerSuspend | PeerClose | PeerAbort
    | LocalAbort | SignallingLost | Lost | Found(matching: bool)

  /** Nothing speaks to a player that is not there. */
  predicate Defined(w: World, op: Op) {
    && (op.PeerStart? ==> w.endpoint == OPENED ==> w.player)
    && (op.PeerSuspend? ==> w.endpoint == STARTED ==> w.player)
  }

  function Next(w: World, op: Op, a: Answers): (World, Code)
    requires Defined(w, op)
  {
    match op
    case ClientConfigure => SetConfiguration(w, a)
    case ClientAcquire => Acquire(w, a)
    case ClientSpeed(speed) => SetSpeed(w, speed, a)
    case ClientRelinquish => Relinquish(w, a)
    case ClientSource(install) => Source(w, install)
    case PeerConfigure => OnSetConfiguration(w, a)
    case PeerOpen => OnOpen(w, a)
    case PeerStart => OnStart(w, a)
    case PeerSuspend => OnSuspend(w, a)
    case PeerClose => OnClose(w, a)
    case PeerAbort => OnAbort(w, a)
    case LocalAbort => Abort(w, a)
    case SignallingLost => (Disconnected(w, a), NONE)
    case Lost => (DeviceLost(w), NONE)
    case Found(matching) => (DeviceFound(w, matching), NONE)
  }

  // ---------------------------------------------------------------- staying in step

  /** The machines agree, no teardown is left half done, and exactly one player is alive in a session. */
  predicate Coupled(w: World) {
    && w.attached && w.sink in {CONNECTED, READY, STREAMING}
    && (w.endpoint == OPENED <==> w.sink == READY) && (w.endpoint == STARTED <==> w.sink == STREAMING)
    && (w.player <==> w.endpoint in {OPENED, STARTED}) && w.endpoint !in {CLOSING, ABORTING}
    && w.made == w.destroyed + if w.player then 1 else 0
  }

  /** Does the operation get as far as ending the session? */
  predicate Ends(w: World, op: Op, a: Answers) {
    && w.endpoint in {OPENED, STARTED}
    && (op.PeerClose? || op.PeerAbort? || op.SignallingLost? || ((op.LocalAbort? || op.ClientRelinquish?) && a.remote == NONE))
  }

  /** What drives the machines apart: the device going away, or the end of a session that the source
      refuses or that finds the device gone. */
  predicate Breaks(w: World, op: Op, a: Answers) {
    op.Lost? || (Ends(w, op, a) && ((w.source && a.sourceRelinquish != NONE) || !a.connected))
  }

  lemma CoupledDefined(w: World, op: Op)
    requires Coupled(w)
    ensures Defined(w, op)
  {
  }

  /** Every operation keeps the machines in step, except exactly those. */
  lemma CoupledExact(w: World, op: Op, a: Answers)
    requires Coupled(w) && Defined(w, op)
    ensures Coupled(Next(w, op, a).0) <==> !Breaks(w, op, a)
  {
  }

  datatype Event = Event(op: Op, answers: Answers)

  /** In step before every event of the run and at its end. */
  predicate AlwaysCoupled(w: World, es: seq<Event>)
    decreases |es|
  {
    && Coupled(w)
    && (es != [] ==>
          Defined(w, es[0].op) && AlwaysCoupled(Next(w, es[0].op, es[0].answers).0, es[1..]))
  }

  /** Some event of the run drives the machines apart. */
  predicate SomeBreaks(w: World, es: seq<Event>)
    requires Coupled(w)
    decreases |es|
  {
    es != [] &&
    (Breaks(w, es[0].op, es[0].answers)
     || (CoupledExact(w, es[0].op, es[0].answers); SomeBreaks(Next(w, es[0].op, es[0].answers).0, es[1..])))
  }

  /** Over every run the machines stay in step, with no call on a missing player, exactly when no device
      goes away and no session ends with an unwilling source or a disconnected device. */
  lemma {:induction false} RunCoupledExact(w: World, es: seq<Event>)
    requires Coupled(w)
    ensures AlwaysCoupled(w, es) <==> !SomeBreaks(w, es)
    decreases |es|
  {
    if es != [] {
      CoupledDefined(w, es[0].op);
      CoupledExact(w, es[0].op, es[0].answers);
      if !Breaks(w, es[0].op, es[0].answers) {
        RunCoupledExact(Next(w, es[0].op, es[0].answers).0, es[1..]);
      }
    }
  }

  // ---------------------------------------------------------------- out of step

  /** A source refused to let go: the endpoint is idle, the sink still has its player. */
  predicate Stuck(w: World) {
    w.attached && w.player && w.endpoint == IDLE && w.sink in {READY, STREAMING}
  }

  /** The refusal that leads there. */
  lemma RefusalSticks(w: World, op: Op, a: Answers)
    requires Coupled(w) && Defined(w, op)
    ensures Stuck(Next(w, op, a).0) <==> Ends(w, op, a) && w.source && a.sourceRelinquish != NONE
  {
  }

  /** No event of the run speaks to a player that is not there. */
  predicate Possible(w: World, es: seq<Event>)
    decreases |es|
  {
    es != [] ==> Defined(w, es[0].op) && Possible(Next(w, es[0].op, es[0].answers).0, es[1..])
  }

  function Run(w: World, es: seq<Event>): World
    requires Possible(w, es)
    decreases |es|
  {
    if es == [] then w else Run(Next(w, es[0].op, es[0].answers).0, es[1..])
  }

  lemma {:induction false} CoupledPossible(w: World, es: seq<Event>)
    requires Coupled(w) && !SomeBreaks(w, es)
    ensures Possible(w, es) && Coupled(Run(w, es))
    decreases |es|
  {
    if es != [] {
      CoupledDefined(w, es[0].op);
      CoupledExact(w, es[0].op, es[0].answers);
      CoupledPossible(Next(w, es[0].op, es[0].answers).0, es[1..]);
    }
  }

  const WILLING: Answers := Answers(NONE, true, true, true, NONE, NONE, true, true)

  /** A session with a source that refuses to relinquish at its end. */
  function RefusedSession(): seq<Event> {
    [Event(ClientSource(true), WILLING), Event(ClientConfigure, WILLING), Event(ClientAcquire, WILLING),
     Event(ClientRelinquish, WILLING.(sourceRelinquish := REFUSED))]
  }

  lemma RefusedSessionSticks()
    ensures Possible(START, RefusedSession()) && Stuck(Run(START, RefusedSession()))
  {
    var es := RefusedSession();
    var w1 := Next(START, es[0].op, es[0].answers).0;
    var w2 := Next(w1, es[1].op, es[1].answers).0;
    var w3 := Next(w2, es[2].op, es[2].answers).0;
    var w4 := Next(w3, es[3].op, es[3].answers).0;
    var es1, es2, es3 := es[1..], es[1..][1..], es[1..][1..][1..];
    assert es1[0] == es[1] && es2[0] == es[2] && es3[0] == es[3] && es3[1..] == [];
    assert Possible(w3, es3) && Run(w3, es3) == w4;
    assert Possible(w2, es2) && Run(w2, es2) == w4;
    assert Possible(w1, es1) && Run(w1, es1) == w4;
  }

  /** Nothing a client or the remote device does gets a stuck sink going again, and a new session is refused. */
  lemma StuckStays(w: World, op: Op, a: Answers)
    requires Stuck(w)
    ensures Defined(w, op) && (Stuck(Next(w, op, a).0) <==> !op.Lost?)
    ensures op.ClientConfigure? || op.ClientAcquire? ==> Next(w, op, a).1 == UNAVAILABLE
  {
  }

  predicate AlwaysStuck(w: World, es: seq<Event>)
    decreases |es|
  {
    Stuck(w) && (es != [] ==> Defined(w, es[0].op) && AlwaysStuck(Next(w, es[0].op, es[0].answers).0, es[1..]))
  }

  /** Only losing the device ends it. */
  lemma {:induction false} StuckForever(w: World, es: seq<Event>)
    requires Stuck(w)
    ensures AlwaysStuck(w, es) <==> forall k :: 0 <= k < |es| ==> !es[k].op.Lost?
    decreases |es|
  {
    if es != [] {
      StuckStays(w, es[0].op, es[0].answers);
      if !es[0].op.Lost? {
        StuckForever(Next(w, es[0].op, es[0].answers).0, es[1..]);
        assert forall k :: 0 < k < |es| ==> es[k] == es[1..][k - 1];
      }
    }
  }

  /** Losing the device and finding it again brings the machines in step exactly when the endpoint was not
      left in a session; an abort by the remote device then helps. */
  lemma FoundAgain(w: World, a: Answers)
    requires w.endpoint !in {CLOSING, ABORTING} && w.made == w.destroyed + if w.player then 1 else 0
    ensures var v := DeviceFound(DeviceLost(w), true);
            && (Coupled(v) <==> w.endpoint in {IDLE, CONFIGURED})
            && (!w.source || a.sourceRelinquish == NONE ==> Coupled(OnAbort(v, a).0))
  {
  }

  // ---------------------------------------------------------------- what clients are told

  /** While in step, success tells a client what it brought about, and failure that nothing changed,
      except that ending a session always ends the endpoint's part. */
  lemma ClientsTold(w: World, op: Op, a: Answers)
    requires Coupled(w) && Defined(w, op) && !Breaks(w, op, a)
    requires op.ClientConfigure? || op.ClientAcquire? || op.ClientSpeed? || op.ClientRelinquish?
    ensures var (v, code) := Next(w, op, a);
            && (code == NONE && op.ClientConfigure? ==> w.endpoint == IDLE && v.endpoint == CONFIGURED)
            && (code == NONE && op.ClientAcquire? ==> w.endpoint == CONFIGURED && v.endpoint == OPENED && v.made == w.made + 1)
            && (code == NONE && op.ClientSpeed? ==> v.sink == if op.speed == 100 then STREAMING else READY)
            && (code == NONE && op.ClientRelinquish? ==> v.endpoint == IDLE && v.sink == CONNECTED && !v.player)
            && (code != NONE ==> v == w.(made := v.made, destroyed := v.destroyed) && v.made - w.made == v.destroyed - w.destroyed)
  {
  }

  /** Aborting before a session was opened works, and says that it did not. */
  lemma AbortUnopened(w: World, a: Answers)
    requires Coupled(w) && w.endpoint == CONFIGURED
    ensures var (v, code) := OnAbort(w, a);
            Coupled(v) && v.endpoint == IDLE && code != NONE
  {
  }

  // ---------------------------------------------------------------- when operations succeed

  /** The source, if there is one, agrees. */
  predicate SourceAgrees(w: World, code: Code) {
    w.source ==> code == NONE
  }

  /** What it takes for an operation to succeed, seen from outside: the right state, and everybody willing. */
  predicate Succeeds(w: World, op: Op, a: Answers) {
    match op
    case ClientConfigure => w.endpoint == IDLE && a.remote == NONE && a.codec
    case PeerConfigure => w.endpoint == IDLE && a.codec
    case ClientAcquire => w.endpoint == CONFIGURED && a.remote == NONE && a.transport && a.valid
    case PeerOpen => w.endpoint == CONFIGURED && a.transport && a.valid
    case ClientSpeed(speed) =>
      || (speed == 100 && w.sink == STREAMING) || (speed == 0 && w.sink == READY)
      || (speed == 100 && w.sink == READY && a.remote == NONE && SourceAgrees(w, a.sourceSpeed) && a.playing)
      || (speed == 0 && w.sink == STREAMING && a.remote == NONE && SourceAgrees(w, a.sourceSpeed) && a.playing)
    case PeerStart => w.endpoint == OPENED && SourceAgrees(w, a.sourceSpeed) && a.playing
    case PeerSuspend => w.endpoint == STARTED && SourceAgrees(w, a.sourceSpeed) && a.playing
    case ClientRelinquish => w.endpoint in {OPENED, STARTED} && a.remote == NONE && SourceAgrees(w, a.sourceRelinquish)
    case PeerClose => w.endpoint in {OPENED, STARTED} && SourceAgrees(w, a.sourceRelinquish)
    case PeerAbort => w.endpoint == IDLE || (w.endpoint in {OPENED, STARTED} && SourceAgrees(w, a.sourceRelinquish))
    case LocalAbort => w.endpoint in {OPENED, STARTED} && a.remote == NONE && SourceAgrees(w, a.sourceRelinquish)
    case ClientSource(install) => w.source != install
    case SignallingLost => true
    case Lost => true
    case Found(_) => true
  }

  /** The state an operation leads to when it succeeds. */
  predicate Arrives(w: World, v: World, op: Op, a: Answers) {
    match op
    case ClientConfigure => v.endpoint == CONFIGURED && v.sink == w.sink
    case PeerConfigure => v.endpoint == CONFIGURED && v.sink == w.sink
    case ClientAcquire => v.endpoint == OPENED && v.sink == READY && v.player && v.made == w.made + 1
    case PeerOpen => v.endpoint == OPENED && v.sink == READY && v.player && v.made == w.made + 1
    case ClientSpeed(speed) =>
      if speed == 100 then v.endpoint == STARTED && v.sink == STREAMING else v.endpoint == OPENED && v.sink == READY
    case PeerStart => v.endpoint == STARTED && v.sink == STREAMING
    case PeerSuspend => v.endpoint == OPENED && v.sink == READY
    case ClientSource(install) => v == w.(source := install)
    case Lost => v.sink == DISCONNECTED && !v.attached && !v.player && v.endpoint == w.endpoint
    case Found(_) => v == w
    case _ => v.endpoint == IDLE && !v.player && (w.player && a.connected ==> v.sink == CONNECTED)
  }

  /** While in step, an operation reports success exactly when it had what it takes, and then arrives. */
  lemma SucceedsExact(w: World, op: Op, a: Answers)
    requires Coupled(w) && Defined(w, op)
    ensures var (v, code) := Next(w, op, a);
            && (code == NONE <==> Succeeds(w, op, a))
            && (code == NONE && (op.SignallingLost? ==> SourceAgrees(w, a.sourceRelinquish)) ==> Arrives(w, v, op, a))
  {
  }

  /** A speed that is neither stop nor normal is refused. */
  lemma OtherSpeeds(w: World, speed: int, a: Answers)
    requires Coupled(w) && speed != 0 && speed != 100
    ensures var (v, code) := Next(w, ClientSpeed(speed), a);
            v == w && code == if w.player then NOT_SUPPORTED else ILLEGAL_STATE
  {
  }

  /** A found device without a matching endpoint stays unusable until it is lost. */
  lemma UnmatchedUnusable(w: World, a: Answers)
    ensures var v := DeviceFound(DeviceLost(w), false);
            && v.sink == CONNECTED_BAD && !v.attached && !v.player
            && (forall op: Op :: op.ClientConfigure? || op.ClientAcquire? || op.ClientSpeed? || op.ClientRelinquish? ==>
                  Defined(v, op) && Next(v, op, a) == (v, ILLEGAL_STATE))
            && forall matching :: DeviceFound(v, matching) == v
  {
  }
}
