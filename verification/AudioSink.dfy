// The stream endpoint, the sink device, and the handler through which they call each other.
module AudioSink {
  import opened SinkRuns

  class AudioEndpoint {
    const handler: BluetoothAudioSink
    var state: EndpointState

    constructor (handler: BluetoothAudioSink)
      ensures this.handler == handler && state == IDLE
    {
      this.handler, state := handler, IDLE;
    }

    ghost predicate Valid()
      reads handler, handler.endpoint, handler.sink
    {
      handler.Valid() && handler.endpoint == this
    }

    method OnSetConfiguration(a: Answers) returns (code: Code)
      requires Valid()
      modifies this
      ensures Valid() && (handler.View(), code) == SinkRuns.OnSetConfiguration(old(handler.View()), a)
    {
      code := ILLEGAL_STATE;
      if state == IDLE {
        code := BAD_REQUEST;
        if a.codec {
          var accepted := handler.sink.OnSetConfiguration();
          if accepted == NONE {
            state, code := CONFIGURED, NONE;
          }
        }
      }
    }

    method OnOpen(a: Answers) returns (code: Code)
      requires Valid()
      modifies this, handler.sink
      ensures Valid() && (handler.View(), code) == SinkRuns.OnOpen(old(handler.View()), a)
    {
      code := ILLEGAL_STATE;
      if state == CONFIGURED {
        code := handler.sink.OnAcquire(a);
        if code == NONE {
          state := OPENED;
        }
      }
    }

    method OnStart(a: Answers) returns (code: Code)
      requires Valid() && (state == OPENED ==> handler.sink.player)
      modifies this, handler.sink
      ensures Valid() && (handler.View(), code) == SinkRuns.OnStart(old(handler.View()), a)
    {
      code := ILLEGAL_STATE;
      if state == OPENED {
        code := handler.OnSetSpeed(100, a);
        if code == NONE {
          state := STARTED;
        }
      }
    }

    method OnSuspend(a: Answers) returns (code: Code)
      requires Valid() && (state == STARTED ==> handler.sink.player)
      modifies this, handler.sink
      ensures Valid() && (handler.View(), code) == SinkRuns.OnSuspend(old(handler.View()), a)
    {
      code := ILLEGAL_STATE;
      if state == STARTED {
        code := handler.OnSetSpeed(0, a);
        if code == NONE {
          state := OPENED;
        }
      }
    }

    method OnClose(a: Answers) returns (code: Code)
      requires Valid()
      modifies this, handler.sink
      ensures Valid() && (handler.View(), code) == SinkRuns.OnClose(old(handler.View()), a)
    {
      code := ILLEGAL_STATE;
      if state == OPENED || state == STARTED {
        state := CLOSING;
        code := handler.OnRelinquish(a);
        state := IDLE;
      }
    }

    method OnAbort(a: Answers) returns (code: Code)
      requires Valid()
      modifies this, handler.sink
      ensures Valid() && (handler.View(), code) == SinkRuns.OnAbort(old(handler.View()), a)
    {
      code := NONE;
      if state != IDLE {
        state := ABORTING;
        code := handler.OnRelinquish(a);
        state := IDLE;
      }
    }

    method Configure(a: Answers) returns (code: Code)
      requires Valid()
      modifies this
      ensures Valid() && (handler.View(), code) == SinkRuns.Configure(old(handler.View()), a)
    {
      code := a.remote;
      if code == NONE {
        code := OnSetConfiguration(a);
      }
    }

    method Open(a: Answers) returns (code: Code)
      requires Valid()
      modifies this, handler.sink
      ensures Valid() && (handler.View(), code) == SinkRuns.Open(old(handler.View()), a)
    {
      code := ILLEGAL_STATE;
      if state == CONFIGURED {
        code := a.remote;
        if code == NONE {
          code := OnOpen(a);
        }
      }
    }

    method Start(a: Answers) returns (code: Code)
      requires Valid() && (state == OPENED ==> handler.sink.player)
      modifies this, handler.sink
      ensures Valid() && (handler.View(), code) == SinkRuns.Start(old(handler.View()), a)
    {
      code := ILLEGAL_STATE;
      if state == OPENED {
        code := a.remote;
        if code == NONE {
          code := OnStart(a);
        }
      }
    }

    method Suspend(a: Answers) returns (code: Code)
      requires Valid() && (state == STARTED ==> handler.sink.player)
      modifies this, handler.sink
      ensures Valid() && (handler.View(), code) == SinkRuns.Suspend(old(handler.View()), a)
    {
      code := ILLEGAL_STATE;
      if state == STARTED {
        code := a.remote;
        if code == NONE {
          code := OnSuspend(a);
        }
      }
    }

    method Close(a: Answers) returns (code: Code)
      requires Valid()
      modifies this, handler.sink
      ensures Valid() && (handler.View(), code) == SinkRuns.Close(old(handler.View()), a)
    {
      code := ILLEGAL_STATE;
      if state == OPENED || state == STARTED {
        code := a.remote;
        if code == NONE {
          code := OnClose(a);
        }
      }
    }

    method Abort(a: Answers) returns (code: Code)
      requires Valid()
      modifies this, handler.sink
      ensures Valid() && (handler.View(), code) == SinkRuns.Abort(old(handler.View()), a)
    {
      code := ILLEGAL_STATE;
      if state == CONFIGURED || state == OPENED || state == STARTED {
        code := a.remote;
        if code == NONE {
          code := OnAbort(a);
        }
      }
    }

    method Disconnected(a: Answers)
      requires Valid()
      modifies this, handler.sink
      ensures Valid() && handler.View() == SinkRuns.Disconnected(old(handler.View()), a)
    {
      if state != IDLE && state != CLOSING && state != ABORTING {
        var _ := OnAbort(a);
      }
    }
  }

  class A2DPSink {
    const parent: BluetoothAudioSink
    var endpoint: AudioEndpoint?
    var state: SinkState
    var player: bool
    ghost var made: nat
    ghost var destroyed: nat

    constructor (parent: BluetoothAudioSink)
      ensures this.parent == parent && endpoint == null && state == DISCONNECTED && !player && made == destroyed == 0
    {
      this.parent, endpoint, state, player, made, destroyed := parent, null, DISCONNECTED, false, 0, 0;
    }

    ghost predicate Valid()
      reads parent, parent.endpoint, parent.sink
    {
      parent.Valid() && parent.sink == this
    }

    method DestroyPlayer()
      modifies this`player, this`destroyed
      ensures !player && destroyed == old(destroyed) + if old(player) then 1 else 0
    {
      if player {
        player, destroyed := false, destroyed + 1;
      }
    }

    method OnSetConfiguration() returns (code: Code)
      requires Valid()
      ensures code == SinkOnSetConfiguration(parent.View())
    {
      code := ILLEGAL_STATE;
      if endpoint != null {
        code := if player then UNAVAILABLE else NONE;
      }
    }

    method OnAcquire(a: Answers) returns (code: Code)
      requires Valid()
      modifies this
      ensures Valid() && (parent.View(), code) == SinkOnAcquire(old(parent.View()), a)
    {
      code := ILLEGAL_STATE;
      if endpoint != null {
        if !a.transport {
          code := OPENING_FAILED;
        } else {
          DestroyPlayer();
          player, made := true, made + 1;
          if a.valid {
            state, code := READY, NONE;
          } else {
            DestroyPlayer();
            code := OPENING_FAILED;
          }
        }
      }
    }

    method OnSetSpeed(speed: int, a: Answers) returns (code: Code)
      requires Valid() && player
      modifies this
      ensures Valid() && (parent.View(), code) == SinkOnSetSpeed(old(parent.View()), speed, a)
    {
      code := ILLEGAL_STATE;
      if speed == 100 {
        if a.playing {
          state, code := STREAMING, NONE;
        }
      } else if speed == 0 {
        if a.playing {
          state, code := READY, NONE;
        }
      }
    }

    method OnRelinquish(a: Answers) returns (code: Code)
      requires Valid()
      modifies this
      ensures Valid() && (parent.View(), code) == SinkOnRelinquish(old(parent.View()), a)
    {
      code := ILLEGAL_STATE;
      if endpoint != null && player {
        DestroyPlayer();
        if a.connected {
          state := CONNECTED;
        }
        code := NONE;
      }
    }

    method SetConfiguration(a: Answers) returns (code: Code)
      requires Valid()
      modifies parent.endpoint
      ensures Valid() && (parent.View(), code) == SinkRuns.SetConfiguration(old(parent.View()), a)
    {
      if endpoint == null {
        code := ILLEGAL_STATE;
      } else if player {
        code := UNAVAILABLE;
      } else {
        code := endpoint.Configure(a);
      }
    }

    method Acquire(a: Answers) returns (code: Code)
      requires Valid()
      modifies this, parent.endpoint
      ensures Valid() && (parent.View(), code) == SinkRuns.Acquire(old(parent.View()), a)
    {
      if endpoint == null {
        code := ILLEGAL_STATE;
      } else if player {
        code := UNAVAILABLE;
      } else {
        code := endpoint.Open(a);
      }
    }

    method SetSpeed(speed: int, a: Answers) returns (code: Code)
      requires Valid()
      modifies this, parent.endpoint
      ensures Valid() && (parent.View(), code) == SinkRuns.SetSpeed(old(parent.View()), speed, a)
    {
      code := ILLEGAL_STATE;
      if endpoint != null && player {
        if speed == 100 {
          if state == READY {
            code := endpoint.Start(a);
          } else if state == STREAMING {
            code := NONE;
          }
        } else if speed == 0 {
          if state == STREAMING {
            code := endpoint.Suspend(a);
          } else if state == READY {
            code := NONE;
          }
        } else {
          code := NOT_SUPPORTED;
        }
      }
    }

    method Relinquish(a: Answers) returns (code: Code)
      requires Valid()
      modifies this, parent.endpoint
      ensures Valid() && (parent.View(), code) == SinkRuns.Relinquish(old(parent.View()), a)
    {
      code := ILLEGAL_STATE;
      if endpoint != null && player {
        code := endpoint.Close(a);
      }
    }

    method OnDeviceDisconnected()
      requires Valid()
      modifies this
      ensures Valid() && parent.View() == DeviceLost(old(parent.View()))
    {
      DestroyPlayer();
      endpoint, state := null, DISCONNECTED;
    }

    /** OnDeviceConnected, and the discovery it starts. */
    method OnDeviceConnected(matching: bool)
      requires Valid()
      modifies this
      ensures Valid() && parent.View() == DeviceFound(old(parent.View()), matching)
    {
      if state == DISCONNECTED {
        if matching {
          endpoint, state := parent.endpoint, CONNECTED;
        } else {
          state := CONNECTED_BAD;
        }
      }
    }
  }

  class BluetoothAudioSink {
    var endpoint: AudioEndpoint?
    var sink: A2DPSink?
    var source: bool

    ghost predicate Valid()
      reads this, endpoint, sink
    {
      && endpoint != null && sink != null && endpoint.handler == this && sink.parent == this
      && (sink.endpoint != null ==> sink.endpoint == endpoint)
      && (sink.state == DISCONNECTED ==> sink.endpoint == null)
    }

    ghost function View(): World
      reads this, endpoint, sink
      requires endpoint != null && sink != null
    {
      World(endpoint.state, sink.state, sink.endpoint != null, sink.player, source, sink.made, sink.destroyed)
    }

    constructor ()
      ensures Valid() && fresh(endpoint) && fresh(sink)
      ensures View() == DeviceLost(START)
    {
      endpoint, sink, source := null, null, false;
      new;
      endpoint := new AudioEndpoint(this);
      sink := new A2DPSink(this);
    }

    method OnSetSpeed(speed: int, a: Answers) returns (code: Code)
      requires Valid() && sink.player
      modifies sink
      ensures Valid() && (View(), code) == SinkRuns.OnSetSpeed(old(View()), speed, a)
    {
      code := NONE;
      if source {
        code := a.sourceSpeed;
      }
      if code == NONE {
        code := sink.OnSetSpeed(speed, a);
      }
    }

    method OnRelinquish(a: Answers) returns (code: Code)
      requires Valid()
      modifies sink
      ensures Valid() && (View(), code) == SinkRuns.OnRelinquish(old(View()), a)
    {
      code := NONE;
      if source {
        code := a.sourceRelinquish;
      }
      if code == NONE {
        code := sink.OnRelinquish(a);
      }
    }

    method Source(install: bool) returns (code: Code)
      requires Valid()
      modifies this`source
      ensures Valid() && (View(), code) == SinkRuns.Source(old(View()), install)
    {
      code := UNAVAILABLE;
      if install != source {
        source, code := install, NONE;
      }
    }

    /** Any operation on the objects. */
    method Perform(op: Op, a: Answers) returns (code: Code)
      requires Valid() && Defined(View(), op)
      modifies this`source, endpoint, sink
      ensures Valid() && endpoint == old(endpoint) && sink == old(sink)
      ensures (View(), code) == Next(old(View()), op, a)
      ensures Coupled(old(View())) ==> (Coupled(View()) <==> !Breaks(old(View()), op, a))
    {
      if Coupled(View()) {
        CoupledExact(View(), op, a);
      }
      match op {
        case ClientConfigure => code := sink.SetConfiguration(a);
        case ClientAcquire => code := sink.Acquire(a);
        case ClientSpeed(speed) => code := sink.SetSpeed(speed, a);
        case ClientRelinquish => code := sink.Relinquish(a);
        case ClientSource(install) => code := Source(install);
        case PeerConfigure => code := endpoint.OnSetConfiguration(a);
        case PeerOpen => code := endpoint.OnOpen(a);
        case PeerStart => code := endpoint.OnStart(a);
        case PeerSuspend => code := endpoint.OnSuspend(a);
        case PeerClose => code := endpoint.OnClose(a);
        case PeerAbort => code := endpoint.OnAbort(a);
        case LocalAbort => code := endpoint.Abort(a);
        case SignallingLost =>
          endpoint.Disconnected(a);
          code := NONE;
        case Lost =>
          sink.OnDeviceDisconnected();
          code := NONE;
        case Found(matching) =>
          sink.OnDeviceConnected(matching);
          code := NONE;
      }
    }
  }

  /** From a connected device through any operations: as long as none of them breaks the coupling, every one can
      be performed, and the objects stay in step. */
  method PerformAll(es: seq<Event>) returns (handler: BluetoothAudioSink)
    requires !SomeBreaks(START, es)
    ensures fresh(handler) && handler.Valid() && Coupled(handler.View())
    ensures Possible(START, es) && handler.View() == SinkRuns.Run(START, es)
  {
    handler := new BluetoothAudioSink();
    handler.sink.OnDeviceConnected(true);
    CoupledPossible(START, es);
    for k := 0 to |es|
      invariant fresh(handler) && handler.Valid() && fresh(handler.endpoint) && fresh(handler.sink)
      invariant Coupled(handler.View()) && !SomeBreaks(handler.View(), es[k..])
      invariant Possible(handler.View(), es[k..]) && SinkRuns.Run(handler.View(), es[k..]) == SinkRuns.Run(START, es)
    {
      assert es[k..][1..] == es[k + 1..];
      var _ := handler.Perform(es[k].op, es[k].answers);
    }
  }
}
