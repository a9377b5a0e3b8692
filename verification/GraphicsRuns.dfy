// Graphics above video: when the sub screens of a callsign keep that order over whole runs.
module GraphicsRuns {
  import opened Names
  import opened ZOrder
  import opened ZOrderRuns

  // ---------------------------------------------------------------- callsign by callsign

  lemma {:induction false} LayersOfWithout(s: seq<string>, callsign: string, other: string)
    requires other != callsign
    ensures LayersOf(WithoutLayersOf(s, callsign), other) == LayersOf(s, other)
    decreases |s|
  {
    if s != [] {
      LayersOfWithout(s[1..], callsign, other);
      var rest := WithoutLayersOf(s[1..], callsign);
      if Primary(s[0]) != callsign {
        assert WithoutLayersOf(s, callsign) == [s[0]] + rest && ([s[0]] + rest)[1..] == rest;
      } else {
        assert WithoutLayersOf(s, callsign) == rest;
      }
    }
  }

  lemma {:induction false} LayersOfHave(s: seq<string>, callsign: string)
    ensures forall n :: n in LayersOf(s, callsign) <==> n in s && Primary(n) == callsign
    decreases |s|
  {
    if s != [] {
      LayersOfHave(s[1..], callsign);
    }
  }

  /** No graphics sub screen of its callsign follows a name. */
  predicate HeadFine(x: string, rest: seq<string>) {
    forall j :: 0 <= j < |rest| && IsSub(x) && IsSub(rest[j]) && Primary(rest[j]) == Primary(x) ==> !IsGraphics(rest[j])
  }

  lemma GraphicsCons(x: string, rest: seq<string>)
    ensures GraphicsOnTop([x] + rest) <==> GraphicsOnTop(rest) && HeadFine(x, rest)
  {
    var s := [x] + rest;
    if GraphicsOnTop(s) {
      forall i, j | 0 <= i < j < |rest| && IsSub(rest[i]) && IsSub(rest[j]) && Primary(rest[i]) == Primary(rest[j])
        ensures !IsGraphics(rest[j])
      {
        assert s[i + 1] == rest[i] && s[j + 1] == rest[j];
      }
      forall j | 0 <= j < |rest| && IsSub(x) && IsSub(rest[j]) && Primary(rest[j]) == Primary(x)
        ensures !IsGraphics(rest[j])
      {
        assert s[0] == x && s[j + 1] == rest[j];
      }
    }
    if GraphicsOnTop(rest) && HeadFine(x, rest) {
      forall i, j | 0 <= i < j < |s| && IsSub(s[i]) && IsSub(s[j]) && Primary(s[i]) == Primary(s[j])
        ensures !IsGraphics(s[j])
      {
        assert s[j] == rest[j - 1];
        if i > 0 {
          assert s[i] == rest[i - 1];
        }
      }
    }
  }

  lemma HeadFineByLayers(x: string, rest: seq<string>)
    ensures HeadFine(x, rest) <==> HeadFine(x, LayersOf(rest, Primary(x)))
  {
    var layers := LayersOf(rest, Primary(x));
    LayersOfHave(rest, Primary(x));
    forall j | 0 <= j < |rest| && Primary(rest[j]) == Primary(x)
      ensures rest[j] in layers
    {
    }
    forall j | 0 <= j < |layers|
      ensures layers[j] in rest
    {
      assert layers[j] in layers;
    }
  }

  ghost predicate EachOnTop(s: seq<string>) {
    forall callsign :: GraphicsOnTop(LayersOf(s, callsign))
  }

  lemma EachCons(x: string, rest: seq<string>)
    ensures EachOnTop([x] + rest) <==> EachOnTop(rest) && HeadFine(x, LayersOf(rest, Primary(x)))
  {
    var s := [x] + rest;
    assert s[1..] == rest;
    forall callsign
      ensures LayersOf(s, callsign) == (if Primary(x) == callsign then [x] else []) + LayersOf(rest, callsign)
    {
    }
    GraphicsCons(x, LayersOf(rest, Primary(x)));
    forall callsign | callsign != Primary(x)
      ensures LayersOf(s, callsign) == LayersOf(rest, callsign)
    {
    }
    if EachOnTop(s) {
      assert GraphicsOnTop(LayersOf(s, Primary(x)));
      forall callsign
        ensures GraphicsOnTop(LayersOf(rest, callsign))
      {
        assert GraphicsOnTop(LayersOf(s, callsign));
      }
    }
  }

  /** Graphics lies above video exactly when it does in the layers of every callsign. */
  lemma {:induction false} OnTopByLayers(s: seq<string>)
    ensures GraphicsOnTop(s) <==> EachOnTop(s)
    decreases |s|
  {
    if s != [] {
      var x, rest := s[0], s[1..];
      assert s == [x] + rest;
      OnTopByLayers(rest);
      GraphicsCons(x, rest);
      HeadFineByLayers(x, rest);
      EachCons(x, rest);
    }
  }

  // ---------------------------------------------------------------- one operation

  lemma DetachKeeps(s: seq<string>, name: string)
    requires GraphicsOnTop(s)
    ensures GraphicsOnTop(WithoutName(s, name))
  {
    if name in s {
      var k := Place(s, name);
      var t := WithoutPlace(s, k);
      assert forall i {:trigger t[i]} :: 0 <= i < |t| ==> t[i] == if i < k then s[i] else s[i + 1];
    }
  }

  lemma MoveKeepsLayers(s: seq<string>, relative: string, callsign: string, other: string)
    requires relative == "" || relative != callsign
    ensures LayersOf(Moved(s, relative, callsign), other) == LayersOf(s, other)
  {
    var t := Moved(s, relative, callsign);
    MovedKeepsOrders(s, relative, callsign);
    if other != callsign {
      LayersOfWithout(s, callsign, other);
      LayersOfWithout(t, callsign, other);
    }
  }

  /** Putting a callsign before another one, or on top, changes nothing inside any callsign. */
  lemma MoveKeeps(s: seq<string>, relative: string, callsign: string)
    requires relative == "" || relative != callsign
    ensures GraphicsOnTop(Moved(s, relative, callsign)) <==> GraphicsOnTop(s)
  {
    var t := Moved(s, relative, callsign);
    OnTopByLayers(s);
    OnTopByLayers(t);
    forall other
      ensures LayersOf(t, other) == LayersOf(s, other)
    {
      MoveKeepsLayers(s, relative, callsign, other);
    }
  }

  /** Would moving the callsign before itself send a graphics layer below a sub screen of its own? */
  ghost predicate Sinks(s: seq<string>, callsign: string) {
    var first := FirstOf(s, callsign);
    first < |s| && IsGraphics(s[first]) && exists j :: first < j < |s| && IsSub(s[j]) && Primary(s[j]) == callsign
  }

  lemma SelfMoveShape(s: seq<string>, callsign: string) returns (from: nat, past: nat)
    requires callsign != "" && Contiguous(s, callsign) && FirstOf(s, callsign) < |s|
    ensures from == FirstOf(s, callsign) && from < past <= |s|
    ensures forall i :: 0 <= i < |s| ==> (Primary(s[i]) == callsign <==> from <= i < past)
    ensures var t := Moved(s, callsign, callsign);
            |t| == |s| && forall i {:trigger t[i]} :: 0 <= i < |s| ==> t[i] == s[Source(from, from + 1, past, i)]
  {
    from := FirstOf(s, callsign);
    past := Segment(s, callsign);
    MovedBeforeItself(s, callsign, from, past);
    ExchangeSource(s, from, from + 1, past);
  }

  lemma InPlaces(t: seq<string>, i: nat, j: nat, x: string, y: string)
    requires i < j < |t| && t[i] == x && t[j] == y && IsSub(x) && IsGraphics(y) && Primary(x) == Primary(y)
    ensures !GraphicsOnTop(t)
  {
  }

  lemma SourcesInside(from: nat, past: nat, j: nat)
    requires from < j < past
    ensures Source(from, from + 1, past, j - 1) == j && Source(from, from + 1, past, past - 1) == from
  {
  }

  lemma SinkingBreaks(s: seq<string>, callsign: string)
    requires callsign != "" && Contiguous(s, callsign) && Sinks(s, callsign)
    ensures !GraphicsOnTop(Moved(s, callsign, callsign))
  {
    var from, past := SelfMoveShape(s, callsign);
    var t := Moved(s, callsign, callsign);
    var j :| from < j < |s| && IsSub(s[j]) && Primary(s[j]) == callsign;
    SourcesInside(from, past, j);
    InPlaces(t, j - 1, past - 1, s[j], s[from]);
  }

  lemma NotSinkingKeeps(s: seq<string>, callsign: string)
    requires callsign != "" && Contiguous(s, callsign) && FirstOf(s, callsign) < |s|
    requires GraphicsOnTop(s) && !Sinks(s, callsign)
    ensures GraphicsOnTop(Moved(s, callsign, callsign))
  {
    var from, past := SelfMoveShape(s, callsign);
    var t := Moved(s, callsign, callsign);
    forall i, j | 0 <= i < j < |t| && IsSub(t[i]) && IsSub(t[j]) && Primary(t[i]) == Primary(t[j])
      ensures !IsGraphics(t[j])
    {
      var i', j' := Source(from, from + 1, past, i), Source(from, from + 1, past, j);
      assert t[i] == s[i'] && t[j] == s[j'];
      if j == past - 1 {
        assert from < i' < past;
      } else if i == past - 1 {
        assert false;
      } else {
        assert i' < j';
      }
    }
  }

  /** A callsign moved before itself keeps graphics on top exactly when its topmost layer is no graphics
      layer, or its only sub screen. */
  lemma SelfMoveExact(s: seq<string>, callsign: string)
    requires callsign != "" && Contiguous(s, callsign) && GraphicsOnTop(s)
    ensures GraphicsOnTop(Moved(s, callsign, callsign)) <==> !Sinks(s, callsign)
  {
    if FirstOf(s, callsign) == |s| {
      NoneOf(s, callsign);
    } else if Sinks(s, callsign) {
      SinkingBreaks(s, callsign);
    } else {
      NotSinkingKeeps(s, callsign);
    }
  }

  // ---------------------------------------------------------------- runs

  /** What keeps graphics on top: at most one graphics layer for every callsign, and no callsign put before
      itself that would sink it. */
  ghost predicate KeepsOnTop(v: Stack, op: Operation) {
    match op
    case Attach(name) => !(IsGraphics(name) && HasGraphics(Order(v - {name}), Primary(name)))
    case Detach(_) => true
    case PutBefore(relative, callsign) => relative == "" || relative != callsign || !Sinks(Order(v), callsign)
  }

  lemma StepOnTopExact(v: Stack, op: Operation, newOnTop: bool)
    requires Sound(v) && GraphicsOnTop(Order(v))
    ensures GraphicsOnTop(Intended(v, op, newOnTop)) <==> KeepsOnTop(v, op)
  {
    match op
    case Attach(name) =>
      DetachReadsBack(v, name);
      DetachKeeps(Order(v), name);
      AttachGraphics(Order(v - {name}), name, newOnTop);
    case Detach(name) =>
      DetachKeeps(Order(v), name);
    case PutBefore(relative, callsign) =>
      if relative == "" || relative != callsign {
        MoveKeeps(Order(v), relative, callsign);
      } else {
        GroupedContiguous(Order(v), callsign);
        SelfMoveExact(Order(v), callsign);
      }
  }

  /** Graphics lies on top before every operation of the run and after the last. */
  ghost predicate AlwaysOnTop(v: Stack, ops: seq<Operation>, newOnTop: bool)
    decreases |ops|
  {
    GraphicsOnTop(Order(v)) && (ops != [] ==> AlwaysOnTop(Step(v, ops[0], newOnTop), ops[1..], newOnTop))
  }

  ghost predicate AllKeepOnTop(v: Stack, ops: seq<Operation>, newOnTop: bool)
    decreases |ops|
  {
    ops != [] ==> KeepsOnTop(v, ops[0]) && AllKeepOnTop(Step(v, ops[0], newOnTop), ops[1..], newOnTop)
  }

  /** Over every run that behaves, graphics stays above its siblings exactly when no operation attaches a
      second graphics layer to a callsign or sinks one. */
  lemma {:induction false} RunOnTopExact(v: Stack, ops: seq<Operation>, newOnTop: bool)
    requires Sound(v) && Guarded(v, ops, newOnTop) && GraphicsOnTop(Order(v))
    ensures AlwaysOnTop(v, ops, newOnTop) <==> AllKeepOnTop(v, ops, newOnTop)
    decreases |ops|
  {
    if ops != [] {
      StepExact(v, ops[0], newOnTop);
      StepOnTopExact(v, ops[0], newOnTop);
      if KeepsOnTop(v, ops[0]) {
        RunOnTopExact(Step(v, ops[0], newOnTop), ops[1..], newOnTop);
      }
    }
  }

  /** A graphics layer on top of a video layer: putting the callsign before itself turns them round. */
  lemma SelfMoveSinks(graphics: string, video: string)
    requires IsGraphics(graphics) && IsSub(video) && !IsGraphics(video) && Primary(graphics) == Primary(video) != ""
    ensures GraphicsOnTop([graphics, video]) && !GraphicsOnTop(Moved([graphics, video], Primary(video), Primary(video)))
  {
    var s := [graphics, video];
    assert IsSub(s[1]) && Primary(s[1]) == Primary(video);
    FirstOfUnique(s, Primary(video), 0);
    SinkingBreaks(s, Primary(video));
  }
}
