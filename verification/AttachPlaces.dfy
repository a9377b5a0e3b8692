// Where a newly attached client ends up, name by name.
module AttachPlaces {
  import opened Names
  import opened ZOrder
  import opened ZOrderRuns

  // ---------------------------------------------------------------- reading names

  /** The callsign has no colon of its own. */
  predicate Bare(callsign: string) {
    ':' !in callsign
  }

  lemma FirstColon(name: string, k: nat)
    requires k <= |name| && (k < |name| ==> name[k] == ':') && forall i :: 0 <= i < k ==> name[i] != ':'
    ensures Colon(name) == k
  {
  }

  /** A callsign followed by a colon and the rest: a sub screen of the callsign, graphics if the rest begins
      with g or 1, and nothing else. */
  lemma NamesRead(callsign: string, suffix: string)
    requires Bare(callsign) && suffix != "" && suffix[0] == ':'
    ensures Primary(callsign) == callsign && !IsSub(callsign) && !IsGraphics(callsign)
    ensures var name := callsign + suffix;
            && Primary(name) == callsign && IsSub(name)
            && (IsGraphics(name) <==> |suffix| > 1 && (suffix[1] == 'g' || suffix[1] == '1'))
  {
    var name := callsign + suffix;
    assert forall i :: 0 <= i < |callsign| ==> callsign[i] in callsign;
    assert forall i :: 0 <= i < |callsign| ==> name[i] == callsign[i];
    FirstColon(callsign, |callsign|);
    FirstColon(name, |callsign|);
    assert name[..|callsign|] == callsign;
    assert |suffix| > 1 ==> name[|callsign| + 1] == suffix[1];
  }

  /** One name comes before another in the client map exactly when it is the beginning of the other, or has
      the smaller character where they first differ. */
  lemma {:induction false} LessExact(a: string, b: string)
    ensures Less(a, b) <==> (a < b || exists k :: DiffersAt(a, b, k) && a[k] < b[k])
    decreases |a|
  {
    if a != [] && b != [] {
      if a[0] == b[0] {
        LessExact(a[1..], b[1..]);
        assert a < b <==> a[1..] < b[1..] by {
          assert a == [a[0]] + a[1..] && b == [b[0]] + b[1..];
        }
        forall k | DiffersAt(a, b, k)
          ensures k > 0 && DiffersAt(a[1..], b[1..], k - 1)
        {
        }
        forall k | DiffersAt(a[1..], b[1..], k)
          ensures DiffersAt(a, b, k + 1)
        {
          DiffersLater(a, b, k);
        }
      } else {
        assert DiffersAt(a, b, 0);
      }
    }
  }

  predicate DiffersAt(a: string, b: string, k: int) {
    0 <= k < |a| && k < |b| && a[k] != b[k] && a[..k] == b[..k]
  }

  lemma DiffersLater(a: string, b: string, k: nat)
    requires a != [] && b != [] && a[0] == b[0] && DiffersAt(a[1..], b[1..], k)
    ensures DiffersAt(a, b, k + 1)
  {
    assert a[..k + 1] == [a[0]] + a[1..][..k] && b[..k + 1] == [b[0]] + b[1..][..k];
  }

  // ---------------------------------------------------------------- beside a sibling, or at an end

  /** The topmost sub screen of the callsign. */
  predicate TopmostSub(s: seq<string>, callsign: string, k: nat) {
    && k < |s| && IsSub(s[k]) && Primary(s[k]) == callsign
    && forall i :: 0 <= i < k ==> !(IsSub(s[i]) && Primary(s[i]) == callsign)
  }

  /** t is s with one more name at place k. */
  predicate WithAt(s: seq<string>, t: seq<string>, name: string, k: nat) {
    k <= |s| && |t| == |s| + 1 && t[..k] == s[..k] && t[k] == name && t[k + 1..] == s[k..]
  }

  lemma InsertedAt(s: seq<string>, name: string, newOnTop: bool)
    ensures WithAt(s, Inserted(s, name, newOnTop), name, InsertionPlace(s, name, newOnTop))
  {
  }

  /** The order after attaching is the order of the others with the new name inserted. */
  lemma OrderAfterAttach(v: Stack, name: string, newOnTop: bool)
    ensures Order(Step(v, Attach(name), newOnTop)) == Inserted(Order(v - {name}), name, newOnTop)
  {
    AttachMembers(v, name, newOnTop);
    NumberedReadsBack(Inserted(Order(v - {name}), name, newOnTop));
  }

  /** A sub screen goes directly below its callsign's topmost sub screen, a graphics one directly above it. */
  lemma AttachBeside(v: Stack, name: string, newOnTop: bool, k: nat)
    requires IsSub(name) && TopmostSub(Order(v - {name}), Primary(name), k)
    ensures var s, t := Order(v - {name}), Order(Step(v, Attach(name), newOnTop));
            if IsGraphics(name) then WithAt(s, t, name, k) && t[k + 1] == s[k]
            else WithAt(s, t, name, k + 1) && t[k] == s[k]
  {
    var s := Order(v - {name});
    OrderAfterAttach(v, name, newOnTop);
    InsertedAt(s, name, newOnTop);
    assert FirstSubOf(s, Primary(name)) == k;
    Neighbours(s, Order(Step(v, Attach(name), newOnTop)), name, InsertionPlace(s, name, newOnTop));
  }

  lemma Neighbours(s: seq<string>, t: seq<string>, name: string, k: nat)
    requires WithAt(s, t, name, k)
    ensures k < |s| ==> t[k + 1] == s[k]
    ensures k > 0 ==> t[k - 1] == s[k - 1]
  {
    if k < |s| {
      assert t[k + 1..][0] == s[k..][0];
    }
    if k > 0 {
      assert t[..k][k - 1] == s[..k][k - 1];
    }
  }

  /** Everything else goes on top, or to the bottom when the compositor is so configured. */
  lemma AttachAtEnd(v: Stack, name: string, newOnTop: bool)
    requires !IsSub(name) || forall n | n in v && n != name :: !(IsSub(n) && Primary(n) == Primary(name))
    ensures var s, t := Order(v - {name}), Order(Step(v, Attach(name), newOnTop));
            t == if newOnTop then [name] + s else s + [name]
  {
    var s := Order(v - {name});
    OrderAfterAttach(v, name, newOnTop);
    assert forall i :: 0 <= i < |s| ==> s[i] in s;
  }

  // ---------------------------------------------------------------- graphics and video by name

  lemma OrderOfOne(name: string, newOnTop: bool)
    ensures Order(Step(map[], Attach(name), newOnTop)) == [name]
    ensures Step(map[], Attach(name), newOnTop).Keys == {name}
  {
    var empty: Stack := map[];
    assert empty - {name} == empty;
    OrderReadsBack(empty);
    assert Order(empty) == [];
    AttachAtEnd(empty, name, newOnTop);
  }

  lemma SecondBeside(first: string, second: string, newOnTop: bool)
    requires first != second && IsSub(first) && IsSub(second) && Primary(first) == Primary(second)
    ensures var v := Step(map[], Attach(first), newOnTop);
            Order(Step(v, Attach(second), newOnTop)) == if IsGraphics(second) then [second, first] else [first, second]
  {
    var v := Step(map[], Attach(first), newOnTop);
    OrderOfOne(first, newOnTop);
    assert v - {second} == v;
    AttachBeside(v, second, newOnTop, 0);
    var t := Order(Step(v, Attach(second), newOnTop));
    assert |t| == 2;
  }

  /** Whichever is attached first, and wherever new clients go: graphics above video. */
  lemma GraphicsAboveVideo(callsign: string, newOnTop: bool)
    requires Bare(callsign)
    ensures var graphics, video := callsign + ":graphics", callsign + ":video";
            && Order(Step(Step(map[], Attach(video), newOnTop), Attach(graphics), newOnTop)) == [graphics, video]
            && Order(Step(Step(map[], Attach(graphics), newOnTop), Attach(video), newOnTop)) == [graphics, video]
  {
    NamesRead(callsign, ":graphics");
    NamesRead(callsign, ":video");
    Differ(callsign, ":graphics", ":video");
    SecondBeside(callsign + ":video", callsign + ":graphics", newOnTop);
    SecondBeside(callsign + ":graphics", callsign + ":video", newOnTop);
  }

  lemma Differ(callsign: string, a: string, b: string)
    requires |a| > 1 && |b| > 1 && a[1] != b[1]
    ensures callsign + a != callsign + b
  {
    assert (callsign + a)[|callsign| + 1] == a[1] && (callsign + b)[|callsign| + 1] == b[1];
  }

  /** Later video layers go below the first one. */
  lemma SecondVideoBelow(callsign: string, newOnTop: bool)
    requires Bare(callsign)
    ensures var video, subs := callsign + ":video", callsign + ":subs";
            Order(Step(Step(map[], Attach(video), newOnTop), Attach(subs), newOnTop)) == [video, subs]
  {
    NamesRead(callsign, ":video");
    NamesRead(callsign, ":subs");
    Differ(callsign, ":video", ":subs");
    SecondBeside(callsign + ":video", callsign + ":subs", newOnTop);
  }
}
