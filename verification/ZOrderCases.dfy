// Where the compositor does not behave: runs from an empty compositor that leave two clients on one
// layer, or a callsign in two pieces.
module ZOrderCases {
  import opened Names
  import opened ZOrder
  import opened ZOrderRuns

  /** A name without a sub screen part is its own callsign. */
  predicate Plain(name: string) {
    !IsSub(name) && Primary(name) == name
  }

  lemma PlainName(name: string)
    requires !IsSub(name)
    ensures Plain(name)
  {
  }

  // ---------------------------------------------------------------- attaching, name by name

  lemma RunFirst(v: Stack, op: Operation, rest: seq<Operation>, newOnTop: bool)
    ensures Run(v, [op] + rest, newOnTop) == Run(Step(v, op, newOnTop), rest, newOnTop)
  {
    assert ([op] + rest)[1..] == rest;
  }

  lemma AttachNew(s: seq<string>, name: string)
    requires NoRepeats(s) && name !in s
    ensures Step(Numbered(s), Attach(name), true) == Numbered(Inserted(s, name, true))
  {
    NumberedReadsBack(s);
    assert Numbered(s) - {name} == Numbered(s);
  }

  lemma InsertedOnTop(s: seq<string>, name: string)
    requires NoRepeats(s) && name !in s && InsertionPlace(s, name, true) == 0
    ensures Inserted(s, name, true) == [name] + s && NoRepeats([name] + s)
  {
  }

  /** A plain name goes on top of a freshly numbered stack. */
  lemma RunAttach(s: seq<string>, name: string, rest: seq<Operation>)
    requires NoRepeats(s) && name !in s && !IsSub(name)
    ensures NoRepeats([name] + s)
    ensures Run(Numbered(s), [Attach(name)] + rest, true) == Run(Numbered([name] + s), rest, true)
  {
    InsertedOnTop(s, name);
    AttachNew(s, name);
    RunFirst(Numbered(s), Attach(name), rest, true);
  }

  lemma NumberedNothing()
    ensures Numbered([]) == map[]
  {
  }

  /** Attaching the names of a list from the last to the first. */
  function Attaches(names: seq<string>): seq<Operation> {
    if names == [] then [] else Attaches(names[1..]) + [Attach(names[0])]
  }

  lemma Regroup<T>(a: seq<T>, x: T, rest: seq<T>)
    ensures a + ([x] + rest) == (a + [x]) + rest
  {
  }

  lemma {:induction false} RunAttaches(names: seq<string>, rest: seq<Operation>)
    requires NoRepeats(names) && forall i :: 0 <= i < |names| ==> !IsSub(names[i])
    ensures Run(map[], Attaches(names) + rest, true) == Run(Numbered(names), rest, true)
    decreases |names|
  {
    if names == [] {
      NumberedNothing();
      assert [] + rest == rest;
    } else {
      var name, others := names[0], names[1..];
      assert forall i :: 0 <= i < |others| ==> others[i] == names[i + 1];
      RunAttaches(others, [Attach(name)] + rest);
      RunAttach(others, name, rest);
      assert [name] + others == names;
      Regroup(Attaches(others), Attach(name), rest);
    }
  }

  // ---------------------------------------------------------------- two clients on one layer

  /** A layer above the move that points into the rewritten places is given out twice. */
  lemma GapSharesLayer(v: Stack, w: Stack, s: seq<string>, t: seq<string>, lo: nat, hi: nat)
    requires ReadsBack(v, s) && Rearranged(s, t, lo, hi) && Rewritten(v, w, t, lo, hi)
    requires 0 < lo <= v[s[lo - 1]] < hi
    ensures !DistinctLayers(w)
  {
    var k := v[s[lo - 1]];
    assert t[lo - 1] == s[lo - 1] && w[t[lo - 1]] == k == w[t[k]];
  }

  predicate Different(a: string, b: string, c: string, d: string) {
    a != b && a != c && a != d && b != c && b != d && c != d
  }

  /** What is left of four numbered clients when the topmost is detached: layers one, two and three. */
  lemma DetachTop(a: string, b: string, c: string, d: string)
    requires Different(a, b, c, d)
    ensures var v := Numbered([a, b, c, d]) - {a};
            v.Keys == {b, c, d} && v[b] == 1 && v[c] == 2 && v[d] == 3
  {
    var t := [a, b, c, d];
    PlaceUnique(t, 1);
    PlaceUnique(t, 2);
    PlaceUnique(t, 3);
  }

  lemma ThreeInOrder(v: Stack, b: string, c: string, d: string)
    requires v.Keys == {b, c, d} && v[b] == 1 && v[c] == 2 && v[d] == 3
    ensures DistinctLayers(v) && Order(v) == [b, c, d]
  {
    assert Ascending(LayersAlong(v, [b, c, d]));
    AscendingReadsBack(v, [b, c, d]);
  }

  lemma LastBeforeMiddle(b: string, c: string, d: string)
    requires !IsSub(b) && !IsSub(c) && !IsSub(d) && b != c && b != d && c != d && c != ""
    ensures Moved([b, c, d], c, d) == [b, d, c] && Rearranged([b, c, d], [b, d, c], 1, 3)
  {
    PlainName(b);
    PlainName(c);
    PlainName(d);
    MovedUp([b, c, d], c, d, 1, 2, 3);
    ExchangeRearranges([b, c, d], 1, 2, 3);
    assert Exchange([b, c, d], 1, 2, 3) == [b, d, c];
  }

  /** Layers one, two and three: moving the last client up gives it the topmost one's layer. */
  lemma MoveShares(v: Stack, b: string, c: string, d: string)
    requires v.Keys == {b, c, d} && v[b] == 1 && v[c] == 2 && v[d] == 3
    requires !IsSub(b) && !IsSub(c) && !IsSub(d) && b != c && b != d && c != d && c != ""
    ensures !DistinctLayers(Step(v, PutBefore(c, d), true))
  {
    ThreeInOrder(v, b, c, d);
    OrderReadsBack(v);
    LastBeforeMiddle(b, c, d);
    RearrangedLayers(v, [b, c, d], [b, d, c], 1, 3);
    GapSharesLayer(v, Renumbered(v, [b, c, d], [b, d, c]), [b, c, d], [b, d, c], 1, 3);
  }

  lemma DetachThenMove(a: string, b: string, c: string, d: string)
    requires Different(a, b, c, d)
    ensures Run(Numbered([a, b, c, d]), [Detach(a)] + ([PutBefore(c, d)] + []), true)
         == Step(Numbered([a, b, c, d]) - {a}, PutBefore(c, d), true)
  {
    RunFirst(Numbered([a, b, c, d]), Detach(a), [PutBefore(c, d)] + [], true);
    RunFirst(Numbered([a, b, c, d]) - {a}, PutBefore(c, d), [], true);
  }

  lemma FourAttaches(a: string, b: string, c: string, d: string)
    ensures Attaches([a, b, c, d]) + ([Detach(a)] + ([PutBefore(c, d)] + []))
         == [Attach(d), Attach(c), Attach(b), Attach(a), Detach(a), PutBefore(c, d)]
  {
    assert [a, b, c, d][1..] == [b, c, d] && [b, c, d][1..] == [c, d] && [c, d][1..] == [d] && [d][1..] == [];
    assert Attaches([d]) == [Attach(d)];
    assert Attaches([c, d]) == [Attach(d), Attach(c)];
    assert Attaches([b, c, d]) == [Attach(d), Attach(c), Attach(b)];
  }

  /** Any four different plain clients attached, the topmost one detached, the last one put before the
      middle one of the others: two clients share a layer. */
  lemma GapBreaksMove(a: string, b: string, c: string, d: string)
    requires Different(a, b, c, d) && !IsSub(a) && !IsSub(b) && !IsSub(c) && !IsSub(d) && c != ""
    ensures !DistinctLayers(Run(map[], [Attach(d), Attach(c), Attach(b), Attach(a), Detach(a), PutBefore(c, d)], true))
  {
    RunAttaches([a, b, c, d], [Detach(a)] + ([PutBefore(c, d)] + []));
    FourAttaches(a, b, c, d);
    DetachThenMove(a, b, c, d);
    DetachTop(a, b, c, d);
    MoveShares(Numbered([a, b, c, d]) - {a}, b, c, d);
  }

  // ---------------------------------------------------------------- a callsign in two pieces

  lemma TwoPieces(x: string, y: string, sub: string)
    requires Primary(sub) == Primary(x) != Primary(y)
    ensures !Grouped([x, y, sub])
  {
    var p := Callsigns([x, y, sub]);
    assert p[0] == p[2] != p[1];
  }

  lemma ThreeOf<T>(a: T, b: T, c: T)
    ensures [a] + ([b] + ([c] + [])) == [a, b, c] && [a] + ([b] + [c]) == [a, b, c]
  {
  }

  /** A sub screen of a callsign, then another client, then the callsign itself: the other client ends up
      between the two layers. */
  lemma AttachSplits(x: string, y: string, sub: string)
    requires !IsSub(x) && !IsSub(y) && IsSub(sub) && Primary(sub) == x != y
    ensures !Grouped(Order(Run(map[], [Attach(sub), Attach(y), Attach(x)], true)))
  {
    PlainName(x);
    PlainName(y);
    RunSub(sub, [Attach(y)] + ([Attach(x)] + []));
    RunAttach([sub], y, [Attach(x)] + []);
    RunAttach([y] + [sub], x, []);
    ThreeOf(x, y, sub);
    NumberedReadsBack([x, y, sub]);
    TwoPieces(x, y, sub);
    ThreeOf(Attach(sub), Attach(y), Attach(x));
  }

  lemma RunSub(sub: string, rest: seq<Operation>)
    ensures Run(map[], [Attach(sub)] + rest, true) == Run(Numbered([sub]), rest, true)
  {
    NumberedNothing();
    AttachNew([], sub);
    InsertedOnTop([], sub);
    assert [sub] + [] == [sub];
    RunFirst(map[], Attach(sub), rest, true);
  }
}
