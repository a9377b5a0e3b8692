// Printing items as bytes, and what the parser makes of them.
module HidPrint {
  import opened Bytes
  import opened HidItems

  // ---------------------------------------------------------------- items as bytes

  function Lower(v: nat): byte {
    v % 0x100
  }

  /** The operand of the given size code, least significant byte first. */
  function Operand(size: nat, v: nat): (bytes: seq<byte>)
    ensures |bytes| == Width(size)
  {
    if size == 1 then [Lower(v)]
    else if size == 2 then [Lower(v), Lower(v / 0x100)]
    else if size == 3 then [Lower(v), Lower(v / 0x100), Lower(v / 0x1_0000), Lower(v / 0x100_0000)]
    else []
  }

  function Bound(size: nat): nat {
    if size == 1 then 0x100 else if size == 2 then TWO_16 else if size == 3 then TWO_32 else 1
  }

  /** An item that can be written down and read again. */
  predicate Printable(item: Item) {
    && item.kind <= LOCAL && item.tag < 16 && item.bytes <= 3 && item.value < Bound(item.bytes)
    && (item.bytes == 0 <==> !Reads(item.kind, item.tag))
  }

  function Descriptor(item: Item): (d: byte)
    requires Printable(item)
    ensures d / 4 % 4 == item.kind && d / 16 == item.tag && d % 4 == item.bytes && d != EXTENDED
  {
    DescriptorParts(item.tag, item.kind, item.bytes);
    item.tag * 16 + item.kind * 4 + item.bytes
  }

  lemma DescriptorParts(tag: nat, kind: nat, bytes: nat)
    requires tag < 16 && kind <= 2 && bytes <= 3
    ensures var d := tag * 16 + kind * 4 + bytes;
            d < 0x100 && d / 4 % 4 == kind && d / 16 == tag && d % 4 == bytes && d != 0xFC
  {
    var d := tag * 16 + kind * 4 + bytes;
    assert d / 4 == tag * 4 + kind;
  }

  function Print(item: Item): (bytes: seq<byte>)
    requires Printable(item)
    ensures bytes != []
  {
    [Descriptor(item)] + Operand(item.bytes, item.value)
  }

  function PrintAll(items: seq<Item>): (bytes: seq<byte>)
    requires forall i :: 0 <= i < |items| ==> Printable(items[i])
    ensures items != [] ==> bytes != []
  {
    if items == [] then [] else Print(items[0]) + PrintAll(items[1..])
  }

  lemma LittleOfTwo(v: nat)
    requires v < TWO_16
    ensures Little(Operand(2, v)) == v
  {
  }

  lemma LittleOfFour(v: nat)
    requires v < TWO_32
    ensures Little(Operand(3, v)) == v
  {
    var a, b, c := v / 0x100, v / 0x1_0000, v / 0x100_0000;
    assert b == a / 0x100 && c == b / 0x100 && c < 0x100;
    assert v == v % 0x100 + a * 0x100 && a == a % 0x100 + b * 0x100 && b == b % 0x100 + c * 0x100;
  }

  /** The operand of the last item in the map is lost: it reads as zero. */
  function Dulled(items: seq<Item>): seq<Item> {
    if items == [] then [] else items[..|items| - 1] + [items[|items| - 1].(value := 0)]
  }

  lemma DulledRest(items: seq<Item>)
    requires |items| > 1
    ensures Dulled(items)[0] == items[0] && Dulled(items)[1..] == Dulled(items[1..])
  {
    assert items[..|items| - 1][1..] == items[1..][..|items| - 2];
  }

  lemma ReadOperand(data: seq<byte>, p: nat, size: nat, v: nat)
    requires 1 <= size <= 3 && v < Bound(size)
    requires p + Width(size) <= |data| && data[p..p + Width(size)] == Operand(size, v)
    ensures Read(data, p, size) == (if p + Width(size) < |data| then v else 0, p + Width(size), false)
  {
    assert data[p] == Operand(size, v)[0];
    if size == 2 {
      LittleOfTwo(v);
    } else if size == 3 {
      LittleOfFour(v);
    }
  }

  /** Scanning finds the item that was printed, except that data at the very end reads as zero. */
  lemma ScanPrinted(data: seq<byte>, p: nat, item: Item)
    requires Printable(item) && p + |Print(item)| <= |data| && data[p..p + |Print(item)|] == Print(item)
    ensures var end := p + |Print(item)|;
            ScanItem(data, p) == Scan(if end < |data| then item else item.(value := 0), end, false)
            && data[p] != EXTENDED
  {
    assert data[p] == Print(item)[0];
    if Reads(item.kind, item.tag) {
      assert data[p + 1..p + 1 + Width(item.bytes)] == Operand(item.bytes, item.value) by {
        assert data[p + 1..p + |Print(item)|] == data[p..p + |Print(item)|][1..];
      }
      ReadOperand(data, p + 1, item.bytes, item.value);
    }
  }

  // ---------------------------------------------------------------- a run of items

  /** The context after some items, unless an end item stopped the parse. */
  datatype Fed = Stopped | Fed(context: Context)

  function Feed(c: Context, items: seq<Item>): (r: Fed)
    requires InRange(c)
    ensures r.Fed? ==> InRange(r.context)
    decreases |items|
  {
    if items == [] then Fed(c)
    else if EndsRoot(c, items[0]) then Stopped
    else Feed(Interpret(c, items[0]), items[1..])
  }

  lemma {:induction false} FeedConcat(c: Context, a: seq<Item>, b: seq<Item>)
    requires InRange(c)
    ensures Feed(c, a + b) == match Feed(c, a) case Stopped => Stopped case Fed(d) => Feed(d, b)
    decreases |a|
  {
    if a == [] {
      assert a + b == b;
    } else {
      assert (a + b)[1..] == a[1..] + b;
      if !EndsRoot(c, a[0]) {
        FeedConcat(Interpret(c, a[0]), a[1..], b);
      }
    }
  }

  lemma StepPrinted(data: seq<byte>, c: Context, p: nat, item: Item)
    requires InRange(c) && Printable(item)
    requires p + |Print(item)| <= |data| && data[p..p + |Print(item)|] == Print(item)
    ensures var end := p + |Print(item)|;
            var seen := if end < |data| then item else item.(value := 0);
            Step(data, c, p) == Outcome(Interpret(c, seen), end, EndsRoot(c, seen))
  {
    ScanPrinted(data, p, item);
  }

  /** A printed run of items starts with the first item and goes on with the others. */
  lemma PrintedSplit(data: seq<byte>, p: nat, items: seq<Item>)
    requires p <= |data| && items != []
    requires forall i :: 0 <= i < |items| ==> Printable(items[i])
    requires data[p..] == PrintAll(items)
    ensures var end := p + |Print(items[0])|;
            end <= |data| && data[p..end] == Print(items[0]) && data[end..] == PrintAll(items[1..])
            && (end == |data| <==> |items| == 1)
  {
    var width := |Print(items[0])|;
    assert PrintAll(items) == Print(items[0]) + PrintAll(items[1..]);
    assert data[p..p + width] == data[p..][..width];
    assert data[p + width..] == data[p..][width..];
  }

  lemma FeedOne(c: Context, item: Item)
    requires InRange(c)
    ensures Feed(c, [item]) == if EndsRoot(c, item) then Stopped else Fed(Interpret(c, item))
  {
    assert [item][1..] == [];
  }

  /** The last item: its operand reads as zero, and the parse is over. */
  lemma ParseLast(data: seq<byte>, c: Context, p: nat, item: Item)
    requires InRange(c) && Printable(item) && p <= |data| && data[p..] == Print(item)
    ensures var o, seen := Parse(data, c, p), item.(value := 0);
            if EndsRoot(c, seen) then !Succeeds(data, o) else Succeeds(data, o) && o.context == Interpret(c, seen)
  {
    assert data[p..p + |Print(item)|] == data[p..];
    StepPrinted(data, c, p, item);
  }

  /** An item with more to follow. */
  lemma ParseOn(data: seq<byte>, c: Context, p: nat, item: Item) returns (d: Context, end: nat)
    requires InRange(c) && Printable(item) && !EndsRoot(c, item)
    requires p + |Print(item)| < |data| && data[p..p + |Print(item)|] == Print(item)
    ensures d == Interpret(c, item) && InRange(d) && end == p + |Print(item)| && Parse(data, c, p) == Parse(data, d, end)
  {
    d, end := Interpret(c, item), p + |Print(item)|;
    StepPrinted(data, c, p, item);
  }

  lemma ParseStops(data: seq<byte>, c: Context, p: nat, item: Item)
    requires InRange(c) && Printable(item) && EndsRoot(c, item)
    requires p + |Print(item)| < |data| && data[p..p + |Print(item)|] == Print(item)
    ensures !Succeeds(data, Parse(data, c, p))
  {
    StepPrinted(data, c, p, item);
  }

  /** The outcome of parsing the data is the outcome of interpreting some items. */
  predicate Agrees(data: seq<byte>, o: Outcome, r: Fed) {
    match r
    case Stopped => !Succeeds(data, o)
    case Fed(d) => Succeeds(data, o) && o.context == d
  }

  lemma ParseOnlyOne(data: seq<byte>, c: Context, p: nat, items: seq<Item>)
    requires InRange(c) && p <= |data| && |items| == 1 && Printable(items[0]) && data[p..] == PrintAll(items)
    ensures var o := Parse(data, c, p);
            Agrees(data, o, Feed(c, Dulled(items)))
  {
    assert PrintAll(items[1..]) == [] && PrintAll(items) == Print(items[0]);
    ParseLast(data, c, p, items[0]);
    FeedOne(c, items[0].(value := 0));
    assert Dulled(items) == [items[0].(value := 0)];
  }

  lemma FeedDulled(c: Context, items: seq<Item>)
    requires InRange(c) && |items| > 1
    ensures Feed(c, Dulled(items)) == if EndsRoot(c, items[0]) then Stopped else Feed(Interpret(c, items[0]), Dulled(items[1..]))
  {
    DulledRest(items);
  }

  /** A first item with more to follow: parser and items go on from the same context. */
  lemma GoesOn(data: seq<byte>, c: Context, p: nat, items: seq<Item>) returns (d: Context, end: nat)
    requires InRange(c) && |items| > 1 && Printable(items[0]) && !EndsRoot(c, items[0])
    requires p + |Print(items[0])| < |data| && data[p..p + |Print(items[0])|] == Print(items[0])
    ensures end == p + |Print(items[0])| && InRange(d)
    ensures Parse(data, c, p) == Parse(data, d, end)
    ensures Feed(c, Dulled(items)) == Feed(d, Dulled(items[1..]))
  {
    d, end := ParseOn(data, c, p, items[0]);
    FeedDulled(c, items);
  }

  /** One that ends the root collection: both stop. */
  lemma Stops(data: seq<byte>, c: Context, p: nat, items: seq<Item>)
    requires InRange(c) && |items| > 1 && Printable(items[0]) && EndsRoot(c, items[0])
    requires p + |Print(items[0])| < |data| && data[p..p + |Print(items[0])|] == Print(items[0])
    ensures !Succeeds(data, Parse(data, c, p)) && Feed(c, Dulled(items)) == Stopped
  {
    ParseStops(data, c, p, items[0]);
    FeedDulled(c, items);
  }

  /** Parsing printed items is interpreting them one after the other, the last one's operand as zero. */
  lemma {:induction false} ParsePrinted(data: seq<byte>, c: Context, p: nat, items: seq<Item>)
    requires InRange(c) && p <= |data|
    requires forall i :: 0 <= i < |items| ==> Printable(items[i])
    requires data[p..] == PrintAll(items)
    ensures var o := Parse(data, c, p);
            Agrees(data, o, Feed(c, Dulled(items)))
    decreases |items|
  {
    if |items| == 1 {
      ParseOnlyOne(data, c, p, items);
    } else if |items| > 1 {
      PrintedSplit(data, p, items);
      if EndsRoot(c, items[0]) {
        Stops(data, c, p, items);
      } else {
        var d, end := GoesOn(data, c, p, items);
        ParsePrinted(data, d, end, items[1..]);
      }
    }
  }
}
