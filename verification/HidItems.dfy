// The items of a HID report map (section 6.2.2 of the USB Device Class Definition for HID 1.11): how
// they are cut out of the bytes, and what each of them does to the tree under construction.
module HidItems {
  import opened Bytes
  import opened HidForest

  // ---------------------------------------------------------------- cutting items out of the bytes

  const MAIN: nat := 0
  const GLOBAL: nat := 1
  const LOCAL: nat := 2

  const INPUT_ITEM: nat := 8
  const OUTPUT_ITEM: nat := 9
  const COLLECTION_ITEM: nat := 10
  const FEATURE_ITEM: nat := 11
  const END_ITEM: nat := 12

  const USAGE_PAGE_ITEM: nat := 0
  const SIZE_ITEM: nat := 7
  const ID_ITEM: nat := 8
  const COUNT_ITEM: nat := 9

  const USAGE_ITEM: nat := 0
  const MINIMUM_ITEM: nat := 1
  const MAXIMUM_ITEM: nat := 2

  const EXTENDED: byte := 0xFC

  /** One item: type and tag from the descriptor, size code, and the operand read. */
  datatype Item = Item(kind: nat, tag: nat, bytes: nat, value: nat)

  /** An item, where the next one begins, and whether reading it failed. */
  datatype Scan = Scan(item: Item, next: nat, failure: bool)

  /** The operand of the given size code; data that reaches the very end of the map reads as zero. */
  function Read(data: seq<byte>, p: nat, size: nat): (r: (nat, nat, bool))
    ensures !r.2 ==> r.1 > p
    ensures r.0 < TWO_32
  {
    if size == 1 then (if p + 1 < |data| then data[p] else 0, p + 1, false)
    else if size == 2 then (if p + 2 < |data| then Little(data[p..p + 2]) else 0, p + 2, false)
    else if size == 3 then (if p + 4 < |data| then Little(data[p..p + 4]) else 0, p + 4, false)
    else (0, p, true)
  }

  /** Little-endian value. */
  function Little(bytes: seq<byte>): (v: nat)
    requires |bytes| == 2 || |bytes| == 4
    ensures v < if |bytes| == 2 then TWO_16 else TWO_32
  {
    if |bytes| == 2 then bytes[0] as nat + bytes[1] as nat * 0x100
    else bytes[0] as nat + bytes[1] as nat * 0x100 + bytes[2] as nat * 0x1_0000 + bytes[3] as nat * 0x100_0000
  }

  /** Operand bytes of a size code. */
  function Width(size: nat): nat {
    if size == 3 then 4 else if size <= 2 then size else 0
  }

  /** The weight of the k-th operand byte. */
  function Weight(k: nat): (w: nat)
    ensures w > 0
  {
    if k == 0 then 1 else if k == 1 then 0x100 else if k == 2 then 0x1_0000 else 0x100_0000
  }

  lemma Digits(a: byte, b: byte, c: byte, d: byte)
    ensures var v := a + b * 0x100 + c * 0x1_0000 + d * 0x100_0000;
            v % 0x100 == a && v / 0x100 % 0x100 == b && v / 0x1_0000 % 0x100 == c && v / 0x100_0000 == d
  {
    var v := a + b * 0x100 + c * 0x1_0000 + d * 0x100_0000;
    assert v / 0x100 == b + c * 0x100 + d * 0x1_0000;
    assert v / 0x1_0000 == c + d * 0x100;
  }

  /** Reading fails exactly without operand bytes; otherwise it moves over all of them, and gives them, the lowest
      first, unless the operand reaches the end of the map or passes it: then it gives zero. */
  lemma ReadExact(data: seq<byte>, p: nat, size: nat)
    requires size <= 3
    ensures var (v, next, failed) := Read(data, p, size);
            && (failed <==> size == 0) && next == p + Width(size)
            && (next >= |data| ==> v == 0)
            && (next < |data| ==> forall k :: 0 <= k < Width(size) ==> v / Weight(k) % 0x100 == data[p + k])
            && (Width(size) < 4 ==> v < Weight(Width(size)))
  {
    if size == 2 && p + 2 < |data| {
      Digits(data[p], data[p + 1], 0, 0);
    } else if size == 3 && p + 4 < |data| {
      Digits(data[p], data[p + 1], data[p + 2], data[p + 3]);
    }
  }

  /** End of collection and reserved items have no operand; all others are read, whatever they mean. */
  predicate Reads(kind: nat, tag: nat) {
    kind <= LOCAL && !(kind == MAIN && tag == END_ITEM)
  }

  function ScanItem(data: seq<byte>, p: nat): (s: Scan)
    requires p < |data|
    ensures s.next > p && s.item.value < TWO_32
  {
    var d := data[p];
    var kind, tag, bytes := d / 4 % 4, d / 16, d % 4;
    if d == EXTENDED then Scan(Item(kind, tag, bytes, 0), p + 1, true)
    else if Reads(kind, tag) then
      var (value, next, failure) := Read(data, p + 1, bytes);
      Scan(Item(kind, tag, bytes, value), if failure then p + 1 else next, failure)
    else Scan(Item(kind, tag, bytes, 0), p + 1, false)
  }

  // ---------------------------------------------------------------- interpreting items

  /** No report yet, or its number. */
  datatype Target = None | At(report: nat)

  /** The variables of the parser. */
  datatype Context = Context(forest: Forest, current: nat, report: Target, usagePage: nat, count: nat, size: nat,
                             logicalMin: nat, logicalMax: nat, usages: seq<nat>)

  ghost predicate Sound(c: Context) {
    && WellFormed(c.forest) && c.current < |c.forest.collections|
    && (c.report.At? ==> c.report.report < |c.forest.reports|)
  }

  /** Indices are in range; what the functions below need. */
  predicate InRange(c: Context) {
    && c.current < |c.forest.collections|
    && (forall i :: 0 <= i < |c.forest.collections| ==> c.forest.collections[i].parent < |c.forest.collections|)
    && (c.report.At? ==> c.report.report < |c.forest.reports|)
  }

  /** The page in the upper half, sixteen bits of the usage in the lower. */
  function MakeUsage(page: nat, usage: nat): (u: nat)
    ensures u / 0x1_0000 == page && u % 0x1_0000 == usage % 0x1_0000
  {
    page * 0x1_0000 + usage % 0x1_0000
  }

  function ClearLocals(c: Context): Context {
    c.(usages := [], logicalMin := 0, logicalMax := 0)
  }

  function NewReport(c: Context, id: byte): Context
    requires InRange(c)
  {
    c.(forest := AddReport(c.forest, c.current, id), report := At(|c.forest.reports|))
  }

  /** An input, output or feature item: an element of the report at hand, made up when there is none. */
  function Collect(c: Context, kind: Kind, flags: nat): Context
    requires InRange(c)
  {
    var d := if c.report.None? then NewReport(c, 0) else c;
    d.(forest := AddElement(d.forest, d.report.report,
                            Element(kind, d.usages, flags % 0x100, d.count, d.size, d.logicalMin, d.logicalMax)))
  }

  function Open(c: Context, category: byte, usage: nat): Context
    requires InRange(c)
  {
    c.(forest := AddCollection(c.forest, c.current, category, usage), current := |c.forest.collections|)
  }

  /** Is this an end of collection at a root collection? */
  predicate EndsRoot(c: Context, item: Item)
    requires InRange(c)
  {
    item.kind == MAIN && item.tag == END_ITEM && c.forest.collections[c.current].category == ROOT
  }

  function MainItem(c: Context, item: Item): Context
    requires InRange(c)
  {
    if item.tag == INPUT_ITEM then Collect(c, Input, item.value)
    else if item.tag == OUTPUT_ITEM then Collect(c, Output, item.value)
    else if item.tag == FEATURE_ITEM then Collect(c, Feature, item.value)
    else if item.tag == COLLECTION_ITEM then Open(c, item.value % 0x100, if c.usages == [] then 0 else c.usages[0])
    else if item.tag == END_ITEM && !EndsRoot(c, item) then c.(current := c.forest.collections[c.current].parent)
    else c
  }

  function GlobalItem(c: Context, item: Item): Context
    requires InRange(c)
  {
    if item.tag == USAGE_PAGE_ITEM then c.(usagePage := item.value % 0x1_0000)
    else if item.tag == SIZE_ITEM then c.(size := item.value % 0x1_0000)
    else if item.tag == ID_ITEM then NewReport(c, item.value % 0x100)
    else if item.tag == COUNT_ITEM then c.(count := item.value % 0x1_0000)
    else c
  }

  function LocalItem(c: Context, item: Item): Context {
    if item.tag == USAGE_ITEM then
      c.(usages := c.usages + [if item.bytes == 3 then item.value else MakeUsage(c.usagePage, item.value)])
    else if item.tag == MINIMUM_ITEM then c.(logicalMin := item.value)
    else if item.tag == MAXIMUM_ITEM then c.(logicalMax := item.value)
    else c
  }

  /** What an item does; the extended descriptor never gets here. */
  function Interpret(c: Context, item: Item): (d: Context)
    requires InRange(c)
    ensures InRange(d)
  {
    if item.kind == MAIN then ClearLocals(MainItem(c, item))
    else if item.kind == GLOBAL then GlobalItem(c, item)
    else if item.kind == LOCAL then LocalItem(c, item)
    else c
  }

  // ---------------------------------------------------------------- the whole map

  datatype Outcome = Outcome(context: Context, position: nat, failure: bool)

  /** One round of the parser's loop. */
  function Step(data: seq<byte>, c: Context, p: nat): (o: Outcome)
    requires p < |data| && InRange(c)
    ensures InRange(o.context) && o.position > p
  {
    var s := ScanItem(data, p);
    if data[p] == EXTENDED then Outcome(c, s.next, true)
    else Outcome(Interpret(c, s.item), s.next, s.failure || EndsRoot(c, s.item))
  }

  function Parse(data: seq<byte>, c: Context, p: nat): (o: Outcome)
    requires InRange(c)
    ensures InRange(o.context)
    decreases |data| - p
  {
    if p >= |data| then Outcome(c, p, false)
    else
      var o := Step(data, c, p);
      if o.failure then o else Parse(data, o.context, o.position)
  }

  predicate Succeeds(data: seq<byte>, o: Outcome) {
    !o.failure && o.position == |data|
  }

  /** The parser's variables before the first item. */
  function Initial(f: Forest): Context {
    Context(f, 0, None, 0, 0, 0, 0, 0, [])
  }
}
