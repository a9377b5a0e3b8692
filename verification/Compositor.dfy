// The z-order engine of the Compositor plugin: a map of clients, each storing its own layer,
// that is sorted, cut, re-inserted and partly renumbered in place.
module Compositor {
  import opened Names
  import opened ZOrder
  import opened ZOrderRuns

  type uint16 = n: nat | n < 0x1_0000

  /** static_cast<uint16_t>(~0), used for "not found". */
  const NOT_FOUND: uint16 := 0xFFFF

  /** The part of Exchange::IComposition::IClient that matters here: ZOrder(). */
  class Client {
    var layer: uint16

    constructor (layer: uint16)
      ensures this.layer == layer
    {
      this.layer := layer;
    }
  }

  datatype ClientInfo = ClientInfo(layer: uint16, name: string, access: Client)

  type Clients = map<string, Client>

  function NamesOf(list: seq<ClientInfo>): (s: seq<string>)
    ensures |s| == |list|
    ensures forall i :: 0 <= i < |s| ==> s[i] == list[i].name
  {
    seq(|list|, i requires 0 <= i < |list| => list[i].name)
  }

  ghost function StackOf(entries: Clients): Stack
    reads entries.Values
  {
    map n | n in entries :: entries[n].layer
  }

  /** No two names share a client object. */
  ghost predicate Separate(entries: Clients) {
    forall n, m | n in entries && m in entries && n != m :: entries[n] != entries[m]
  }

  /** Every entry of the list describes the client attached under its name. */
  ghost predicate Describes(list: seq<ClientInfo>, entries: Clients)
    reads entries.Values
  {
    forall i :: 0 <= i < |list| ==>
      list[i].name in entries && list[i].access == entries[list[i].name] && list[i].layer == list[i].access.layer
  }

  /** The insertion sort's invariant: s holds, sorted, the keys already taken from the map. */
  ghost predicate SortedSoFar(v: Stack, s: seq<string>, rest: set<string>) {
    && rest <= v.Keys
    && (forall n :: n in s <==> n in v && n !in rest)
    && (forall i, n :: 0 <= i < |s| && n in rest ==> Less(s[i], n))
    && (forall i, j :: 0 <= i < j < |s| ==> Above(v, s[i], s[j]))
  }

  lemma InsertAbove(v: Stack, s: seq<string>, k: nat, name: string)
    requires name in v && k <= |s| && forall i :: 0 <= i < |s| ==> s[i] in v && Less(s[i], name)
    requires forall i, j :: 0 <= i < j < |s| ==> Above(v, s[i], s[j])
    requires forall i :: 0 <= i < k ==> v[s[i]] <= v[name]
    requires k < |s| ==> v[name] < v[s[k]]
    ensures var t := s[..k] + [name] + s[k..];
            forall i, j :: 0 <= i < j < |t| ==> t[i] in v && t[j] in v && Above(v, t[i], t[j])
  {
    var t := s[..k] + [name] + s[k..];
    InsertContents(s, k, name);
    forall i, j | 0 <= i < j < |t|
      ensures t[i] in v && t[j] in v && Above(v, t[i], t[j])
    {
      if i == k {
        assert j - 1 == k || Above(v, s[k], s[j - 1]);
      }
    }
  }

  lemma InsertNext(v: Stack, s: seq<string>, rest: set<string>, k: nat, name: string)
    requires SortedSoFar(v, s, rest) && IsLeast(name, rest) && k <= |s|
    requires forall i :: 0 <= i < k ==> v[s[i]] <= v[name]
    requires k < |s| ==> v[name] < v[s[k]]
    ensures SortedSoFar(v, s[..k] + [name] + s[k..], rest - {name})
  {
    InsertAbove(v, s, k, name);
    InsertContents(s, k, name);
    var t := s[..k] + [name] + s[k..];
    forall i, n | 0 <= i < |t| && n in rest - {name}
      ensures Less(t[i], n)
    {
      assert t[i] in s || t[i] == name;
    }
  }

  lemma SortedToTheEnd(v: Stack, s: seq<string>)
    requires SortedSoFar(v, s, {})
    ensures s == Order(v)
  {
    assert ReadsBack(v, s);
    OrderReadsBack(v);
    OrderUnique(v, s, Order(v));
  }

  lemma NamesOfInsert(list: seq<ClientInfo>, k: nat, entry: ClientInfo)
    requires k <= |list|
    ensures NamesOf(list[..k] + [entry] + list[k..]) == NamesOf(list)[..k] + [entry.name] + NamesOf(list)[k..]
  {
    InsertContents(list, k, entry);
  }

  lemma DescribesInsert(list: seq<ClientInfo>, entries: Clients, k: nat, entry: ClientInfo)
    requires Describes(list, entries) && Describes([entry], entries) && k <= |list|
    ensures Describes(list[..k] + [entry] + list[k..], entries)
  {
    InsertContents(list, k, entry);
    assert [entry][0] == entry;
  }

  /** Insertion sort over the client map, in the key order of the map. */
  method GetZOrderList(entries: Clients) returns (list: seq<ClientInfo>)
    ensures NamesOf(list) == Order(StackOf(entries))
    ensures Describes(list, entries)
  {
    list := [];
    var rest := entries.Keys;
    ghost var v := StackOf(entries);
    while rest != {}
      invariant Describes(list, entries)
      invariant SortedSoFar(v, NamesOf(list), rest)
      decreases |rest|
    {
      ghost var least := LeastExists(rest);
      var name :| name in rest && IsLeast(name, rest);
      var entry := ClientInfo(entries[name].layer, name, entries[name]);
      var loop := FirstAbove(list, entry.layer);
      ghost var s := NamesOf(list);
      InsertNext(v, s, rest, loop, name);
      NamesOfInsert(list, loop, entry);
      DescribesInsert(list, entries, loop, entry);
      list := list[..loop] + [entry] + list[loop..];
      rest := rest - {name};
    }
    SortedToTheEnd(v, NamesOf(list));
  }

  /** The scan for the insertion point: past every entry at the same layer or above. */
  method FirstAbove(list: seq<ClientInfo>, layer: uint16) returns (loop: nat)
    ensures loop <= |list|
    ensures forall i :: 0 <= i < loop ==> list[i].layer <= layer
    ensures loop < |list| ==> layer < list[loop].layer
  {
    loop := 0;
    while loop < |list| && list[loop].layer <= layer
      invariant loop <= |list|
      invariant forall i :: 0 <= i < loop ==> list[i].layer <= layer
    {
      loop := loop + 1;
    }
  }

  ghost function Accesses(list: seq<ClientInfo>): set<Client> {
    set e | e in list :: e.access
  }

  ghost predicate DistinctAccesses(list: seq<ClientInfo>) {
    forall i, j :: 0 <= i < j < |list| ==> list[i].access != list[j].access
  }

  /** Consecutive layers, from index on, for the clients of the list. */
  method SetZOrderList(list: seq<ClientInfo>, index: uint16)
    requires DistinctAccesses(list) && index + |list| <= 0x1_0000
    modifies Accesses(list)
    ensures forall i :: 0 <= i < |list| ==> list[i].access.layer == index + i
  {
    var loop := 0;
    while loop < |list|
      invariant loop <= |list|
      invariant forall i :: 0 <= i < loop ==> list[i].access.layer == index + i
    {
      list[loop].access.layer := index + loop;
      loop := loop + 1;
    }
  }

  /** The part of the list that Rearrange renumbers, in its new order. */
  function Reordered<T>(list: seq<T>, location: nat, start: nat, end: nat): seq<T>
    requires if location == 0 then start + end <= |list| else end <= location <= |list|
  {
    if location == 0 then list[start..start + end] + list[..start]
    else if location == end then []
    else list[end..location] + list[..end]
  }

  /** Moves the first end entries behind those up to location, or, when location is 0, the end
      entries from start on to the front; the entries after both keep their layers. */
  method Rearrange(list: seq<ClientInfo>, index: uint16, location: uint16, start: uint16, end: uint16)
    requires DistinctAccesses(list) && index + |list| <= 0x1_0000
    requires location != start
    requires if location == 0 then start + end <= |list| else start == 0 && end <= location <= |list|
    modifies Accesses(list)
    ensures var out := Reordered(list, location, start, end);
            && (forall i :: 0 <= i < |out| ==> out[i].access.layer == index + i)
            && (forall c :: c in Accesses(list) && c !in Accesses(out) ==> c.layer == old(c.layer))
  {
    if location == 0 {
      var selected := MoveUp(list, start, end);
      DistinctReordered(list, location, start, end);
      SetZOrderList(selected, index);
    } else {
      var remaining, selected := MoveDown(list, location, end);
      if |remaining| != 0 {
        DistinctReordered(list, location, start, end);
        SetZOrderList(remaining + selected, index);
      }
    }
  }

  lemma DistinctReordered(list: seq<ClientInfo>, location: nat, start: nat, end: nat)
    requires DistinctAccesses(list)
    requires if location == 0 then start + end <= |list| else end <= location <= |list|
    ensures DistinctAccesses(Reordered(list, location, start, end))
    ensures Accesses(Reordered(list, location, start, end)) <= Accesses(list)
  {
    var mid := if location == 0 then start else end;
    var hi := if location == 0 then start + end else location;
    ExchangeSource(list, 0, mid, hi);
    var out := Reordered(list, location, start, end);
    if out != [] {
      assert forall i :: 0 <= i < |out| ==> out[i] == Exchange(list, 0, mid, hi)[i] == list[Source(0, mid, hi, i)];
    }
  }

  /** x limited to the range from lo to hi. */
  function Clamp(x: nat, lo: nat, hi: nat): nat
    requires lo <= hi
  {
    if x < lo then lo else if x > hi then hi else x
  }

  /** std::list::erase at the iterator. */
  function Erased<T>(list: seq<T>, loop: nat): seq<T>
    requires loop < |list|
  {
    list[..loop] + list[loop + 1..]
  }

  lemma EraseBehind<T>(kept: seq<T>, list: seq<T>, seen: nat, remaining: seq<T>)
    requires seen < |list| && remaining == kept + list[seen..]
    ensures remaining[|kept|] == list[seen]
    ensures Erased(remaining, |kept|) == kept + list[seen + 1..]
    ensures remaining == (kept + [list[seen]]) + list[seen + 1..]
  {
  }

  lemma TakeNext<T>(list: seq<T>, from: nat, at: nat)
    requires from <= at < |list|
    ensures list[from..at] + [list[at]] == list[from..at + 1]
  {
  }

  /** After the upward loop has seen so many entries: those it keeps, those it takes out, and what remains. */
  predicate UpState<T(==)>(list: seq<T>, start: nat, end: nat, seen: nat, kept: seq<T>, selected: seq<T>, remaining: seq<T>)
    requires start + end <= |list|
  {
    && seen <= |list| && remaining == kept + list[seen..]
    && kept == list[..Clamp(seen, 0, start)] && selected == list[start..Clamp(seen, start, start + end)]
  }

  lemma UpSkip<T>(list: seq<T>, start: nat, end: nat, seen: nat, kept: seq<T>, selected: seq<T>, remaining: seq<T>)
    requires start + end <= |list| && UpState(list, start, end, seen, kept, selected, remaining) && seen < start
    ensures UpState(list, start, end, seen + 1, kept + [list[seen]], selected, remaining)
  {
  }

  lemma UpTake<T>(list: seq<T>, start: nat, end: nat, seen: nat, kept: seq<T>, selected: seq<T>, remaining: seq<T>)
    requires start + end <= |list| && UpState(list, start, end, seen, kept, selected, remaining) && start <= seen < start + end
    ensures remaining[|kept|] == list[seen]
    ensures UpState(list, start, end, seen + 1, kept, selected + [list[seen]], Erased(remaining, |kept|))
  {
    EraseBehind(kept, list, seen, remaining);
    TakeNext(list, start, seen);
  }

  lemma UpDrop<T>(list: seq<T>, start: nat, end: nat, seen: nat, kept: seq<T>, selected: seq<T>, remaining: seq<T>)
    requires start + end <= |list| && UpState(list, start, end, seen, kept, selected, remaining) && start + end <= seen < |list|
    ensures UpState(list, start, end, seen + 1, kept, selected, Erased(remaining, |kept|))
  {
    EraseBehind(kept, list, seen, remaining);
  }

  /** The upward loop's counters after so many entries. */
  predicate UpCounters(start: nat, end: nat, seen: nat, loop: nat, toSkip: nat, toTake: nat) {
    loop == Clamp(seen, 0, start) && toSkip == start - loop && toTake == start + end - Clamp(seen, start, start + end)
  }

  lemma UpCount(start: nat, end: nat, seen: nat, loop: nat, toSkip: nat, toTake: nat)
    requires UpCounters(start, end, seen, loop, toSkip, toTake)
    ensures if toSkip != 0 then seen < start && UpCounters(start, end, seen + 1, loop + 1, toSkip - 1, toTake)
            else if toTake != 0 then start <= seen < start + end && UpCounters(start, end, seen + 1, loop, toSkip, toTake - 1)
            else start + end <= seen && UpCounters(start, end, seen + 1, loop, toSkip, toTake)
  {
  }

  lemma UpEnds<T>(list: seq<T>, start: nat, end: nat, seen: nat, kept: seq<T>, selected: seq<T>, remaining: seq<T>)
    requires start + end <= |list| && UpState(list, start, end, seen, kept, selected, remaining)
    ensures |kept| == Clamp(seen, 0, start) && (|kept| < |remaining| <==> seen < |list|)
    ensures |kept| >= |remaining| ==> remaining == kept && selected + kept == Reordered(list, 0, start, end)
  {
  }

  /** The loop of the upward move: skip start entries, take the next end entries out, drop the rest. */
  method MoveUp(list: seq<ClientInfo>, start: uint16, end: uint16) returns (selected: seq<ClientInfo>)
    requires start + end <= |list|
    ensures selected == Reordered(list, 0, start, end)
  {
    var start', end' := start, end;
    var remaining := list;
    var loop := 0;
    selected := [];
    ghost var seen := 0;  // entries of list the loop has passed or erased
    ghost var kept := [];
    while loop < |remaining|
      invariant UpState(list, start, end, seen, kept, selected, remaining)
      invariant loop == |kept| && UpCounters(start, end, seen, loop, start', end')
      decreases |remaining| - loop
    {
      UpEnds(list, start, end, seen, kept, selected, remaining);
      UpCount(start, end, seen, loop, start', end');
      if start' != 0 {
        UpSkip(list, start, end, seen, kept, selected, remaining);
        start' := start' - 1;
        loop := loop + 1;
        kept := kept + [list[seen]];
      } else if end' != 0 {
        UpTake(list, start, end, seen, kept, selected, remaining);
        end' := end' - 1;
        selected := selected + [remaining[loop]];
        remaining := Erased(remaining, loop);
      } else {
        UpDrop(list, start, end, seen, kept, selected, remaining);
        remaining := Erased(remaining, loop);
      }
      seen := seen + 1;
    }
    UpEnds(list, start, end, seen, kept, selected, remaining);
    selected := selected + remaining;
  }

  /** After the downward loop has seen so many entries: those taken out, those kept, and what remains. */
  predicate DownState<T(==)>(list: seq<T>, location: nat, end: nat, seen: nat, kept: seq<T>, selected: seq<T>, remaining: seq<T>)
    requires end <= location <= |list|
  {
    && seen <= |list| && remaining == kept + list[seen..]
    && selected == list[..Clamp(seen, 0, end)] && kept == list[end..Clamp(seen, end, location)]
  }

  lemma DownTake<T>(list: seq<T>, location: nat, end: nat, seen: nat, kept: seq<T>, selected: seq<T>, remaining: seq<T>)
    requires end <= location <= |list| && DownState(list, location, end, seen, kept, selected, remaining) && seen < end
    ensures remaining[|kept|] == list[seen]
    ensures DownState(list, location, end, seen + 1, kept, selected + [list[seen]], Erased(remaining, |kept|))
  {
    EraseBehind(kept, list, seen, remaining);
    TakeNext(list, 0, seen);
  }

  lemma DownKeep<T>(list: seq<T>, location: nat, end: nat, seen: nat, kept: seq<T>, selected: seq<T>, remaining: seq<T>)
    requires end <= location <= |list| && DownState(list, location, end, seen, kept, selected, remaining) && end <= seen < location
    ensures DownState(list, location, end, seen + 1, kept + [list[seen]], selected, remaining)
  {
    TakeNext(list, end, seen);
  }

  lemma DownDrop<T>(list: seq<T>, location: nat, end: nat, seen: nat, kept: seq<T>, selected: seq<T>, remaining: seq<T>)
    requires end <= location <= |list| && DownState(list, location, end, seen, kept, selected, remaining) && location <= seen < |list|
    ensures DownState(list, location, end, seen + 1, kept, selected, Erased(remaining, |kept|))
  {
    EraseBehind(kept, list, seen, remaining);
  }

  lemma DownEnds<T>(list: seq<T>, location: nat, end: nat, seen: nat, kept: seq<T>, selected: seq<T>, remaining: seq<T>)
    requires end <= location <= |list| && DownState(list, location, end, seen, kept, selected, remaining)
    ensures |kept| == Clamp(seen, end, location) - end && (|kept| < |remaining| <==> seen < |list|)
    ensures |kept| >= |remaining| ==> remaining == list[end..location] && selected == list[..end]
  {
  }

  /** The loop of the downward move: take end entries out, keep those up to location, drop the rest. */
  method MoveDown(list: seq<ClientInfo>, location: uint16, end: uint16)
    returns (remaining: seq<ClientInfo>, selected: seq<ClientInfo>)
    requires end <= location <= |list|
    ensures remaining == list[end..location] && selected == list[..end]
  {
    var location', end' := location, end;
    var loop := 0;
    remaining, selected := list, [];
    ghost var seen := 0;
    ghost var kept := [];
    while loop < |remaining|
      invariant DownState(list, location, end, seen, kept, selected, remaining) && loop == |kept|
      invariant end' == end - Clamp(seen, 0, end) && location' == location - Clamp(seen, 0, location)
      decreases |remaining| - loop
    {
      DownEnds(list, location, end, seen, kept, selected, remaining);
      if end' != 0 {
        DownTake(list, location, end, seen, kept, selected, remaining);
        end' := end' - 1;
        location' := location' - 1;
        selected := selected + [remaining[loop]];
        remaining := Erased(remaining, loop);
      } else if location' != 0 {
        DownKeep(list, location, end, seen, kept, selected, remaining);
        location' := location' - 1;
        loop := loop + 1;
        kept := kept + [list[seen]];
      } else {
        DownDrop(list, location, end, seen, kept, selected, remaining);
        remaining := Erased(remaining, loop);
      }
      seen := seen + 1;
    }
    DownEnds(list, location, end, seen, kept, selected, remaining);
  }

  /** The callsigns found along a list, each where it is met first. */
  function PrimariesOf(s: seq<string>): seq<string> {
    if s == [] then []
    else
      var p := PrimariesOf(s[..|s| - 1]);
      var last := Primary(s[|s| - 1]);
      if last in p then p else p + [last]
  }

  lemma PrimariesStep(s: seq<string>, k: nat)
    requires k < |s|
    ensures s[..k + 1] == s[..k] + [s[k]]
    ensures var p, c := PrimariesOf(s[..k]), Primary(s[k]);
            PrimariesOf(s[..k + 1]) == if c in p then p else p + [c]
  {
    assert s[..k + 1][..k] == s[..k];
  }

  lemma FirstOfFront(s: seq<string>, c: string)
    requires s != []
    ensures var front := s[..|s| - 1];
            FirstOf(s, c) == if FirstOf(front, c) < |front| then FirstOf(front, c)
                             else if Primary(s[|s| - 1]) == c then |s| - 1 else |s|
  {
    var front := s[..|s| - 1];
    if FirstOf(front, c) < |front| {
      FirstOfUnique(s, c, FirstOf(front, c));
    } else if Primary(s[|s| - 1]) == c {
      FirstOfUnique(s, c, |s| - 1);
    }
  }

  lemma {:induction false} PrimariesHave(s: seq<string>, c: string)
    ensures c in PrimariesOf(s) <==> FirstOf(s, c) < |s|
    decreases |s|
  {
    if s != [] {
      PrimariesHave(s[..|s| - 1], c);
      FirstOfFront(s, c);
    }
  }

  /** The primary list names every attached callsign once, ordered by topmost layer. */
  lemma {:induction false} PrimariesInOrder(s: seq<string>, i: nat, j: nat)
    requires i < j < |PrimariesOf(s)|
    ensures FirstOf(s, PrimariesOf(s)[i]) < FirstOf(s, PrimariesOf(s)[j]) < |s|
    decreases |s|
  {
    var front := s[..|s| - 1];
    var p, q := PrimariesOf(front), PrimariesOf(s);
    FirstOfFront(s, q[i]);
    FirstOfFront(s, q[j]);
    PrimariesHave(s, q[j]);
    PrimariesHave(front, q[i]);
    PrimariesHave(front, q[j]);
    if j < |p| {
      PrimariesInOrder(front, i, j);
    }
  }

  /** Layers 0, 1, 2, ... along a list of all clients. */
  method NumberAll(list: seq<ClientInfo>, ghost entries: Clients)
    requires DistinctAccesses(list) && |list| <= 0x1_0000 && Holds(list, entries) && NoRepeats(NamesOf(list))
    requires forall n :: n in entries <==> n in NamesOf(list)
    modifies Accesses(list)
    ensures StackOf(entries) == Numbered(NamesOf(list))
  {
    SetZOrderList(list, 0);
    NumberedView(entries, list);
  }

  /** The search for the place of a new client: next to the first sub screen of its callsign. */
  method AttachIndex(list: seq<ClientInfo>, name: string, newOnTop: bool) returns (index: nat)
    ensures index == InsertionPlace(NamesOf(list), name, newOnTop)
  {
    var pos := Colon(name);
    ghost var s := NamesOf(list);
    if pos == |name| {
      index := if newOnTop then 0 else |list|;
    } else {
      index := 0;
      while index < |list| && Prefix(name, pos + 1) != Prefix(list[index].name, pos + 1)
        invariant index <= FirstSubOf(s, Primary(name))
      {
        SubPrefix(name, s[index]);
        index := index + 1;
      }
      if index == |list| {
        index := if newOnTop then 0 else |list|;
      } else {
        SubPrefix(name, s[index]);
        assert FirstSubOf(s, Primary(name)) == index;
        if !IsGraphics(name) {
          index := index + 1;
        }
      }
    }
  }

  /** The sorted list of the attached clients with a new one put in its place. */
  method AttachList(rest: Clients, name: string, client: Client, newOnTop: bool) returns (list: seq<ClientInfo>)
    requires name !in rest && Separate(rest[name := client])
    ensures NamesOf(list) == Inserted(Order(StackOf(rest)), name, newOnTop)
    ensures NoRepeats(NamesOf(list)) && Holds(list, rest[name := client])
    ensures forall n :: n in rest[name := client] <==> n in NamesOf(list)
    ensures |list| == |rest| + 1 && DistinctAccesses(list) && Accesses(list) <= rest.Values + {client}
  {
    var sorted := GetZOrderList(rest);
    var index := AttachIndex(sorted, name, newOnTop);
    var entry := ClientInfo(0, name, client);
    AttachedList(rest, client, sorted, index, entry);
    list := sorted[..index] + [entry] + sorted[index..];
    AttachedAll(rest, name, client, newOnTop, list);
  }

  /** The list with the new client in it has every client once. */
  lemma AttachedAll(rest: Clients, name: string, client: Client, newOnTop: bool, list: seq<ClientInfo>)
    requires name !in rest && Separate(rest[name := client]) && Holds(list, rest[name := client])
    requires NamesOf(list) == Inserted(Order(StackOf(rest)), name, newOnTop)
    ensures NoRepeats(NamesOf(list)) && (forall n :: n in rest[name := client] <==> n in NamesOf(list))
    ensures |list| == |rest| + 1 && DistinctAccesses(list) && Accesses(list) <= rest.Values + {client}
  {
    AttachedNames(rest, name, client, newOnTop);
    AccessesDistinct(list, rest[name := client]);
    ValuesUpdate(rest, name, client);
  }

  lemma AttachedNames(rest: Clients, name: string, client: Client, newOnTop: bool)
    requires name !in rest
    ensures var s := Inserted(Order(StackOf(rest)), name, newOnTop);
            NoRepeats(s) && (forall n :: n in rest[name := client] <==> n in s) && |s| == |rest| + 1
  {
    assert StackOf(rest) - {name} == StackOf(rest);
    AttachContents(StackOf(rest), rest.Keys, name, newOnTop);
  }

  /** Renumbers all clients with a new one put in its place. */
  method AttachClient(rest: Clients, name: string, client: Client, newOnTop: bool)
    requires name !in rest && |rest| < 0xFFFF && Separate(rest[name := client])
    modifies rest.Values, client
    ensures StackOf(rest[name := client]) == Numbered(Inserted(Order(old(StackOf(rest))), name, newOnTop))
  {
    var list := AttachList(rest, name, client, newOnTop);
    NumberAll(list, rest[name := client]);
  }

  /** Drops an old client of that name, then attaches the new one. */
  method Reattach(clients: Clients, name: string, client: Client, newOnTop: bool) returns (all: Clients)
    requires Separate(clients) && |clients| < 0xFFFF && forall n | n in clients && n != name :: clients[n] != client
    modifies clients.Values, client
    ensures all == clients[name := client] && Separate(all) && |all| <= |clients| + 1
    ensures StackOf(all) == Step(old(StackOf(clients)), Attach(name), newOnTop)
  {
    var rest := if name in clients then clients - {name} else clients;
    Remaining(clients, rest, name, client);
    AttachClient(rest, name, client, newOnTop);
    all := rest[name := client];
  }

  /** The names of a sorted list, or every callsign once. */
  method CopyNames(list: seq<ClientInfo>, primary: bool) returns (zOrderedList: seq<string>)
    ensures zOrderedList == if primary then PrimariesOf(NamesOf(list)) else NamesOf(list)
  {
    ghost var s := NamesOf(list);
    zOrderedList := [];
    var loop := 0;
    while loop < |list|
      invariant loop <= |list|
      invariant zOrderedList == if primary then PrimariesOf(s[..loop]) else s[..loop]
    {
      PrimariesStep(s, loop);
      if !primary {
        zOrderedList := zOrderedList + [list[loop].name];
      } else {
        var layerName := Primary(list[loop].name);
        assert layerName == Primary(s[loop]);
        if layerName !in zOrderedList {
          zOrderedList := zOrderedList + [layerName];
        }
      }
      loop := loop + 1;
    }
    assert s[..loop] == s;
  }

  class Compositor {
    var clients: Clients
    const newOnTop: bool

    /** Every name has a client object of its own, and places fit in sixteen bits. */
    ghost predicate Valid()
      reads this
    {
      Separate(clients) && |clients| <= 0xFFFF
    }

    ghost function View(): Stack
      reads this, clients.Values
    {
      StackOf(clients)
    }

    constructor (newOnTop: bool)
      ensures Valid() && clients == map[] && this.newOnTop == newOnTop
    {
      clients := map[];
      this.newOnTop := newOnTop;
    }

    method Attached(name: string, client: Client)
      requires Valid() && |clients| < 0xFFFF
      requires forall n | n in clients && n != name :: clients[n] != client
      modifies this`clients, clients.Values, client
      ensures Valid() && clients == old(clients)[name := client]
      ensures View() == Step(old(View()), Attach(name), newOnTop)
    {
      var all := Reattach(clients, name, client, newOnTop);
      clients := all;
      assert View() == StackOf(all);
    }

    method Detached(name: string)
      requires Valid()
      modifies this`clients
      ensures Valid() && clients == old(clients) - {name}
      ensures View() == Step(old(View()), Detach(name), newOnTop)
    {
      if name in clients {
        clients := clients - {name};
        assert clients.Keys == old(clients).Keys - {name};
      }
    }

    /** Puts the callsign's layers just before the topmost layer of relative; on top when it is empty. */
    method PutBefore(relative: string, callsign: string)
      requires Valid() && Contiguous(Order(View()), callsign)
      modifies clients.Values
      ensures Valid() && clients == old(clients)
      ensures View() == Step(old(View()), ZOrderRuns.PutBefore(relative, callsign), newOnTop)
    {
      MoveClients(clients, relative, callsign, newOnTop, clients.Values);
    }

    method ToTop(callsign: string)
      requires Valid() && Contiguous(Order(View()), callsign)
      modifies clients.Values
      ensures Valid() && clients == old(clients)
      ensures View() == Step(old(View()), ZOrderRuns.PutBefore("", callsign), newOnTop)
    {
      PutBefore("", callsign);
    }

    /** The names from top to bottom, or, with primary, every callsign once. */
    method ZOrder(primary: bool) returns (zOrderedList: seq<string>)
      ensures zOrderedList == if primary then PrimariesOf(Order(View())) else Order(View())
    {
      var list := GetZOrderList(clients);
      zOrderedList := CopyNames(list, primary);
    }
  }

  lemma PlanCarriedOut(v: Stack, w: Stack, relative: string, callsign: string, relativeIndex: uint16, callsignStart: uint16,
                       callsignEnd: uint16, newOnTop: bool)
    requires Planned(Order(v), Moved(Order(v), relative, callsign), relativeIndex, callsignStart, callsignEnd)
    requires if relativeIndex != NOT_FOUND && callsignStart != NOT_FOUND && relativeIndex != callsignStart
             then w == Renumbered(v, Order(v), Exchanged(Order(v), CutsOf(relativeIndex, callsignStart, callsignEnd)))
             else w == v
    ensures w == Step(v, ZOrderRuns.PutBefore(relative, callsign), newOnTop)
  {
    RewriteNothing(v);
  }

  lemma SortedList(entries: Clients, list: seq<ClientInfo>)
    requires Describes(list, entries) && NamesOf(list) == Order(StackOf(entries)) && Separate(entries)
    ensures Holds(list, entries) && NoRepeats(NamesOf(list)) && |list| == |entries|
    ensures DistinctAccesses(list) && Accesses(list) <= entries.Values
  {
    OrderReadsBack(StackOf(entries));
    ReadsBackNoRepeats(StackOf(entries), NamesOf(list));
    NoRepeatsSize(NamesOf(list), entries.Keys);
    AccessesDistinct(list, entries);
  }

  /** Entry i belongs to the callsign and is not the entry taken as relative. */
  predicate Moves(s: seq<string>, relative: string, callsign: string, relativeIndex: nat, i: nat)
    requires i < |s|
  {
    Primary(s[i]) == callsign && (relative == "" || i != relativeIndex)
  }

  /** What the search of PutBefore finds in the first part of the list. */
  ghost predicate Located(s: seq<string>, current: nat, relative: string, callsign: string,
                          relativeIndex: uint16, callsignStart: uint16, callsignEnd: uint16)
    requires current <= |s|
  {
    && (if relative == "" then relativeIndex == 0
        else if relativeIndex == NOT_FOUND then forall i :: 0 <= i < current ==> Primary(s[i]) != relative
        else relativeIndex < current && Primary(s[relativeIndex]) == relative
             && forall i :: 0 <= i < relativeIndex ==> Primary(s[i]) != relative)
    && (if callsignStart == NOT_FOUND then
          forall i :: 0 <= i < current && Primary(s[i]) == callsign ==> relative != "" && i == relativeIndex
        else
          && callsignStart <= callsignEnd < current
          && Moves(s, relative, callsign, relativeIndex, callsignStart)
          && Moves(s, relative, callsign, relativeIndex, callsignEnd)
          && forall i :: 0 <= i < current && Primary(s[i]) == callsign && (relative == "" || i != relativeIndex) ==>
               callsignStart <= i <= callsignEnd)
  }

  /** The search of PutBefore: the first layer of relative, the first and last layer of the callsign. */
  method Locate(list: seq<ClientInfo>, relative: string, callsign: string)
    returns (relativeIndex: uint16, callsignStart: uint16, callsignEnd: uint16)
    requires |list| <= 0xFFFF
    ensures Located(NamesOf(list), |list|, relative, callsign, relativeIndex, callsignStart, callsignEnd)
  {
    relativeIndex := if relative == "" then 0 else NOT_FOUND;
    callsignStart, callsignEnd := NOT_FOUND, NOT_FOUND;
    var current := 0;
    ghost var s := NamesOf(list);
    while current < |list|
      invariant current <= |list|
      invariant Located(s, current, relative, callsign, relativeIndex, callsignStart, callsignEnd)
    {
      var layerName := Primary(list[current].name);
      if relativeIndex == NOT_FOUND && layerName == relative {
        relativeIndex := current;
      } else if layerName == callsign {
        if callsignStart == NOT_FOUND {
          callsignStart := current;
        }
        callsignEnd := current;
      }
      current := current + 1;
    }
  }

  /** The two segments that a block move exchanges: [lo, mid) and [mid, hi). */
  datatype Cuts = Cuts(lo: nat, mid: nat, hi: nat)

  function CutsOf(relativeIndex: nat, callsignStart: nat, callsignEnd: nat): Cuts {
    if relativeIndex < callsignStart then Cuts(relativeIndex, callsignStart, callsignEnd + 1)
    else Cuts(callsignStart, callsignEnd + 1, relativeIndex)
  }

  predicate Separated(size: nat, relativeIndex: nat, callsignStart: nat, callsignEnd: nat) {
    && relativeIndex < size && callsignStart <= callsignEnd < size
    && (relativeIndex < callsignStart || callsignEnd < relativeIndex)
  }

  function Exchanged<T>(list: seq<T>, cuts: Cuts): (t: seq<T>)
    requires cuts.lo <= cuts.mid <= cuts.hi <= |list|
    ensures |t| == |list|
  {
    Exchange(list, cuts.lo, cuts.mid, cuts.hi)
  }

  /** The indices found are those of the intended move. */
  ghost predicate Planned(s: seq<string>, t: seq<string>, relativeIndex: uint16, callsignStart: uint16, callsignEnd: uint16) {
    if relativeIndex != NOT_FOUND && callsignStart != NOT_FOUND && relativeIndex != callsignStart then
      && Separated(|s|, relativeIndex, callsignStart, callsignEnd)
      && t == Exchanged(s, CutsOf(relativeIndex, callsignStart, callsignEnd))
    else
      t == s
  }

  lemma Plan(s: seq<string>, relative: string, callsign: string, relativeIndex: uint16, callsignStart: uint16, callsignEnd: uint16)
    requires Contiguous(s, callsign) && |s| <= 0xFFFF
    requires Located(s, |s|, relative, callsign, relativeIndex, callsignStart, callsignEnd)
    ensures Planned(s, Moved(s, relative, callsign), relativeIndex, callsignStart, callsignEnd)
  {
    var from := FirstOf(s, callsign);
    if (relative != "" && relativeIndex == NOT_FOUND) || from == |s| {
      PlanMissing(s, relative, callsign, relativeIndex, callsignStart, callsignEnd);
    } else {
      var past := Segment(s, callsign);
      PlanFound(s, relative, callsign, relativeIndex, callsignStart, callsignEnd, from, past);
    }
  }

  lemma PlanMissing(s: seq<string>, relative: string, callsign: string, relativeIndex: uint16, callsignStart: uint16, callsignEnd: uint16)
    requires |s| <= 0xFFFF && Located(s, |s|, relative, callsign, relativeIndex, callsignStart, callsignEnd)
    requires (relative != "" && relativeIndex == NOT_FOUND) || FirstOf(s, callsign) == |s|
    ensures Planned(s, Moved(s, relative, callsign), relativeIndex, callsignStart, callsignEnd)
  {
    if relative != "" && relativeIndex == NOT_FOUND {
      assert FirstOf(s, relative) == |s|;
    } else {
      NoneOf(s, callsign);
      assert callsignStart == NOT_FOUND;
    }
  }

  lemma PlanFound(s: seq<string>, relative: string, callsign: string, relativeIndex: uint16, callsignStart: uint16,
                  callsignEnd: uint16, from: nat, past: nat)
    requires from < past <= |s| <= 0xFFFF && (relative == "" || relativeIndex != NOT_FOUND)
    requires Located(s, |s|, relative, callsign, relativeIndex, callsignStart, callsignEnd)
    requires forall i :: 0 <= i < |s| ==> (Primary(s[i]) == callsign <==> from <= i < past)
    ensures Planned(s, Moved(s, relative, callsign), relativeIndex, callsignStart, callsignEnd)
  {
    if relative == "" {
      PlanTop(s, callsign, callsignStart, callsignEnd, from, past);
    } else if relative == callsign {
      PlanSelf(s, callsign, relativeIndex, callsignStart, callsignEnd, from, past);
    } else {
      PlanOther(s, relative, callsign, relativeIndex, callsignStart, callsignEnd, from, past);
    }
  }

  lemma PlanTop(s: seq<string>, callsign: string, callsignStart: uint16, callsignEnd: uint16, from: nat, past: nat)
    requires from < past <= |s| <= 0xFFFF && Located(s, |s|, "", callsign, 0, callsignStart, callsignEnd)
    requires forall i :: 0 <= i < |s| ==> (Primary(s[i]) == callsign <==> from <= i < past)
    ensures Planned(s, Moved(s, "", callsign), 0, callsignStart, callsignEnd)
  {
    MovedToTop(s, callsign, from, past);
    assert Primary(s[from]) == callsign && Primary(s[past - 1]) == callsign;
    if from == 0 {
      ExchangeNothing(s, 0, 0, past);
    }
  }

  lemma PlanSelf(s: seq<string>, callsign: string, relativeIndex: uint16, callsignStart: uint16, callsignEnd: uint16,
                 from: nat, past: nat)
    requires callsign != "" && relativeIndex != NOT_FOUND && from < past <= |s| <= 0xFFFF
    requires Located(s, |s|, callsign, callsign, relativeIndex, callsignStart, callsignEnd)
    requires forall i :: 0 <= i < |s| ==> (Primary(s[i]) == callsign <==> from <= i < past)
    ensures Planned(s, Moved(s, callsign, callsign), relativeIndex, callsignStart, callsignEnd)
  {
    MovedBeforeItself(s, callsign, from, past);
    assert Primary(s[from]) == callsign && Primary(s[past - 1]) == callsign;
    assert relativeIndex == from;
    if past == from + 1 {
      ExchangeNothing(s, from, from + 1, past);
    } else {
      assert Primary(s[from + 1]) == callsign;
    }
  }

  lemma PlanOther(s: seq<string>, relative: string, callsign: string, at: uint16, callsignStart: uint16, callsignEnd: uint16,
                  from: nat, past: nat)
    requires relative != "" && relative != callsign && at != NOT_FOUND && from < past <= |s| <= 0xFFFF
    requires Located(s, |s|, relative, callsign, at, callsignStart, callsignEnd)
    requires forall i :: 0 <= i < |s| ==> (Primary(s[i]) == callsign <==> from <= i < past)
    ensures Planned(s, Moved(s, relative, callsign), at, callsignStart, callsignEnd)
  {
    FoundEnds(s, relative, callsign, at, callsignStart, callsignEnd, from, past);
    var t := Moved(s, relative, callsign);
    if at < from {
      assert t == Exchange(s, at, from, past) by { MovedUp(s, relative, callsign, at, from, past); }
    } else {
      assert t == Exchange(s, from, past, at) by { MovedDown(s, relative, callsign, at, from, past); }
    }
  }

  lemma FoundEnds(s: seq<string>, relative: string, callsign: string, at: uint16, callsignStart: uint16, callsignEnd: uint16,
                  from: nat, past: nat)
    requires relative != "" && relative != callsign && at != NOT_FOUND && from < past <= |s| <= 0xFFFF
    requires Located(s, |s|, relative, callsign, at, callsignStart, callsignEnd)
    requires forall i :: 0 <= i < |s| ==> (Primary(s[i]) == callsign <==> from <= i < past)
    ensures callsignStart == from && callsignEnd == past - 1 && (at < from || past <= at < |s|)
    ensures Primary(s[at]) == relative && forall i :: 0 <= i < at ==> Primary(s[i]) != relative
  {
    assert Primary(s[from]) == callsign && Primary(s[past - 1]) == callsign;
  }

  lemma ReorderedIsExchange<T>(list: seq<T>, relativeIndex: nat, callsignStart: nat, callsignEnd: nat)
    requires Separated(|list|, relativeIndex, callsignStart, callsignEnd)
    ensures var cuts := CutsOf(relativeIndex, callsignStart, callsignEnd);
            var location := if relativeIndex < callsignStart then 0 else relativeIndex - callsignStart;
            var start := if relativeIndex < callsignStart then callsignStart - relativeIndex else 0;
            var out := Reordered(list[cuts.lo..], location, start, callsignEnd - callsignStart + 1);
            if cuts.mid == cuts.hi then out == [] else out == Exchanged(list, cuts)[cuts.lo..cuts.hi]
  {
    var cuts := CutsOf(relativeIndex, callsignStart, callsignEnd);
    SliceOfSlice(list, cuts.lo, cuts.mid, cuts.hi);
  }

  lemma SliceOfSlice<T>(list: seq<T>, lo: nat, mid: nat, hi: nat)
    requires lo <= mid <= hi <= |list|
    ensures list[lo..][mid - lo..hi - lo] == list[mid..hi] && list[lo..][..mid - lo] == list[lo..mid]
    ensures Exchange(list, lo, mid, hi)[lo..hi] == list[mid..hi] + list[lo..mid]
  {
  }

  /** The entries that are not renumbered share no client with those that are. */
  lemma OthersUntouched(list: seq<ClientInfo>, cuts: Cuts)
    requires DistinctAccesses(list) && cuts.lo <= cuts.mid <= cuts.hi <= |list|
    ensures forall i :: 0 <= i < cuts.lo ==> list[i].access !in Accesses(list[cuts.lo..])
    ensures forall i :: 0 <= i < |list| && (i < cuts.lo || cuts.hi <= i) ==>
              list[i].access !in Accesses(Exchanged(list, cuts)[cuts.lo..cuts.hi])
  {
    ExchangeSource(list, cuts.lo, cuts.mid, cuts.hi);
    var moved := Exchanged(list, cuts)[cuts.lo..cuts.hi];
    assert forall k :: 0 <= k < |moved| ==> moved[k] == list[Source(cuts.lo, cuts.mid, cuts.hi, cuts.lo + k)];
  }

  /** After renumbering, the exchanged entries store their places, the others what they stored. */
  ghost predicate Placed(list: seq<ClientInfo>, cuts: Cuts)
    requires cuts.lo <= cuts.mid <= cuts.hi <= |list|
    reads Accesses(Exchanged(list, cuts))
  {
    forall i :: cuts.lo <= i < cuts.hi ==> Exchanged(list, cuts)[i].access.layer == i
  }

  /** The partial renumbering: cut the front off, reorder the rest, renumber what moved. */
  method MoveBlock(list: seq<ClientInfo>, relativeIndex: uint16, callsignStart: uint16, callsignEnd: uint16)
    requires DistinctAccesses(list) && |list| <= 0xFFFF
    requires Separated(|list|, relativeIndex, callsignStart, callsignEnd)
    modifies Accesses(list)
    ensures var cuts := CutsOf(relativeIndex, callsignStart, callsignEnd);
            && (cuts.mid < cuts.hi ==> Placed(list, cuts))
            && (forall i :: 0 <= i < |list| && (cuts.mid == cuts.hi || i < cuts.lo || cuts.hi <= i) ==>
                  list[i].access.layer == old(list[i].access.layer))
  {
    var length := callsignEnd - callsignStart + 1;
    ghost var cuts := CutsOf(relativeIndex, callsignStart, callsignEnd);
    ReorderedIsExchange(list, relativeIndex, callsignStart, callsignEnd);
    OthersUntouched(list, cuts);
    ghost var out;
    if relativeIndex < callsignStart {
      out := RearrangeFrom(list, relativeIndex, 0, callsignStart - relativeIndex, length);
    } else {
      out := RearrangeFrom(list, callsignStart, relativeIndex - callsignStart, 0, length);
    }
    if cuts.mid < cuts.hi {
      PlacedFromSlice(list, cuts, out);
    }
  }

  lemma PlacedFromSlice(list: seq<ClientInfo>, cuts: Cuts, out: seq<ClientInfo>)
    requires cuts.lo <= cuts.mid <= cuts.hi <= |list| && out == Exchanged(list, cuts)[cuts.lo..cuts.hi]
    requires forall k :: 0 <= k < |out| ==> out[k].access.layer == cuts.lo + k
    ensures Placed(list, cuts)
  {
    forall i | cuts.lo <= i < cuts.hi
      ensures Exchanged(list, cuts)[i].access.layer == i
    {
      assert Exchanged(list, cuts)[i] == out[i - cuts.lo];
    }
  }

  /** Drops the entries in front, which do not move, and rearranges the rest. */
  method RearrangeFrom(list: seq<ClientInfo>, startIndex: uint16, location: uint16, start: uint16, end: uint16)
    returns (ghost out: seq<ClientInfo>)
    requires DistinctAccesses(list) && startIndex <= |list| <= 0xFFFF && location != start
    requires if location == 0 then start + end <= |list| - startIndex else start == 0 && end <= location <= |list| - startIndex
    requires forall i :: 0 <= i < startIndex ==> list[i].access !in Accesses(list[startIndex..])
    modifies Accesses(list[startIndex..])
    ensures out == Reordered(list[startIndex..], location, start, end)
    ensures forall k :: 0 <= k < |out| ==> out[k].access.layer == startIndex + k
    ensures forall i :: 0 <= i < |list| && list[i].access !in Accesses(out) ==> list[i].access.layer == old(list[i].access.layer)
  {
    var moving := list[startIndex..];
    out := Reordered(moving, location, start, end);
    Rearrange(moving, startIndex, location, start, end);
    forall i | startIndex <= i < |list| && list[i].access !in Accesses(out)
      ensures list[i].access.layer == old(list[i].access.layer)
    {
      assert list[i] == moving[i - startIndex];
    }
  }

  lemma NamesExchanged(list: seq<ClientInfo>, cuts: Cuts)
    requires cuts.lo <= cuts.mid <= cuts.hi <= |list|
    ensures Exchanged(NamesOf(list), cuts) == NamesOf(Exchanged(list, cuts))
    ensures forall i :: 0 <= i < |list| && (i < cuts.lo || cuts.hi <= i) ==> Exchanged(list, cuts)[i] == list[i]
    ensures forall i :: 0 <= i < |list| ==> Exchanged(list, cuts)[i] in list
  {
    ExchangeSource(list, cuts.lo, cuts.mid, cuts.hi);
    ExchangeSource(NamesOf(list), cuts.lo, cuts.mid, cuts.hi);
  }

  lemma PlacedRewritten(entries: Clients, list: seq<ClientInfo>, v: Stack, cuts: Cuts)
    requires Holds(list, entries) && v.Keys == entries.Keys
    requires cuts.lo <= cuts.mid <= cuts.hi <= |list| && Placed(list, cuts)
    requires forall i :: 0 <= i < |list| && (i < cuts.lo || cuts.hi <= i) ==> list[i].access.layer == v[list[i].name]
    ensures Rewritten(v, StackOf(entries), Exchanged(NamesOf(list), cuts), cuts.lo, cuts.hi)
  {
    NamesExchanged(list, cuts);
    var out := Exchanged(list, cuts);
    forall i | 0 <= i < |list|
      ensures out[i].name in v
      ensures entries[out[i].name].layer == if cuts.lo <= i < cuts.hi then i else v[out[i].name]
    {
      assert out[i].name in entries && out[i].access == entries[out[i].name];
    }
  }

  lemma MovedView(entries: Clients, list: seq<ClientInfo>, v: Stack, cuts: Cuts)
    requires Holds(list, entries) && NamesOf(list) == Order(v) && v.Keys == entries.Keys
    requires cuts.lo < cuts.mid <= cuts.hi <= |list| && (cuts.mid < cuts.hi ==> Placed(list, cuts))
    requires forall i :: 0 <= i < |list| && (cuts.mid == cuts.hi || i < cuts.lo || cuts.hi <= i) ==>
               list[i].access.layer == v[list[i].name]
    ensures StackOf(entries) == Renumbered(v, NamesOf(list), Exchanged(NamesOf(list), cuts))
  {
    var s := NamesOf(list);
    if cuts.mid == cuts.hi {
      ExchangeNothing(s, cuts.lo, cuts.mid, cuts.hi);
      RewriteNothing(v);
      UntouchedView(entries, list, v);
    } else {
      OrderReadsBack(v);
      ReadsBackNoRepeats(v, s);
      PlacedRewritten(entries, list, v, cuts);
      MovedRewrite(v, StackOf(entries), s, cuts);
    }
  }

  method MoveInView(ghost entries: Clients, list: seq<ClientInfo>, relativeIndex: uint16, callsignStart: uint16, callsignEnd: uint16,
                    ghost objects: set<Client>)
    requires Holds(list, entries) && NamesOf(list) == Order(StackOf(entries))
    requires DistinctAccesses(list) && |list| <= 0xFFFF && Accesses(list) <= objects
    requires Separated(|list|, relativeIndex, callsignStart, callsignEnd)
    modifies objects
    ensures StackOf(entries) == Renumbered(old(StackOf(entries)), NamesOf(list),
                                           Exchanged(NamesOf(list), CutsOf(relativeIndex, callsignStart, callsignEnd)))
  {
    ghost var v := StackOf(entries);
    MoveBlock(list, relativeIndex, callsignStart, callsignEnd);
    MovedView(entries, list, v, CutsOf(relativeIndex, callsignStart, callsignEnd));
  }

  method MoveClients(entries: Clients, relative: string, callsign: string, ghost newOnTop: bool, ghost objects: set<Client>)
    requires Separate(entries) && |entries| <= 0xFFFF && Contiguous(Order(StackOf(entries)), callsign) && objects == entries.Values
    modifies objects
    ensures StackOf(entries) == Step(old(StackOf(entries)), PutBefore(relative, callsign), newOnTop)
  {
    ghost var v := StackOf(entries);
    var list := GetZOrderList(entries);
    SortedList(entries, list);
    assert NamesOf(list) == Order(v);
    var relativeIndex, callsignStart, callsignEnd := FindMove(list, relative, callsign);
    if relativeIndex != NOT_FOUND && callsignStart != NOT_FOUND && relativeIndex != callsignStart {
      MoveInView(entries, list, relativeIndex, callsignStart, callsignEnd, objects);
    }
    PlanCarriedOut(v, StackOf(entries), relative, callsign, relativeIndex, callsignStart, callsignEnd, newOnTop);
  }

  method FindMove(list: seq<ClientInfo>, relative: string, callsign: string)
    returns (relativeIndex: uint16, callsignStart: uint16, callsignEnd: uint16)
    requires |list| <= 0xFFFF && Contiguous(NamesOf(list), callsign)
    ensures Planned(NamesOf(list), Moved(NamesOf(list), relative, callsign), relativeIndex, callsignStart, callsignEnd)
  {
    relativeIndex, callsignStart, callsignEnd := Locate(list, relative, callsign);
    Plan(NamesOf(list), relative, callsign, relativeIndex, callsignStart, callsignEnd);
  }

  lemma MovedRewrite(v: Stack, w: Stack, s: seq<string>, cuts: Cuts)
    requires s == Order(v) && NoRepeats(s) && cuts.lo < cuts.mid < cuts.hi <= |s|
    requires Rewritten(v, w, Exchanged(s, cuts), cuts.lo, cuts.hi)
    ensures w == Renumbered(v, s, Exchanged(s, cuts))
  {
    var t := Exchanged(s, cuts);
    OrderReadsBack(v);
    ExchangeRearranges(s, cuts.lo, cuts.mid, cuts.hi);
    RearrangedLayers(v, s, t, cuts.lo, cuts.hi);
    RewrittenUnique(v, w, Renumbered(v, s, t), t, cuts.lo, cuts.hi);
  }

  lemma UntouchedView(entries: Clients, list: seq<ClientInfo>, v: Stack)
    requires Holds(list, entries) && v.Keys == entries.Keys && forall n :: n in v ==> n in NamesOf(list)
    requires forall i :: 0 <= i < |list| ==> list[i].access.layer == v[list[i].name]
    ensures StackOf(entries) == v
  {
    forall n | n in v
      ensures entries[n].layer == v[n]
    {
      var i := Place(NamesOf(list), n);
      assert list[i].name == n;
    }
  }

  /** Every entry names an attached client and holds its object. */
  predicate Holds(list: seq<ClientInfo>, entries: Clients) {
    forall i :: 0 <= i < |list| ==> list[i].name in entries && list[i].access == entries[list[i].name]
  }

  lemma AttachedList(entries: Clients, client: Client, list: seq<ClientInfo>, index: nat, entry: ClientInfo)
    requires Holds(list, entries) && index <= |list|
    requires entry.access == client && entry.name !in entries
    ensures Holds(list[..index] + [entry] + list[index..], entries[entry.name := client])
    ensures NamesOf(list[..index] + [entry] + list[index..]) == NamesOf(list)[..index] + [entry.name] + NamesOf(list)[index..]
  {
    InsertContents(list, index, entry);
    NamesOfInsert(list, index, entry);
  }

  lemma AccessesDistinct(list: seq<ClientInfo>, entries: Clients)
    requires Holds(list, entries) && Separate(entries) && NoRepeats(NamesOf(list))
    ensures DistinctAccesses(list) && Accesses(list) <= entries.Values
  {
    forall i, j | 0 <= i < j < |list|
      ensures list[i].access != list[j].access
    {
      assert NamesOf(list)[i] != NamesOf(list)[j];
    }
  }

  lemma EraseThenSet<V>(all: map<string, V>, name: string, value: V)
    ensures (all - {name})[name := value] == all[name := value]
  {
  }

  lemma SizeAfterErase<V>(all: map<string, V>, name: string)
    ensures |all - {name}| <= |all|
  {
    assert (all - {name}).Keys == all.Keys - {name};
  }

  lemma SizeAfterSet<V>(all: map<string, V>, name: string, value: V)
    ensures |all[name := value]| <= |all| + 1
  {
    assert all[name := value].Keys == all.Keys + {name};
  }

  lemma UpdateAfterErase<V>(all: map<string, V>, rest: map<string, V>, name: string, value: V)
    requires rest == if name in all then all - {name} else all
    ensures name !in rest && rest == all - {name} && |rest| <= |all|
    ensures rest[name := value] == all[name := value] && |all[name := value]| <= |all| + 1
  {
    assert rest == all - {name};
    EraseThenSet(all, name, value);
    SizeAfterErase(all, name);
    SizeAfterSet(all, name, value);
  }

  lemma ValuesUpdate<V>(all: map<string, V>, name: string, value: V)
    ensures all[name := value].Values <= all.Values + {value}
  {
  }

  lemma SeparateUpdate(all: Clients, name: string, client: Client)
    requires Separate(all) && forall n | n in all && n != name :: all[n] != client
    ensures Separate(all[name := client])
  {
  }

  lemma StackErase(all: Clients, rest: Clients, name: string)
    requires rest == all - {name}
    ensures StackOf(rest) == StackOf(all) - {name}
  {
  }

  lemma Remaining(all: Clients, rest: Clients, name: string, client: Client)
    requires rest == if name in all then all - {name} else all
    requires Separate(all) && forall n | n in all && n != name :: all[n] != client
    ensures name !in rest && rest[name := client] == all[name := client] && Separate(all[name := client])
    ensures StackOf(rest) == StackOf(all) - {name}
    ensures |rest| <= |all| && |all[name := client]| <= |all| + 1
  {
    SeparateUpdate(all, name, client);
    UpdateAfterErase(all, rest, name, client);
    StackErase(all, rest, name);
  }

  lemma NumberedView(entries: Clients, list: seq<ClientInfo>)
    requires Holds(list, entries) && NoRepeats(NamesOf(list))
    requires forall n :: n in entries <==> n in NamesOf(list)
    requires forall i :: 0 <= i < |list| ==> list[i].access.layer == i
    ensures StackOf(entries) == Numbered(NamesOf(list))
  {
    var t := NamesOf(list);
    forall n | n in entries
      ensures entries[n].layer == Place(t, n)
    {
      assert list[Place(t, n)].name == n;
    }
  }
}
