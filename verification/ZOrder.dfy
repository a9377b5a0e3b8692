// The compositor's stack of clients as a value: which layer every client stores, the order
// that reads back from those layers, and what attaching, detaching and moving do to it.
module ZOrder {
  import opened Names

  /** The layer stored by every attached client, by client name. Layer 0 is the top. */
  type Stack = map<string, nat>

  // ---------------------------------------------------------------- reading the order back

  /** The order of GetZOrderList: by layer, equal layers in the order of the client map. */
  predicate Above(v: Stack, a: string, b: string)
    requires a in v && b in v
  {
    v[a] < v[b] || (v[a] == v[b] && Less(a, b))
  }

  ghost predicate ReadsBack(v: Stack, s: seq<string>) {
    && (forall n :: n in v <==> n in s)
    && (forall i, j :: 0 <= i < j < |s| ==> Above(v, s[i], s[j]))
  }

  ghost predicate Topmost(v: Stack, name: string) {
    name in v && forall n | n in v :: n == name || Above(v, name, n)
  }

  lemma {:induction false} TopmostExists(v: Stack) returns (top: string)
    requires v != map[]
    ensures Topmost(v, top)
    decreases |v|
  {
    var some :| some in v;
    var rest := v - {some};
    if rest == map[] {
      top := some;
      assert forall n | n in v && n != some :: n in rest;
    } else {
      assert |rest| < |v| by { assert rest.Keys == v.Keys - {some}; }
      var low := TopmostExists(rest);
      LessTotal(low, some);
      top := if Above(v, some, low) then some else low;
      forall n | n in v
        ensures n == top || Above(v, top, n)
      {
        if n != some {
          assert n in rest;
          if n != low && top == some && v[some] == v[low] == v[n] {
            LessTransitive(some, low, n);
          }
        }
      }
    }
  }

  /** All clients, topmost first: what Compositor::ZOrder reports. */
  ghost function Order(v: Stack): (s: seq<string>)
    ensures forall n :: n in v <==> n in s
    decreases |v|
  {
    if v == map[] then []
    else
      assert exists top :: Topmost(v, top) by { var top := TopmostExists(v); }
      var top :| Topmost(v, top);
      assert (v - {top}).Keys == v.Keys - {top};
      var rest := Order(v - {top});
      assert forall n | n in v && n != top :: n in v - {top};
      [top] + rest
  }

  lemma {:induction false} OrderReadsBack(v: Stack)
    ensures ReadsBack(v, Order(v))
    decreases |v|
  {
    if v != map[] {
      assert exists top :: Topmost(v, top) by { var top := TopmostExists(v); }
      var top := Order(v)[0];
      assert (v - {top}).Keys == v.Keys - {top};
      OrderReadsBack(v - {top});
      ReadsBackOnTop(v, top, Order(v)[1..]);
    }
  }

  lemma ReadsBackOnTop(v: Stack, top: string, rest: seq<string>)
    requires Topmost(v, top) && ReadsBack(v - {top}, rest)
    ensures ReadsBack(v, [top] + rest)
  {
    var s := [top] + rest;
    forall n
      ensures n in v <==> n in s
    {
      if n != top {
        assert n in v <==> n in v - {top};
        assert n in s <==> n in rest;
      }
    }
    forall i, j | 0 <= i < j < |s|
      ensures Above(v, s[i], s[j])
    {
      assert s[j] == rest[j - 1] && rest[j - 1] in rest;
      if i > 0 {
        assert s[i] == rest[i - 1] && rest[i - 1] in rest;
      }
    }
  }

  lemma AboveAsymmetric(v: Stack, a: string, b: string)
    requires a in v && b in v && Above(v, a, b)
    ensures !Above(v, b, a) && a != b
  {
    if v[a] == v[b] {
      LessAsymmetric(a, b);
    }
  }

  lemma ReadsBackNoRepeats(v: Stack, s: seq<string>)
    requires ReadsBack(v, s)
    ensures NoRepeats(s)
  {
    forall i, j | 0 <= i < j < |s|
      ensures s[i] != s[j]
    {
      AboveAsymmetric(v, s[i], s[j]);
    }
  }

  lemma SomeMember(s: seq<string>)
    ensures s == [] || exists n :: n in s
  {
    if s != [] {
      assert s[0] in s;
    }
  }

  lemma SameTop(v: Stack, s: seq<string>, t: seq<string>)
    requires ReadsBack(v, s) && ReadsBack(v, t) && s != []
    ensures t != [] && t[0] == s[0]
  {
    assert s[0] in t && t[0] in s;
    var i :| 0 <= i < |t| && t[i] == s[0];
    var j :| 0 <= j < |s| && s[j] == t[0];
    if i != 0 && j != 0 {
      AboveAsymmetric(v, s[0], s[j]);
      assert false;
    }
  }

  lemma WithoutTop(v: Stack, s: seq<string>)
    requires ReadsBack(v, s) && s != []
    ensures ReadsBack(v - {s[0]}, s[1..])
  {
    ReadsBackNoRepeats(v, s);
    var w := v - {s[0]};
    assert s == [s[0]] + s[1..];
    forall i, j | 0 <= i < j < |s[1..]|
      ensures Above(w, s[1..][i], s[1..][j])
    {
      assert Above(v, s[i + 1], s[j + 1]);
    }
  }

  /** The layers determine the order completely. */
  lemma {:induction false} OrderUnique(v: Stack, s: seq<string>, t: seq<string>)
    requires ReadsBack(v, s) && ReadsBack(v, t)
    ensures s == t
    decreases |s|
  {
    if s == [] {
      SomeMember(t);
    } else {
      SameTop(v, s, t);
      WithoutTop(v, s);
      WithoutTop(v, t);
      OrderUnique(v - {s[0]}, s[1..], t[1..]);
      assert s == [s[0]] + s[1..] && t == [t[0]] + t[1..];
    }
  }

  predicate NoRepeats(s: seq<string>) {
    forall i, j :: 0 <= i < j < |s| ==> s[i] != s[j]
  }

  lemma {:induction false} NoRepeatsSize(s: seq<string>, names: set<string>)
    requires NoRepeats(s) && forall n :: n in names <==> n in s
    ensures |s| == |names|
    decreases |s|
  {
    if s == [] {
      assert names == {};
    } else {
      assert s == [s[0]] + s[1..];
      NoRepeatsSize(s[1..], names - {s[0]});
    }
  }

  ghost predicate DistinctLayers(v: Stack) {
    forall a, b | a in v && b in v && a != b :: v[a] != v[b]
  }

  // ---------------------------------------------------------------- places in a list

  function Place(s: seq<string>, name: string): (k: nat)
    requires name in s
    ensures k < |s| && s[k] == name
  {
    if s[0] == name then 0 else Place(s[1..], name) + 1
  }

  lemma InsertContents<T>(s: seq<T>, k: nat, x: T)
    requires k <= |s|
    ensures var t := s[..k] + [x] + s[k..];
            && (forall n :: n in t <==> n in s || n == x)
            && forall i {:trigger t[i]} :: 0 <= i < |t| ==> t[i] == if i < k then s[i] else if i == k then x else s[i - 1]
  {
    assert s == s[..k] + s[k..];
  }

  lemma PlaceUnique(s: seq<string>, k: nat)
    requires NoRepeats(s) && k < |s|
    ensures s[k] in s && Place(s, s[k]) == k
  {
  }

  /** Every client whose place changes from s to t stores its new place; nobody else is written. */
  ghost function Renumbered(v: Stack, s: seq<string>, t: seq<string>): Stack {
    map n | n in v :: if n in s && n in t && Place(t, n) != Place(s, n) then Place(t, n) else v[n]
  }

  // ---------------------------------------------------------------- callsigns and their layers

  /** The layers of one callsign, in order. */
  function LayersOf(s: seq<string>, callsign: string): seq<string> {
    if s == [] then []
    else (if Primary(s[0]) == callsign then [s[0]] else []) + LayersOf(s[1..], callsign)
  }

  /** All layers but those of one callsign, in order. */
  function WithoutLayersOf(s: seq<string>, callsign: string): seq<string> {
    if s == [] then []
    else (if Primary(s[0]) == callsign then [] else [s[0]]) + WithoutLayersOf(s[1..], callsign)
  }

  /** Place of the callsign's topmost layer, or |s|. */
  function FirstOf(s: seq<string>, callsign: string): (k: nat)
    ensures k <= |s|
    ensures k < |s| ==> Primary(s[k]) == callsign
    ensures forall i :: 0 <= i < k ==> Primary(s[i]) != callsign
  {
    if s == [] || Primary(s[0]) == callsign then 0 else FirstOf(s[1..], callsign) + 1
  }

  /** Place of the callsign's topmost sub screen, or |s|. */
  function FirstSubOf(s: seq<string>, callsign: string): (k: nat)
    ensures k <= |s|
    ensures k < |s| ==> IsSub(s[k]) && Primary(s[k]) == callsign
    ensures forall i :: 0 <= i < k ==> !(IsSub(s[i]) && Primary(s[i]) == callsign)
  {
    if s == [] || (IsSub(s[0]) && Primary(s[0]) == callsign) then 0 else FirstSubOf(s[1..], callsign) + 1
  }

  /** Equal entries form one unbroken run. */
  ghost predicate Clustered<T>(p: seq<T>) {
    forall i, j, k :: 0 <= i < j < k < |p| && p[i] == p[k] ==> p[j] == p[i]
  }

  function Callsigns(s: seq<string>): (p: seq<string>)
    ensures |p| == |s|
    ensures forall i :: 0 <= i < |s| ==> p[i] == Primary(s[i])
  {
    seq(|s|, i requires 0 <= i < |s| => Primary(s[i]))
  }

  /** No foreign layer sits between two layers of the same callsign. */
  ghost predicate Grouped(s: seq<string>) {
    Clustered(Callsigns(s))
  }

  // ---------------------------------------------------------------- moving a callsign

  /** No foreign layer sits between two layers of this callsign. */
  ghost predicate Contiguous(s: seq<string>, callsign: string) {
    forall j, k :: FirstOf(s, callsign) <= j < k < |s| && Primary(s[k]) == callsign ==> Primary(s[j]) == callsign
  }

  /** The two neighbouring segments [lo, mid) and [mid, hi) exchanged. */
  function Exchange<T>(s: seq<T>, lo: nat, mid: nat, hi: nat): (t: seq<T>)
    requires lo <= mid <= hi <= |s|
    ensures |t| == |s|
  {
    s[..lo] + s[mid..hi] + s[lo..mid] + s[hi..]
  }

  /** PutBefore as a list edit: take the callsign's layers out, put them back, as one block and in
      the same order, just before the topmost layer of relative (or on top when relative is empty).
      A callsign put before itself sends its own topmost layer below its other layers. */
  function Moved(s: seq<string>, relative: string, callsign: string): seq<string> {
    var block := LayersOf(s, callsign);
    var others := WithoutLayersOf(s, callsign);
    if block == [] || (relative != "" && FirstOf(s, relative) == |s|) then s
    else if relative == "" then block + others
    else if relative == callsign then
      var k := FirstOf(s, callsign);
      s[..k] + block[1..] + block[..1] + WithoutLayersOf(s[k..], callsign)
    else
      var k := FirstOf(others, relative);
      others[..k] + block + others[k..]
  }

  lemma {:induction false} NoneOf(s: seq<string>, callsign: string)
    requires forall i :: 0 <= i < |s| ==> Primary(s[i]) != callsign
    ensures LayersOf(s, callsign) == [] && WithoutLayersOf(s, callsign) == s
    decreases |s|
  {
    if s != [] {
      NoneOf(s[1..], callsign);
      assert s == [s[0]] + s[1..];
    }
  }

  lemma CutInRest<T>(s: seq<T>, from: nat, past: nat)
    requires 0 < from <= past <= |s|
    ensures s[1..][from - 1..past - 1] == s[from..past]
    ensures [s[0]] + (s[1..][..from - 1] + s[1..][past - 1..]) == s[..from] + s[past..]
  {
    assert s[1..][..from - 1] == s[1..from] && s[1..][past - 1..] == s[past..];
  }

  lemma CutAtStart<T>(s: seq<T>, past: nat)
    requires 0 < past <= |s|
    ensures [s[0]] + s[1..][0..past - 1] == s[0..past] && s[1..][..0] + s[1..][past - 1..] == s[..0] + s[past..]
  {
    assert s[1..][past - 1..] == s[past..];
  }

  /** A segment that holds exactly the callsign's layers is what LayersOf finds. */
  lemma {:induction false} SegmentOf(s: seq<string>, callsign: string, from: nat, past: nat)
    requires from <= past <= |s|
    requires forall i :: 0 <= i < |s| ==> (Primary(s[i]) == callsign <==> from <= i < past)
    ensures LayersOf(s, callsign) == s[from..past]
    ensures WithoutLayersOf(s, callsign) == s[..from] + s[past..]
    decreases |s|
  {
    if past == 0 || from == past {
      NoneOf(s, callsign);
      assert s[..from] + s[past..] == s;
    } else if from > 0 {
      SegmentOf(s[1..], callsign, from - 1, past - 1);
      CutInRest(s, from, past);
    } else {
      SegmentOf(s[1..], callsign, 0, past - 1);
      CutAtStart(s, past);
    }
  }

  lemma FirstOfUnique(s: seq<string>, callsign: string, k: nat)
    requires k < |s| && Primary(s[k]) == callsign
    requires forall i :: 0 <= i < k ==> Primary(s[i]) != callsign
    ensures FirstOf(s, callsign) == k
  {
    assert FirstOf(s, callsign) < |s|;
  }

  lemma SpliceTop<T>(s: seq<T>, from: nat, past: nat)
    requires from <= past <= |s|
    ensures s[from..past] + (s[..from] + s[past..]) == Exchange(s, 0, from, past)
  {
    assert s[0..from] == s[..from];
  }

  /** Moving a callsign up or down is an exchange of two neighbouring segments. */
  lemma MovedToTop(s: seq<string>, callsign: string, from: nat, past: nat)
    requires from < past <= |s|
    requires forall i :: 0 <= i < |s| ==> (Primary(s[i]) == callsign <==> from <= i < past)
    ensures Moved(s, "", callsign) == Exchange(s, 0, from, past)
  {
    SegmentOf(s, callsign, from, past);
    SpliceTop(s, from, past);
  }

  lemma SpliceUp<T>(s: seq<T>, at: nat, from: nat, past: nat)
    requires at <= from <= past <= |s|
    ensures var others := s[..from] + s[past..];
            others[..at] + s[from..past] + others[at..] == s[..at] + s[from..past] + s[at..from] + s[past..]
  {
    var others := s[..from] + s[past..];
    assert others[..at] == s[..at] && others[at..] == s[at..from] + s[past..];
  }

  lemma SpliceDown<T>(s: seq<T>, at: nat, from: nat, past: nat)
    requires from <= past <= at <= |s|
    ensures var others := s[..from] + s[past..];
            var k := at - (past - from);
            others[..k] + s[from..past] + others[k..] == s[..from] + s[past..at] + s[from..past] + s[at..]
  {
    var others := s[..from] + s[past..];
    var k := at - (past - from);
    assert others[..k] == s[..from] + s[past..at] && others[k..] == s[at..];
  }

  /** Cutting the segment [from, to) out does not hide the first layer of another callsign. */
  lemma FirstOfAfterCut(s: seq<string>, relative: string, at: nat, from: nat, past: nat)
    requires from <= past <= |s| && (at < from || past <= at < |s|)
    requires Primary(s[at]) == relative && forall i :: 0 <= i < at ==> Primary(s[i]) != relative
    ensures FirstOf(s[..from] + s[past..], relative) == if at < from then at else at - (past - from)
  {
    var others := s[..from] + s[past..];
    var k := if at < from then at else at - (past - from);
    assert forall i {:trigger others[i]} :: 0 <= i <= k ==> others[i] == if i < from then s[i] else s[i + (past - from)];
    FirstOfUnique(others, relative, k);
  }

  lemma MovedUp(s: seq<string>, relative: string, callsign: string, at: nat, from: nat, past: nat)
    requires relative != "" && relative != callsign
    requires at < from < past <= |s|
    requires forall i :: 0 <= i < |s| ==> (Primary(s[i]) == callsign <==> from <= i < past)
    requires Primary(s[at]) == relative && forall i :: 0 <= i < at ==> Primary(s[i]) != relative
    ensures Moved(s, relative, callsign) == Exchange(s, at, from, past)
  {
    SegmentOf(s, callsign, from, past);
    FirstOfUnique(s, relative, at);
    FirstOfAfterCut(s, relative, at, from, past);
    SpliceUp(s, at, from, past);
  }

  lemma MovedDown(s: seq<string>, relative: string, callsign: string, at: nat, from: nat, past: nat)
    requires relative != "" && relative != callsign
    requires from < past <= at < |s|
    requires forall i :: 0 <= i < |s| ==> (Primary(s[i]) == callsign <==> from <= i < past)
    requires Primary(s[at]) == relative && forall i :: 0 <= i < at ==> Primary(s[i]) != relative
    ensures Moved(s, relative, callsign) == Exchange(s, from, past, at)
  {
    SegmentOf(s, callsign, from, past);
    FirstOfUnique(s, relative, at);
    FirstOfAfterCut(s, relative, at, from, past);
    SpliceDown(s, at, from, past);
  }

  lemma MovedBeforeItself(s: seq<string>, callsign: string, from: nat, past: nat)
    requires callsign != "" && from < past <= |s|
    requires forall i :: 0 <= i < |s| ==> (Primary(s[i]) == callsign <==> from <= i < past)
    ensures Moved(s, callsign, callsign) == Exchange(s, from, from + 1, past)
  {
    SegmentOf(s, callsign, from, past);
    FirstOfUnique(s, callsign, from);
    SegmentOf(s[from..], callsign, 0, past - from);
    assert s[from..past][1..] == s[from + 1..past] && s[from..past][..1] == s[from..from + 1];
    assert s[from..][..0] + s[from..][past - from..] == s[past..];
  }

  /** t holds the entries of s, and its places differ from those of s exactly in [lo, hi). */
  ghost predicate Rearranged(s: seq<string>, t: seq<string>, lo: nat, hi: nat) {
    && lo < hi <= |s| == |t|
    && NoRepeats(s) && NoRepeats(t)
    && (forall n :: n in s <==> n in t)
    && forall i :: 0 <= i < |s| ==> (t[i] != s[i] <==> lo <= i < hi)
  }

  /** Where the entry at place i of an exchanged list came from. */
  function Source(lo: nat, mid: nat, hi: nat, i: nat): nat
    requires lo <= mid <= hi
  {
    if i < lo || hi <= i then i else if i < lo + hi - mid then i + mid - lo else i - (hi - mid)
  }

  /** The topmost place at which two lists of the same length differ. */
  ghost function FirstChange(s: seq<string>, t: seq<string>): (k: nat)
    requires |s| == |t|
    ensures k <= |s|
    ensures k < |s| ==> s[k] != t[k]
    ensures forall i :: 0 <= i < k ==> s[i] == t[i]
  {
    if s == [] || s[0] != t[0] then 0 else FirstChange(s[1..], t[1..]) + 1
  }

  lemma ExchangeRearranges(s: seq<string>, lo: nat, mid: nat, hi: nat)
    requires lo < mid < hi <= |s| && NoRepeats(s)
    ensures Rearranged(s, Exchange(s, lo, mid, hi), lo, hi)
  {
    var t := Exchange(s, lo, mid, hi);
    ExchangeSource(s, lo, mid, hi);
    assert s == s[..lo] + (s[lo..mid] + s[mid..hi]) + s[hi..];
  }

  /** w stores the new place for every client in [lo, hi) of t, and otherwise what v stores. */
  ghost predicate Rewritten(v: Stack, w: Stack, t: seq<string>, lo: nat, hi: nat) {
    && w.Keys == v.Keys
    && forall i :: 0 <= i < |t| ==> t[i] in v && w[t[i]] == if lo <= i < hi then i else v[t[i]]
  }

  lemma RearrangedLayers(v: Stack, s: seq<string>, t: seq<string>, lo: nat, hi: nat)
    requires ReadsBack(v, s) && Rearranged(s, t, lo, hi)
    ensures Rewritten(v, Renumbered(v, s, t), t, lo, hi)
  {
    forall i | 0 <= i < |t|
      ensures t[i] in v && Renumbered(v, s, t)[t[i]] == if lo <= i < hi then i else v[t[i]]
    {
      PlaceUnique(t, i);
      PlaceUnique(s, Place(s, t[i]));
    }
  }

  lemma RewrittenUnique(v: Stack, w: Stack, w': Stack, t: seq<string>, lo: nat, hi: nat)
    requires Rewritten(v, w, t, lo, hi) && Rewritten(v, w', t, lo, hi)
    requires forall n :: n in v ==> n in t
    ensures w == w'
  {
    forall n | n in v
      ensures w[n] == w'[n]
    {
      assert n == t[Place(t, n)];
    }
  }

  predicate Ascending(a: seq<nat>) {
    forall i, j :: 0 <= i < j < |a| ==> a[i] < a[j]
  }

  /** The layers found in order, topmost first. */
  function LayersAlong(v: Stack, s: seq<string>): (a: seq<nat>)
    requires forall i :: 0 <= i < |s| ==> s[i] in v
    ensures |a| == |s|
    ensures forall i :: 0 <= i < |a| ==> a[i] == v[s[i]]
  {
    seq(|s|, i requires 0 <= i < |s| => v[s[i]])
  }

  lemma {:induction false} AscendingAtLeast(a: seq<nat>, k: nat)
    requires Ascending(a) && k < |a|
    ensures a[k] >= k
  {
    if k > 0 {
      AscendingAtLeast(a, k - 1);
      assert a[k - 1] < a[k];
    }
  }

  /** Overwriting the middle of an ascending list with places keeps it ascending exactly when
      the part before has no gap. */
  lemma PlacesKeepAscending(a: seq<nat>, b: seq<nat>, lo: nat, hi: nat)
    requires Ascending(a) && |a| == |b| && lo < hi <= |a|
    requires forall i :: 0 <= i < |b| ==> b[i] == if lo <= i < hi then i else a[i]
    ensures Ascending(b) <==> lo == 0 || a[lo - 1] == lo - 1
  {
    if lo > 0 {
      AscendingAtLeast(a, lo - 1);
      if Ascending(b) { assert b[lo - 1] < b[lo]; }
    }
    if lo == 0 || a[lo - 1] == lo - 1 {
      forall i, j | 0 <= i < j < |b|
        ensures b[i] < b[j]
      {
        assert a[i] < a[j];
        assert i < lo - 1 ==> a[i] < a[lo - 1];
        AscendingAtLeast(a, j);
      }
    }
  }

  lemma AscendingDistinct(w: Stack, t: seq<string>)
    requires forall n :: n in w <==> n in t
    requires Ascending(LayersAlong(w, t))
    ensures DistinctLayers(w)
  {
    var a := LayersAlong(w, t);
    forall n, m | n in w && m in w && n != m
      ensures w[n] != w[m]
    {
      var i, j := Place(t, n), Place(t, m);
      assert if i < j then a[i] < a[j] else a[j] < a[i];
    }
  }

  /** A list along which the layers ascend is the order, and no layer is shared. */
  lemma AscendingReadsBack(w: Stack, t: seq<string>)
    requires forall n :: n in w <==> n in t
    requires Ascending(LayersAlong(w, t))
    ensures DistinctLayers(w) && Order(w) == t
  {
    AscendingDistinct(w, t);
    assert ReadsBack(w, t) by {
      var a := LayersAlong(w, t);
      forall i, j | 0 <= i < j < |t|
        ensures Above(w, t[i], t[j])
      {
        assert a[i] < a[j];
      }
    }
    OrderReadsBack(w);
    OrderUnique(w, Order(w), t);
  }

  lemma OrderAscends(v: Stack)
    requires DistinctLayers(v)
    ensures Ascending(LayersAlong(v, Order(v)))
  {
    var s := Order(v);
    forall i, j | 0 <= i < j < |s|
      ensures v[s[i]] < v[s[j]]
    {
      assert Above(v, s[i], s[j]);
      AboveAsymmetric(v, s[i], s[j]);
    }
  }

  /** Writing new places only where places change is enough exactly when the layers above the
      first change carry no gap; then the layers read back as the intended list. */
  lemma RearrangedReadsBack(v: Stack, w: Stack, s: seq<string>, t: seq<string>, lo: nat, hi: nat)
    requires DistinctLayers(v) && s == Order(v)
    requires |s| == |t| && lo < hi <= |s| && forall n :: n in s <==> n in t
    requires forall i :: 0 <= i < lo || hi <= i < |s| ==> t[i] == s[i]
    requires Rewritten(v, w, t, lo, hi)
    ensures DistinctLayers(w) && Order(w) == t <==> lo == 0 || v[s[lo - 1]] == lo - 1
  {
    OrderAscends(v);
    var a, b := LayersAlong(v, s), LayersAlong(w, t);
    PlacesKeepAscending(a, b, lo, hi);
    if Ascending(b) {
      AscendingReadsBack(w, t);
    } else if DistinctLayers(w) && Order(w) == t {
      OrderAscends(w);
    }
  }

  // ---------------------------------------------------------------- keeping callsigns together

  ghost predicate Cut<T>(p: seq<T>, c: nat) {
    c == 0 || c >= |p| || p[c - 1] != p[c]
  }

  lemma CutSeparates<T>(p: seq<T>, c: nat, i: nat, k: nat)
    requires Clustered(p) && Cut(p, c) && i < c <= k < |p|
    ensures p[i] != p[k]
  {
  }

  /** Exchanging two segments that end where callsigns end keeps every callsign together. */
  lemma ExchangeClustered<T>(p: seq<T>, lo: nat, mid: nat, hi: nat)
    requires Clustered(p) && lo <= mid <= hi <= |p| && Cut(p, lo) && Cut(p, mid) && Cut(p, hi)
    ensures Clustered(Exchange(p, lo, mid, hi))
  {
    var q := Exchange(p, lo, mid, hi);
    ExchangeSource(p, lo, mid, hi);
    forall i, j, k | 0 <= i < j < k < |q| && q[i] == q[k]
      ensures q[j] == q[i]
    {
      ExchangeRun(p, lo, mid, hi, i, j, k);
    }
  }

  lemma ExchangeSource<T>(p: seq<T>, lo: nat, mid: nat, hi: nat)
    requires lo <= mid <= hi <= |p|
    ensures forall i :: 0 <= i < |p| ==> Source(lo, mid, hi, i) < |p|
    ensures forall i :: 0 <= i < |p| ==> Exchange(p, lo, mid, hi)[i] == p[Source(lo, mid, hi, i)]
  {
  }

  lemma ExchangeRun<T>(p: seq<T>, lo: nat, mid: nat, hi: nat, i: nat, j: nat, k: nat)
    requires Clustered(p) && lo <= mid <= hi <= |p| && Cut(p, lo) && Cut(p, mid) && Cut(p, hi)
    requires i < j < k < |p|
    requires p[Source(lo, mid, hi, i)] == p[Source(lo, mid, hi, k)]
    ensures p[Source(lo, mid, hi, j)] == p[Source(lo, mid, hi, i)]
  {
    var a, b, c := Source(lo, mid, hi, i), Source(lo, mid, hi, j), Source(lo, mid, hi, k);
    SameSegment(p, lo, a, c);
    SameSegment(p, mid, a, c);
    SameSegment(p, hi, a, c);
    assert a < b < c;
  }

  lemma SameSegment<T>(p: seq<T>, c: nat, a: nat, b: nat)
    requires Clustered(p) && Cut(p, c) && a < |p| && b < |p| && p[a] == p[b]
    ensures a < c <==> b < c
  {
    if a < c <= b {
      CutSeparates(p, c, a, b);
    } else if b < c <= a {
      CutSeparates(p, c, b, a);
    }
  }

  /** A new entry keeps the runs unbroken exactly when it lands next to (or inside) the run of its
      kind, or is the first of its kind and does not split another run. */
  lemma InsertClustered<T>(p: seq<T>, k: nat, x: T)
    requires Clustered(p) && k <= |p|
    ensures Clustered(p[..k] + [x] + p[k..])
            <==> (x !in p && Cut(p, k)) || (k > 0 && p[k - 1] == x) || (k < |p| && p[k] == x)
  {
    var q := p[..k] + [x] + p[k..];
    assert forall i {:trigger q[i]} :: 0 <= i < |q| ==> q[i] == if i < k then p[i] else if i == k then x else p[i - 1];
    if Clustered(q) {
      if x in p {
        var i :| 0 <= i < |p| && p[i] == x;
        if i < k {
          assert q[i] == q[k] == x && q[k - 1] == x;
        } else {
          assert q[k] == q[i + 1] == x && q[k + 1] == x;
        }
      } else {
        SplitRun(p, q, k, x);
      }
    }
    if (x !in p && Cut(p, k)) || (k > 0 && p[k - 1] == x) || (k < |p| && p[k] == x) {
      forall a, b, c | 0 <= a < b < c < |q| && q[a] == q[c]
        ensures q[b] == q[a]
      {
        InsertRun(p, q, k, x, a, b, c);
      }
    }
  }

  lemma SplitRun<T>(p: seq<T>, q: seq<T>, k: nat, x: T)
    requires k <= |p| && q == p[..k] + [x] + p[k..] && x !in p
    ensures Clustered(q) ==> Cut(p, k)
  {
    if !Cut(p, k) {
      assert q[k - 1] == p[k - 1] == p[k] == q[k + 1] && q[k] == x && p[k] in p;
    }
  }

  lemma InsertRun<T>(p: seq<T>, q: seq<T>, k: nat, x: T, a: nat, b: nat, c: nat)
    requires Clustered(p) && k <= |p| && |q| == |p| + 1
    requires forall i {:trigger q[i]} :: 0 <= i < |q| ==> q[i] == if i < k then p[i] else if i == k then x else p[i - 1]
    requires (x !in p && Cut(p, k)) || (k > 0 && p[k - 1] == x) || (k < |p| && p[k] == x)
    requires a < b < c < |q| && q[a] == q[c]
    ensures q[b] == q[a]
  {
    // the same three entries in p, with the new entry replaced by a neighbour of its kind
    if x !in p {
      assert forall i :: 0 <= i < |p| ==> p[i] != x;
      assert a != k && c != k;
      var a', c' := if a < k then a else a - 1, if c < k then c else c - 1;
      assert p[a'] == p[c'];
      if b == k {
        CutSeparates(p, k, a', c');
        assert false;
      }
    } else {
      var n := if k > 0 && p[k - 1] == x then k - 1 else k;
      var a' := if a < k then a else if a == k then n else a - 1;
      var b' := if b < k then b else if b == k then n else b - 1;
      var c' := if c < k then c else if c == k then n else c - 1;
      assert p[a'] == q[a] && p[b'] == q[b] && p[c'] == q[c];
    }
  }
}
