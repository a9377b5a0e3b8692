// Client names of the compositor: the key order of std::map<string, ...> and the
// split of a layer name such as "Cobalt:graphics" at its first colon.
module Names {

  /** Lexicographic order on strings, the iteration order of std::map<string, T>. */
  predicate Less(a: string, b: string)
    decreases |a|
  {
    b != [] && (a == [] || a[0] < b[0] || (a[0] == b[0] && Less(a[1..], b[1..])))
  }

  lemma {:induction false} LessTotal(a: string, b: string)
    ensures a == b || Less(a, b) || Less(b, a)
    decreases |a|
  {
    if a != [] && b != [] && a[0] == b[0] {
      LessTotal(a[1..], b[1..]);
      assert a == [a[0]] + a[1..] && b == [b[0]] + b[1..];
    }
  }

  lemma {:induction false} LessAsymmetric(a: string, b: string)
    requires Less(a, b)
    ensures !Less(b, a) && a != b
    decreases |a|
  {
    if a != [] && a[0] == b[0] {
      LessAsymmetric(a[1..], b[1..]);
    }
  }

  lemma {:induction false} LessTransitive(a: string, b: string, c: string)
    requires Less(a, b) && Less(b, c)
    ensures Less(a, c)
    decreases |a|
  {
    if a != [] && a[0] == b[0] == c[0] {
      LessTransitive(a[1..], b[1..], c[1..]);
    }
  }

  /** The first key of a non-empty std::map. */
  predicate IsLeast(name: string, names: set<string>) {
    name in names && forall n | n in names :: n == name || Less(name, n)
  }

  lemma {:induction false} LeastExists(names: set<string>) returns (least: string)
    requires names != {}
    ensures IsLeast(least, names)
    decreases |names|
  {
    var some :| some in names;
    if names == {some} {
      least := some;
    } else {
      var rest := names - {some};
      var low := LeastExists(rest);
      LessTotal(low, some);
      least := if Less(some, low) then some else low;
      forall n | n in names
        ensures n == least || Less(least, n)
      {
        if n != some && n != low && Less(some, low) {
          LessTransitive(some, low, n);
        }
      }
    }
  }

  /** Position of the first colon, or |name| when there is none. */
  function Colon(name: string): (pos: nat)
    ensures pos <= |name|
    ensures forall i :: 0 <= i < pos ==> name[i] != ':'
    ensures pos < |name| ==> name[pos] == ':'
  {
    if name == [] || name[0] == ':' then 0
    else
      Colon(name[1..]) + 1
  }

  /** The callsign a layer belongs to: the name up to its first colon. */
  function Primary(name: string): string {
    name[..Colon(name)]
  }

  /** A sub screen carries a colon in its name. */
  predicate IsSub(name: string) {
    Colon(name) < |name|
  }

  /** A sub screen that the compositor keeps on top of its siblings. */
  predicate IsGraphics(name: string) {
    Colon(name) + 1 < |name| && (name[Colon(name) + 1] == 'g' || name[Colon(name) + 1] == '1')
  }

  /** What Compositor::Attached compares: the first length characters, colon included. */
  function Prefix(name: string, length: nat): string {
    if length <= |name| then name[..length] else name
  }

  /** Comparing the text up to and including the colon singles out the sub screens of one callsign. */
  lemma SubPrefix(name: string, other: string)
    requires IsSub(name)
    ensures Prefix(other, Colon(name) + 1) == Prefix(name, Colon(name) + 1)
            <==> IsSub(other) && Primary(other) == Primary(name)
  {
    var p := Colon(name);
    var q := Colon(other);
    if IsSub(other) && Primary(other) == Primary(name) {
      assert |Primary(other)| == q && |Primary(name)| == p;
      assert other[..p + 1] == other[..p] + [':'];
      assert name[..p + 1] == name[..p] + [':'];
    }
    if Prefix(other, p + 1) == Prefix(name, p + 1) {
      assert |Prefix(name, p + 1)| == p + 1;
      assert p < |other| && other[p] == Prefix(other, p + 1)[p] == ':';
      assert forall i :: 0 <= i < p ==> other[i] == Prefix(other, p + 1)[i] == name[i];
      assert q == p;
      assert Prefix(other, p + 1)[..p] == other[..p] && Prefix(name, p + 1)[..p] == name[..p];
    }
  }
}
