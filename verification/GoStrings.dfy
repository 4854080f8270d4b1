/** Go strings and byte slices: sequences of bytes, one `char` below 256 for each byte.
    Also the few operations of Go's `strings` and `sort` packages the engine relies on. */
module GoStrings {

  type Byte = c: char | c as int < 256 witness 'a'
  type Bytes = seq<Byte>

  datatype Option<+T> = None | Some(value: T)

  /** Strict byte order, the order of Go's `<` on strings and of `sort.Strings`. */
  predicate Less(a: Bytes, b: Bytes) {
    if |b| == 0 then false
    else if |a| == 0 then true
    else a[0] < b[0] || (a[0] == b[0] && Less(a[1..], b[1..]))
  }

  lemma {:induction false} LessIrreflexive(a: Bytes)
    ensures !Less(a, a)
  {
    if |a| == 0 {
    } else {
      LessIrreflexive(a[1..]);
    }
  }

  lemma {:induction false} LessTransitive(a: Bytes, b: Bytes, c: Bytes)
    requires Less(a, b) && Less(b, c)
    ensures Less(a, c)
  {
    if |a| > 0 && a[0] == b[0] == c[0] { LessTransitive(a[1..], b[1..], c[1..]); }
  }

  lemma {:induction false} LessTotal(a: Bytes, b: Bytes)
    ensures Less(a, b) || a == b || Less(b, a)
  {
    if |a| > 0 && |b| > 0 && a[0] == b[0] {
      LessTotal(a[1..], b[1..]);
      assert a == [a[0]] + a[1..] && b == [b[0]] + b[1..];
    }
  }

  ghost predicate Ascending(xs: seq<Bytes>) {
    forall i, j :: 0 <= i < j < |xs| ==> Less(xs[i], xs[j])
  }

  /** `xs` lists the members of `keys`, each once, in strict byte order. */
  ghost predicate Lists(xs: seq<Bytes>, keys: set<Bytes>) {
    Ascending(xs) && (forall x :: x in xs <==> x in keys)
  }

  /** One step of an insertion sort on distinct strings. */
  function Insert(x: Bytes, xs: seq<Bytes>): (ys: seq<Bytes>)
    requires Ascending(xs) && x !in xs
    ensures Ascending(ys)
    ensures forall y :: y in ys <==> y == x || y in xs
  {
    if |xs| == 0 then [x]
    else if Less(x, xs[0]) then
      assert forall j :: 0 <= j < |xs| ==> Less(x, xs[j]) by {
        forall j | 0 <= j < |xs| ensures Less(x, xs[j]) {
          if j > 0 { LessTransitive(x, xs[0], xs[j]); }
        }
      }
      [x] + xs
    else
      LessTotal(x, xs[0]);
      var rest := Insert(x, xs[1..]);
      assert forall y :: y in rest ==> Less(xs[0], y);
      [xs[0]] + rest
  }

  predicate Distinct(xs: seq<Bytes>) {
    forall i, j :: 0 <= i < j < |xs| ==> xs[i] != xs[j]
  }

  /** `sort.Strings` on a slice without repeated elements. */
  function Sort(xs: seq<Bytes>): (ys: seq<Bytes>)
    requires Distinct(xs)
    ensures Ascending(ys)
    ensures forall y :: y in ys <==> y in xs
  {
    if |xs| == 0 then [] else
      assert xs[0] !in xs[1..];
      Insert(xs[0], Sort(xs[1..]))
  }

  /** A set of strings has only one listing in strict byte order. */
  lemma {:induction false} ListingUnique(xs: seq<Bytes>, ys: seq<Bytes>, keys: set<Bytes>)
    requires Lists(xs, keys) && Lists(ys, keys)
    ensures xs == ys
  {
    assert |xs| > 0 ==> xs[0] in keys;
    assert |ys| > 0 ==> ys[0] in keys;
    if |xs| > 0 && |ys| > 0 {
      assert xs[0] in ys && ys[0] in xs;
      var i :| 0 <= i < |ys| && ys[i] == xs[0];
      var j :| 0 <= j < |xs| && xs[j] == ys[0];
      if i > 0 {
        assert Less(ys[0], xs[0]);
        if j > 0 { LessTransitive(ys[0], xs[0], xs[j]); }
        LessIrreflexive(ys[0]);
      }
      assert xs[0] == ys[0];
      ListingTail(xs, keys);
      ListingTail(ys, keys);
      ListingUnique(xs[1..], ys[1..], keys - {xs[0]});
    }
  }

  lemma ListingTail(xs: seq<Bytes>, keys: set<Bytes>)
    requires Lists(xs, keys) && |xs| > 0
    ensures Lists(xs[1..], keys - {xs[0]})
  {
    LessIrreflexive(xs[0]);
    assert xs[0] !in xs[1..];
    forall x ensures x in xs[1..] <==> x in keys - {xs[0]} {
      assert x in xs <==> x == xs[0] || x in xs[1..];
    }
  }

  lemma {:induction false} ListingExists(keys: set<Bytes>) returns (xs: seq<Bytes>)
    ensures Lists(xs, keys)
  {
    if keys == {} {
      xs := [];
    } else {
      var k :| k in keys;
      var rest := ListingExists(keys - {k});
      xs := Insert(k, rest);
    }
  }

  /** The members of `keys` in strict byte order. */
  ghost function SortedKeys(keys: set<Bytes>): (xs: seq<Bytes>)
    ensures Lists(xs, keys)
  {
    assert exists xs :: Lists(xs, keys) by { var w := ListingExists(keys); }
    var xs :| Lists(xs, keys);
    xs
  }

  /** Sorting any enumeration of a set gives the same sequence, whatever the enumeration order. */
  lemma SortCanonical(xs: seq<Bytes>, keys: set<Bytes>)
    requires Distinct(xs) && (forall x :: x in xs <==> x in keys)
    ensures Sort(xs) == SortedKeys(keys)
  {
    ListingUnique(Sort(xs), SortedKeys(keys), keys);
  }

  /** Collect the keys of a map, drawn in an arbitrary order, and sort them. */
  method CollectSorted(keys: set<Bytes>) returns (ids: seq<Bytes>)
    ensures ids == SortedKeys(keys)
  {
    ids := [];
    var todo := keys;
    while todo != {}
      invariant todo <= keys
      invariant Distinct(ids) && forall id :: id in ids <==> id in keys - todo
      decreases todo
    {
      var id :| id in todo;
      assert id !in ids;
      ids, todo := ids + [id], todo - {id};
    }
    SortCanonical(ids, keys);
    ids := Sort(ids);
  }

  lemma {:induction false} PrefixLess(a: Bytes, b: Bytes)
    requires |b| > 0
    ensures Less(a, a + b)
  {
    if |a| == 0 {
      assert a + b == b;
    } else {
      PrefixLess(a[1..], b);
      assert (a + b)[1..] == a[1..] + b;
    }
  }

  /** Position of the first `sep` in `s`, or `|s|`: where `strings.Cut` cuts. */
  function Index(s: Bytes, sep: Byte): (i: nat)
    ensures i <= |s|
    ensures forall k :: 0 <= k < i ==> s[k] != sep
    ensures i < |s| ==> s[i] == sep
    ensures sep in s <==> i < |s|
  {
    if |s| == 0 || s[0] == sep then 0 else 1 + Index(s[1..], sep)
  }

  function Before(s: Bytes, sep: Byte): Bytes {
    s[..Index(s, sep)]
  }

  function After(s: Bytes, sep: Byte): Bytes {
    if Index(s, sep) < |s| then s[Index(s, sep) + 1..] else []
  }

  lemma IndexAt(s: Bytes, sep: Byte, i: nat)
    requires i < |s| && s[i] == sep && forall k :: 0 <= k < i ==> s[k] != sep
    ensures Index(s, sep) == i
  {
  }

  /** Cutting `a + [sep] + b` at the first `sep`, when `a` has none, gives back `a` and `b`. */
  lemma CutJoined(a: Bytes, sep: Byte, b: Bytes)
    requires sep !in a
    ensures Before(a + [sep] + b, sep) == a && After(a + [sep] + b, sep) == b
  {
    var s := a + [sep] + b;
    assert s[|a|] == sep;
    assert forall k :: 0 <= k < |a| ==> s[k] == a[k];
    IndexAt(s, sep, |a|);
  }

  /** What follows a string that has `sep` does not move the first `sep`. */
  lemma CutExtended(s: Bytes, sep: Byte, rest: Bytes)
    requires sep in s
    ensures Before(s + rest, sep) == Before(s, sep) && After(s + rest, sep) == After(s, sep) + rest
  {
    var i := Index(s, sep);
    IndexAt(s + rest, sep, i);
    assert (s + rest)[..i] == s[..i] && (s + rest)[i + 1..] == s[i + 1..] + rest;
  }

  lemma CutAbsent(s: Bytes, sep: Byte)
    requires sep !in s
    ensures Before(s, sep) == s && After(s, sep) == []
  {
  }

  /** `s` split at every `sep`; a string without `sep` is its only piece. */
  function Split(s: Bytes, sep: Byte): (r: seq<Bytes>)
    ensures |r| > 0
    decreases |s|
  {
    var i := Index(s, sep);
    if i < |s| then [s[..i]] + Split(s[i + 1..], sep) else [s]
  }

  function Join(parts: seq<Bytes>, sep: Byte): Bytes {
    if |parts| == 0 then [] else if |parts| == 1 then parts[0] else parts[0] + [sep] + Join(parts[1..], sep)
  }

  lemma {:induction false} SplitJoin(parts: seq<Bytes>, sep: Byte)
    requires |parts| > 0
    requires forall i :: 0 <= i < |parts| ==> sep !in parts[i]
    ensures Split(Join(parts, sep), sep) == parts
  {
    if |parts| <= 1 {
    } else {
      CutJoined(parts[0], sep, Join(parts[1..], sep));
      SplitJoin(parts[1..], sep);
    }
  }

  /** Splitting two strings joined by `sep` splits each of them. */
  lemma {:induction false} SplitAppend(a: Bytes, sep: Byte, b: Bytes)
    ensures Split(a + [sep] + b, sep) == Split(a, sep) + Split(b, sep)
    decreases |a|
  {
    var s := a + [sep] + b;
    var i := Index(a, sep);
    if i < |a| {
      IndexAt(s, sep, i);
      assert s[i + 1..] == a[i + 1..] + [sep] + b;
      assert s[..i] == a[..i];
      SplitAppend(a[i + 1..], sep, b);
    } else {
      CutJoined(a, sep, b);
    }
  }
}
