/** Percent-encoding (section 2.1 of RFC 3986) and form queries as Go's `net/url` writes
    and reads them: `QueryEscape`, `QueryUnescape`, `ParseQuery` and `Values.Encode`. */
module FormEncoding {
  import opened GoStrings
  import Base64url

  predicate Unreserved(c: Byte) {
    'A' <= c <= 'Z' || 'a' <= c <= 'z' || '0' <= c <= '9' || c == '-' || c == '_' || c == '.' || c == '~'
  }

  function HexDigit(n: nat): (c: Byte)
    requires n < 16
    ensures Unreserved(c)
  {
    if n < 10 then ('0' as int + n) as char else ('A' as int + n - 10) as char
  }

  function HexValue(c: Byte): (n: Option<nat>)
    ensures n.Some? ==> n.value < 16
  {
    if '0' <= c <= '9' then Some(c as int - '0' as int)
    else if 'A' <= c <= 'F' then Some(c as int - 'A' as int + 10)
    else if 'a' <= c <= 'f' then Some(c as int - 'a' as int + 10)
    else None
  }

  function EscapeByte(c: Byte): (r: Bytes)
    ensures forall i :: 0 <= i < |r| ==> Unreserved(r[i]) || r[i] == '%' || r[i] == '+'
  {
    if Unreserved(c) then [c]
    else if c == ' ' then ['+']
    else ['%', HexDigit(c as int / 16), HexDigit(c as int % 16)]
  }

  /** `url.QueryEscape`. The output has none of the characters that structure a URL. */
  function Escape(s: Bytes): (r: Bytes)
    ensures forall i :: 0 <= i < |r| ==> Unreserved(r[i]) || r[i] == '%' || r[i] == '+'
  {
    if |s| == 0 then [] else EscapeByte(s[0]) + Escape(s[1..])
  }

  /** `url.QueryUnescape`; `None` is its error for a `%` without two hex digits. */
  function Unescape(s: Bytes): Option<Bytes> {
    if |s| == 0 then Some([])
    else if s[0] == '%' then
      if |s| < 3 || HexValue(s[1]).None? || HexValue(s[2]).None? then None
      else
        match Unescape(s[3..])
        case None => None
        case Some(rest) => Some([Base64url.Octet(HexValue(s[1]).value * 16 + HexValue(s[2]).value)] + rest)
    else
      match Unescape(s[1..])
      case None => None
      case Some(rest) => Some([if s[0] == '+' then ' ' else s[0]] + rest)
  }

  lemma {:induction false} UnescapeEscape(s: Bytes)
    ensures Unescape(Escape(s)) == Some(s)
  {
    if |s| == 0 {
    } else {
      UnescapeEscape(s[1..]);
      var head, tail := EscapeByte(s[0]), Escape(s[1..]);
      assert s == [s[0]] + s[1..];
      assert Escape(s) == head + tail;
      UnescapeByte(s[0], tail);
    }
  }

  lemma UnescapeByte(c: Byte, tail: Bytes)
    requires Unescape(tail).Some?
    ensures Unescape(EscapeByte(c) + tail) == Some([c] + Unescape(tail).value)
  {
    var head := EscapeByte(c);
    assert (head + tail)[|head|..] == tail;
    if |head| == 3 { HexPair(c as int); }
  }

  /** A `%` at `i` that two hex digits do not follow. */
  predicate Broken(s: Bytes, i: nat)
    requires i < |s|
  {
    s[i] == '%' && (i + 2 >= |s| || HexValue(s[i + 1]).None? || HexValue(s[i + 2]).None?)
  }

  ghost predicate HasBroken(s: Bytes) {
    exists i: nat :: i < |s| && Broken(s, i)
  }

  /** Unescaping fails exactly on a broken escape. */
  lemma {:induction false} UnescapeFailsIff(s: Bytes)
    ensures Unescape(s).None? <==> HasBroken(s)
    decreases |s|
  {
    if |s| == 0 {
    } else if Broken(s, 0) {
      assert Unescape(s).None?;
    } else {
      var n := if s[0] == '%' then 3 else 1;
      var rest := s[n..];
      UnescapeFailsIff(rest);
      if i: nat :| i < |rest| && Broken(rest, i) { assert Broken(s, i + n); }
      if i: nat :| i < |s| && Broken(s, i) {
        assert i >= n;
        assert Broken(rest, i - n);
      }
    }
  }

  lemma HexPair(n: nat)
    requires n < 256
    ensures HexValue(HexDigit(n / 16)) == Some(n / 16) && HexValue(HexDigit(n % 16)) == Some(n % 16)
    ensures n / 16 * 16 + n % 16 == n
  {
  }

  lemma {:induction false} EscapeUnreserved(s: Bytes)
    requires forall i :: 0 <= i < |s| ==> Unreserved(s[i])
    ensures Escape(s) == s
  {
    if |s| == 0 {
    } else {
      assert Unreserved(s[0]);
      EscapeUnreserved(s[1..]);
      assert s == [s[0]] + s[1..];
    }
  }

  /** Form-escaping a token is the identity: base64url stays inside the unreserved characters. */
  lemma TokenNeedsNoEscape(b: Bytes)
    ensures Escape(Base64url.Encode(b)) == Base64url.Encode(b)
  {
    var t := Base64url.Encode(b);
    Base64url.EncodeShape(b);
    assert forall i :: 0 <= i < |t| ==> Base64url.InAlphabet(t[i]) && Unreserved(t[i]);
    EscapeUnreserved(t);
  }

  type Pair = (Bytes, Bytes)

  datatype Segment = Ignored | Bad | Read(pair: Pair)

  /** One `&`-separated piece of a query: empty pieces are skipped, a semicolon or a broken
      escape is an error, and a piece without `=` is a key with an empty value. */
  function ReadSegment(seg: Bytes): Segment {
    if ';' in seg then Bad
    else if seg == [] then Ignored
    else
      match (Unescape(Before(seg, '=')), Unescape(After(seg, '=')))
      case (Some(k), Some(v)) => Read((k, v))
      case _ => Bad
  }

  /** What `url.ParseQuery` reads: the good pairs in order, and whether it reports an error. */
  datatype Form = Form(pairs: seq<Pair>, bad: bool)

  function ReadSegments(segs: seq<Bytes>): Form {
    if |segs| == 0 then Form([], false) else Prepend(ReadSegment(segs[0]), ReadSegments(segs[1..]))
  }

  function Prepend(seg: Segment, rest: Form): Form {
    match seg
    case Ignored => rest
    case Bad => rest.(bad := true)
    case Read(p) => rest.(pairs := [p] + rest.pairs)
  }

  function ParseQuery(query: Bytes): Form {
    ReadSegments(Split(query, '&'))
  }

  /** `vals[key]`: every value given for `key`, in order. */
  function ValuesOf(pairs: seq<Pair>, key: Bytes): seq<Bytes> {
    if |pairs| == 0 then [] else ValueIf(pairs[0], key) + ValuesOf(pairs[1..], key)
  }

  function ValueIf(p: Pair, key: Bytes): seq<Bytes> {
    if p.0 == key then [p.1] else []
  }

  /** `vals.Get(key)`: the first value given for `key`, or the empty string. */
  function Get(pairs: seq<Pair>, key: Bytes): Bytes {
    var vs := ValuesOf(pairs, key);
    if |vs| > 0 then vs[0] else []
  }

  function WritePair(p: Pair): Bytes {
    Escape(p.0) + ['='] + Escape(p.1)
  }

  function WritePairs(pairs: seq<Pair>): Bytes {
    Join(seq(|pairs|, i requires 0 <= i < |pairs| => WritePair(pairs[i])), '&')
  }

  /** The pairs of a form in strict byte order of their keys, each with its one value. */
  ghost function SortedPairs(form: map<Bytes, Bytes>): (r: seq<Pair>)
    ensures |r| == |SortedKeys(form.Keys)|
    ensures forall i :: 0 <= i < |r| ==> r[i].0 == SortedKeys(form.Keys)[i] && r[i].0 in form && r[i].1 == form[r[i].0]
  {
    var keys := SortedKeys(form.Keys);
    assert forall i :: 0 <= i < |keys| ==> keys[i] in keys;
    seq(|keys|, i requires 0 <= i < |keys| => (keys[i], form[keys[i]]))
  }

  /** `Values.Encode` of a form with one value for each key. */
  ghost function EncodeValues(form: map<Bytes, Bytes>): Bytes {
    WritePairs(SortedPairs(form))
  }

  method Encode(form: map<Bytes, Bytes>) returns (r: Bytes)
    ensures r == EncodeValues(form)
  {
    var keys := CollectSorted(form.Keys);
    assert forall i :: 0 <= i < |keys| ==> keys[i] in keys;
    var pairs: seq<Pair> := [];
    for i := 0 to |keys|
      invariant |pairs| == i && forall k :: 0 <= k < i ==> pairs[k] == (keys[k], form[keys[k]])
    {
      pairs := pairs + [(keys[i], form[keys[i]])];
    }
    assert pairs == SortedPairs(form);
    return WritePairs(pairs);
  }

  /** A piece that `url.ParseQuery` refuses: it has a semicolon or a broken escape. */
  ghost predicate BadPiece(seg: Bytes) {
    ';' in seg || HasBroken(seg)
  }

  ghost predicate HasBadPiece(segs: seq<Bytes>) {
    exists i :: 0 <= i < |segs| && BadPiece(segs[i])
  }

  lemma HalvesBroken(seg: Bytes)
    ensures HasBroken(seg) <==> HasBroken(Before(seg, '=')) || HasBroken(After(seg, '='))
  {
    var n := Index(seg, '=');
    var k, v := Before(seg, '='), After(seg, '=');
    if i: nat :| i < |seg| && Broken(seg, i) {
      if i < n { assert Broken(k, i); } else { assert i > n && Broken(v, i - n - 1); }
    }
    if i: nat :| i < |k| && Broken(k, i) { assert HexValue('=').None? && Broken(seg, i); }
    if i: nat :| i < |v| && Broken(v, i) { assert Broken(seg, i + n + 1); }
  }

  lemma PieceBadIff(seg: Bytes)
    ensures ReadSegment(seg).Bad? <==> BadPiece(seg)
  {
    HalvesBroken(seg);
    UnescapeFailsIff(Before(seg, '='));
    UnescapeFailsIff(After(seg, '='));
  }

  lemma {:induction false} PiecesBadIff(segs: seq<Bytes>)
    ensures ReadSegments(segs).bad <==> HasBadPiece(segs)
  {
    if |segs| == 0 {
    } else {
      PieceBadIff(segs[0]);
      PiecesBadIff(segs[1..]);
      if i :| 0 <= i < |segs| && BadPiece(segs[i]) {
        if i > 0 { assert BadPiece(segs[1..][i - 1]); }
      }
      if i :| 0 <= i < |segs[1..]| && BadPiece(segs[1..][i]) { assert BadPiece(segs[i + 1]); }
    }
  }

  /** A form is refused exactly when one of its pieces has a semicolon or a broken escape. */
  lemma FormBadIff(query: Bytes)
    ensures ParseQuery(query).bad <==> HasBadPiece(Split(query, '&'))
  {
    PiecesBadIff(Split(query, '&'));
  }

  predicate Structural(c: Byte) {
    c == '=' || c == ';' || c == '&' || c == '#' || c == '?'
  }

  lemma EscapeAvoids(s: Bytes, c: Byte)
    requires Structural(c)
    ensures c !in Escape(s)
  {
    var e := Escape(s);
    forall i | 0 <= i < |e| ensures e[i] != c { assert Unreserved(e[i]) || e[i] == '%' || e[i] == '+'; }
  }

  lemma WrittenPairAvoids(p: Pair, c: Byte)
    requires Structural(c) && c != '='
    ensures c !in WritePair(p)
  {
    EscapeAvoids(p.0, c);
    EscapeAvoids(p.1, c);
  }

  lemma WrittenPairReads(p: Pair)
    ensures ReadSegment(WritePair(p)) == Read(p)
  {
    UnescapeEscape(p.0);
    UnescapeEscape(p.1);
    EscapeAvoids(p.0, '=');
    WrittenPairAvoids(p, ';');
    CutJoined(Escape(p.0), '=', Escape(p.1));
    assert WritePair(p)[|Escape(p.0)|] == '=';
  }

  function Both(f: Form, g: Form): Form {
    Form(f.pairs + g.pairs, f.bad || g.bad)
  }

  lemma PrependBoth(seg: Segment, f: Form, g: Form)
    ensures Prepend(seg, Both(f, g)) == Both(Prepend(seg, f), g)
  {
    if seg.Read? { assert [seg.pair] + (f.pairs + g.pairs) == ([seg.pair] + f.pairs) + g.pairs; }
  }

  lemma {:induction false} ReadSegmentsAppend(a: seq<Bytes>, b: seq<Bytes>)
    ensures ReadSegments(a + b) == Both(ReadSegments(a), ReadSegments(b))
  {
    if |a| == 0 {
      assert a + b == b;
    } else {
      ReadSegmentsAppend(a[1..], b);
      assert (a + b)[1..] == a[1..] + b;
      PrependBoth(ReadSegment(a[0]), ReadSegments(a[1..]), ReadSegments(b));
    }
  }

  lemma {:induction false} ReadWritten(pairs: seq<Pair>, segs: seq<Bytes>)
    requires |segs| == |pairs| && forall i :: 0 <= i < |pairs| ==> segs[i] == WritePair(pairs[i])
    ensures ReadSegments(segs) == Form(pairs, false)
  {
    if |pairs| == 0 {
    } else {
      WrittenPairReads(pairs[0]);
      ReadWritten(pairs[1..], segs[1..]);
      assert ReadSegments(segs) == Prepend(Read(pairs[0]), Form(pairs[1..], false));
      assert pairs == [pairs[0]] + pairs[1..];
    }
  }

  /** Reading back a written query gives exactly the pairs written, in order, without error. */
  lemma ParseWritten(pairs: seq<Pair>)
    ensures ParseQuery(WritePairs(pairs)) == Form(pairs, false)
  {
    var segs := seq(|pairs|, i requires 0 <= i < |pairs| => WritePair(pairs[i]));
    if |pairs| == 0 {
      assert Split([], '&') == [[]];
      assert ReadSegments([[]]) == Form([], false);
    } else {
      forall i | 0 <= i < |segs| ensures '&' !in segs[i] { WrittenPairAvoids(pairs[i], '&'); }
      SplitJoin(segs, '&');
      ReadWritten(pairs, segs);
    }
  }

  lemma {:induction false} JoinAvoids(parts: seq<Bytes>, sep: Byte, c: Byte)
    requires c != sep && forall i :: 0 <= i < |parts| ==> c !in parts[i]
    ensures c !in Join(parts, sep)
  {
    if |parts| <= 1 {
    } else {
      JoinAvoids(parts[1..], sep, c);
    }
  }

  /** A written query contains neither a fragment mark nor a query mark. */
  lemma WrittenAvoidsMarks(pairs: seq<Pair>)
    ensures '#' !in WritePairs(pairs) && '?' !in WritePairs(pairs)
  {
    var segs := seq(|pairs|, i requires 0 <= i < |pairs| => WritePair(pairs[i]));
    forall i | 0 <= i < |segs| ensures '#' !in segs[i] && '?' !in segs[i] {
      WrittenPairAvoids(pairs[i], '#');
      WrittenPairAvoids(pairs[i], '?');
    }
    JoinAvoids(segs, '&', '#');
    JoinAvoids(segs, '&', '?');
  }

  /** The part of a URL before its fragment, its query and its fragment, where `url.Parse` cuts. */
  function WithoutFragment(uri: Bytes): Bytes {
    Before(uri, '#')
  }

  function FragmentOf(uri: Bytes): Bytes {
    After(uri, '#')
  }

  function QueryOf(uri: Bytes): Bytes {
    After(WithoutFragment(uri), '?')
  }

  /** The pieces of a query that carry something, in order. */
  function Pieces(query: Bytes): seq<Bytes> {
    NonEmpty(Split(query, '&'))
  }

  function NonEmpty(segs: seq<Bytes>): seq<Bytes> {
    if |segs| == 0 then [] else IfNonEmpty(segs[0]) + NonEmpty(segs[1..])
  }

  function IfNonEmpty(seg: Bytes): seq<Bytes> {
    if seg == [] then [] else [seg]
  }

  lemma Associate<T>(a: seq<T>, b: seq<T>, c: seq<T>)
    ensures a + (b + c) == (a + b) + c
  {
  }

  lemma {:induction false} NonEmptyAppend(a: seq<Bytes>, b: seq<Bytes>)
    ensures NonEmpty(a + b) == NonEmpty(a) + NonEmpty(b)
  {
    if |a| == 0 {
      assert a + b == b;
    } else {
      NonEmptyAppend(a[1..], b);
      assert (a + b)[1..] == a[1..] + b;
      Associate(IfNonEmpty(a[0]), NonEmpty(a[1..]), NonEmpty(b));
    }
  }

  lemma {:induction false} ValuesOfAppend(a: seq<Pair>, b: seq<Pair>, key: Bytes)
    ensures ValuesOf(a + b, key) == ValuesOf(a, key) + ValuesOf(b, key)
  {
    if |a| == 0 {
      assert a + b == b;
    } else {
      ValuesOfAppend(a[1..], b, key);
      assert (a + b)[1..] == a[1..] + b;
      Associate(ValueIf(a[0], key), ValuesOf(a[1..], key), ValuesOf(b, key));
    }
  }
}
