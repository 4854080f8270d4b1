/** Unpadded base64url (section 5 of RFC 4648), as Go's `base64.RawURLEncoding` does it:
    the encoder pads nothing, and the decoder skips carriage returns and line feeds and
    ignores the spare low bits of the last character. */
module Base64url {
  import opened GoStrings

  type Sextet = n: nat | n < 64

  predicate InAlphabet(c: Byte) {
    'A' <= c <= 'Z' || 'a' <= c <= 'z' || '0' <= c <= '9' || c == '-' || c == '_'
  }

  function Letter(n: Sextet): (c: Byte)
    ensures InAlphabet(c)
  {
    if n < 26 then ('A' as int + n) as char
    else if n < 52 then ('a' as int + n - 26) as char
    else if n < 62 then ('0' as int + n - 52) as char
    else if n == 62 then '-' else '_'
  }

  function Value(c: Byte): (n: Sextet)
    requires InAlphabet(c)
    ensures Letter(n) == c
  {
    if 'A' <= c <= 'Z' then c as int - 'A' as int
    else if 'a' <= c <= 'z' then c as int - 'a' as int + 26
    else if '0' <= c <= '9' then c as int - '0' as int + 52
    else if c == '-' then 62 else 63
  }

  lemma ValueOfLetter(n: Sextet)
    ensures Value(Letter(n)) == n
  {
  }

  function Octet(n: nat): Byte
    requires n < 256
  {
    n as char
  }

  /** Three octets to four sextets, the last one or two octets to two or three. */
  function Sextets(b: Bytes): seq<Sextet> {
    if |b| == 0 then []
    else
      var x := b[0] as int;
      if |b| == 1 then [x / 4, x % 4 * 16]
      else
        var y := b[1] as int;
        if |b| == 2 then [x / 4, x % 4 * 16 + y / 16, y % 16 * 4]
        else Group(b[0], b[1], b[2]) + Sextets(b[3..])
  }

  function Group(a: Byte, b: Byte, c: Byte): (r: seq<Sextet>)
    ensures |r| == 4
  {
    var x, y, z := a as int, b as int, c as int;
    [x / 4, x % 4 * 16 + y / 16, y % 16 * 4 + z / 64, z % 64]
  }

  /** Four sextets to three octets; a group of two or three gives one or two. */
  function Octets(s: seq<Sextet>): Bytes
    requires |s| % 4 != 1
  {
    if |s| == 0 then []
    else
      var p: int, q: int := s[0], s[1];
      var first := Octet(p * 4 + q / 16);
      if |s| == 2 then [first]
      else
        var r: int := s[2];
        var second := Octet(q % 16 * 16 + r / 4);
        if |s| == 3 then [first, second]
        else
          var t: int := s[3];
          [first, second, Octet(r % 4 * 64 + t)] + Octets(s[4..])
  }

  function Letters(s: seq<Sextet>): (r: Bytes)
    ensures AllLetters(r)
  {
    seq(|s|, i requires 0 <= i < |s| => Letter(s[i]))
  }

  function Values(s: Bytes): seq<Sextet>
    requires AllLetters(s)
  {
    seq(|s|, i requires 0 <= i < |s| => Value(s[i]))
  }

  /** `RawURLEncoding.EncodeToString`. */
  function Encode(b: Bytes): Bytes {
    Letters(Sextets(b))
  }

  predicate IsNewline(c: Byte) {
    c == '\r' || c == '\n'
  }

  function DropNewlines(s: Bytes): (r: Bytes)
    ensures forall c :: c in r ==> c in s && !IsNewline(c)
    ensures |r| <= |s|
  {
    if |s| == 0 then []
    else if IsNewline(s[0]) then DropNewlines(s[1..])
    else [s[0]] + DropNewlines(s[1..])
  }

  predicate AllLetters(s: Bytes) {
    forall i :: 0 <= i < |s| ==> InAlphabet(s[i])
  }

  /** `RawURLEncoding.DecodeString`. */
  function Decode(s: Bytes): Option<Bytes> {
    var t := DropNewlines(s);
    if AllLetters(t) && |t| % 4 != 1 then Some(Octets(Values(t))) else None
  }

  lemma {:induction false} DropNewlinesKeeps(s: Bytes)
    requires AllLetters(s)
    ensures DropNewlines(s) == s
  {
    if |s| == 0 {
    } else {
      assert InAlphabet(s[0]);
      DropNewlinesKeeps(s[1..]);
    }
  }

  lemma {:induction false} SextetCount(b: Bytes)
    ensures |Sextets(b)| == (8 * |b| + 5) / 6
  {
    if |b| > 2 { SextetCount(b[3..]); }
  }

  /** The output length is the number of bits divided by six, rounded up. */
  lemma EncodeShape(b: Bytes)
    ensures AllLetters(Encode(b)) && |Encode(b)| == (8 * |b| + 5) / 6
  {
    SextetCount(b);
  }

  lemma OneOctet(b: Bytes)
    requires |b| == 1
    ensures |Sextets(b)| == 2 && Octets(Sextets(b)) == b
  {
  }

  lemma TwoOctets(b: Bytes)
    requires |b| == 2
    ensures |Sextets(b)| == 3 && Octets(Sextets(b)) == b
  {
  }

  lemma Digits16(k: nat, r: nat)
    requires r < 16
    ensures (k * 16 + r) / 16 == k && (k * 16 + r) % 16 == r
  {
  }

  lemma Digits4(k: nat, r: nat)
    requires r < 4
    ensures (k * 4 + r) / 4 == k && (k * 4 + r) % 4 == r
  {
  }

  lemma ThreeOctets(a: Byte, b: Byte, c: Byte)
    ensures Octets(Group(a, b, c)) == [a, b, c]
  {
    var x, y, z := a as int, b as int, c as int;
    Digits16(x % 4, y / 16);
    Digits4(y % 16, z / 64);
    assert Group(a, b, c)[4..] == [];
  }

  lemma FirstGroup(group: seq<Sextet>, rest: seq<Sextet>)
    requires |group| == 4 && |rest| % 4 != 1
    ensures Octets(group + rest) == Octets(group) + Octets(rest)
  {
    assert (group + rest)[4..] == rest;
    assert group[4..] == [];
  }

  lemma {:induction false} OctetsOfSextets(b: Bytes)
    ensures |Sextets(b)| % 4 != 1 && Octets(Sextets(b)) == b
  {
    if |b| == 0 {
    } else if |b| == 1 {
      OneOctet(b);
    } else if |b| == 2 {
      TwoOctets(b);
    } else {
      OctetsOfSextets(b[3..]);
      ThreeOctets(b[0], b[1], b[2]);
      FirstGroup(Group(b[0], b[1], b[2]), Sextets(b[3..]));
      assert b == [b[0], b[1], b[2]] + b[3..];
    }
  }

  lemma ValuesOfLetters(s: seq<Sextet>)
    ensures Values(Letters(s)) == s
  {
    forall i | 0 <= i < |s| ensures Values(Letters(s))[i] == s[i] { ValueOfLetter(s[i]); }
  }

  /** Decoding undoes encoding for every byte sequence. */
  lemma DecodeEncode(b: Bytes)
    ensures Decode(Encode(b)) == Some(b)
  {
    OctetsOfSextets(b);
    ValuesOfLetters(Sextets(b));
    DropNewlinesKeeps(Encode(b));
  }

  lemma EncodeInjective(a: Bytes, b: Bytes)
    requires Encode(a) == Encode(b)
    ensures a == b
  {
    DecodeEncode(a);
    DecodeEncode(b);
  }

  /** The decoder is not injective: spare low bits and line breaks are ignored. */
  lemma DecodeIsLenient()
    ensures Decode("QQ") == Decode("QR") == Decode("Q\nQ") == Some("A")
  {
    DropNewlinesKeeps("QQ");
    DropNewlinesKeeps("QR");
    assert "Q\nQ"[1..] == "\nQ" && "\nQ"[1..] == "Q" && "Q"[1..] == "";
    assert DropNewlines("Q\nQ") == "QQ";
    assert Values("QQ") == [16, 16] && Values("QR") == [16, 17];
  }
}
