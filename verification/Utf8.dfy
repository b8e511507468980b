/** Well-formed UTF-8, as section 4 of RFC 3629 defines it and Go's utf8.ValidString decides it. */
module Utf8 {
  import opened Bytes

  predicate Tail(b: byte) {
    0x80 <= b <= 0xBF
  }

  /** The first two bytes of a three-byte character. */
  predicate Leads3(b: byte, c: byte) {
    || (b == 0xE0 && 0xA0 <= c <= 0xBF)
    || (0xE1 <= b <= 0xEC && Tail(c))
    || (b == 0xED && 0x80 <= c <= 0x9F)
    || (0xEE <= b <= 0xEF && Tail(c))
  }

  predicate Leads4(b: byte, c: byte) {
    || (b == 0xF0 && 0x90 <= c <= 0xBF)
    || (0xF1 <= b <= 0xF3 && Tail(c))
    || (b == 0xF4 && 0x80 <= c <= 0x8F)
  }

  /** How many bytes the character at the front takes: none when there is no well-formed one. */
  function CharLen(s: seq<byte>): (n: nat)
    ensures n <= |s| && n <= 4
    ensures forall i :: 0 < i < n ==> Tail(s[i])
  {
    if |s| >= 1 && s[0] <= 0x7F then 1
    else if |s| >= 2 && 0xC2 <= s[0] <= 0xDF && Tail(s[1]) then 2
    else if |s| >= 3 && Leads3(s[0], s[1]) && Tail(s[2]) then 3
    else if |s| >= 4 && Leads4(s[0], s[1]) && Tail(s[2]) && Tail(s[3]) then 4
    else 0
  }

  predicate Valid(s: seq<byte>) {
    s == [] || (CharLen(s) > 0 && Valid(s[CharLen(s)..]))
  }

  lemma EmptyIsValid()
    ensures Valid([])
  {}

  /** A character is decided by its own bytes. */
  lemma CharLenOfFront(a: seq<byte>, b: seq<byte>)
    ensures CharLen(a) > 0 ==> CharLen(a + b) == CharLen(a)
    ensures CharLen(a + b) <= |a| ==> CharLen(a) == CharLen(a + b)
  {}

  lemma {:induction false} ValidAppend(a: seq<byte>, b: seq<byte>)
    requires Valid(a)
    ensures Valid(a + b) <==> Valid(b)
  {
    hide CharLen;
    if a == [] {
      assert a + b == b;
    } else {
      var n := CharLen(a);
      CharLenOfFront(a, b);
      ValidAppend(a[n..], b);
      assert (a + b)[n..] == a[n..] + b;
    }
  }

  /** Every position of a well-formed string is within three bytes of a boundary on either side. */
  lemma {:induction false} NearBoundary(s: seq<byte>, p: nat) returns (lo: nat, hi: nat)
    requires Valid(s) && p <= |s|
    ensures p - 3 <= lo <= p <= hi <= p + 3 && hi <= |s|
    ensures Valid(s[..lo]) && Valid(s[hi..])
  {
    hide CharLen;
    if p == 0 {
      lo, hi := 0, 0;
      assert s[0..] == s;
    } else {
      var n := CharLen(s);
      if p < n {
        lo, hi := 0, n;
      } else {
        lo, hi := NearBoundary(s[n..], p - n);
        FrontIsValid(s);
        ValidAppend(s[..n], s[n..][..lo]);
        assert s[..n] + s[n..][..lo] == s[..n + lo];
        assert s[n..][hi..] == s[n + hi..];
        lo, hi := n + lo, n + hi;
      }
    }
  }

  lemma FrontIsValid(s: seq<byte>)
    ensures Valid(s[..CharLen(s)])
  {
    var n := CharLen(s);
    assert s[..n] + s[n..] == s;
    CharLenOfFront(s[..n], s[n..]);
    assert s[..n][n..] == [];
  }

  /** A newline never lies inside a character. */
  lemma {:induction false} ValidAroundNewline(a: seq<byte>, b: seq<byte>)
    ensures Valid(a + [NL] + b) <==> Valid(a) && Valid(b)
  {
    var s := a + [NL] + b;
    if Valid(a) {
      ValidAppend(a, [NL] + b);
      assert s == a + ([NL] + b);
      assert ([NL] + b)[1..] == b;
    } else if Valid(s) {
      var n := CharLen(s);
      assert s[|a|] == NL && !Tail(NL);
      assert n <= |a|;
      CharLenOfFront(a, [NL] + b);
      assert s == a + ([NL] + b);
      assert s[n..] == a[n..] + [NL] + b;
      ValidAroundNewline(a[n..], b);
      assert false;
    }
  }

  ghost predicate AllValid(parts: seq<seq<byte>>) {
    forall i :: 0 <= i < |parts| ==> Valid(parts[i])
  }

  /** Splitting at newlines and joining again keeps well-formedness, piece by piece. */
  lemma {:induction false} ValidJoin(parts: seq<seq<byte>>)
    ensures Valid(Join(parts)) <==> AllValid(parts)
  {
    if |parts| > 1 {
      var n := |parts| - 1;
      hide Valid;
      ValidJoin(parts[..n]);
      ValidAroundNewline(Join(parts[..n]), parts[n]);
      assert parts == parts[..n] + [parts[n]];
      assert AllValid(parts) <==> AllValid(parts[..n]) && Valid(parts[n]);
    }
  }

  // ----- against the characters themselves ------------------------------------------

  /** A Unicode scalar value: a code point that is not half of a surrogate pair. */
  predicate Scalar(c: int) {
    0 <= c < 0xD800 || 0xE000 <= c < 0x110000
  }

  /** Its bits, six to a continuation byte, behind a first byte that says how many bytes there are. */
  function Encoded(c: int): (s: seq<byte>)
    requires Scalar(c)
    ensures s != []
  {
    if c < 0x80 then [c]
    else if c < 0x800 then [0xC0 + c / 64, 0x80 + c % 64]
    else if c < 0x10000 then [0xE0 + c / 4096, 0x80 + c / 64 % 64, 0x80 + c % 64]
    else [0xF0 + c / 262144, 0x80 + c / 4096 % 64, 0x80 + c / 64 % 64, 0x80 + c % 64]
  }

  predicate Scalars(cs: seq<int>) {
    forall i :: 0 <= i < |cs| ==> Scalar(cs[i])
  }

  function EncodedAll(cs: seq<int>): seq<byte>
    requires Scalars(cs)
  {
    if cs == [] then [] else Encoded(cs[0]) + EncodedAll(cs[1..])
  }

  lemma EncodedIsOneChar(c: int)
    requires Scalar(c)
    ensures CharLen(Encoded(c)) == |Encoded(c)|
  {}

  /** The bits of the bytes, continuation bytes giving six each. */
  function Decoded(s: seq<byte>): int
    requires s != []
  {
    var a: int := s[0];
    if |s| == 1 then a
    else
      var b: int := s[1];
      if |s| == 2 then (a - 0xC0) * 64 + (b - 0x80)
      else
        var c: int := s[2];
        if |s| == 3 then (a - 0xE0) * 4096 + (b - 0x80) * 64 + (c - 0x80)
        else
          var d: int := s[3];
          (a - 0xF0) * 262144 + (b - 0x80) * 4096 + (c - 0x80) * 64 + (d - 0x80)
  }

  lemma TwoOrFewer(s: seq<byte>)
    requires 1 <= |s| <= 2 && CharLen(s) == |s|
    ensures Scalar(Decoded(s)) && Encoded(Decoded(s)) == s
  {}

  lemma ThreeBytes(s: seq<byte>)
    requires |s| == 3 && CharLen(s) == 3
    ensures Scalar(Decoded(s)) && Encoded(Decoded(s)) == s
  {
    Digits(s[0] - 0xE0, s[1] - 0x80, s[2] - 0x80);
  }

  lemma Digits(a: int, b: int, c: int)
    requires 0 <= b < 64 && 0 <= c < 64
    ensures var n := a * 4096 + b * 64 + c;
            n / 4096 == a && n / 64 == a * 64 + b && n / 64 % 64 == b && n % 64 == c
  {}

  lemma FourBytes(s: seq<byte>)
    requires |s| == 4 && CharLen(s) == 4
    ensures Scalar(Decoded(s)) && Encoded(Decoded(s)) == s
  {
    var a: int, b: int, c: int, d: int := s[0], s[1], s[2], s[3];
    Digits((a - 0xF0) * 64 + (b - 0x80), c - 0x80, d - 0x80);
  }

  lemma OneCharIsEncoded(s: seq<byte>) returns (c: int)
    requires CharLen(s) > 0
    ensures Scalar(c) && Encoded(c) == s[..CharLen(s)]
  {
    var one := s[..CharLen(s)];
    CharLenOfFront(one, s[CharLen(s)..]);
    assert one + s[CharLen(s)..] == s;
    hide CharLen, Encoded, Decoded, Scalar;
    c := Decoded(one);
    if |one| == 4 {
      FourBytes(one);
    } else if |one| == 3 {
      ThreeBytes(one);
    } else {
      TwoOrFewer(one);
    }
  }

  lemma {:induction false} EncodedIsValid(cs: seq<int>)
    requires Scalars(cs)
    ensures Valid(EncodedAll(cs))
  {
    if cs != [] {
      hide CharLen, Encoded, Scalar;
      EncodedIsValid(cs[1..]);
      var one := Encoded(cs[0]);
      EncodedIsOneChar(cs[0]);
      assert one[|one|..] == [];
      ValidAppend(one, EncodedAll(cs[1..]));
    }
  }

  lemma EncodedFront(c: int, rest: seq<int>)
    requires Scalar(c) && Scalars(rest)
    ensures Scalars([c] + rest) && EncodedAll([c] + rest) == Encoded(c) + EncodedAll(rest)
  {
    assert ([c] + rest)[1..] == rest;
  }

  lemma FirstChar(s: seq<byte>) returns (c: int)
    requires Valid(s) && s != []
    ensures 0 < CharLen(s) <= |s| && Valid(s[CharLen(s)..])
    ensures Scalar(c) && s == Encoded(c) + s[CharLen(s)..]
  {
    hide CharLen, Encoded, Scalar;
    c := OneCharIsEncoded(s);
    assert s == s[..CharLen(s)] + s[CharLen(s)..];
  }

  lemma {:induction false} ValidIsEncoded(s: seq<byte>) returns (cs: seq<int>)
    requires Valid(s)
    ensures Scalars(cs) && EncodedAll(cs) == s
  {
    if s == [] {
      cs := [];
    } else {
      hide CharLen, Encoded, Scalar, EncodedAll, Valid;
      var c := FirstChar(s);
      var rest := ValidIsEncoded(s[CharLen(s)..]);
      cs := [c] + rest;
      EncodedFront(c, rest);
    }
  }

  /** Well-formed is what some sequence of characters is encoded as. */
  lemma ValidExactlyWhenEncoded(s: seq<byte>)
    ensures Valid(s) <==> exists cs :: Scalars(cs) && EncodedAll(cs) == s
  {
    hide Valid, EncodedAll, Scalar;
    if Valid(s) {
      var cs := ValidIsEncoded(s);
    }
    if cs :| Scalars(cs) && EncodedAll(cs) == s {
      EncodedIsValid(cs);
    }
  }
}
