/**
 UTF-8 as Rust's String uses it: well-formedness, and the lossy conversion that
 replaces each maximal ill-formed prefix by U+FFFD.
 */
module Utf8 {
  import opened Bytes

  predicate Continuation(b: Byte) {
    0x80 <= b <= 0xBF
  }

  /** The second byte allowed after a three- or four-byte lead. */
  predicate SecondFits(lead: Byte, b: Byte) {
    if lead == 0xE0 then 0xA0 <= b <= 0xBF
    else if lead == 0xED then 0x80 <= b <= 0x9F
    else if lead == 0xF0 then 0x90 <= b <= 0xBF
    else if lead == 0xF4 then 0x80 <= b <= 0x8F
    else Continuation(b)
  }

  /** Length of the well-formed character at the start of s, or 0 if there is none. */
  function CharLength(s: seq<Byte>): (n: nat)
    requires s != []
    ensures n <= |s| && n <= 4
  {
    if s[0] < 0x80 then 1
    else if 0xC2 <= s[0] <= 0xDF then
      if |s| >= 2 && Continuation(s[1]) then 2 else 0
    else if 0xE0 <= s[0] <= 0xEF then
      if |s| >= 3 && SecondFits(s[0], s[1]) && Continuation(s[2]) then 3 else 0
    else if 0xF0 <= s[0] <= 0xF4 then
      if |s| >= 4 && SecondFits(s[0], s[1]) && Continuation(s[2]) && Continuation(s[3]) then 4 else 0
    else 0
  }

  predicate Valid(s: seq<Byte>) {
    s == [] || (CharLength(s) > 0 && Valid(s[CharLength(s)..]))
  }

  /** Length of the ill-formed prefix that one replacement character stands for. */
  function BadLength(s: seq<Byte>): (n: nat)
    requires s != [] && CharLength(s) == 0
    ensures 1 <= n <= |s|
  {
    if 0xE0 <= s[0] <= 0xF4 && |s| >= 2 && SecondFits(s[0], s[1]) then
      if s[0] >= 0xF0 && |s| >= 3 && Continuation(s[2]) then 3 else 2
    else 1
  }

  /** The bytes of a String. */
  type Text = s: seq<Byte> | Valid(s)

  const REPLACEMENT: seq<Byte> := [0xEF, 0xBF, 0xBD]

  function FromUtf8Lossy(s: seq<Byte>): seq<Byte> {
    if s == [] then []
    else if CharLength(s) > 0 then s[..CharLength(s)] + FromUtf8Lossy(s[CharLength(s)..])
    else REPLACEMENT + FromUtf8Lossy(s[BadLength(s)..])
  }

  /** The lossy conversion keeps every well-formed text. */
  lemma {:induction false} LossyKeepsValid(s: seq<Byte>)
    requires Valid(s)
    ensures FromUtf8Lossy(s) == s
    decreases |s|
  {
    if s != [] {
      LossyKeepsValid(s[CharLength(s)..]);
    }
  }

  lemma CharThenRest(c: seq<Byte>, rest: seq<Byte>)
    requires c != [] && CharLength(c) == |c|
    ensures CharLength(c + rest) == |c|
  {
  }

  /** ... and always yields a well-formed one. */
  lemma {:induction false} LossyIsValid(s: seq<Byte>)
    ensures Valid(FromUtf8Lossy(s))
    decreases |s|
  {
    if s != [] {
      var n := CharLength(s);
      var head := if n > 0 then s[..n] else REPLACEMENT;
      var rest := FromUtf8Lossy(if n > 0 then s[n..] else s[BadLength(s)..]);
      LossyIsValid(if n > 0 then s[n..] else s[BadLength(s)..]);
      CharThenRest(head, rest);
      assert (head + rest)[|head|..] == rest;
    }
  }

  // ------------------------------------------------------------------
  // Against the encoding of characters (RFC 3629, section 3)
  // ------------------------------------------------------------------

  /** A Unicode scalar value. */
  predicate Scalar(n: int) {
    0 <= n < 0x11_0000 && !(0xD800 <= n < 0xE000)
  }

  function EncodeScalar(n: int): (c: seq<Byte>)
    requires Scalar(n)
    ensures 1 <= |c| <= 4
  {
    if n < 0x80 then [n]
    else if n < 0x800 then [0xC0 + n / 0x40, 0x80 + n % 0x40]
    else if n < 0x1_0000 then [0xE0 + n / 0x1000, 0x80 + n / 0x40 % 0x40, 0x80 + n % 0x40]
    else [0xF0 + n / 0x4_0000, 0x80 + n / 0x1000 % 0x40, 0x80 + n / 0x40 % 0x40, 0x80 + n % 0x40]
  }

  /** The bytes of a list of characters. */
  function EncodeAll(ns: seq<int>): seq<Byte>
    requires forall n :: n in ns ==> Scalar(n)
  {
    if ns == [] then [] else
      assert ns[0] in ns;
      EncodeScalar(ns[0]) + EncodeAll(ns[1..])
  }

  lemma CharOfScalar(n: int, rest: seq<Byte>)
    requires Scalar(n)
    ensures CharLength(EncodeScalar(n) + rest) == |EncodeScalar(n)|
  {
    var c := EncodeScalar(n);
    assert CharLength(c) == |c|;
    CharThenRest(c, rest);
  }

  /** The scalar value of a well-formed character. */
  function DecodeChar(c: seq<Byte>): int
    requires 1 <= |c| <= 4
  {
    if |c| == 1 then c[0]
    else if |c| == 2 then (c[0] as int - 0xC0) * 0x40 + (c[1] as int - 0x80)
    else if |c| == 3 then (c[0] as int - 0xE0) * 0x1000 + (c[1] as int - 0x80) * 0x40 + (c[2] as int - 0x80)
    else (c[0] as int - 0xF0) * 0x4_0000 + (c[1] as int - 0x80) * 0x1000 + (c[2] as int - 0x80) * 0x40
         + (c[3] as int - 0x80)
  }

  lemma ScalarOfChar(s: seq<Byte>)
    requires s != [] && CharLength(s) > 0
    ensures var n := DecodeChar(s[..CharLength(s)]);
            Scalar(n) && EncodeScalar(n) == s[..CharLength(s)]
  {
    var c := s[..CharLength(s)];
    if |c| == 3 {
      ThreeBytes(c[0], c[1], c[2]);
    } else if |c| == 4 {
      FourBytes(c[0], c[1], c[2], c[3]);
    }
  }

  lemma ThreeBytes(a: Byte, b: Byte, c: Byte)
    requires 0xE0 <= a <= 0xEF && SecondFits(a, b) && Continuation(c)
    ensures var n := (a as int - 0xE0) * 0x1000 + (b as int - 0x80) * 0x40 + (c as int - 0x80);
            0x800 <= n && Scalar(n) && EncodeScalar(n) == [a, b, c]
  {
    var x, y, z := a as int - 0xE0, b as int - 0x80, c as int - 0x80;
    var n := x * 0x1000 + y * 0x40 + z;
    assert n / 0x40 == x * 0x40 + y && n % 0x40 == z && n / 0x1000 == x;
  }

  lemma FourBytes(a: Byte, b: Byte, c: Byte, d: Byte)
    requires 0xF0 <= a <= 0xF4 && SecondFits(a, b) && Continuation(c) && Continuation(d)
    ensures var n := (a as int - 0xF0) * 0x4_0000 + (b as int - 0x80) * 0x1000 + (c as int - 0x80) * 0x40
                     + (d as int - 0x80);
            0x1_0000 <= n && Scalar(n) && EncodeScalar(n) == [a, b, c, d]
  {
    Places(a as int - 0xF0, b as int - 0x80, c as int - 0x80, d as int - 0x80);
  }

  lemma Places(w: nat, x: nat, y: nat, z: nat)
    requires x < 0x40 && y < 0x40 && z < 0x40
    ensures var n := w * 0x4_0000 + x * 0x1000 + y * 0x40 + z;
            && n % 0x40 == z && n / 0x40 % 0x40 == y && n / 0x1000 % 0x40 == x && n / 0x4_0000 == w
  {
    var n := w * 0x4_0000 + x * 0x1000 + y * 0x40 + z;
    assert n / 0x40 == w * 0x1000 + x * 0x40 + y;
    assert n / 0x1000 == w * 0x40 + x;
  }

  ghost predicate EncodesSome(s: seq<Byte>) {
    exists ns: seq<int> :: (forall n :: n in ns ==> Scalar(n)) && EncodeAll(ns) == s
  }

  lemma {:induction false} EncodedIsValid(ns: seq<int>)
    requires forall n :: n in ns ==> Scalar(n)
    ensures Valid(EncodeAll(ns))
  {
    hide EncodeScalar, CharLength;
    if ns != [] {
      var head, rest := EncodeScalar(ns[0]), EncodeAll(ns[1..]);
      EncodedIsValid(ns[1..]);
      CharOfScalar(ns[0], rest);
      assert (head + rest)[|head|..] == rest;
    }
  }

  lemma {:induction false} ValidIsEncoded(s: seq<Byte>)
    requires Valid(s)
    ensures EncodesSome(s)
    decreases |s|
  {
    hide EncodeScalar, CharLength, Scalar, DecodeChar;
    if s == [] {
      assert EncodeAll([]) == s;
    } else {
      var k := CharLength(s);
      ValidIsEncoded(s[k..]);
      var ns: seq<int> :| (forall n :: n in ns ==> Scalar(n)) && EncodeAll(ns) == s[k..];
      var n := DecodeChar(s[..k]);
      ScalarOfChar(s);
      assert ([n] + ns)[1..] == ns;
      assert EncodeAll([n] + ns) == s[..k] + s[k..] == s;
    }
  }

  /** Well-formed bytes are exactly the encodings of lists of characters. */
  lemma ValidIff(s: seq<Byte>)
    ensures Valid(s) <==> EncodesSome(s)
  {
    if Valid(s) {
      ValidIsEncoded(s);
    }
    if EncodesSome(s) {
      var ns: seq<int> :| (forall n :: n in ns ==> Scalar(n)) && EncodeAll(ns) == s;
      EncodedIsValid(ns);
    }
  }

  /** Some character starts with these bytes. */
  ghost predicate StartsChar(p: seq<Byte>) {
    exists c: seq<Byte> :: c != [] && CharLength(c) == |c| && p <= c
  }

  /**
   Each replacement character stands for a maximal start of a character, or for one
   byte that starts none: U+FFFD for maximal subparts, as the Unicode Standard
   recommends it in section 3.9.
   */
  lemma BadLengthMaximal(s: seq<Byte>)
    requires s != [] && CharLength(s) == 0
    ensures var b := BadLength(s);
            && (b == 1 || StartsChar(s[..b]))
            && (b < |s| ==> !StartsChar(s[..b + 1]))
    ensures REPLACEMENT == EncodeScalar(0xFFFD)
  {
    var b := BadLength(s);
    if b == 2 {
      var c := if s[0] < 0xF0 then [s[0], s[1], 0x80] else [s[0], s[1], 0x80, 0x80];
      assert CharLength(c) == |c| && s[..b] <= c;
    } else if b == 3 {
      var c := [s[0], s[1], s[2], 0x80];
      assert CharLength(c) == |c| && s[..b] <= c;
    }
    if b < |s| {
      forall c: seq<Byte> | c != [] && CharLength(c) == |c| ensures !(s[..b + 1] <= c) {
        PrefixBytes(s, b + 1, c);
      }
    }
  }

  lemma PrefixBytes(s: seq<Byte>, n: nat, c: seq<Byte>)
    requires n <= |s|
    ensures s[..n] <= c ==> |c| >= n && forall i :: 0 <= i < n ==> c[i] == s[i]
  {
    assert forall i :: 0 <= i < n ==> s[..n][i] == s[i];
  }
}
