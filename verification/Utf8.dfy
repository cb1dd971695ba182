/** Well-formed UTF-8, as in section 4 of RFC 3629. */
module Utf8 {
  import opened Machine

  predicate Tail(s: seq<u8>, i: nat, lo: u8, hi: u8) {
    i < |s| && lo <= s[i] <= hi
  }

  predicate Cont(s: seq<u8>, i: nat) {
    Tail(s, i, 0x80, 0xBF)
  }

  /** The length of the character at the front, or 0 if there is none. */
  function CharLen(s: seq<u8>): nat
    requires s != []
  {
    var b := s[0];
    if b <= 0x7F then 1
    else if 0xC2 <= b <= 0xDF && Cont(s, 1) then 2
    else if b == 0xE0 && Tail(s, 1, 0xA0, 0xBF) && Cont(s, 2) then 3
    else if (0xE1 <= b <= 0xEC || 0xEE <= b <= 0xEF) && Cont(s, 1) && Cont(s, 2) then 3
    else if b == 0xED && Tail(s, 1, 0x80, 0x9F) && Cont(s, 2) then 3
    else if b == 0xF0 && Tail(s, 1, 0x90, 0xBF) && Cont(s, 2) && Cont(s, 3) then 4
    else if 0xF1 <= b <= 0xF3 && Cont(s, 1) && Cont(s, 2) && Cont(s, 3) then 4
    else if b == 0xF4 && Tail(s, 1, 0x80, 0x8F) && Cont(s, 2) && Cont(s, 3) then 4
    else 0
  }

  predicate Valid(s: seq<u8>) {
    s == [] || (CharLen(s) > 0 && Valid(s[CharLen(s)..]))
  }

  // --- What is valid: the encodings of scalar values ---

  /** The code points that are characters: all but the surrogates. */
  predicate IsScalar(c: nat) {
    c < 0xD800 || 0xE000 <= c < 0x110000
  }

  /** One to four bytes, with the bits of the code point in groups of six. */
  function Encode(c: nat): (r: seq<u8>)
    requires IsScalar(c)
    ensures 1 <= |r| <= 4
  {
    if c < 0x80 then [c]
    else if c < 0x800 then [0xC0 + c / 0x40, 0x80 + c % 0x40]
    else if c < 0x10000 then [0xE0 + c / 0x1000, 0x80 + c / 0x40 % 0x40, 0x80 + c % 0x40]
    else [0xF0 + c / 0x40000, 0x80 + c / 0x1000 % 0x40, 0x80 + c / 0x40 % 0x40, 0x80 + c % 0x40]
  }

  function EncodeAll(text: seq<nat>): seq<u8>
    requires forall c | c in text :: IsScalar(c)
  {
    if text == [] then [] else Encode(text[0]) + EncodeAll(text[1..])
  }

  ghost predicate IsText(text: seq<nat>, s: seq<u8>) {
    (forall c | c in text :: IsScalar(c)) && EncodeAll(text) == s
  }

  /** The six low bits of a byte that continues a character. */
  function Low(b: u8): int {
    b - 0x80
  }

  /** The code point the first `n` bytes stand for. */
  function Leading(s: seq<u8>, n: nat): int
    requires n <= |s|
  {
    match n
    case 1 => s[0]
    case 2 => Group(s[0] as int - 0xC0, Low(s[1]))
    case 3 => Group(Group(s[0] as int - 0xE0, Low(s[1])), Low(s[2]))
    case 4 => Group(Group(Group(s[0] as int - 0xF0, Low(s[1])), Low(s[2])), Low(s[3]))
    case _ => 0
  }

  /** One more group of six bits. */
  function Group(high: int, low: int): int {
    0x40 * high + low
  }

  lemma Ungroup(high: int, low: int)
    requires 0 <= low < 0x40
    ensures Group(high, low) / 0x40 == high && Group(high, low) % 0x40 == low
  {}

  lemma Quarters(c: nat)
    ensures c / 0x1000 == c / 0x40 / 0x40 && c / 0x40000 == c / 0x40 / 0x40 / 0x40
  {}

  lemma CharIsScalar(s: seq<u8>)
    requires s != [] && CharLen(s) > 0
    ensures CharLen(s) <= |s| && IsScalar(Leading(s, CharLen(s)))
    ensures Encode(Leading(s, CharLen(s))) == s[..CharLen(s)]
  {
    match CharLen(s)
    case 1 =>
    case 2 => TwoBytes(s);
    case 3 => ThreeBytes(s);
    case _ => FourBytes(s);
  }

  lemma TwoBytes(s: seq<u8>)
    requires s != [] && CharLen(s) == 2
    ensures |s| >= 2 && IsScalar(Leading(s, 2)) && Encode(Leading(s, 2)) == s[..2]
  {
    hide Group;
    var a, b := s[0] as int - 0xC0, Low(s[1]);
    Ungroup(a, b);
    assert Group(a, b) == 0x40 * a + b by { Grouped(a, b); }
  }

  lemma ThreeBytes(s: seq<u8>)
    requires s != [] && CharLen(s) == 3
    ensures |s| >= 3 && IsScalar(Leading(s, 3)) && Encode(Leading(s, 3)) == s[..3]
  {
    hide Group;
    var a, b, d := s[0] as int - 0xE0, Low(s[1]), Low(s[2]);
    var ab := Group(a, b);
    var c := Group(ab, d);
    Ungroup(a, b);
    Ungroup(ab, d);
    Grouped(a, b);
    Grouped(ab, d);
    assert IsScalar(c) && 0x800 <= c < 0x10000;
    Quarters(c);
    assert Encode(c) == [0xE0 + a, 0x80 + b, 0x80 + d];
  }

  lemma FourBytes(s: seq<u8>)
    requires s != [] && CharLen(s) == 4
    ensures |s| >= 4 && IsScalar(Leading(s, 4)) && Encode(Leading(s, 4)) == s[..4]
  {
    hide Group;
    var a, b, d, e := s[0] as int - 0xF0, Low(s[1]), Low(s[2]), Low(s[3]);
    var ab := Group(a, b);
    var abd := Group(ab, d);
    var c := Group(abd, e);
    Ungroup(a, b);
    Ungroup(ab, d);
    Ungroup(abd, e);
    Grouped(a, b);
    Grouped(ab, d);
    Grouped(abd, e);
    assert IsScalar(c) && 0x10000 <= c;
    Quarters(c);
    assert Encode(c) == [0xF0 + a, 0x80 + b, 0x80 + d, 0x80 + e];
  }

  lemma Grouped(high: int, low: int)
    ensures Group(high, low) == 0x40 * high + low
  {}

  lemma ScalarIsChar(c: nat, rest: seq<u8>)
    requires IsScalar(c)
    ensures CharLen(Encode(c) + rest) == |Encode(c)|
  {
    var s := Encode(c) + rest;
    if c >= 0x10000 {
      Quarters(c);
      assert s[1] == Encode(c)[1] && s[2] == Encode(c)[2] && s[3] == Encode(c)[3];
    } else if c >= 0x800 {
      Quarters(c);
      assert s[1] == Encode(c)[1] && s[2] == Encode(c)[2];
    }
  }

  /** The valid strings are exactly the concatenations of encoded scalar values. */
  lemma {:induction false} ValidIffText(s: seq<u8>)
    ensures Valid(s) <==> exists text :: IsText(text, s)
    decreases |s|
  {
    if Valid(s) {
      var text := TextOf(s);
    }
    if text :| IsText(text, s) {
      TextIsValid(text);
    }
  }

  lemma {:induction false} TextOf(s: seq<u8>) returns (text: seq<nat>)
    requires Valid(s)
    ensures IsText(text, s)
    decreases |s|
  {
    if s == [] {
      text := [];
    } else {
      hide CharLen, Encode;
      var n := CharLen(s);
      CharIsScalar(s);
      var more := TextOf(s[n..]);
      text := [Leading(s, n)] + more;
      assert s == s[..n] + s[n..];
    }
  }

  lemma {:induction false} TextIsValid(text: seq<nat>)
    requires forall c | c in text :: IsScalar(c)
    ensures Valid(EncodeAll(text))
  {
    if text != [] {
      hide CharLen, Encode;
      var rest := EncodeAll(text[1..]);
      ScalarIsChar(text[0], rest);
      TextIsValid(text[1..]);
      assert (Encode(text[0]) + rest)[|Encode(text[0])|..] == rest;
    }
  }

  /** A zero byte at the end neither breaks nor repairs a string. */
  lemma {:induction false} ValidWithZero(s: seq<u8>)
    ensures Valid(s + [0]) <==> Valid(s)
    decreases |s|
  {
    if s == [] {
      assert [0][1..] == [];
      assert CharLen([0]) == 1;
    } else {
      var z := s + [0];
      var n := CharLen(s);
      assert CharLen(z) == n;
      if n > 0 {
        assert z[n..] == s[n..] + [0];
        ValidWithZero(s[n..]);
      }
    }
  }

  /** `s` without its trailing zero bytes. */
  function Stripped(s: seq<u8>): (r: seq<u8>)
    ensures r <= s && (r == [] || r[|r| - 1] != 0)
    ensures forall i | |r| <= i < |s| :: s[i] == 0
  {
    if s == [] || s[|s| - 1] != 0 then s else Stripped(s[..|s| - 1])
  }

  lemma {:induction false} StrippedKeepsValid(s: seq<u8>)
    ensures Valid(Stripped(s)) <==> Valid(s)
  {
    if s != [] && s[|s| - 1] == 0 {
      var front := s[..|s| - 1];
      StrippedKeepsValid(front);
      ValidWithZero(front);
      assert s == front + [0];
    }
  }

  /** Zero padding disappears with the rest of the trailing zeros. */
  lemma {:induction false} StrippedOfPadded(s: seq<u8>, n: nat)
    ensures Stripped(s + seq(n, _ => 0)) == Stripped(s)
  {
    var p := s + seq(n, _ => 0);
    if n == 0 {
      assert p == s;
    } else {
      StrippedOfPadded(s, n - 1);
      assert p[..|p| - 1] == s + seq(n - 1, _ => 0);
      assert p[|p| - 1] == 0;
    }
  }

  /** A string that does not end in a zero byte keeps every byte. */
  lemma StrippedIsIdentity(s: seq<u8>)
    ensures Stripped(s) == s <==> s == [] || s[|s| - 1] != 0
  {}
}
