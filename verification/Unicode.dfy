/** Code points: encoded size in UTF-8, surrogates, white space. */
module Unicode {
  type Text = seq<nat>

  predicate Surrogate(c: nat) { 0xD800 <= c <= 0xDFFF }

  /** `str.encode("utf-8")` succeeds. */
  predicate Encodable(s: Text) { forall i | 0 <= i < |s| :: s[i] < 0x110000 && !Surrogate(s[i]) }

  function Width(c: nat): nat { if c < 0x80 then 1 else if c < 0x800 then 2 else if c < 0x10000 then 3 else 4 }

  function Utf8(s: Text): nat {
    if s == [] then 0 else Width(s[0]) + Utf8(s[1..])
  }

  lemma {:induction false} LengthWithinBytes(s: Text)
    ensures |s| <= Utf8(s)
  {
    if s != [] {
      LengthWithinBytes(s[1..]);
    }
  }

  /** The bytes of one code point in UTF-8 (section 3 of RFC 3629). */
  function CodeBytes(c: nat): seq<nat>
    requires c < 0x110000
  {
    if c < 0x80 then [c]
    else if c < 0x800 then [0xC0 + c / 64, 0x80 + c % 64]
    else if c < 0x10000 then [0xE0 + c / 4096, 0x80 + c / 64 % 64, 0x80 + c % 64]
    else [0xF0 + c / 262144, 0x80 + c / 4096 % 64, 0x80 + c / 64 % 64, 0x80 + c % 64]
  }

  function Encoded(s: Text): seq<nat>
    requires Encodable(s)
  {
    if s == [] then [] else CodeBytes(s[0]) + Encoded(s[1..])
  }

  /** The bits that a byte after the first one carries. */
  function Low6(b: nat): nat { b % 64 }

  /** The code point that some bytes start with, and how many they are. */
  function First(b: seq<nat>): (nat, nat)
    requires |b| >= 4
  {
    if b[0] < 0x80 then (b[0], 1)
    else if b[0] < 0xE0 then (b[0] % 32 * 64 + Low6(b[1]), 2)
    else if b[0] < 0xF0 then (b[0] % 16 * 4096 + Low6(b[1]) * 64 + Low6(b[2]), 3)
    else (b[0] % 8 * 262144 + Low6(b[1]) * 4096 + Low6(b[2]) * 64 + Low6(b[3]), 4)
  }

  /** The width of a code point is the number of bytes that give it back: the bytes are
      bytes, and what follows them does not matter. */
  lemma WidthIsExact(c: nat, tail: seq<nat>)
    requires c < 0x110000 && |tail| >= 3
    ensures First(CodeBytes(c) + tail) == (c, Width(c)) && |CodeBytes(c)| == Width(c)
    ensures forall b | b in CodeBytes(c) :: b < 256
  {
    hide First;
    if c < 0x80 {
      FirstAlone(c, tail);
    } else if c < 0x800 {
      FirstOfTwo(c / 64, c % 64, tail);
    } else if c < 0x10000 {
      assert c / 64 / 64 == c / 4096;
      FirstOfThree(c / 4096, c / 64 % 64, c % 64, tail);
    } else {
      assert c / 64 / 64 == c / 4096 && c / 4096 / 64 == c / 262144;
      FirstOfFour(c / 262144, c / 4096 % 64, c / 64 % 64, c % 64, tail);
    }
  }

  lemma FirstAlone(c: nat, tail: seq<nat>)
    requires c < 0x80 && |tail| >= 3
    ensures First([c] + tail) == (c, 1)
  {
  }

  lemma FirstOfTwo(x: nat, y: nat, tail: seq<nat>)
    requires x < 32 && y < 64 && |tail| >= 3
    ensures First([0xC0 + x, 0x80 + y] + tail) == (x * 64 + y, 2)
  {
    var b := [0xC0 + x, 0x80 + y] + tail;
    assert b[0] == 0xC0 + x && b[1] == 0x80 + y;
  }

  lemma FirstOfThree(x: nat, y: nat, z: nat, tail: seq<nat>)
    requires x < 16 && y < 64 && z < 64 && |tail| >= 3
    ensures First([0xE0 + x, 0x80 + y, 0x80 + z] + tail) == (x * 4096 + y * 64 + z, 3)
  {
    var b := [0xE0 + x, 0x80 + y, 0x80 + z] + tail;
    assert b[0] == 0xE0 + x && b[1] == 0x80 + y && b[2] == 0x80 + z;
  }

  lemma FirstOfFour(x: nat, y: nat, z: nat, u: nat, tail: seq<nat>)
    requires x < 8 && y < 64 && z < 64 && u < 64 && |tail| >= 3
    ensures First([0xF0 + x, 0x80 + y, 0x80 + z, 0x80 + u] + tail) == (x * 262144 + y * 4096 + z * 64 + u, 4)
  {
    var b := [0xF0 + x, 0x80 + y, 0x80 + z, 0x80 + u] + tail;
    assert b[0] == 0xF0 + x && b[1] == 0x80 + y && b[2] == 0x80 + z && b[3] == 0x80 + u;
  }

  /** The size is the length of the encoding. */
  lemma {:induction false} Utf8IsLength(s: Text)
    requires Encodable(s)
    ensures Utf8(s) == |Encoded(s)|
  {
    if s != [] {
      WidthIsExact(s[0], [0, 0, 0]);
      hide CodeBytes, Width;
      Utf8IsLength(s[1..]);
    }
  }

  /** `str.isspace` on one code point. */
  predicate Space(c: nat) {
    || 9 <= c <= 13 || 28 <= c <= 32 || c == 133 || c == 160 || c == 5760 || 8192 <= c <= 8202
    || c == 8232 || c == 8233 || c == 8239 || c == 8287 || c == 12288
  }

  /** Empty, or white space only. */
  predicate Blank(s: Text) { forall i | 0 <= i < |s| :: Space(s[i]) }

  function Strip(s: Text): (r: Text)
    ensures |r| <= |s|
    ensures r == [] <==> Blank(s)
    decreases |s|
  {
    if s == [] then []
    else if Space(s[0]) then Strip(s[1..])
    else if Space(s[|s| - 1]) then Strip(s[..|s| - 1])
    else s
  }

  /** What remains is the text between the white space at its two ends. */
  lemma {:induction false} StripMeans(s: Text) returns (i: nat, j: nat)
    ensures i <= j <= |s| && Strip(s) == s[i..j]
    ensures (forall k | 0 <= k < i || j <= k < |s| :: Space(s[k]))
    ensures i < j ==> !Space(s[i]) && !Space(s[j - 1])
    decreases |s|
  {
    hide Space, Blank;
    if s == [] {
      i, j := 0, 0;
    } else if Space(s[0]) {
      i, j := StripMeans(s[1..]);
      i, j := i + 1, j + 1;
      assert s[1..][i - 1..j - 1] == s[i..j];
    } else if Space(s[|s| - 1]) {
      i, j := StripMeans(s[..|s| - 1]);
      assert s[..|s| - 1][i..j] == s[i..j];
    } else {
      i, j := 0, |s|;
    }
  }
}
