/** The ASCII JSON that the journal and the tool child write and read back
    (RFC 8259): strings as `json.dumps(ensure_ascii=True)` escapes them and as
    the strict scanner reads them, in flat objects without white space. A `Text` holds code
    points on the Python side and ASCII codes on the encoded side. */
module JsonText {
  import opened Wrappers
  import opened Unicode

  const QUOTE := 34
  const BACKSLASH := 92
  const LETTER_U := 117

  predicate Codes(s: Text) { forall i | 0 <= i < |s| :: s[i] < 0x110000 }

  predicate High(c: nat) { 0xd800 <= c < 0xdc00 }

  predicate Low(c: nat) { 0xdc00 <= c < 0xe000 }

  function Pair(h: nat, l: nat): nat
    requires High(h) && Low(l)
  {
    0x10000 + (h - 0xd800) * 1024 + (l - 0xdc00)
  }

  // Hexadecimal

  function Hex(d: nat): nat { if d < 10 then 48 + d else 87 + d }

  function Unhex(c: nat): Option<nat> {
    if 48 <= c <= 57 then Some(c - 48)
    else if 97 <= c <= 102 then Some(c - 87)
    else if 65 <= c <= 70 then Some(c - 55)
    else None
  }

  function Hex4(n: nat): Text {
    var (m, k, j) := (n / 16, n / 16 / 16, n / 16 / 16 / 16);
    [Hex(j % 16), Hex(k % 16), Hex(m % 16), Hex(n % 16)]
  }

  function Unhex4(b: Text): Option<nat> {
    if |b| < 4 then None
    else
      var (p, q, r, s) := (Unhex(b[0]), Unhex(b[1]), Unhex(b[2]), Unhex(b[3]));
      if p.None? || q.None? || r.None? || s.None? then None
      else Some(((p.value * 16 + q.value) * 16 + r.value) * 16 + s.value)
  }

  lemma HexRoundTrip(n: nat, tail: Text)
    requires n < 65536
    ensures Unhex4(Hex4(n) + tail) == Some(n)
  {
    var (m, k, j) := (n / 16, n / 16 / 16, n / 16 / 16 / 16);
    var b := Hex4(n) + tail;
    assert b[0] == Hex(j % 16) && b[1] == Hex(k % 16) && b[2] == Hex(m % 16) && b[3] == Hex(n % 16);
    UnhexHex(j);
    UnhexHex(k);
    UnhexHex(m);
    UnhexHex(n);
    hide Hex, Unhex;
  }

  lemma UnhexHex(n: nat)
    ensures Unhex(Hex(n % 16)) == Some(n % 16)
  {
  }

  /** Hexadecimal digits are read in either case. */
  lemma DigitsRead(d: nat)
    requires d < 16
    ensures var lower := [48, 49, 50, 51, 52, 53, 54, 55, 56, 57, 97, 98, 99, 100, 101, 102];
            var upper := [48, 49, 50, 51, 52, 53, 54, 55, 56, 57, 65, 66, 67, 68, 69, 70];
            Unhex(lower[d]) == Unhex(upper[d]) == Some(d) && Hex(d) == lower[d]
  {
  }

  // Strings

  function EscapeCode(c: nat): Text {
    if c == QUOTE || c == BACKSLASH then [BACKSLASH, c]
    else if c == 8 then [BACKSLASH, 98]
    else if c == 9 then [BACKSLASH, 116]
    else if c == 10 then [BACKSLASH, 110]
    else if c == 12 then [BACKSLASH, 102]
    else if c == 13 then [BACKSLASH, 114]
    else if 32 <= c < 127 then [c]
    else if c < 0x10000 then [BACKSLASH, LETTER_U] + Hex4(c)
    else [BACKSLASH, LETTER_U] + Hex4(0xd800 + (c - 0x10000) / 1024)
         + ([BACKSLASH, LETTER_U] + Hex4(0xdc00 + (c - 0x10000) % 1024))
  }

  /** The characters that have an escape of two characters (section 7 of RFC 8259), the
      solidus aside, are written with it; printable ASCII stands for itself. */
  lemma ShortEscapes()
    ensures EscapeCode(34) == [92, 34] && EscapeCode(92) == [92, 92] && EscapeCode(8) == [92, 98]
    ensures EscapeCode(9) == [92, 116] && EscapeCode(10) == [92, 110] && EscapeCode(12) == [92, 102]
    ensures EscapeCode(13) == [92, 114]
    ensures forall c | 32 <= c < 127 && c != 34 && c != 92 :: EscapeCode(c) == [c]
  {
  }

  function Escape(s: Text): Text {
    if s == [] then [] else EscapeCode(s[0]) + Escape(s[1..])
  }

  function Simple(c: nat): Option<nat> {
    if c == QUOTE || c == BACKSLASH || c == 47 then Some(c)
    else if c == 98 then Some(8)
    else if c == 116 then Some(9)
    else if c == 110 then Some(10)
    else if c == 102 then Some(12)
    else if c == 114 then Some(13)
    else None
  }

  function Prepend(c: nat, r: Option<(Text, Text)>): Option<(Text, Text)> {
    if r.None? then None else Some(([c] + r.value.0, r.value.1))
  }

  predicate Unit(b: Text) { |b| >= 2 && b[0] == BACKSLASH && b[1] == LETTER_U }

  /** The scanner, from after the opening quote to after the closing one. */
  function Unescape(b: Text): Option<(Text, Text)> {
    if b == [] || b[0] < 32 then None
    else if b[0] == QUOTE then Some(([], b[1..]))
    else if b[0] != BACKSLASH then Prepend(b[0], Unescape(b[1..]))
    else if !Unit(b) then
      if |b| < 2 || Simple(b[1]).None? then None else Prepend(Simple(b[1]).value, Unescape(b[2..]))
    else
      var u := Unhex4(b[2..]);
      if u.None? then None
      else if !High(u.value) || !Unit(b[6..]) then Prepend(u.value, Unescape(b[6..]))
      else
        var v := Unhex4(b[8..]);
        if v.None? then None
        else if Low(v.value) then Prepend(Pair(u.value, v.value), Unescape(b[12..]))
        else Prepend(u.value, Unescape(b[6..]))
  }

  lemma {:induction false} UnescapeShorter(b: Text)
    ensures Unescape(b).Some? ==> |Unescape(b).value.1| < |b|
    decreases |b|
  {
    if b != [] && b[0] >= 32 && b[0] != QUOTE {
      UnescapeShorter(b[1..]);
      if |b| >= 2 {
        UnescapeShorter(b[2..]);
      }
      if |b| >= 6 {
        UnescapeShorter(b[6..]);
      }
      if |b| >= 12 {
        UnescapeShorter(b[12..]);
      }
    }
  }

  /** What reading back does to a string: adjacent surrogate halves join. */
  function Join(s: Text): Text {
    if |s| >= 2 && High(s[0]) && Low(s[1]) then [Pair(s[0], s[1])] + Join(s[2..])
    else if s == [] then []
    else [s[0]] + Join(s[1..])
  }

  predicate Paired(s: Text) { exists i :: 0 <= i < |s| - 1 && High(s[i]) && Low(s[i + 1]) }

  lemma UnescapeUnit(u: nat, tail: Text)
    requires u < 65536
    ensures var b := [BACKSLASH, LETTER_U] + Hex4(u) + tail;
            && Unit(b) && Unhex4(b[2..]) == Some(u) && b[6..] == tail
  {
    var b := [BACKSLASH, LETTER_U] + Hex4(u) + tail;
    assert b[2..] == Hex4(u) + tail;
    HexRoundTrip(u, tail);
  }

  lemma UnescapeShort(c: nat, tail: Text)
    requires |EscapeCode(c)| <= 2
    ensures Unescape(EscapeCode(c) + tail) == Prepend(c, Unescape(tail))
  {
    hide Unhex4;
    assert (EscapeCode(c) + tail)[|EscapeCode(c)|..] == tail;
  }

  lemma {:induction false} UnescapeSingle(c: nat, tail: Text)
    requires c < 0x10000
    requires High(c) && Unit(tail) ==> Unhex4(tail[2..]).Some? && !Low(Unhex4(tail[2..]).value)
    ensures Unescape([BACKSLASH, LETTER_U] + Hex4(c) + tail) == Prepend(c, Unescape(tail))
  {
    hide Hex, Unhex, Simple;
    var b := [BACKSLASH, LETTER_U] + Hex4(c) + tail;
    UnescapeUnit(c, tail);
    assert |tail| >= 2 ==> b[8..] == tail[2..];
    hide Unhex4, Hex4;
  }

  lemma {:induction false} UnescapePair(h: nat, l: nat, tail: Text)
    requires High(h) && Low(l)
    ensures Unescape([BACKSLASH, LETTER_U] + Hex4(h) + ([BACKSLASH, LETTER_U] + Hex4(l) + tail))
            == Prepend(Pair(h, l), Unescape(tail))
  {
    hide Hex, Unhex, Simple;
    var rest := [BACKSLASH, LETTER_U] + Hex4(l) + tail;
    var b := [BACKSLASH, LETTER_U] + Hex4(h) + rest;
    UnescapeUnit(h, rest);
    UnescapeUnit(l, tail);
    assert b[8..] == rest[2..] && b[12..] == rest[6..];
    hide Unhex4, Hex4;
  }

  /** One code, unless it is a high half followed by the escape of a low half. */
  lemma {:induction false} UnescapeCode(c: nat, tail: Text)
    requires c < 0x110000
    requires High(c) && Unit(tail) ==> Unhex4(tail[2..]).Some? && !Low(Unhex4(tail[2..]).value)
    ensures Unescape(EscapeCode(c) + tail) == Prepend(c, Unescape(tail))
  {
    hide Unescape, Hex4, Unhex4;
    if c >= 0x10000 {
      var h, l := 0xd800 + (c - 0x10000) / 1024, 0xdc00 + (c - 0x10000) % 1024;
      UnescapePair(h, l, tail);
      assert EscapeCode(c) + tail == [BACKSLASH, LETTER_U] + Hex4(h) + ([BACKSLASH, LETTER_U] + Hex4(l) + tail);
    } else if c < 128 && |EscapeCode(c)| <= 2 {
      UnescapeShort(c, tail);
    } else {
      UnescapeSingle(c, tail);
    }
  }

  lemma {:induction false} EscapeHead(c: nat, tail: Text)
    requires c < 0x110000
    ensures var b := EscapeCode(c) + tail;
            Unit(b) ==> Unhex4(b[2..]).Some? && Low(Unhex4(b[2..]).value) == Low(c)
  {
    var b := EscapeCode(c) + tail;
    if c >= 0x10000 {
      var h, l := 0xd800 + (c - 0x10000) / 1024, 0xdc00 + (c - 0x10000) % 1024;
      var rest := [BACKSLASH, LETTER_U] + Hex4(l) + tail;
      assert b == [BACKSLASH, LETTER_U] + Hex4(h) + rest;
      UnescapeUnit(h, rest);
    } else if |EscapeCode(c)| == 6 {
      UnescapeUnit(c, tail);
    }
  }

  lemma UnescapeClose(tail: Text)
    ensures Unescape([QUOTE] + tail) == Some(([], tail))
  {
    assert ([QUOTE] + tail)[1..] == tail;
  }

  /** Reading back an escaped string yields exactly its joined form. */
  lemma {:induction false} UnescapeEscape(s: Text, tail: Text)
    requires Codes(s)
    ensures Unescape(Escape(s) + ([QUOTE] + tail)) == Some((Join(s), tail))
    decreases |s|
  {
    hide Unescape, Hex4, Unhex4;
    var close := [QUOTE] + tail;
    if s == [] {
      UnescapeClose(tail);
      assert Escape(s) + close == close;
    } else if |s| >= 2 && High(s[0]) && Low(s[1]) {
      UnescapeEscape(s[2..], tail);
      EscapedPair(s, close);
      UnescapePair(s[0], s[1], Escape(s[2..]) + close);
    } else {
      UnescapeEscape(s[1..], tail);
      EscapedRest(s, close);
      UnescapeCode(s[0], Escape(s[1..]) + close);
    }
  }

  lemma EscapedPair(s: Text, close: Text)
    requires |s| >= 2 && High(s[0]) && Low(s[1])
    ensures Escape(s) + close ==
            [BACKSLASH, LETTER_U] + Hex4(s[0]) + ([BACKSLASH, LETTER_U] + Hex4(s[1]) + (Escape(s[2..]) + close))
  {
    hide Hex4;
    assert s[1..][1..] == s[2..] && s[1..][0] == s[1];
    assert Escape(s) == EscapeCode(s[0]) + (EscapeCode(s[1]) + Escape(s[2..]));
  }

  lemma EscapedRest(s: Text, close: Text)
    requires s != [] && Codes(s) && close != [] && close[0] == QUOTE
    requires |s| >= 2 ==> !(High(s[0]) && Low(s[1]))
    ensures var more := Escape(s[1..]) + close;
            && Escape(s) + close == EscapeCode(s[0]) + more
            && (High(s[0]) && Unit(more) ==> Unhex4(more[2..]).Some? && !Low(Unhex4(more[2..]).value))
  {
    hide Escape, Hex4, Unhex4, EscapeCode;
    EscapeStep(s, close);
    if |s| >= 2 {
      EscapeStep(s[1..], close);
      EscapeHead(s[1], Escape(s[1..][1..]) + close);
    } else {
      assert s[1..] == [];
      EscapeNone(close);
    }
  }

  lemma EscapeStep(s: Text, close: Text)
    requires s != []
    ensures Escape(s) + close == EscapeCode(s[0]) + (Escape(s[1..]) + close)
  {
    hide EscapeCode;
  }

  lemma EscapeNone(close: Text)
    ensures Escape([]) + close == close
  {
  }

  lemma {:induction false} JoinIdentity(s: Text)
    ensures |Join(s)| <= |s|
    ensures Join(s) == s <==> !Paired(s)
    decreases |s|
  {
    if |s| >= 2 && High(s[0]) && Low(s[1]) {
      JoinIdentity(s[2..]);
      assert Paired(s);
      assert |Join(s)| < |s|;
    } else if s != [] {
      JoinIdentity(s[1..]);
      assert Join(s) == [s[0]] + Join(s[1..]) && s == [s[0]] + s[1..];
      if Paired(s) {
        var i :| 0 <= i < |s| - 1 && High(s[i]) && Low(s[i + 1]);
        assert High(s[1..][i - 1]) && Low(s[1..][i]);
        assert Join(s)[1..] == Join(s[1..]);
      }
      if Paired(s[1..]) {
        var i :| 0 <= i < |s[1..]| - 1 && High(s[1..][i]) && Low(s[1..][i + 1]);
        assert High(s[i + 1]) && Low(s[i + 2]);
      }
    }
  }

  lemma {:induction false} StringRoundTrip(s: Text, tail: Text)
    requires Codes(s)
    ensures Unescape(Escape(s) + ([QUOTE] + tail)) == Some((s, tail)) <==> !Paired(s)
  {
    UnescapeEscape(s, tail);
    JoinIdentity(s);
  }

  /** A value for which it fails, from the scanner itself: a high surrogate that was
      escaped, followed by a low one that was not, is read as two code points. Escaped
      again they are read as one. */
  lemma {:induction false} SplitPairExample()
    ensures Unescape([BACKSLASH, LETTER_U] + Hex4(0xd83d) + [0xdc00, QUOTE]) == Some(([0xd83d, 0xdc00], []))
    ensures Unescape(Escape([0xd83d, 0xdc00]) + [QUOTE]) == Some(([Pair(0xd83d, 0xdc00)], []))
  {
    hide Hex4, Escape;
    RawSurrogate();
    UnescapeSingle(0xd83d, [0xdc00, QUOTE]);
    assert Prepend(0xd83d, Some(([0xdc00], []))) == Some(([0xd83d] + [0xdc00], []));
    assert [0xd83d] + [0xdc00] == [0xd83d, 0xdc00];
    UnescapeEscape([0xd83d, 0xdc00], []);
    assert [QUOTE] + [] == [QUOTE];
    assert [Pair(0xd83d, 0xdc00)] + [] == [Pair(0xd83d, 0xdc00)];
    hide Unescape, Pair;
    assert [0xd83d, 0xdc00][2..] == [] && Join([]) == [];
    assert Join([0xd83d, 0xdc00]) == [Pair(0xd83d, 0xdc00)] + Join([]);
  }

  lemma RawSurrogate()
    ensures Unescape([0xdc00, QUOTE]) == Some(([0xdc00], []))
  {
    var rest: Text := [0xdc00, QUOTE];
    assert rest[1..] == [QUOTE] && [QUOTE][1..] == [];
    assert Unescape([QUOTE]) == Some(([], []));
    assert Unescape(rest) == Prepend(0xdc00, Unescape(rest[1..]));
    assert [0xdc00] + [] == [0xdc00];
  }

  /** Escaping leaves plain characters as they are, and never makes a text shorter. */
  predicate Plain(s: Text) { forall i | 0 <= i < |s| :: 32 <= s[i] < 127 && s[i] != QUOTE && s[i] != BACKSLASH }

  lemma {:induction false} EscapeLength(s: Text)
    requires Codes(s)
    ensures |s| <= |Escape(s)| <= 12 * |s|
    ensures Plain(s) ==> |Escape(s)| == |s|
  {
    if s != [] {
      EscapeLength(s[1..]);
      assert |EscapeCode(s[0])| <= 12;
    }
  }

  predicate Printable(b: Text) { forall i | 0 <= i < |b| :: 32 <= b[i] < 127 }

  lemma {:induction false} EscapePrintable(s: Text)
    requires Codes(s)
    ensures Printable(Escape(s))
    decreases |s|
  {
    hide EscapeCode;
    if s != [] {
      CodePrintable(s[0]);
      EscapePrintable(s[1..]);
    }
  }

  lemma CodePrintable(c: nat)
    requires c < 0x110000
    ensures Printable(EscapeCode(c))
  {
  }

  // Objects

  datatype Value = Str(text: Text) | Num(n: nat) | List(items: seq<Text>)

  type Object = seq<(Text, Value)>

  function Quoted(s: Text): Text { [QUOTE] + (Escape(s) + [QUOTE]) }

  function Digits(n: nat): Text {
    if n < 10 then [48 + n] else Digits(n / 10) + [48 + n % 10]
  }

  function EncodeItems(items: seq<Text>): Text {
    if items == [] then [93]
    else Quoted(items[0]) + (if |items| == 1 then [93] else [44] + EncodeItems(items[1..]))
  }

  function EncodeValue(v: Value): Text {
    match v
    case Str(s) => Quoted(s)
    case Num(n) => Digits(n)
    case List(items) => [91] + EncodeItems(items)
  }

  function EncodeMembers(o: Object): Text {
    if o == [] then [125]
    else Quoted(o[0].0) + ([58] + (EncodeValue(o[0].1) +
         (if |o| == 1 then [125] else [44] + EncodeMembers(o[1..]))))
  }

  function Encode(o: Object): Text { [123] + EncodeMembers(o) }

  predicate Digit(c: nat) { 48 <= c <= 57 }

  function Number(b: Text, acc: nat): (r: (nat, Text))
    ensures |r.1| <= |b|
  {
    if b != [] && Digit(b[0]) then Number(b[1..], acc * 10 + (b[0] - 48)) else (acc, b)
  }

  function ParseString(b: Text): (r: Option<(Text, Text)>)
    ensures r.Some? ==> |r.value.1| < |b|
  {
    if b == [] || b[0] != QUOTE then None else UnescapeShorter(b[1..]); Unescape(b[1..])
  }

  /** The items of a list and its closing bracket. */
  function ParseItems(b: Text): (r: Option<(seq<Text>, Text)>)
    ensures r.Some? ==> |r.value.1| < |b|
    decreases |b|
  {
    var s := ParseString(b);
    if s.None? || s.value.1 == [] then None
    else if s.value.1[0] == 93 then Some(([s.value.0], s.value.1[1..]))
    else if s.value.1[0] != 44 then None
    else
      var more := ParseItems(s.value.1[1..]);
      if more.None? then None else Some(([s.value.0] + more.value.0, more.value.1))
  }

  function ParseValue(b: Text): (r: Option<(Value, Text)>)
    ensures r.Some? ==> |r.value.1| < |b|
  {
    if b == [] then None
    else if b[0] == QUOTE then
      var s := ParseString(b);
      if s.None? then None else Some((Str(s.value.0), s.value.1))
    else if b[0] == 91 then
      if |b| >= 2 && b[1] == 93 then Some((List([]), b[2..]))
      else
        var items := ParseItems(b[1..]);
        if items.None? then None else Some((List(items.value.0), items.value.1))
    else if b[0] == 48 then Some((Num(0), b[1..]))
    else if Digit(b[0]) then
      var (n, rest) := Number(b[1..], b[0] - 48);
      Some((Num(n), rest))
    else None
  }

  function ParseMember(b: Text): (r: Option<((Text, Value), Text)>)
    ensures r.Some? ==> |r.value.1| < |b|
  {
    var k := ParseString(b);
    if k.None? || k.value.1 == [] || k.value.1[0] != 58 then None
    else
      var v := ParseValue(k.value.1[1..]);
      if v.None? then None else Some(((k.value.0, v.value.0), v.value.1))
  }

  function ParseMembers(b: Text): (r: Option<(Object, Text)>)
    ensures r.Some? ==> |r.value.1| < |b|
    decreases |b|
  {
    var m := ParseMember(b);
    if m.None? || m.value.1 == [] then None
    else if m.value.1[0] == 125 then Some(([m.value.0], m.value.1[1..]))
    else if m.value.1[0] != 44 then None
    else
      var more := ParseMembers(m.value.1[1..]);
      if more.None? then None else Some(([m.value.0] + more.value.0, more.value.1))
  }

  function ParseObject(b: Text): Option<(Object, Text)> {
    if b == [] || b[0] != 123 then None
    else if |b| >= 2 && b[1] == 125 then Some(([], b[2..]))
    else ParseMembers(b[1..])
  }

  /** One line: an object and nothing after it. */
  function Parse(b: Text): Option<Object> {
    var r := ParseObject(b);
    if r.Some? && r.value.1 == [] then Some(r.value.0) else None
  }

  // Round trip of objects

  predicate CleanText(s: Text) { Codes(s) && !Paired(s) }

  predicate CleanValue(v: Value) {
    match v
    case Str(s) => CleanText(s)
    case Num(_) => true
    case List(items) => forall i | 0 <= i < |items| :: CleanText(items[i])
  }

  predicate Clean(o: Object) {
    forall i | 0 <= i < |o| :: CleanText(o[i].0) && CleanValue(o[i].1)
  }

  lemma ParseQuoted(s: Text, tail: Text)
    requires CleanText(s)
    ensures ParseString(Quoted(s) + tail) == Some((s, tail))
  {
    hide Unescape, Escape, Join;
    UnescapeEscape(s, tail);
    JoinIdentity(s);
    assert (Quoted(s) + tail)[1..] == Escape(s) + ([QUOTE] + tail);
  }

  lemma {:induction false} NumberDigits(n: nat, tail: Text)
    ensures Digits(n) != [] && (n > 0 ==> Digits(n)[0] != 48) && Digit(Digits(n)[0])
    ensures Number(Digits(n) + tail, 0) == Number(tail, n)
  {
    if n < 10 {
      assert (Digits(n) + tail)[1..] == tail;
    } else {
      var more := [48 + n % 10] + tail;
      NumberDigits(n / 10, more);
      assert Digits(n) + tail == Digits(n / 10) + more;
      assert more[1..] == tail;
    }
  }

  lemma {:induction false} ParseEncodedItems(items: seq<Text>, tail: Text)
    requires items != [] && forall i | 0 <= i < |items| :: CleanText(items[i])
    ensures ParseItems(EncodeItems(items) + tail) == Some((items, tail))
    decreases |items|
  {
    hide Unescape, Escape, Quoted, ParseString;
    var rest := (if |items| == 1 then [93] else [44] + EncodeItems(items[1..])) + tail;
    assert EncodeItems(items) + tail == Quoted(items[0]) + rest;
    ParseQuoted(items[0], rest);
    if |items| > 1 {
      ParseEncodedItems(items[1..], tail);
      assert rest[1..] == EncodeItems(items[1..]) + tail;
      assert items == [items[0]] + items[1..];
    } else {
      assert rest[1..] == tail && items == [items[0]];
    }
  }

  lemma ParseNum(n: nat, tail: Text)
    requires tail != [] && !Digit(tail[0])
    ensures ParseValue(Digits(n) + tail) == Some((Num(n), tail))
  {
    hide ParseString, ParseItems;
    var b := Digits(n) + tail;
    NumberDigits(n, tail);
    assert Number(tail, n) == (n, tail);
    if n == 0 {
      assert b[1..] == tail;
    } else {
      assert Number(b, 0) == Number(b[1..], b[0] - 48);
    }
  }

  lemma ItemsOpen(items: seq<Text>)
    requires items != []
    ensures EncodeItems(items) != [] && EncodeItems(items)[0] == QUOTE
  {
    hide Escape;
  }

  lemma OpenList(rest: Text)
    requires rest != [] && rest[0] != 93 && ParseItems(rest).Some?
    ensures ParseValue([91] + rest) == Some((List(ParseItems(rest).value.0), ParseItems(rest).value.1))
  {
    hide ParseString, ParseItems, Number;
    assert ([91] + rest)[1..] == rest;
  }

  lemma EmptyList(tail: Text)
    ensures ParseValue([91, 93] + tail) == Some((List([]), tail))
  {
    hide ParseString, ParseItems, Number;
    assert ([91, 93] + tail)[2..] == tail;
  }

  lemma {:induction false} ParseFullList(items: seq<Text>, tail: Text)
    requires items != [] && forall i | 0 <= i < |items| :: CleanText(items[i])
    ensures ParseValue([91] + (EncodeItems(items) + tail)) == Some((List(items), tail))
  {
    hide ParseValue, ParseItems, EncodeItems, CleanText;
    ParseEncodedItems(items, tail);
    ItemsOpen(items);
    OpenList(EncodeItems(items) + tail);
  }

  lemma ParseNoList(tail: Text)
    ensures ParseValue([91] + EncodeItems([]) + tail) == Some((List([]), tail))
  {
    hide ParseValue;
    EmptyList(tail);
    assert [91] + EncodeItems([]) + tail == [91, 93] + tail;
  }

  lemma {:induction false} ParseList(items: seq<Text>, tail: Text)
    requires forall i | 0 <= i < |items| :: CleanText(items[i])
    ensures ParseValue([91] + EncodeItems(items) + tail) == Some((List(items), tail))
  {
    hide ParseValue, CleanText, EncodeItems;
    if items == [] {
      ParseNoList(tail);
    } else {
      ParseFullList(items, tail);
      assert [91] + EncodeItems(items) + tail == [91] + (EncodeItems(items) + tail);
    }
  }

  lemma ParseEncodedValue(v: Value, tail: Text)
    requires CleanValue(v) && tail != [] && !Digit(tail[0])
    ensures ParseValue(EncodeValue(v) + tail) == Some((v, tail))
  {
    match v
    case Str(s) =>
      hide Escape, ParseItems;
      ParseQuoted(s, tail);
      hide ParseString;
    case Num(n) => ParseNum(n, tail);
    case List(items) => ParseList(items, tail);
  }

  lemma {:induction false} ParseEncodedMembers(o: Object, tail: Text)
    requires o != [] && Clean(o)
    ensures ParseMembers(EncodeMembers(o) + tail) == Some((o, tail))
    decreases |o|
  {
    hide Unescape, Escape, Quoted, ParseString, EncodeValue, ParseValue;
    var rest := (if |o| == 1 then [125] else [44] + EncodeMembers(o[1..])) + tail;
    var value := EncodeValue(o[0].1) + rest;
    assert EncodeMembers(o) + tail == Quoted(o[0].0) + ([58] + value);
    ParseQuoted(o[0].0, [58] + value);
    assert ([58] + value)[1..] == value;
    ParseEncodedValue(o[0].1, rest);
    assert ParseMember(EncodeMembers(o) + tail) == Some((o[0], rest));
    if |o| > 1 {
      ParseEncodedMembers(o[1..], tail);
      assert rest[1..] == EncodeMembers(o[1..]) + tail;
      assert o == [o[0]] + o[1..];
    } else {
      assert rest[1..] == tail && o == [o[0]];
    }
  }

  lemma ParseEncode(o: Object, tail: Text)
    requires Clean(o)
    ensures ParseObject(Encode(o) + tail) == Some((o, tail))
    ensures Parse(Encode(o)) == Some(o)
  {
    ParseEncodedObject(o, tail);
    ParseEncodedObject(o, []);
    assert Encode(o) + [] == Encode(o);
  }

  /** A line holds one object and nothing after it. */
  lemma {:induction false} TrailingRefused(o: Object, tail: Text)
    requires Clean(o) && tail != []
    ensures Parse(Encode(o) + tail) == None
  {
    hide Encode, ParseObject;
    ParseEncode(o, tail);
  }

  /** A string that is read holds no raw control character, line breaks included. */
  lemma {:induction false} NoRawControls(b: Text, i: nat)
    requires Unescape(b).Some? && |Unescape(b).value.1| <= |b| && i < |b| - |Unescape(b).value.1|
    ensures b[i] >= 32
    decreases |b|
  {
    if i > 0 && b[0] != QUOTE {
      var k := Step(b);
      UnescapeShorter(b[k..]);
      if i >= k {
        assert Unescape(b[k..]).value.1 == Unescape(b).value.1;
        NoRawControls(b[k..], i - k);
      } else {
        Escaped(b, i);
      }
    }
  }

  /** How much of the text the next character takes. */
  function Step(b: Text): (k: nat)
    requires Unescape(b).Some? && b[0] != QUOTE
    ensures 0 < k <= |b| && Unescape(b[k..]).Some? && Unescape(b[k..]).value.1 == Unescape(b).value.1
  {
    if b[0] != BACKSLASH then 1
    else if !Unit(b) then 2
    else if High(Unhex4(b[2..]).value) && Unit(b[6..]) && Low(Unhex4(b[8..]).value) then 12
    else 6
  }

  lemma Escaped(b: Text, i: nat)
    requires Unescape(b).Some? && b[0] != QUOTE && 0 < i < Step(b)
    ensures b[i] >= 32
  {
    if Unit(b) && 2 <= i < 6 {
      assert b[2..][i - 2] == b[i];
    } else if Unit(b) && i >= 8 {
      assert b[8..][i - 8] == b[i];
    } else if Unit(b) && i >= 6 {
      assert b[6..][i - 6] == b[i];
    }
  }

  lemma ParseEncodedObject(o: Object, tail: Text)
    requires Clean(o)
    ensures ParseObject(Encode(o) + tail) == Some((o, tail))
  {
    hide ParseMember, ParseMembers, Escape, EncodeValue;
    var b := Encode(o) + tail;
    assert b[1..] == EncodeMembers(o) + tail;
    if o == [] {
      assert b[2..] == tail;
    } else {
      ParseEncodedMembers(o, tail);
    }
  }

  // A proper prefix of an object is not an object

  lemma {:induction false} UnescapeExtends(b: Text, q: Text)
    requires Unescape(b).Some?
    ensures Unescape(b + q) == Some((Unescape(b).value.0, Unescape(b).value.1 + q))
    decreases |b|
  {
    if Unit(b) {
      hide Unhex4, Simple, Pair;
      UnitSlices(b, q);
      var u := Unhex4(b[2..]).value;
      if High(u) && Unit(b[6..]) && Low(Unhex4(b[8..]).value) {
        UnescapeExtends(b[12..], q);
      } else {
        UnescapeExtends(b[6..], q);
      }
    } else {
      hide Unhex4, Pair;
      var c := b + q;
      assert c[1..] == b[1..] + q;
      if b[0] == BACKSLASH {
        UnescapeExtends(b[2..], q);
        assert c[2..] == b[2..] + q;
      } else if b[0] != QUOTE {
        UnescapeExtends(b[1..], q);
      }
    }
  }

  /** What the two texts show where a unit escape stands first in both. */
  lemma {:induction false} UnitSlices(b: Text, q: Text)
    requires Unescape(b).Some? && Unit(b)
    ensures |b| > 6 && (b + q)[6..] == b[6..] + q
    ensures Unit((b + q)[6..]) == Unit(b[6..])
    ensures Unhex4((b + q)[2..]) == Unhex4(b[2..]) && Unhex4(b[2..]).Some?
    ensures Unit(b[6..]) && High(Unhex4(b[2..]).value) ==>
              |b| >= 12 && Unhex4((b + q)[8..]) == Unhex4(b[8..]) && (b + q)[12..] == b[12..] + q
  {
    hide Unescape, Unhex4, Unit, High;
    UnitParts(b);
    DropOfSum(b, q, 2);
    DropOfSum(b, q, 6);
    UnitExtends(b[6..], q);
    Unhex4Extends(b[2..], q);
    if Unit(b[6..]) && High(Unhex4(b[2..]).value) {
      DropOfSum(b, q, 8);
      DropOfSum(b, q, 12);
      Unhex4Extends(b[8..], q);
    }
  }

  lemma DropOfSum(b: Text, q: Text, k: nat)
    requires k <= |b|
    ensures (b + q)[k..] == b[k..] + q
  {
  }

  lemma UnitExtends(p: Text, q: Text)
    requires p != [] && (p[0] == BACKSLASH ==> |p| >= 2)
    ensures Unit(p + q) == Unit(p)
  {
  }

  lemma Unhex4Extends(p: Text, q: Text)
    requires |p| >= 4
    ensures Unhex4(p + q) == Unhex4(p)
  {
    hide Unhex;
  }

  lemma UnitParts(b: Text)
    requires Unescape(b).Some? && Unit(b)
    ensures |b| > 6 && (b[6] == BACKSLASH ==> |b| >= 8) && Unhex4(b[2..]).Some?
    ensures Unit(b[6..]) && High(Unhex4(b[2..]).value) ==> |b| >= 12
  {
    hide Unhex, Simple, Pair;
    UnescapeEmpty();
    if |b| == 7 {
      UnescapeLone(b[6..]);
    }
  }

  lemma UnescapeEmpty()
    ensures Unescape([]) == None
  {
  }

  lemma UnescapeLone(b: Text)
    requires |b| == 1
    ensures b[0] != QUOTE ==> Unescape(b) == None
  {
    if b[0] != BACKSLASH {
      assert b[1..] == [];
      UnescapeEmpty();
    }
  }

  lemma ParseStringExtends(b: Text, q: Text)
    requires ParseString(b).Some?
    ensures ParseString(b + q) == Some((ParseString(b).value.0, ParseString(b).value.1 + q))
  {
    UnescapeExtends(b[1..], q);
    assert (b + q)[1..] == b[1..] + q;
  }

  lemma {:induction false} ParseItemsExtends(b: Text, q: Text)
    requires ParseItems(b).Some?
    ensures ParseItems(b + q) == Some((ParseItems(b).value.0, ParseItems(b).value.1 + q))
    decreases |b|
  {
    ParseStringExtends(b, q);
    var rest := ParseString(b).value.1;
    assert (rest + q)[1..] == rest[1..] + q;
    if rest[0] == 44 {
      ParseItemsExtends(rest[1..], q);
    }
  }

  lemma {:induction false} NumberExtends(b: Text, acc: nat, q: Text)
    requires Number(b, acc).1 != []
    ensures Number(b + q, acc) == (Number(b, acc).0, Number(b, acc).1 + q)
    decreases |b|
  {
    if b != [] && Digit(b[0]) {
      NumberExtends(b[1..], acc * 10 + (b[0] - 48), q);
      assert (b + q)[1..] == b[1..] + q;
    }
  }

  lemma ParseValueExtends(b: Text, q: Text)
    requires ParseValue(b).Some? && ParseValue(b).value.1 != []
    ensures ParseValue(b + q) == Some((ParseValue(b).value.0, ParseValue(b).value.1 + q))
  {
    var c := b + q;
    assert c[1..] == b[1..] + q;
    if b[0] == QUOTE {
      ParseStringExtends(b, q);
    } else if b[0] == 91 {
      if |b| >= 2 && b[1] == 93 {
        assert c[2..] == b[2..] + q;
      } else {
        ParseItemsExtends(b[1..], q);
      }
    } else if b[0] != 48 {
      NumberExtends(b[1..], b[0] - 48, q);
    }
  }

  lemma {:induction false} ParseMembersExtends(b: Text, q: Text)
    requires ParseMembers(b).Some?
    ensures ParseMembers(b + q) == Some((ParseMembers(b).value.0, ParseMembers(b).value.1 + q))
    decreases |b|
  {
    ParseStringExtends(b, q);
    var k := ParseString(b).value.1;
    assert (k + q)[1..] == k[1..] + q;
    ParseValueExtends(k[1..], q);
    var rest := ParseMember(b).value.1;
    assert (rest + q)[1..] == rest[1..] + q;
    if rest[0] == 44 {
      ParseMembersExtends(rest[1..], q);
    }
  }

  /** If text reads as an object, any longer text reads as the same object with
      the addition left over; so no proper prefix of an object is an object. */
  lemma ParseObjectExtends(b: Text, q: Text)
    requires ParseObject(b).Some?
    ensures ParseObject(b + q) == Some((ParseObject(b).value.0, ParseObject(b).value.1 + q))
  {
    hide ParseMembers;
    var c := b + q;
    if |b| >= 2 && b[1] == 125 {
      assert c[2..] == b[2..] + q;
    } else {
      ParseMembersExtends(b[1..], q);
      assert c[1..] == b[1..] + q;
    }
  }

  lemma {:induction false} PrefixIsNotObject(o: Object, k: nat)
    requires Clean(o) && k < |Encode(o)|
    ensures Parse(Encode(o)[..k]) == None
  {
    hide Encode, ParseObject;
    var p, q := Encode(o)[..k], Encode(o)[k..];
    assert p + q == Encode(o) && q != [];
    ParseEncodedObject(o, []);
    assert Encode(o) + [] == Encode(o);
    if ParseObject(p).Some? {
      ParseObjectExtends(p, q);
    }
  }

  // No raw line breaks

  lemma {:induction false} DigitsPrintable(n: nat)
    ensures Printable(Digits(n))
  {
    if n >= 10 {
      DigitsPrintable(n / 10);
    }
  }

  lemma {:induction false} ItemsPrintable(items: seq<Text>)
    requires forall i | 0 <= i < |items| :: Codes(items[i])
    ensures Printable(EncodeItems(items))
    decreases |items|
  {
    if items != [] {
      EscapePrintable(items[0]);
      if |items| > 1 {
        ItemsPrintable(items[1..]);
      }
    }
  }

  lemma ValuePrintable(v: Value)
    requires CleanValue(v)
    ensures Printable(EncodeValue(v))
  {
    match v
    case Str(s) => EscapePrintable(s);
    case Num(n) => DigitsPrintable(n);
    case List(items) => ItemsPrintable(items);
  }

  lemma {:induction false} MembersPrintable(o: Object)
    requires Clean(o)
    ensures Printable(EncodeMembers(o))
    decreases |o|
  {
    hide EncodeValue, Escape;
    if o != [] {
      EscapePrintable(o[0].0);
      ValuePrintable(o[0].1);
      if |o| > 1 {
        MembersPrintable(o[1..]);
      }
    }
  }

  lemma {:induction false} EncodePrintable(o: Object)
    requires Clean(o)
    ensures Printable(Encode(o)) && Encode(o) != []
  {
    MembersPrintable(o);
  }
}
