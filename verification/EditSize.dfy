/** String replacement by the Edit tool (`tools.py`) and the size it is checked for in
    advance: non-overlapping occurrences from the left, UTF-8 sizes that saturate for long
    inputs, the mutation budget (`resource_budget.py`), the final encoding (`file_io.py`). */
module EditSize {
  import opened Wrappers
  import opened Unicode

  const MAX_WRITE_BYTES := 5_000_000
  const MAX_TEXT_FILE_BYTES := 5_000_000

  /** `len(text.encode("utf-8", errors="replace"))`: a surrogate becomes a question mark. */
  function ReplacedWidth(c: nat): nat { if Surrogate(c) then 1 else Width(c) }

  function Size(s: Text): nat {
    if s == [] then 0 else ReplacedWidth(s[0]) + Size(s[1..])
  }

  /** `_utf8_size`. */
  function Utf8Size(s: Text): nat { if |s| > MAX_WRITE_BYTES then MAX_WRITE_BYTES + 1 else Size(s) }

  /** `text.count(old)`. */
  function Count(text: Text, search: Text): nat
    requires search != []
    decreases |text|
  {
    if |text| < |search| then 0
    else if search <= text then 1 + Count(text[|search|..], search)
    else Count(text[1..], search)
  }

  /** `text.replace(old, new, limit)`. */
  function Replace(text: Text, search: Text, replacement: Text, limit: nat): Text
    requires search != []
    decreases |text|
  {
    if limit == 0 || |text| < |search| then text
    else if search <= text then replacement + Replace(text[|search|..], search, replacement, limit - 1)
    else [text[0]] + Replace(text[1..], search, replacement, limit)
  }

  datatype Edit = Edited(text: Text, replacements: nat) | NotFound | Ambiguous(count: nat) | TooLarge

  /** `_build_replacement`. */
  function BuildReplacement(text: Text, search: Text, replacement: Text, replaceAll: bool): Edit
    requires search != []
  {
    var count := Count(text, search);
    if count == 0 then NotFound
    else if count > 1 && !replaceAll then Ambiguous(count)
    else
      var replacements := if replaceAll then count else 1;
      var outputSize := Utf8Size(text) + replacements * (Utf8Size(replacement) - Utf8Size(search));
      if outputSize > MAX_WRITE_BYTES then TooLarge
      else Edited(Replace(text, search, replacement, if replaceAll then count else 1), replacements)
  }

  /** `_encode_text`: the number of bytes written, if the content can be written. */
  function EncodeText(content: Text): Option<nat> {
    if !Encodable(content) || Utf8(content) > MAX_TEXT_FILE_BYTES then None else Some(Utf8(content))
  }

  /** What reading the target gives: strict UTF-8 within the file limit. */
  predicate Readable(text: Text) { Encodable(text) && Utf8(text) <= MAX_TEXT_FILE_BYTES }

  // What replacement means

  /** The pieces between occurrences. */
  function Pieces(text: Text, search: Text): (r: seq<Text>)
    requires search != []
    ensures |r| == Count(text, search) + 1
    decreases |text|
  {
    if |text| < |search| then [text]
    else if search <= text then [[]] + Pieces(text[|search|..], search)
    else
      var rest := Pieces(text[1..], search);
      [[text[0]] + rest[0]] + rest[1..]
  }

  function Join(pieces: seq<Text>, glue: Text): Text {
    if pieces == [] then [] else if |pieces| == 1 then pieces[0] else pieces[0] + glue + Join(pieces[1..], glue)
  }

  ghost predicate OccursAt(s: Text, search: Text, i: nat) { i + |search| <= |s| && s[i..i + |search|] == search }

  ghost predicate Occurs(s: Text, search: Text) { exists i: nat :: OccursAt(s, search, i) }

  lemma JoinHead(c: nat, pieces: seq<Text>, glue: Text)
    requires pieces != []
    ensures Join([[c] + pieces[0]] + pieces[1..], glue) == [c] + Join(pieces, glue)
  {
    var extended := [[c] + pieces[0]] + pieces[1..];
    assert extended[1..] == pieces[1..];
    if |pieces| > 1 {
      assert [c] + pieces[0] + glue + Join(pieces[1..], glue) == [c] + (pieces[0] + glue + Join(pieces[1..], glue));
    }
  }

  lemma JoinTake(search: Text, rest: Text, glue: Text)
    requires search != []
    ensures Join([[]] + Pieces(rest, search), glue) == glue + Join(Pieces(rest, search), glue)
  {
    assert ([[]] + Pieces(rest, search))[1..] == Pieces(rest, search);
    assert [] + glue + Join(Pieces(rest, search), glue) == glue + Join(Pieces(rest, search), glue);
  }

  lemma {:induction false} PiecesJoin(text: Text, search: Text)
    requires search != []
    ensures Join(Pieces(text, search), search) == text
    decreases |text|
  {
    if |text| < |search| {
    } else if search <= text {
      PiecesJoin(text[|search|..], search);
      JoinTake(search, text[|search|..], search);
      hide Join;
      assert text == search + text[|search|..];
    } else {
      PiecesJoin(text[1..], search);
      JoinHead(text[0], Pieces(text[1..], search), search);
      hide Join;
      assert text == [text[0]] + text[1..];
    }
  }

  /** The pieces joined by the old string are the text, joined by the new one the result. */
  lemma {:induction false} ReplaceIsJoin(text: Text, search: Text, replacement: Text)
    requires search != []
    ensures Join(Pieces(text, search), search) == text
    ensures Join(Pieces(text, search), replacement) == Replace(text, search, replacement, Count(text, search))
    decreases |text|
  {
    PiecesJoin(text, search);
    if |text| < |search| {
    } else if search <= text {
      ReplaceIsJoin(text[|search|..], search, replacement);
      JoinTake(search, text[|search|..], replacement);
      hide Join;
    } else {
      ReplaceIsJoin(text[1..], search, replacement);
      JoinHead(text[0], Pieces(text[1..], search), replacement);
      ReplaceNone(text, search, replacement);
      hide Join, Replace, Count;
    }
  }

  lemma ReplaceNone(text: Text, search: Text, replacement: Text)
    requires search != [] && |text| >= |search| && !(search <= text)
    ensures Replace(text, search, replacement, Count(text, search)) ==
            [text[0]] + Replace(text[1..], search, replacement, Count(text[1..], search))
  {
    if Count(text, search) == 0 {
      assert Replace(text[1..], search, replacement, 0) == text[1..];
    }
  }

  /** No piece contains the old string: every occurrence that can be taken is taken. */
  lemma {:induction false} PiecesAreFree(text: Text, search: Text, k: nat)
    requires search != [] && k < |Pieces(text, search)|
    ensures !Occurs(Pieces(text, search)[k], search)
    decreases |text|
  {
    if |text| < |search| {
    } else if search <= text {
      if k > 0 {
        PiecesAreFree(text[|search|..], search, k - 1);
      }
    } else {
      var rest := Pieces(text[1..], search);
      PiecesAreFree(text[1..], search, k);
      if k == 0 {
        PiecesJoin(text, search);
        PieceIsPrefix(Pieces(text, search), search);
        StillFree(text, search, rest[0]);
      }
    }
  }

  /** Occurrences are taken from the left: after a piece comes the first one there is. */
  lemma {:induction false} PiecesAreLeftmost(text: Text, search: Text, k: nat, i: nat)
    requires search != [] && k + 1 < |Pieces(text, search)| && i < |Pieces(text, search)[k]|
    ensures !OccursAt(Pieces(text, search)[k] + search, search, i)
    decreases |text|
  {
    if search <= text {
      PiecesAreLeftmost(text[|search|..], search, k - 1, i);
    } else if k == 0 {
      var piece := Pieces(text[1..], search)[0];
      if i > 0 { PiecesAreLeftmost(text[1..], search, 0, i - 1); }
      FirstPiece(text[1..], search);
      StillLeftmost(text, search, piece, i);
    } else {
      PiecesAreLeftmost(text[1..], search, k, i);
    }
  }

  lemma StillLeftmost(text: Text, search: Text, piece: Text, i: nat)
    requires search != [] && text != [] && !(search <= text) && piece + search <= text[1..]
    requires i > 0 ==> !OccursAt(piece + search, search, i - 1)
    ensures !OccursAt([text[0]] + piece + search, search, i)
  {
    var longer := [text[0]] + piece + search;
    assert longer == [text[0]] + (piece + search) <= [text[0]] + text[1..] == text;
    if i > 0 {
      assert i + |search| <= |longer| ==> longer[i..i + |search|] == (piece + search)[i - 1..i - 1 + |search|];
    } else {
      assert longer[..|search|] == text[..|search|];
    }
  }

  /** The text starts with its first piece and, if there are others, the old string. */
  lemma FirstPiece(text: Text, search: Text)
    requires search != [] && |Pieces(text, search)| > 1
    ensures Pieces(text, search)[0] + search <= text
  {
    PiecesJoin(text, search);
  }

  /** An old string is counted if and only if it occurs. */
  lemma {:induction false} CountedIff(text: Text, search: Text)
    requires search != []
    ensures Count(text, search) > 0 <==> Occurs(text, search)
  {
    if Count(text, search) == 0 {
      PiecesAreFree(text, search, 0);
      PiecesJoin(text, search);
    } else {
      FirstPiece(text, search);
      var n := |Pieces(text, search)[0]|;
      assert text[n..n + |search|] == search;
      assert OccursAt(text, search, n);
    }
  }

  lemma StillFree(text: Text, search: Text, piece: Text)
    requires search != [] && text != [] && !(search <= text)
    requires [text[0]] + piece <= text && !Occurs(piece, search)
    ensures !Occurs([text[0]] + piece, search)
  {
    var longer := [text[0]] + piece;
    forall i: nat ensures !OccursAt(longer, search, i) {
      if i > 0 {
        assert i + |search| <= |longer| ==> longer[i..i + |search|] == piece[i - 1..i - 1 + |search|];
        assert !OccursAt(piece, search, i - 1);
      }
    }
  }

  lemma PieceIsPrefix(pieces: seq<Text>, glue: Text)
    requires pieces != []
    ensures pieces[0] <= Join(pieces, glue)
  {
  }

  // Sizes

  lemma {:induction false} SizeConcat(a: Text, b: Text)
    ensures Size(a + b) == Size(a) + Size(b)
  {
    if a == [] {
      assert a + b == b;
    } else {
      assert (a + b)[1..] == a[1..] + b;
      SizeConcat(a[1..], b);
    }
  }

  lemma {:induction false} SizeAtLeastLength(s: Text)
    ensures Size(s) >= |s|
  {
    if s != [] {
      SizeAtLeastLength(s[1..]);
    }
  }

  lemma {:induction false} SizeIsUtf8(s: Text)
    requires Encodable(s)
    ensures Size(s) == Utf8(s)
  {
    if s != [] {
      SizeIsUtf8(s[1..]);
    }
  }

  /** The text with a question mark for each surrogate. */
  function Questioned(s: Text): Text {
    seq(|s|, i requires 0 <= i < |s| => if 0xD800 <= s[i] <= 0xDFFF then 63 else s[i])
  }

  /** The size that is reserved is that of the text with its surrogates replaced. */
  lemma {:induction false} SizeIsReplaced(s: Text)
    ensures Size(s) == Utf8(Questioned(s))
  {
    if s != [] {
      SizeIsReplaced(s[1..]);
      assert Questioned(s)[1..] == Questioned(s[1..]);
    }
  }

  /** The size that is computed, beyond the limit at once for a long text, is on the same
      side of the limit as the true one, and equal to it below. */
  lemma SaturatedSize(s: Text)
    ensures |s| > MAX_WRITE_BYTES ==> Utf8Size(s) == MAX_WRITE_BYTES + 1
    ensures Utf8Size(s) > MAX_WRITE_BYTES <==> Size(s) > MAX_WRITE_BYTES
    ensures Size(s) <= MAX_WRITE_BYTES ==> Utf8Size(s) == Size(s)
  {
    SizeAtLeastLength(s);
  }

  function Least(a: nat, b: nat): nat { if a < b then a else b }

  lemma Distribute(n: nat, d: int)
    ensures (n + 1) * d == n * d + d
  {
  }

  /** Replacing changes the size by the same amount each time. */
  lemma {:induction false} ReplacedSize(text: Text, search: Text, replacement: Text, limit: nat)
    requires search != []
    ensures Size(Replace(text, search, replacement, limit)) ==
            Size(text) + Times(Least(limit, Count(text, search)), Size(replacement) - Size(search))
    decreases |text|
  {
    hide Size;
    if limit == 0 || |text| < |search| {
    } else if search <= text {
      var rest := text[|search|..];
      assert text == search + rest;
      ReplacedSize(rest, search, replacement, limit - 1);
      SizeConcat(search, rest);
      SizeConcat(replacement, Replace(rest, search, replacement, limit - 1));
      assert Least(limit, Count(text, search)) == Least(limit - 1, Count(rest, search)) + 1;
      Distribute(Least(limit - 1, Count(rest, search)), Size(replacement) - Size(search));
    } else {
      ReplacedSize(text[1..], search, replacement, limit);
      assert text == [text[0]] + text[1..];
      SizeConcat([text[0]], text[1..]);
      SizeConcat([text[0]], Replace(text[1..], search, replacement, limit));
    }
  }

  function Times(n: nat, d: int): int { n * d }

  /** Occurrences do not overlap, so they fit into the text. */
  lemma {:induction false} OccurrencesFit(text: Text, search: Text)
    requires search != []
    ensures Count(text, search) * Size(search) <= Size(text)
    ensures Count(text, search) > 0 ==> |search| <= |text|
    decreases |text|
  {
    if |text| < |search| {
    } else if search <= text {
      var rest := text[|search|..];
      assert text == search + rest;
      OccurrencesFit(rest, search);
      SizeConcat(search, rest);
      assert (Count(rest, search) + 1) * Size(search) == Count(rest, search) * Size(search) + Size(search);
    } else {
      OccurrencesFit(text[1..], search);
      assert text == [text[0]] + text[1..];
      SizeConcat([text[0]], text[1..]);
    }
  }

  lemma FoundFits(text: Text, search: Text, n: nat)
    requires search != [] && 1 <= n <= Count(text, search)
    ensures Times(n, Size(search)) <= Size(text) && |search| <= |text|
  {
    OccurrencesFit(text, search);
    Scale(n, Count(text, search), Size(search));
  }

  /** The saturated estimate is on the same side of the limit as the true size. */
  lemma {:induction false} EstimateExact(text: Text, search: Text, replacement: Text, n: nat)
    requires Readable(text) && search != [] && 1 <= n <= Count(text, search)
    ensures Utf8Size(text) + Times(n, Utf8Size(replacement) - Utf8Size(search)) > MAX_WRITE_BYTES
       <==> Size(text) + Times(n, Size(replacement) - Size(search)) > MAX_WRITE_BYTES
  {
    hide Size, Count, Encodable, Utf8, Times;
    SizeIsUtf8(text);
    SizeAtLeastLength(text);
    FoundFits(text, search, n);
    SizeAtLeastLength(replacement);
    Sides(Size(text), n, Size(search), Size(replacement), Utf8Size(replacement));
  }

  /** Once both sizes are beyond the limit, the difference between them is immaterial. */
  lemma Sides(t: nat, n: nat, o: nat, w: nat, s: nat)
    requires n >= 1 && Times(n, o) <= t && (w == s || (w > MAX_WRITE_BYTES && s > MAX_WRITE_BYTES))
    ensures t + Times(n, s - o) > MAX_WRITE_BYTES <==> t + Times(n, w - o) > MAX_WRITE_BYTES
  {
    if w != s {
      Large(t, n, o, w);
      Large(t, n, o, s);
    }
  }

  lemma Scale(n: nat, c: nat, o: nat)
    requires n <= c
    ensures n * o <= c * o
  {
  }

  lemma Large(t: nat, n: nat, o: nat, w: nat)
    requires n >= 1 && n * o <= t && w > MAX_WRITE_BYTES
    ensures t + n * (w - o) > MAX_WRITE_BYTES
  {
    assert n * (w - o) == n * w - n * o;
    assert n * w >= w;
  }

  // The main results

  /** The check in advance is exact: an unambiguous edit is accepted if and only if the
      replaced text fits, and the text it returns is the replaced text. */
  lemma PreCheckExact(text: Text, search: Text, replacement: Text, replaceAll: bool)
    requires Readable(text) && search != []
    ensures var count := Count(text, search);
            var replaced := Replace(text, search, replacement, if replaceAll then count else 1);
            BuildReplacement(text, search, replacement, replaceAll) ==
            if !Occurs(text, search) then NotFound
            else if count > 1 && !replaceAll then Ambiguous(count)
            else if Size(replaced) > MAX_WRITE_BYTES then TooLarge
            else Edited(replaced, if replaceAll then count else 1)
  {
    var count := Count(text, search);
    var n := if replaceAll then count else 1;
    CountedIff(text, search);
    if count > 0 {
      EstimateExact(text, search, replacement, n);
      ReplacedSize(text, search, replacement, n);
    }
  }

  lemma EncodableConcat(a: Text, b: Text)
    ensures Encodable(a + b) <==> Encodable(a) && Encodable(b)
  {
    if Encodable(a + b) {
      forall i | 0 <= i < |a| ensures a[i] < 0x110000 && !Surrogate(a[i]) { assert (a + b)[i] == a[i]; }
      forall i | 0 <= i < |b| ensures b[i] < 0x110000 && !Surrogate(b[i]) { assert (a + b)[|a| + i] == b[i]; }
    }
  }

  lemma {:induction false} ReplacedEncodable(text: Text, search: Text, replacement: Text, limit: nat)
    requires search != [] && Encodable(text)
    ensures Encodable(Replace(text, search, replacement, limit)) <==>
            limit == 0 || Count(text, search) == 0 || Encodable(replacement)
    decreases |text|
  {
    if limit == 0 || |text| < |search| {
    } else if search <= text {
      var rest := text[|search|..];
      assert text == search + rest;
      EncodableConcat(search, rest);
      ReplacedEncodable(rest, search, replacement, limit - 1);
      EncodableConcat(replacement, Replace(rest, search, replacement, limit - 1));
    } else {
      assert text == [text[0]] + text[1..];
      EncodableConcat([text[0]], text[1..]);
      ReplacedEncodable(text[1..], search, replacement, limit);
      EncodableConcat([text[0]], Replace(text[1..], search, replacement, limit));
    }
  }

  /** An accepted edit is written unless the new string holds a surrogate, and the bytes
      written are exactly the bytes reserved from the budget. */
  lemma AcceptedIsWritable(text: Text, search: Text, replacement: Text, replaceAll: bool)
    requires Readable(text) && search != [] && BuildReplacement(text, search, replacement, replaceAll).Edited?
    ensures var content := BuildReplacement(text, search, replacement, replaceAll).text;
            EncodeText(content) == if Encodable(replacement) then Some(Utf8Size(content)) else None
  {
    PreCheckExact(text, search, replacement, replaceAll);
    var count := Count(text, search);
    var content := Replace(text, search, replacement, if replaceAll then count else 1);
    ReplacedEncodable(text, search, replacement, if replaceAll then count else 1);
    SizeAtLeastLength(content);
    if Encodable(replacement) {
      SizeIsUtf8(content);
    }
  }

  // The budget

  datatype Outcome = Written(text: Text) | Refused(edit: Edit) | WriteFailed | BudgetExceeded

  class MutationBudget {
    const limit: nat
    var used: nat

    constructor (limit: nat)
      ensures this.limit == limit && used == 0
    {
      this.limit, used := limit, 0;
    }

    /** Reservations are never refunded. */
    method Reserve(byteCount: nat) returns (reserved: bool)
      modifies this
      ensures reserved <==> old(used) + byteCount <= limit
      ensures used == if reserved then old(used) + byteCount else old(used)
    {
      reserved := byteCount <= limit - used;
      if reserved {
        used := used + byteCount;
      }
    }

    /** `_execute_edit` up to the write, which fails if `fault`. An edit reserves exactly the bytes
        of the text it hands to the write, and only then. */
    method ExecuteEdit(text: Text, search: Text, replacement: Text, replaceAll: bool, fault: bool)
        returns (o: Outcome)
      requires Readable(text) && search != []
      modifies this
      ensures var edit := BuildReplacement(text, search, replacement, replaceAll);
              && (o.Refused? <==> !edit.Edited?)
              && (edit.Edited? ==> (o.BudgetExceeded? <==> old(used) + Size(edit.text) > limit))
              && used == (if o.Refused? || o.BudgetExceeded? then old(used) else old(used) + Size(edit.text))
              && (o.Written? ==> o.text == edit.text && EncodeText(o.text) == Some(Size(o.text)))
              && (o.Refused? ==> o.edit == edit)
              && (o.Written? <==>
                    edit.Edited? && old(used) + Size(edit.text) <= limit && Encodable(replacement) && !fault)
    {
      var edit := BuildReplacement(text, search, replacement, replaceAll);
      if !edit.Edited? {
        return Refused(edit);
      }
      PreCheckExact(text, search, replacement, replaceAll);
      AcceptedIsWritable(text, search, replacement, replaceAll);
      SizeAtLeastLength(edit.text);
      var reserved := Reserve(Utf8Size(edit.text));
      if !reserved {
        return BudgetExceeded;
      }
      return if EncodeText(edit.text).None? || fault then WriteFailed else Written(edit.text);
    }
  }
}
