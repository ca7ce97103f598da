/** The stream a tool child writes (`tool_child.py`) and its parent's reading of
    whatever arrived of it (`tool_process.py`): event lines, then one reply. */
module ToolEvents {
  import opened Wrappers
  import opened JsonText
  import opened Unicode

  const MAX_RESPONSE_BYTES := 1024 * 1024

  /** The words of the protocol, spelled in ASCII codes. */
  datatype Word =
    | Kind | Sha256 | Detail | Result | MutationUsed
    | MutationReady | MutationWarning | Okay | Budget | Error

  function Spell(w: Word): Text {
    match w
    case Kind => [107, 105, 110, 100]
    case Sha256 => [115, 104, 97, 50, 53, 54]
    case Detail => [100, 101, 116, 97, 105, 108]
    case Result => [114, 101, 115, 117, 108, 116]
    case MutationUsed => [109, 117, 116, 97, 116, 105, 111, 110, 95, 117, 115, 101, 100]
    case MutationReady => [109, 117, 116, 97, 116, 105, 111, 110, 95, 114, 101, 97, 100, 121]
    case MutationWarning => [109, 117, 116, 97, 116, 105, 111, 110, 95, 119, 97, 114, 110, 105, 110, 103]
    case Okay => [111, 107]
    case Budget => [98, 117, 100, 103, 101, 116]
    case Error => [101, 114, 114, 111, 114]
  }

  lemma SpellClean()
    ensures forall w :: CleanText(Spell(w))
  {
    forall w ensures CleanText(Spell(w)) {
      assert forall i | 0 <= i < |Spell(w)| :: Spell(w)[i] < 128;
    }
  }

  lemma SpellInjective()
    ensures forall v, w :: Spell(v) == Spell(w) ==> v == w
  {
    forall v, w | Spell(v) == Spell(w) ensures v == w {
      assert |Spell(v)| == |Spell(w)| && Spell(v)[0] == Spell(w)[0];
    }
  }

  datatype Event = Ready(sha256: Text) | Warning(detail: Text)

  datatype Reply = Finished(result: Text, used: nat) | OverBudget | Crashed

  /** The 64 hexadecimal digits of a digest. */
  predicate Hex64(s: Text) { |s| == 64 && forall i | 0 <= i < 64 :: Unhex(s[i]).Some? }

  predicate ValidEvent(v: Event) {
    match v
    case Ready(sha256) => Hex64(sha256)
    case Warning(detail) => CleanText(detail)
  }

  predicate ValidReply(r: Reply) { r.Finished? ==> CleanText(r.result) }

  // The child

  function EventObject(v: Event): Object {
    match v
    case Ready(sha256) => [(Spell(Kind), Str(Spell(MutationReady))), (Spell(Sha256), Str(sha256))]
    case Warning(detail) => [(Spell(Kind), Str(Spell(MutationWarning))), (Spell(Detail), Str(detail))]
  }

  function EventText(v: Event): Text { Encode(EventObject(v)) }

  function ReplyObject(r: Reply): Object {
    match r
    case Finished(result, used) => [(Spell(Kind), Str(Spell(Okay))), (Spell(Result), Str(result)),
                                    (Spell(MutationUsed), Num(used))]
    case OverBudget => [(Spell(Kind), Str(Spell(Budget)))]
    case Crashed => [(Spell(Kind), Str(Spell(Error)))]
  }

  /** A reply over the limit is replaced by the error reply. */
  function Sent(r: Reply): Reply {
    if |Encode(ReplyObject(r))| > MAX_RESPONSE_BYTES then Crashed else r
  }

  function ReplyText(r: Reply): Text { Encode(ReplyObject(Sent(r))) }

  /** How long a reply is, apart from its result. */
  function Overhead(used: nat): nat { |Encode(ReplyObject(Finished([], used)))| }

  lemma ReplyLength(result: Text, used: nat)
    ensures |Encode(ReplyObject(Finished(result, used)))| == Overhead(used) + |Escape(result)|
  {
    hide Spell, Digits;
    var o, p := ReplyObject(Finished(result, used)), ReplyObject(Finished([], used));
    assert o[1..][1..] == p[1..][1..] && o[0] == p[0];
    MembersLength(o[1..], p[1..], result);
    assert |EncodeMembers(o)| - |EncodeMembers(p)| == |EncodeMembers(o[1..])| - |EncodeMembers(p[1..])|;
  }

  lemma MembersLength(o: Object, p: Object, s: Text)
    requires |o| == |p| > 0 && o[1..] == p[1..] && o[0].0 == p[0].0 && o[0].1 == Str(s) && p[0].1 == Str([])
    ensures |EncodeMembers(o)| == |EncodeMembers(p)| + |Escape(s)|
  {
  }

  lemma OverheadSmall()
    ensures Overhead(5) <= 1200
  {
    var o := ReplyObject(Finished([], 5));
    SpellShort();
    hide Spell, Escape;
    assert |o| == 3;
    assert |EncodeMembers(o[2..])| <= 3 + 12 * 16 + 2 by { assert EncodeValue(o[2].1) == Digits(5) == [53]; }
    assert o[1..][1..] == o[2..];
    assert |EncodeMembers(o[1..])| <= |EncodeMembers(o[2..])| + 6 + 12 * 16;
    assert |EncodeMembers(o)| <= |EncodeMembers(o[1..])| + 6 + 24 * 16;
  }

  lemma SpellShort()
    ensures forall w :: |Escape(Spell(w))| <= 12 * 16
    ensures Escape([]) == []
  {
    SpellClean();
    forall w ensures |Escape(Spell(w))| <= 12 * 16 {
      assert |Spell(w)| <= 16;
      EscapeLength(Spell(w));
    }
    hide Escape;
  }

  function EventStream(events: seq<Event>): Text {
    if events == [] then [] else EventText(events[0]) + ([10] + EventStream(events[1..]))
  }

  function Stream(events: seq<Event>, r: Reply): Text { EventStream(events) + ReplyText(r) }

  /** The child's output descriptor. A single `write` may take fewer bytes than offered. */
  class Pipe {
    var bytes: Text
    const capacity: nat -> nat      // how much the n-th write accepts, at least one byte
    var calls: nat

    constructor (capacity: nat -> nat)
      ensures bytes == [] && this.capacity == capacity && calls == 0
    {
      bytes, this.capacity, calls := [], capacity, 0;
    }

    method WriteBytes(encoded: Text)
      modifies this
      ensures bytes == old(bytes) + encoded
    {
      var rest := encoded;
      while rest != []
        invariant bytes + rest == old(bytes) + encoded
        decreases |rest|
      {
        var offered := capacity(calls);
        var taken := if offered == 0 then 1 else if offered > |rest| then |rest| else offered;
        bytes, calls := bytes + rest[..taken], calls + 1;
        assert rest == rest[..taken] + rest[taken..];
        rest := rest[taken..];
      }
    }

    method WriteEvent(v: Event)
      modifies this
      ensures bytes == old(bytes) + EventStream([v])
    {
      WriteBytes(EventText(v) + [10]);
      SingleEvent(v);
    }

    method WriteReply(r: Reply)
      modifies this
      ensures bytes == old(bytes) + ReplyText(r)
    {
      var encoded := Encode(ReplyObject(r));
      if |encoded| > MAX_RESPONSE_BYTES {
        encoded := Encode(ReplyObject(Crashed));
      }
      WriteBytes(encoded);
    }
  }

  lemma SingleEvent(v: Event)
    ensures EventStream([v]) == EventText(v) + [10]
  {
    hide EventText;
    assert [v][1..] == [] && EventText(v) + ([10] + []) == EventText(v) + [10];
  }

  // The parent

  /** The position of the first line break, or the end. */
  function Break(b: Text): (i: nat)
    ensures i <= |b|
    ensures forall j | 0 <= j < i :: b[j] != 10 && b[j] != 13
    ensures i < |b| ==> b[i] == 10 || b[i] == 13
  {
    if b == [] || b[0] == 10 || b[0] == 13 then 0 else 1 + Break(b[1..])
  }

  /** `bytes.splitlines`. */
  function Lines(b: Text): seq<Text>
    decreases |b|
  {
    if b == [] then []
    else
      var i := Break(b);
      if i == |b| then [b]
      else [b[..i]] + Lines(b[i + (if b[i] == 13 && i + 1 < |b| && b[i + 1] == 10 then 2 else 1)..])
  }

  /** Dictionary lookup: the last of equal keys. */
  function Lookup(o: Object, key: Text): Option<Value> {
    if o == [] then None
    else if o[|o| - 1].0 == key then Some(o[|o| - 1].1)
    else Lookup(o[..|o| - 1], key)
  }

  function Interpret(o: Object): Option<Event> {
    var kind := Lookup(o, Spell(Kind));
    var sha256 := Lookup(o, Spell(Sha256));
    var detail := Lookup(o, Spell(Detail));
    if kind == Some(Str(Spell(MutationReady))) && sha256.Some? && sha256.value.Str? && Hex64(sha256.value.text) then
      Some(Ready(sha256.value.text))
    else if kind == Some(Str(Spell(MutationWarning))) && detail.Some? && detail.value.Str? then
      Some(Warning(detail.value.text))
    else None
  }

  function AsEvent(line: Text): Option<Event> {
    var o := Parse(line);
    if o.None? then None else Interpret(o.value)
  }

  function Events(lines: seq<Text>): seq<Event> {
    if lines == [] then []
    else
      var v := AsEvent(lines[0]);
      (if v.Some? then [v.value] else []) + Events(lines[1..])
  }

  function FirstDigest(events: seq<Event>): Option<Text> {
    if events == [] then None
    else if events[0].Ready? then Some(events[0].sha256)
    else FirstDigest(events[1..])
  }

  /** The distinct warning details, in order of first appearance. */
  function Details(events: seq<Event>): (ds: seq<Text>)
    ensures forall d :: d in ds <==> Warning(d) in events
    ensures forall i, j | 0 <= i < j < |ds| :: ds[i] != ds[j]
  {
    if events == [] then []
    else
      var last := events[|events| - 1];
      var before := Details(events[..|events| - 1]);
      assert events == events[..|events| - 1] + [last];
      if last.Warning? && last.detail !in before then before + [last.detail] else before
  }

  method MutationDigest(raw: Text) returns (digest: Option<Text>)
    ensures digest == FirstDigest(Events(Lines(raw)))
  {
    var lines := Lines(raw);
    for i := 0 to |lines|
      invariant FirstDigest(Events(lines)) == FirstDigest(Events(lines[i..]))
    {
      var v := AsEvent(lines[i]);
      assert lines[i..][1..] == lines[i + 1..];
      if v.Some? {
        assert Events(lines[i..]) == [v.value] + Events(lines[i + 1..]);
        assert Events(lines[i..])[1..] == Events(lines[i + 1..]);
        if v.value.Ready? {
          return Some(v.value.sha256);
        }
      } else {
        assert Events(lines[i..]) == Events(lines[i + 1..]);
      }
    }
    return None;
  }

  method MutationWarnings(raw: Text) returns (details: seq<Text>)
    ensures details == Details(Events(Lines(raw)))
  {
    hide AsEvent, Lines;
    var lines := Lines(raw);
    details := [];
    assert lines[..0] == [] && Details(Events([])) == [];
    hide Details, Events;
    for i := 0 to |lines|
      invariant details == Details(Events(lines[..i]))
    {
      var v := AsEvent(lines[i]);
      assert lines[..i + 1] == lines[..i] + [lines[i]];
      DetailsStep(lines[..i], lines[i]);
      if v.Some? && v.value.Warning? && v.value.detail !in details {
        details := details + [v.value.detail];
      }
    }
    assert lines[..|lines|] == lines;
  }

  lemma {:induction false} DetailsStep(lines: seq<Text>, line: Text)
    ensures var v, before := AsEvent(line), Details(Events(lines));
            Details(Events(lines + [line])) ==
            if v.Some? && v.value.Warning? && v.value.detail !in before then before + [v.value.detail] else before
  {
    hide AsEvent;
    EventsAppend(lines, line);
    var v := AsEvent(line);
    if v.Some? {
      var events := Events(lines) + [v.value];
      assert events[..|events| - 1] == Events(lines);
    } else {
      assert Events(lines) + [] == Events(lines);
    }
  }

  lemma {:induction false} EventsAppend(lines: seq<Text>, line: Text)
    ensures Events(lines + [line]) == Events(lines) + (if AsEvent(line).Some? then [AsEvent(line).value] else [])
    decreases |lines|
  {
    hide AsEvent;
    if lines == [] {
      assert lines + [line] == [line] && [line][1..] == [];
    } else {
      EventsAppend(lines[1..], line);
      assert (lines + [line])[1..] == lines[1..] + [line];
    }
  }

  function Accept(o: Object, used: nat, limit: nat): Option<Reply> {
    var kind := Lookup(o, Spell(Kind));
    var result := Lookup(o, Spell(Result));
    var spent := Lookup(o, Spell(MutationUsed));
    if kind == Some(Str(Spell(Budget))) then Some(OverBudget)
    else if kind != Some(Str(Spell(Okay))) || result.None? || !result.value.Str? then None
    else if spent.None? || !spent.value.Num? || !(used <= spent.value.n <= limit) then None
    else Some(Finished(result.value.text, spent.value.n))
  }

  /** `_decode`: the reply, when the last line is an acceptable one. */
  function Decode(raw: Text, used: nat, limit: nat): Option<Reply> {
    var lines := Lines(raw);
    if lines == [] then None
    else
      var o := Parse(lines[|lines| - 1]);
      if o.None? then None else Accept(o.value, used, limit)
  }

  // What arrives

  /** How many events are wholly among the first `k` bytes, line break aside. */
  function Whole(events: seq<Event>, k: nat): (n: nat)
    ensures n <= |events|
  {
    if events == [] || k < |EventText(events[0])| then 0
    else if k == |EventText(events[0])| then 1
    else 1 + Whole(events[1..], k - |EventText(events[0])| - 1)
  }

  lemma HexClean(s: Text)
    requires Hex64(s)
    ensures CleanText(s)
  {
  }

  lemma {:induction false} EventClean(v: Event)
    requires ValidEvent(v)
    ensures Clean(EventObject(v)) && Printable(EventText(v)) && EventText(v) != []
  {
    hide Spell, Encode;
    SpellClean();
    if v.Ready? {
      HexClean(v.sha256);
    }
    EncodePrintable(EventObject(v));
  }

  lemma {:induction false} ReplyClean(r: Reply)
    requires ValidReply(r)
    ensures Clean(ReplyObject(Sent(r))) && Printable(ReplyText(r)) && ReplyText(r) != []
  {
    hide Spell, Encode;
    SpellClean();
    EncodePrintable(ReplyObject(Sent(r)));
  }

  lemma LookupTwo(a: (Text, Value), b: (Text, Value), key: Text)
    ensures Lookup([a, b], key) == if b.0 == key then Some(b.1) else if a.0 == key then Some(a.1) else None
  {
    assert [a, b][..1] == [a] && [a][..0] == [];
    assert Lookup([a], key) == if a.0 == key then Some(a.1) else Lookup([], key);
  }

  lemma LookupThree(a: (Text, Value), b: (Text, Value), c: (Text, Value), key: Text)
    ensures Lookup([a, b, c], key) ==
      if c.0 == key then Some(c.1) else if b.0 == key then Some(b.1) else if a.0 == key then Some(a.1) else None
  {
    assert [a, b, c][..2] == [a, b];
    LookupTwo(a, b, key);
  }

  lemma InterpretEvent(v: Event, used: nat, limit: nat)
    requires ValidEvent(v)
    ensures Interpret(EventObject(v)) == Some(v)
    ensures Accept(EventObject(v), used, limit) == None
  {
    hide Spell, Hex64;
    SpellInjective();
    var o := EventObject(v);
    LookupTwo(o[0], o[1], Spell(Kind));
    LookupTwo(o[0], o[1], Spell(Sha256));
    LookupTwo(o[0], o[1], Spell(Detail));
  }

  lemma InterpretReply(r: Reply, used: nat, limit: nat)
    ensures Interpret(ReplyObject(r)) == None
    ensures Accept(ReplyObject(r), used, limit) ==
      if r.OverBudget? || (r.Finished? && used <= r.used <= limit) then Some(r) else None
  {
    hide Spell;
    SpellInjective();
    var o := ReplyObject(r);
    if r.Finished? {
      LookupThree(o[0], o[1], o[2], Spell(Kind));
      LookupThree(o[0], o[1], o[2], Spell(Result));
      LookupThree(o[0], o[1], o[2], Spell(MutationUsed));
    } else {
      assert o[..0] == [];
      assert Lookup(o, Spell(Kind)) == Some(o[0].1);
    }
  }

  /** The parent reads back exactly the event the child wrote. */
  lemma {:induction false} EventRoundTrip(v: Event)
    requires ValidEvent(v)
    ensures AsEvent(EventText(v)) == Some(v)
  {
    hide Parse, Encode, Interpret, EventObject;
    EventClean(v);
    ParseEncode(EventObject(v), []);
    InterpretEvent(v, 0, 0);
  }

  lemma {:induction false} EventPrefix(v: Event, k: nat)
    requires ValidEvent(v) && k < |EventText(v)|
    ensures Parse(EventText(v)[..k]) == None && AsEvent(EventText(v)[..k]) == None
  {
    hide Parse, Encode, Interpret, EventObject;
    EventClean(v);
    PrefixIsNotObject(EventObject(v), k);
  }

  /** A reply, whole or cut, is never taken for an event. */
  lemma {:induction false} ReplyIsNoEvent(r: Reply, k: nat)
    requires ValidReply(r) && k <= |ReplyText(r)|
    ensures AsEvent(ReplyText(r)[..k]) == None
    ensures k < |ReplyText(r)| ==> Parse(ReplyText(r)[..k]) == None
  {
    hide Parse, Encode, Interpret, ReplyObject, Sent;
    ReplyClean(r);
    var o := ReplyObject(Sent(r));
    if k < |ReplyText(r)| {
      PrefixIsNotObject(o, k);
    } else {
      ParseEncode(o, []);
      assert ReplyText(r)[..k] == Encode(o);
      InterpretReply(Sent(r), 0, 0);
    }
  }

  lemma {:induction false} BreakAt(line: Text, tail: Text)
    requires Printable(line)
    ensures Break(line + ([10] + tail)) == |line| && Break(line) == |line|
  {
    if line == [] {
      assert line + ([10] + tail) == [10] + tail;
    } else {
      BreakAt(line[1..], tail);
      assert (line + ([10] + tail))[1..] == line[1..] + ([10] + tail);
    }
  }

  lemma {:induction false} LinesStep(line: Text, tail: Text)
    requires Printable(line)
    ensures Lines(line + ([10] + tail)) == [line] + Lines(tail)
    ensures Lines(line) == if line == [] then [] else [line]
  {
    BreakAt(line, tail);
    var b := line + ([10] + tail);
    assert b[..|line|] == line && b[|line| + 1..] == tail && b[|line|] == 10;
  }

  lemma OneLine(raw: Text)
    ensures Events([raw]) == (if AsEvent(raw).Some? then [AsEvent(raw).value] else [])
    ensures Events([]) == []
  {
    hide AsEvent;
    assert [raw][1..] == [];
  }

  lemma {:induction false} StreamStep(events: seq<Event>, r: Reply, k: nat)
    requires events != [] && k <= |Stream(events, r)|
    ensures var line, tail := EventText(events[0]), Stream(events[1..], r);
            && Stream(events, r) == line + ([10] + tail)
            && (k <= |line| ==> Stream(events, r)[..k] == line[..k])
            && (k > |line| ==>
                  k - |line| - 1 <= |tail| && Stream(events, r)[..k] == line + ([10] + tail[..k - |line| - 1]))
  {
    hide EventText, ReplyText;
    var line, tail := EventText(events[0]), Stream(events[1..], r);
    assert Stream(events, r) == line + ([10] + tail);
  }

  lemma StreamEnd(r: Reply, k: nat)
    requires k <= |Stream([], r)|
    ensures Stream([], r) == ReplyText(r) && Stream([], r)[..k] == ReplyText(r)[..k]
  {
    hide ReplyText;
    assert Stream([], r) == ReplyText(r);
  }

  /** Truncation: whatever part of the stream arrived, the parent reads exactly
      the events whose text arrived whole, in order, and nothing else. */
  lemma {:induction false} TruncatedEvents(events: seq<Event>, r: Reply, k: nat)
    requires forall i | 0 <= i < |events| :: ValidEvent(events[i])
    requires ValidReply(r) && k <= |Stream(events, r)|
    ensures Events(Lines(Stream(events, r)[..k])) == events[..Whole(events, k)]
    decreases |events|
  {
    hide AsEvent, EventText, ReplyText, Lines, Stream;
    if events == [] {
      StreamEnd(r, k);
      ReplyClean(r);
      var raw := ReplyText(r)[..k];
      LinesStep(raw, []);
      ReplyIsNoEvent(r, k);
      OneLine(raw);
    } else {
      var line, tail := EventText(events[0]), Stream(events[1..], r);
      StreamStep(events, r, k);
      EventClean(events[0]);
      EventRoundTrip(events[0]);
      if k <= |line| {
        LinesStep(line[..k], []);
        OneLine(line[..k]);
        if k < |line| {
          EventPrefix(events[0], k);
        } else {
          assert line[..k] == line && events[..1] == [events[0]];
        }
      } else {
        var j := k - |line| - 1;
        LinesStep(line, tail[..j]);
        TruncatedEvents(events[1..], r, j);
        EventsFirst(line, Lines(tail[..j]));
        assert events[..Whole(events, k)] == [events[0]] + events[1..][..Whole(events[1..], j)];
      }
    }
  }

  lemma EventsFirst(line: Text, rest: seq<Text>)
    ensures Events([line] + rest) == (if AsEvent(line).Some? then [AsEvent(line).value] else []) + Events(rest)
  {
    hide AsEvent;
    assert ([line] + rest)[1..] == rest;
  }

  /** The last line of what arrived is the complete reply, or no reply at all. */
  lemma {:induction false} LastLine(events: seq<Event>, r: Reply, k: nat)
    requires forall i | 0 <= i < |events| :: ValidEvent(events[i])
    requires ValidReply(r) && 0 < k <= |Stream(events, r)|
    ensures var lines := Lines(Stream(events, r)[..k]);
            && lines != []
            && var last := lines[|lines| - 1];
               if k == |Stream(events, r)| then last == ReplyText(r)
               else Parse(last).None? || exists v :: ValidEvent(v) && last == EventText(v)
    decreases |events|
  {
    hide AsEvent, EventText, ReplyText, Lines, Stream, Parse;
    if events == [] {
      StreamEnd(r, k);
      ReplyClean(r);
      LinesStep(ReplyText(r)[..k], []);
      ReplyIsNoEvent(r, k);
      assert k == |ReplyText(r)| ==> ReplyText(r)[..k] == ReplyText(r);
    } else {
      var line, tail := EventText(events[0]), Stream(events[1..], r);
      StreamStep(events, r, k);
      EventClean(events[0]);
      if k <= |line| {
        LinesStep(line[..k], []);
        if k < |line| {
          EventPrefix(events[0], k);
        } else {
          assert line[..k] == line;
        }
      } else {
        var j := k - |line| - 1;
        LinesStep(line, tail[..j]);
        LinesStep([], []);
        if j > 0 {
          LastLine(events[1..], r, j);
        } else {
          StreamNonempty(events[1..], r);
        }
      }
    }
  }

  lemma StreamNonempty(events: seq<Event>, r: Reply)
    requires ValidReply(r)
    ensures Stream(events, r) != []
  {
    hide EventText, ReplyText, EventStream;
    ReplyClean(r);
  }

  /** A reply is accepted only when the whole stream arrived, and then it is the
      reply the child sent. */
  lemma {:induction false} TruncatedReply(events: seq<Event>, r: Reply, k: nat, used: nat, limit: nat)
    requires forall i | 0 <= i < |events| :: ValidEvent(events[i])
    requires ValidReply(r) && k <= |Stream(events, r)|
    ensures Decode(Stream(events, r)[..k], used, limit) ==
      if k == |Stream(events, r)| && (Sent(r).OverBudget? || (Sent(r).Finished? && used <= Sent(r).used <= limit))
      then Some(Sent(r)) else None
  {
    hide Lines, Parse, Stream, Accept, Encode, EventObject, ReplyObject, Sent;
    StreamNonempty(events, r);
    if k == 0 {
      LinesStep([], []);
      assert Stream(events, r)[..k] == [];
    } else {
      LastLine(events, r, k);
      var lines := Lines(Stream(events, r)[..k]);
      var last := lines[|lines| - 1];
      if k == |Stream(events, r)| {
        ReplyClean(r);
        ParseEncode(ReplyObject(Sent(r)), []);
        InterpretReply(Sent(r), used, limit);
      } else if Parse(last).Some? {
        var v :| ValidEvent(v) && last == EventText(v);
        EventClean(v);
        ParseEncode(EventObject(v), []);
        InterpretEvent(v, used, limit);
      }
    }
  }
}
