/** What the parent of a tool call concludes and reports, in every case, in terms of what
    its child wrote and how much of it arrived. */
module ToolOutcomes {
  import opened Files
  import opened Wrappers
  import opened JsonText
  import opened Unicode
  import opened ToolEvents
  import opened ToolCall

  // Digests and details

  /** The digest of the first ready event. */
  lemma {:induction false} FirstDigestDue(events: seq<Event>, digest: Text)
    ensures FirstDigest(events) == Some(digest) <==>
            exists i :: 0 <= i < |events| && events[i] == Ready(digest) && forall j | 0 <= j < i :: !events[j].Ready?
    decreases |events|
  {
    if events != [] && !events[0].Ready? {
      FirstDigestDue(events[1..], digest);
      if i :| 0 <= i < |events| && events[i] == Ready(digest) && forall j | 0 <= j < i :: !events[j].Ready? {
        assert events[1..][i - 1] == Ready(digest);
      }
      var rest := events[1..];
      if i :| 0 <= i < |rest| && rest[i] == Ready(digest) && forall j | 0 <= j < i :: !rest[j].Ready? {
        assert events[i + 1] == Ready(digest);
        forall j | 0 <= j < i + 1 ensures !events[j].Ready? {
          assert j > 0 ==> events[j] == rest[j - 1];
        }
      }
    }
  }

  /** Warnings are listed in the order in which each was first written. */
  lemma {:induction false} DetailsInOrder(events: seq<Event>, a: nat, b: nat)
    requires a < b < |Details(events)|
    ensures exists p :: 0 <= p < |events| && events[p] == Warning(Details(events)[a])
                        && forall q | 0 <= q <= p :: events[q] != Warning(Details(events)[b])
    decreases |events|
  {
    var front, last := events[..|events| - 1], events[|events| - 1];
    var before, ds := Details(front), Details(events);
    assert ds == before || ds == before + [last.detail];
    if b < |before| {
      DetailsInOrder(front, a, b);
      var p :| 0 <= p < |front| && front[p] == Warning(before[a])
               && forall q | 0 <= q <= p :: front[q] != Warning(before[b]);
      assert events[p] == Warning(ds[a]) && forall q | 0 <= q <= p :: events[q] == front[q];
    } else {
      assert before[a] in before && Warning(ds[a]) in front;
      var p :| 0 <= p < |front| && front[p] == Warning(ds[a]);
      assert events[p] == Warning(ds[a]);
      forall q | 0 <= q <= p ensures events[q] != Warning(ds[b]) {
        assert events[q] in front && ds[b] !in before;
      }
    }
  }

  /** Texts joined by a semicolon and a space. */
  ghost function Joined(ds: seq<Text>): Text {
    if ds == [] then []
    else if |ds| == 1 then ds[0]
    else Joined(ds[..|ds| - 1]) + [59, 32] + ds[|ds| - 1]
  }

  lemma {:induction false} GlueIs(ds: seq<Text>)
    ensures Glue(ds) == Joined(ds)
    decreases |ds|
  {
    if |ds| == 2 {
      assert ds[1..] == [ds[1]] && ds[..1] == [ds[0]];
      assert Glue(ds) == ds[0] + ([59, 32] + ds[1]) == ds[0] + [59, 32] + ds[1];
    } else if |ds| > 2 {
      var last := ds[|ds| - 1];
      GlueIs(ds[1..]);
      GlueIs(ds[..|ds| - 1]);
      GlueIs(ds[1..|ds| - 1]);
      assert ds[1..][..|ds| - 2] == ds[1..|ds| - 1] == ds[..|ds| - 1][1..];
      assert Joined(ds[1..]) == Joined(ds[1..|ds| - 1]) + [59, 32] + last;
      assert Glue(ds[..|ds| - 1]) == ds[0] + ([59, 32] + Glue(ds[1..|ds| - 1]));
    }
  }

  /** A digest that the parent takes from a line is one of 64 hexadecimal digits. */
  lemma ReadyIsHex(line: Text, digest: Text)
    requires AsEvent(line) == Some(Ready(digest))
    ensures |digest| == 64
    ensures forall i | 0 <= i < 64 :: 48 <= digest[i] <= 57 || 65 <= digest[i] <= 70 || 97 <= digest[i] <= 102
  {
    hide Parse, Lookup;
    assert Hex64(digest);
    forall i | 0 <= i < 64 ensures 48 <= digest[i] <= 57 || 65 <= digest[i] <= 70 || 97 <= digest[i] <= 102 {
      assert Unhex(digest[i]).Some?;
    }
  }

  /** Among the first `k` bytes is the whole text of as many events as fit, the line break
      after the last one aside. */
  lemma {:induction false} WholeDue(events: seq<Event>, k: nat)
    ensures var n := Whole(events, k);
            && |EventStream(events[..n])| <= k + 1
            && (n < |events| ==> k < |EventStream(events[..n])| + |EventText(events[n])|)
    decreases |events|
  {
    hide EventText;
    if events != [] && k > |EventText(events[0])| {
      var rest := k - |EventText(events[0])| - 1;
      WholeDue(events[1..], rest);
      assert events[..Whole(events, k)][1..] == events[1..][..Whole(events[1..], rest)];
    } else if events != [] && k == |EventText(events[0])| {
      assert events[..1][1..] == [];
      assert |events| > 1 ==> |EventText(events[1])| >= 0;
    }
  }

  /** A carriage return before a line feed belongs to the same line break. */
  lemma {:induction false} CrLfIsOne(line: Text, tail: Text)
    requires Printable(line)
    ensures Lines(line + ([13, 10] + tail)) == [line] + Lines(tail)
  {
    BreakAtReturn(line, tail);
    var b := line + ([13, 10] + tail);
    assert b[..|line|] == line && b[|line|] == 13 && b[|line| + 1] == 10 && b[|line| + 2..] == tail;
  }

  lemma {:induction false} BreakAtReturn(line: Text, tail: Text)
    requires Printable(line)
    ensures Break(line + ([13, 10] + tail)) == |line|
  {
    if line == [] {
      assert line + ([13, 10] + tail) == [13, 10] + tail;
    } else {
      BreakAtReturn(line[1..], tail);
      assert (line + ([13, 10] + tail))[1..] == line[1..] + ([13, 10] + tail);
    }
  }

  // The conclusion

  /** The events that reached the parent: none when the output was discarded. */
  ghost function Reached(log: seq<Step>, hex: nat -> Text, note: nat -> Text, m: nat, n: nat): seq<Event>
    requires m <= |Written(log, hex, note)|
  {
    var written := Written(log, hex, note)[..m];
    if n <= MAX_RESPONSE_BYTES then written[..Whole(written, n)] else []
  }

  /** The success reply reached the parent and is acceptable. */
  ghost predicate Heard(c: Call, used: nat, limit: nat, log: seq<Step>, hex: nat -> Text, note: nat -> Text,
                        reply: Reply, m: nat, n: nat)
    requires m <= |Written(log, hex, note)|
  {
    && n == |Stream(Written(log, hex, note)[..m], reply)| && n <= MAX_RESPONSE_BYTES && !c.interrupted
    && Sent(reply).Finished? && used <= Sent(reply).used <= limit
  }

  /** The record of a mutation that announced the digest `digest`. */
  ghost function Due(c: Call, digest: Option<Text>, notes: seq<Text>): Record {
    var status := if c.labelled && c.readback.Some? && c.readback == digest then Committed else Uncertain;
    var all := if c.cleanupRaised then notes + [CLEANUP_NOTE] else notes;
    Record(c.transaction, status, if all == [] then None else Some(Joined(all)))
  }

  /** A report is made exactly when a mutation tool's ready event reached the parent. It says
      `Committed` exactly when the file reads back with that digest, however the call ended,
      and carries the distinct warnings that reached the parent. */
  lemma {:induction false} ReportDue(c: Call, used: nat, limit: nat, log: seq<Step>, hex: nat -> Text,
                                     note: nat -> Text, reply: Reply, m: nat, n: nat)
    requires Arrived(c, log, hex, note, reply, m, n)
    ensures var events := Reached(log, hex, note, m, n);
            Conclude(c, used, limit).1 ==
            if c.mutating && exists v :: v in events && v.Ready?
            then Some(Due(c, FirstDigest(events), Details(events))) else None
  {
    hide Stream, Lines, Events, Written, Decode, Whole, Hex64, CleanText, Details, Glue, FirstDigest;
    SpelledOut(c, log, hex, note, reply, m, n);
    SeenIsPrefix(c, log, hex, note, reply, m, n);
    var events := Reached(log, hex, note, m, n);
    assert Seen(c) == events;
    FirstDigestMeaning(events);
    NotesDue(events, log, hex, note);
    if FirstDigest(events).Some? {
      RecordDue(c, events);
    }
    hide Seen, Reached, Due;
  }

  lemma NotesDue(events: seq<Event>, log: seq<Step>, hex: nat -> Text, note: nat -> Text)
    requires (forall i :: note(i) != []) && forall v | v in events :: v in Written(log, hex, note)
    ensures var ds := Details(events);
            && Noted(ds) == (if ds == [] then None else Some(Joined(ds)))
            && (ds != [] ==> Joined(ds + [CLEANUP_NOTE]) == Joined(ds) + [59, 32] + CLEANUP_NOTE)
            && Joined([CLEANUP_NOTE]) == CLEANUP_NOTE
  {
    hide Written, Details, Glue, Joined;
    var ds := Details(events);
    GlueIs(ds);
    JoinedNote(ds);
    DetailsMeaning(events);
    if ds != [] {
      assert ds[0] in ds && Warning(ds[0]) in events;
      WrittenNotes(log, hex, note);
      GlueSome(ds);
    } else {
      JoinedNone();
    }
  }

  lemma JoinedNone()
    ensures Glue([]) == Joined([]) == []
  {
  }

  lemma GlueSome(ds: seq<Text>)
    requires ds != [] && ds[0] != []
    ensures Glue(ds) != []
  {
  }

  lemma JoinedNote(ds: seq<Text>)
    ensures ds != [] ==> Joined(ds + [CLEANUP_NOTE]) == Joined(ds) + [59, 32] + CLEANUP_NOTE
    ensures Joined([CLEANUP_NOTE]) == CLEANUP_NOTE
  {
    assert (ds + [CLEANUP_NOTE])[..|ds|] == ds;
  }

  lemma RecordDue(c: Call, events: seq<Event>)
    requires Seen(c) == events && FirstDigest(events).Some?
    requires var ds := Details(events);
             && Noted(ds) == (if ds == [] then None else Some(Joined(ds)))
             && (ds != [] ==> Joined(ds + [CLEANUP_NOTE]) == Joined(ds) + [59, 32] + CLEANUP_NOTE)
             && Joined([CLEANUP_NOTE]) == CLEANUP_NOTE
    ensures c.mutating ==>
              StateOf(c).Some? && RecordOf(c, StateOf(c).value) == Due(c, FirstDigest(events), Details(events))
  {
    hide Noted, Joined, Details, FirstDigest, Seen;
    assert [] + [CLEANUP_NOTE] == [CLEANUP_NOTE] && [] + CLEANUP_NOTE == CLEANUP_NOTE;
    assert |Details(events) + [CLEANUP_NOTE]| > 0;
  }

  /** The call ends, with a record to report, in review unless everything is in order, and
      without one as the reply and the cleanup say. */
  lemma {:induction false} FateDue(c: Call, used: nat, limit: nat, log: seq<Step>, hex: nat -> Text,
                                   note: nat -> Text, reply: Reply, m: nat, n: nat)
    requires Arrived(c, log, hex, note, reply, m, n)
    ensures var (fate, report) := Conclude(c, used, limit);
            var heard := Heard(c, used, limit, log, hex, note, reply, m, n);
            var succeeds := heard && [79, 75, 58] <= Sent(reply).result;     // "OK:"
            fate ==
            if report.Some? then
              if succeeds && report.value.status.Committed? && report.value.warning.None?
              then Returned(Sent(reply).result) else Review(report.value)
            else if c.mutating && succeeds then NoIntent
            else if c.cleanupRaised then CleanupFailed
            else if heard then Returned(Sent(reply).result)
            else Fate.Failed
    ensures Conclude(c, used, limit).1.Some? && c.cleanupRaised ==> Conclude(c, used, limit).1.value.warning.Some?
  {
    hide Stream, Written, Decode, Details, FirstDigest, Seen, Noted;
    ReceivedIsSent(c, used, limit, log, hex, note, reply, m, n);
    hide Received, Sent;
  }

  // What the child sends instead of a reply that is too long

  lemma SentDue(r: Reply)
    ensures |ReplyText(r)| <= MAX_RESPONSE_BYTES
    ensures Sent(r) == r || (|Encode(ReplyObject(r))| > MAX_RESPONSE_BYTES && Sent(r).Crashed?)
  {
    CrashedShort();
  }

  lemma CrashedShort()
    ensures |Encode(ReplyObject(Crashed))| <= 1000
  {
    var o := ReplyObject(Crashed);
    SpellShort();
    assert |o| == 1 && o[1..] == [];
    hide Spell, Escape;
  }
}
