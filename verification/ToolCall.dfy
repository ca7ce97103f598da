/** One tool call seen from the parent (`tool_process.py`): what it concludes
    from the bytes that arrived, a read-back of the file and the cleanup; and,
    joined to the child's write, that no effect goes unreported and no report is
    without evidence. */
module ToolCall {
  import opened Files
  import opened Wrappers
  import opened JsonText
  import opened Unicode
  import opened ToolEvents
  import PosixCommit

  datatype Status = Committed | Uncertain

  datatype Record = Record(transaction: nat, status: Status, warning: Option<Text>)

  const MAX_MUTATION_RECORDS := 128

  /** `MutationAccumulator`. */
  class Accumulator {
    var records: seq<Record>

    constructor ()
      ensures records == []
    {
      records := [];
    }

    method Add(r: Record) returns (ok: bool)
      modifies this
      ensures ok == (|old(records)| < MAX_MUTATION_RECORDS)
      ensures records == if ok then old(records) + [r] else old(records)
    {
      ok := |records| < MAX_MUTATION_RECORDS;
      if ok {
        records := records + [r];
      }
    }
  }

  /** The call as the parent knows it when the child is gone. */
  datatype Call = Call(
    transaction: nat,
    mutating: bool,                 // Write, Edit or NotebookEdit
    labelled: bool,                 // the arguments name a path
    raw: Text,                      // what arrived of the child's output
    interrupted: bool,              // cancelled, timed out, killed, or a non-zero exit
    cleanupRaised: bool,
    readback: Option<Text>)         // digest of the file now, when it could be read

  datatype Fate =
    | Returned(result: Text)
    | Review(record: Record)        // mutation outcome requires review
    | NoIntent                      // success claimed without a verified intent event
    | CleanupFailed
    | Failed                        // the failure itself

  predicate Succeeds(result: Text) { |result| >= 3 && result[..3] == [79, 75, 58] }

  function Glue(ds: seq<Text>): Text {
    if ds == [] then [] else ds[0] + (if |ds| == 1 then [] else [59, 32] + Glue(ds[1..]))
  }

  /** `"; ".join(...) or None`. */
  function Noted(ds: seq<Text>): Option<Text> {
    if Glue(ds) == [] then None else Some(Glue(ds))
  }

  function Seen(c: Call): seq<Event> { Events(Lines(c.raw)) }

  /** `_interrupted_mutation_state`. */
  function StateOf(c: Call): Option<Status> {
    var digest := FirstDigest(Seen(c));
    if digest.None? || !c.mutating then None
    else if !c.labelled then Some(Uncertain)
    else if c.readback == digest then Some(Committed)
    else Some(Uncertain)
  }

  const CLEANUP_NOTE: Text := [99, 108, 101, 97, 110, 117, 112]

  function RecordOf(c: Call, s: Status): Record {
    var seen := Noted(Details(Seen(c)));
    Record(c.transaction, s,
           if c.cleanupRaised then Some((if seen.Some? then seen.value + [59, 32] else []) + CLEANUP_NOTE) else seen)
  }

  function Received(c: Call, used: nat, limit: nat): Option<(Text, nat)> {
    var reply := Decode(c.raw, used, limit);
    if c.interrupted || reply.None? || !reply.value.Finished? then None
    else Some((reply.value.result, reply.value.used))
  }

  /** `_complete_tool_call`, with the record it reports. */
  function Conclude(c: Call, used: nat, limit: nat): (Fate, Option<Record>) {
    var received := Received(c, used, limit);
    var state := StateOf(c);
    if received.None? then
      if state.Some? then (Review(RecordOf(c, state.value)), Some(RecordOf(c, state.value)))
      else (if c.cleanupRaised then CleanupFailed else Fate.Failed, None)
    else
      var result := received.value.0;
      // a cleanup failure after a claimed mutation is held back until the record is built
      var softened := c.cleanupRaised && c.mutating && Succeeds(result);
      if state.None? then
        (if c.cleanupRaised && !softened then CleanupFailed
         else if c.mutating && Succeeds(result) then NoIntent
         else Returned(result), None)
      else
        var record := RecordOf(c, state.value);
        (if c.cleanupRaised || !Succeeds(result) || record.status != Committed || record.warning.Some?
         then Review(record) else Returned(result), Some(record))
  }

  method ExecuteInSubprocess(c: Call, used: nat, limit: nat, reports: Accumulator)
      returns (fate: Fate, spent: nat, full: bool)
    modifies reports
    ensures var (f, report) := Conclude(c, used, limit);
            && (full <==> report.Some? && |old(reports.records)| >= MAX_MUTATION_RECORDS)
            && (!full ==> fate == f)
            && (!full ==> reports.records == old(reports.records) + if report.Some? then [report.value] else [])
            && (full ==> reports.records == old(reports.records))
    ensures spent == if Received(c, used, limit).Some? then Received(c, used, limit).value.1 else used
  {
    hide Decode, Lines, Events, FirstDigest, Details, Glue;
    spent, full := used, false;
    var reply := Decode(c.raw, used, limit);
    var result: Option<Text> := None;
    if !c.interrupted && reply.Some? && reply.value.Finished? {
      result, spent := Some(reply.value.result), reply.value.used;
    }
    var softened := c.cleanupRaised && c.mutating && result.Some? && Succeeds(result.value);
    var digest := MutationDigest(c.raw);
    if digest.None? || !c.mutating {
      if c.cleanupRaised && !softened {
        fate := CleanupFailed;
      } else if result.None? {
        fate := Fate.Failed;
      } else if c.mutating && Succeeds(result.value) {
        fate := NoIntent;
      } else {
        fate := Returned(result.value);
      }
      return;
    }
    var status := if c.labelled && c.readback == digest then Committed else Uncertain;
    var details := MutationWarnings(c.raw);
    var warning := Noted(details);
    if c.cleanupRaised {
      warning := Some((if warning.Some? then warning.value + [59, 32] else []) + CLEANUP_NOTE);
    }
    var record := Record(c.transaction, status, warning);
    var added := reports.Add(record);
    full := !added;
    if result.None? || c.cleanupRaised || !Succeeds(result.value) || status != Committed || warning.Some? {
      fate := Review(record);
    } else {
      fate := Returned(result.value);
    }
  }

  // The child behind the bytes

  /** The event lines a child has written after the first steps of its log: a
      ready line once the intent is on record, a warning line for each warning. The text of
      a warning is its own, or a fixed one when the journal refused it: any text, by place. */
  function Written(log: seq<Step>, hex: nat -> Text, note: nat -> Text): seq<Event> {
    if log == [] then []
    else
      var before := Written(log[..|log| - 1], hex, note);
      match log[|log| - 1]
      case Intent(digest) => before + [Ready(hex(digest))]
      case Warn(_) => before + [Warning(note(|log| - 1))]
      case _ => before
  }

  /** Digests are spelled in hexadecimal, and a warning says something. */
  ghost predicate Spelling(hex: nat -> Text, note: nat -> Text) {
    && (forall i :: note(i) != [] && CleanText(note(i)))
    && (forall d :: Hex64(hex(d)))
  }

  lemma {:induction false} WrittenValid(log: seq<Step>, hex: nat -> Text, note: nat -> Text)
    requires Spelling(hex, note)
    ensures forall i | 0 <= i < |Written(log, hex, note)| :: ValidEvent(Written(log, hex, note)[i])
    decreases |log|
  {
    hide Hex64, CleanText;
    if log != [] {
      WrittenValid(log[..|log| - 1], hex, note);
    }
  }

  lemma {:induction false} WrittenPrefix(log: seq<Step>, k: nat, hex: nat -> Text, note: nat -> Text)
    requires k <= |log|
    ensures Written(log[..k], hex, note) <= Written(log, hex, note)
    decreases |log|
  {
    if k < |log| {
      WrittenPrefix(log[..|log| - 1], k, hex, note);
      assert log[..|log| - 1][..k] == log[..k];
    } else {
      assert log[..k] == log;
    }
  }

  lemma {:induction false} WrittenReady(log: seq<Step>, hex: nat -> Text, note: nat -> Text)
    ensures forall v :: v in Written(log, hex, note) && v.Ready? ==> exists d :: Intent(d) in log && v == Ready(hex(d))
    ensures forall d :: Intent(d) in log ==> Ready(hex(d)) in Written(log, hex, note)
    decreases |log|
  {
    if log != [] {
      var front := log[..|log| - 1];
      WrittenReady(front, hex, note);
      assert log == front + [log[|log| - 1]];
      var before := Written(front, hex, note);
      forall v | v in Written(log, hex, note) && v.Ready? ensures exists d :: Intent(d) in log && v == Ready(hex(d)) {
        if v in before {
          var d :| Intent(d) in front && v == Ready(hex(d));
          assert Intent(d) in log;
        } else {
          assert log[|log| - 1].Intent?;
        }
      }
    }
  }

  lemma {:induction false} FirstDigestMeaning(events: seq<Event>)
    ensures FirstDigest(events).Some? <==> exists v :: v in events && v.Ready?
    ensures FirstDigest(events).Some? ==> Ready(FirstDigest(events).value) in events
    decreases |events|
  {
    if events != [] && !events[0].Ready? {
      FirstDigestMeaning(events[1..]);
      assert events == [events[0]] + events[1..];
    }
  }

  /** `_communicate` keeps the output only while it is within the limit. */
  function Kept(output: Text): Text { if |output| <= MAX_RESPONSE_BYTES then output else [] }

  /** The bytes that arrived from a child: some part of a stream of `m` event lines, all
      those of its log or, when it was interrupted, fewer, and of its reply. */
  ghost predicate Arrived(c: Call, log: seq<Step>, hex: nat -> Text, note: nat -> Text, reply: Reply, m: nat, n: nat) {
    && Spelling(hex, note) && ValidReply(reply)
    && m <= |Written(log, hex, note)|
    && var stream := Stream(Written(log, hex, note)[..m], reply);
       && n <= |stream|
       && c.raw == Kept(stream[..n])
       && (n > MAX_RESPONSE_BYTES ==> c.interrupted)
  }

  lemma {:induction false} SeenIsPrefix(c: Call, log: seq<Step>, hex: nat -> Text, note: nat -> Text, reply: Reply,
                                        m: nat, n: nat)
    requires Arrived(c, log, hex, note, reply, m, n)
    ensures var written := Written(log, hex, note)[..m];
            Seen(c) == if n <= MAX_RESPONSE_BYTES then written[..Whole(written, n)] else []
  {
    hide Stream, Lines, Events, Written, Hex64, CleanText;
    WrittenValid(log, hex, note);
    TruncatedEvents(Written(log, hex, note)[..m], reply, n);
    LinesStep([], []);
    OneLine([]);
  }

  /** The reply that arrived: the child's own, when its stream came whole. */
  lemma {:induction false} ReceivedIsSent(c: Call, used: nat, limit: nat, log: seq<Step>, hex: nat -> Text,
                                          note: nat -> Text, reply: Reply, m: nat, n: nat)
    requires Arrived(c, log, hex, note, reply, m, n)
    ensures var sent := Sent(reply);
            Received(c, used, limit) ==
            if n == |Stream(Written(log, hex, note)[..m], reply)| && n <= MAX_RESPONSE_BYTES && !c.interrupted
               && sent.Finished? && used <= sent.used <= limit
            then Some((sent.result, sent.used)) else None
  {
    hide Stream, Lines, Written, Hex64, CleanText, Sent, Decode;
    WrittenValid(log, hex, note);
    TruncatedReply(Written(log, hex, note)[..m], reply, n, used, limit);
    NothingDecoded(used, limit);
  }

  lemma NothingDecoded(used: nat, limit: nat)
    ensures Decode([], used, limit) == None
  {
    hide Accept;
    OneLine([]);
    LinesStep([], []);
  }

  /** A clean success of a mutation tool, in terms of the child: it is concluded if and
      only if the child's stream arrived whole and uninterrupted and its reply is that
      success, the file reads back with the digest of the first ready event the child
      wrote, it wrote no warning, and cleanup worked. */
  lemma {:induction false} CleanSuccessIff(c: Call, used: nat, limit: nat, result: Text, log: seq<Step>,
                                           hex: nat -> Text, note: nat -> Text, reply: Reply, m: nat, n: nat)
    requires c.mutating && Succeeds(result) && Arrived(c, log, hex, note, reply, m, n)
    ensures var written, sent := Written(log, hex, note)[..m], Sent(reply);
            Conclude(c, used, limit).0 == Returned(result) <==>
            && n == |Stream(written, reply)| && n <= MAX_RESPONSE_BYTES && !c.interrupted
            && sent.Finished? && sent.result == result && used <= sent.used <= limit
            && c.labelled && !c.cleanupRaised
            && c.readback.Some? && FirstDigest(written) == c.readback
            && (forall v :: v in written ==> !v.Warning?)
  {
    assert (forall i :: note(i) != []) && m <= |Written(log, hex, note)|;
    hide Stream, Written, Sent, FirstDigest, Details, Whole, Arrived, Conclude, Received, Noted;
    var written := Written(log, hex, note)[..m];
    SeenIsPrefix(c, log, hex, note, reply, m, n);
    ReceivedIsSent(c, used, limit, log, hex, note, reply, m, n);
    WholeStream(written, reply);
    NotedIff(log, hex, note, m);
    ConcludeClean(c, used, limit, result);
    assert written[..|written|] == written;
  }

  lemma {:induction false} ConcludeClean(c: Call, used: nat, limit: nat, result: Text)
    requires c.mutating && Succeeds(result)
    ensures Conclude(c, used, limit).0 == Returned(result) <==>
      && Received(c, used, limit).Some? && Received(c, used, limit).value.0 == result
      && c.labelled && !c.cleanupRaised
      && c.readback.Some? && FirstDigest(Seen(c)) == c.readback
      && Noted(Details(Seen(c))).None?
  {
    hide Decode, Lines, Events, FirstDigest, Details, Glue;
  }

  lemma {:induction false} WholeStream(events: seq<Event>, reply: Reply)
    ensures Whole(events, |Stream(events, reply)|) == |events|
    decreases |events|
  {
    hide EventText, ReplyText;
    assert |Stream(events, reply)| >= |EventStream(events)|;
    assert events[..|events|] == events;
    WholeAtLeast(events, |events|, |Stream(events, reply)|);
  }

  lemma {:induction false} DetailsMeaning(events: seq<Event>)
    ensures forall d :: d in Details(events) <==> Warning(d) in events
    decreases |events|
  {
    if events != [] {
      var front, last := events[..|events| - 1], events[|events| - 1];
      assert events == front + [last];
      DetailsMeaning(front);
    }
  }

  lemma {:induction false} WrittenNotes(log: seq<Step>, hex: nat -> Text, note: nat -> Text)
    ensures forall d :: Warning(d) in Written(log, hex, note) ==> exists i :: d == note(i)
    ensures (exists b :: Warn(b) in log) <==> exists d :: Warning(d) in Written(log, hex, note)
    decreases |log|
  {
    if log != [] {
      var front, last := log[..|log| - 1], log[|log| - 1];
      WrittenNotes(front, hex, note);
      assert log == front + [last];
      var before, written := Written(front, hex, note), Written(log, hex, note);
      assert before <= written;
      forall d | Warning(d) in written ensures (exists i :: d == note(i)) && exists b :: Warn(b) in log {
        if Warning(d) in before {
          var b :| Warn(b) in front;
          assert Warn(b) in log;
        } else {
          assert last.Warn? && d == note(|log| - 1) && Warn(last.persisted) in log;
        }
      }
      if b :| Warn(b) in log {
        if Warn(b) in front {
          var d :| Warning(d) in before;
          assert Warning(d) in written;
        } else {
          assert Warning(note(|log| - 1)) in written;
        }
      }
    }
  }

  lemma {:induction false} NotedIff(log: seq<Step>, hex: nat -> Text, note: nat -> Text, m: nat)
    requires (forall i :: note(i) != []) && m <= |Written(log, hex, note)|
    ensures var written := Written(log, hex, note)[..m];
            Noted(Details(written)).None? <==> forall v :: v in written ==> !v.Warning?
  {
    hide Written, Details;
    WrittenNotes(log, hex, note);
    var written := Written(log, hex, note)[..m];
    assert forall v :: v in written ==> v in Written(log, hex, note);
    DetailsMeaning(written);
    var details := Details(written);
    forall v | v in written && v.Warning? ensures v.detail in details { assert v == Warning(v.detail); }
    if details != [] {
      assert details[0] in details && Warning(details[0]) in written;
      var i :| details[0] == note(i);
      assert Glue(details) != [];
    }
  }

  /** What a tool replies, given the result of its run: a success only if the write and
      the second report of its warning returned, and then all its events were written
      before. The run's log includes that second report. */
  ghost predicate Answers(result: PosixCommit.Written, log: seq<Step>, hex: nat -> Text, note: nat -> Text,
                          reply: Reply, m: nat) {
    if result.NotWritten? then !(reply.Finished? && Succeeds(reply.result))
    else m == |Written(log, hex, note)|
  }

  /** The evidence behind a clean success: the child's tool ended without a warning,
      it swapped the new file over exactly what it expected, its intent is on record, its
      whole output arrived, and the file now reads back with that intent's digest. */
  lemma {:induction false} CleanSuccessIsWritten(c: Call, used: nat, limit: nat, result: Text, e: Env, disk: Disk,
                                                 temp: Name, draft: Version, full: Version, x: PosixCommit.Expected,
                                                 hex: nat -> Text, note: nat -> Text, reply: Reply, m: nat, n: nat)
    requires c.mutating && Succeeds(result) && temp.Private? && full.regular
    requires var (w, outcome) := PosixCommit.ToolRun(e, World(disk, [], 0), temp, draft, full, x);
             Arrived(c, w.log, hex, note, reply, m, n) && Answers(outcome, w.log, hex, note, reply, m)
    requires Conclude(c, used, limit).0 == Returned(result)
    ensures var (w, outcome) := PosixCommit.ToolRun(e, World(disk, [], 0), temp, draft, full, x);
            && outcome == PosixCommit.Written.Ok
            && disk.puts <= w.disk.puts
            && PosixCommit.WriteHonest(PosixCommit.Since(w.disk, disk), outcome, full, x)
            && Intent(full.digest) in w.log && (forall b :: Warn(b) !in w.log)
            && n == |Stream(Written(w.log, hex, note), reply)| && Sent(reply).Finished? && Sent(reply).result == result
            && c.readback == Some(hex(full.digest))
  {
    hide PosixCommit.ToolRun, PosixCommit.WriteHonest, PosixCommit.Since, Arrived, Conclude, Stream, Written, Sent;
    var (w, outcome) := PosixCommit.ToolRun(e, World(disk, [], 0), temp, draft, full, x);
    CleanSuccessIff(c, used, limit, result, w.log, hex, note, reply, m, n);
    SentIs(reply);
    assert m == |Written(w.log, hex, note)|;
    assert Written(w.log, hex, note)[..m] == Written(w.log, hex, note);
    PosixCommit.ToolLog(e, disk, temp, draft, full, x);
    PosixCommit.ToolIsHonest(e, disk, temp, draft, full, x);
    WrittenNotes(w.log, hex, note);
    WrittenReady(w.log, hex, note);
    FirstDigestMeaning(Written(w.log, hex, note));
  }

  lemma SentIs(reply: Reply)
    ensures Sent(reply).Finished? ==> Sent(reply) == reply
  {
  }

  /** Reports are backed by the journal: a reported transaction's intent was
      recorded before the event that the report rests on was written. */
  lemma {:induction false} ReportedIsJournaled(c: Call, used: nat, limit: nat, log: seq<Step>, hex: nat -> Text,
                                               note: nat -> Text, reply: Reply, m: nat, n: nat)
    requires Arrived(c, log, hex, note, reply, m, n)
    requires Conclude(c, used, limit).1.Some?
    ensures exists d :: Intent(d) in log && FirstDigest(Seen(c)) == Some(hex(d))
  {
    hide Stream, Lines, Events, Written, Decode, Details, Whole, Hex64, CleanText;
    SeenIsPrefix(c, log, hex, note, reply, m, n);
    FirstDigestMeaning(Seen(c));
    var v := Ready(FirstDigest(Seen(c)).value);
    assert v in Written(log, hex, note);
    WrittenReady(log, hex, note);
  }

  lemma {:induction false} WholeAtLeast(events: seq<Event>, k: nat, n: nat)
    requires k <= |events| && n >= |EventStream(events[..k])|
    ensures Whole(events, n) >= k
    decreases k
  {
    hide EventText;
    if k > 0 {
      var head := events[..k];
      assert head[1..] == events[1..][..k - 1];
      WholeAtLeast(events[1..], k - 1, n - |EventText(events[0])| - 1);
    }
  }

  /** No effect goes unreported. Kill the child after any `k` steps of its tool's run,
      or later: if by then the write has touched the target at all, the parent
      reports the transaction, provided that what the child had written by then
      arrived, exactly unless its output outgrew the limit and was discarded. */
  lemma {:induction false} EffectIsReported(c: Call, used: nat, limit: nat, e: Env, disk: Disk, temp: Name,
                                            draft: Version, full: Version, x: PosixCommit.Expected, k: nat,
                                            hex: nat -> Text, note: nat -> Text, reply: Reply, m: nat, n: nat)
    requires c.mutating
    requires var log := PosixCommit.ToolRun(e, World(disk, [], 0), temp, draft, full, x).0.log;
             && k <= |log| && |Replay(disk, log[..k]).puts| > |disk.puts|
             && Arrived(c, log, hex, note, reply, m, n)
             && |Written(log[..k], hex, note)| <= m
             && n >= |EventStream(Written(log[..k], hex, note))|
    ensures var report := Conclude(c, used, limit).1;
            && (report.Some? <==> n <= MAX_RESPONSE_BYTES)
            && (report.Some? ==> report.value.transaction == c.transaction)
  {
    hide Stream, Lines, Events, Written, Decode, Details, Whole, Replay, EventStream, Hex64, CleanText;
    hide PosixCommit.ToolRun;
    var log := PosixCommit.ToolRun(e, World(disk, [], 0), temp, draft, full, x).0.log;
    PosixCommit.ToolIntentBeforeEffect(e, disk, temp, draft, full, x, k);
    WrittenReady(log[..k], hex, note);
    WrittenPrefix(log, k, hex, note);
    var early, all := Written(log[..k], hex, note), Written(log, hex, note)[..m];
    assert all[..|early|] == early;
    WholeAtLeast(all, |early|, n);
    SeenIsPrefix(c, log, hex, note, reply, m, n);
    if n <= MAX_RESPONSE_BYTES {
      assert early <= Seen(c);
      assert Ready(hex(full.digest)) in Seen(c);
    }
    FirstDigestMeaning(Seen(c));
  }

  /** A run that ends with a warning is always put to review, with that warning, once its
      output has arrived. */
  lemma {:induction false} WarnedIsReviewed(c: Call, used: nat, limit: nat, e: Env, disk: Disk, temp: Name,
                                            draft: Version, full: Version, x: PosixCommit.Expected,
                                            hex: nat -> Text, note: nat -> Text, reply: Reply, m: nat, n: nat)
    requires c.mutating && temp.Private? && full.regular
    requires var (w, outcome) := PosixCommit.ToolRun(e, World(disk, [], 0), temp, draft, full, x);
             && outcome.OkWithWarning?
             && Arrived(c, w.log, hex, note, reply, m, n) && Answers(outcome, w.log, hex, note, reply, m)
             && n == |Stream(Written(w.log, hex, note)[..m], reply)| <= MAX_RESPONSE_BYTES
    ensures exists record :: Conclude(c, used, limit) == (Review(record), Some(record)) && record.warning.Some?
  {
    hide PosixCommit.ToolRun, Arrived, Stream, Written, Details, Glue, FirstDigest, Decode, Whole;
    var (w, outcome) := PosixCommit.ToolRun(e, World(disk, [], 0), temp, draft, full, x);
    var log := w.log;
    PosixCommit.ToolLog(e, disk, temp, draft, full, x);
    SpelledOut(c, log, hex, note, reply, m, n);
    SeenIsPrefix(c, log, hex, note, reply, m, n);
    var written := Written(log, hex, note);
    WholeStream(written[..m], reply);
    assert written[..m] == written && written[..|written|] == written && Seen(c) == written;
    WrittenReady(log, hex, note);
    FirstDigestMeaning(written);
    WrittenNotes(log, hex, note);
    NotedIff(log, hex, note, m);
    hide Noted, Seen;
    var record := RecordOf(c, StateOf(c).value);
    assert record.warning.Some?;
    assert Conclude(c, used, limit) == (Review(record), Some(record));
  }

  lemma SpelledOut(c: Call, log: seq<Step>, hex: nat -> Text, note: nat -> Text, reply: Reply, m: nat, n: nat)
    requires Arrived(c, log, hex, note, reply, m, n)
    ensures (forall i :: note(i) != []) && m <= |Written(log, hex, note)|
  {
  }

  /** The answer of `Write`: "OK: wrote 5 chars to " and the path as it was given. */
  function Wrote(path: Text): Reply { Finished(WROTE + path, 5) }

  const WROTE: Text := [79, 75, 58, 32, 119, 114, 111, 116, 101, 32, 53, 32, 99, 104, 97, 114, 115, 32, 116, 111, 32]

  /** A roundabout way of naming the file `f`: "./././f", with `length` characters before it. */
  function Roundabout(length: nat): Text { seq(length, i => if i % 2 == 0 then 46 else 47) + [102] }

  lemma {:induction false} WroteLength(length: nat)
    ensures var reply := Wrote(Roundabout(length));
            && ValidReply(reply) && Succeeds(reply.result)
            && |Encode(ReplyObject(reply))| == Overhead(5) + 22 + length
  {
    hide Escape, Overhead, ReplyObject, Encode, Codes, Paired, Plain;
    var reply := Wrote(Roundabout(length));
    WrotePlain(length);
    PlainIsClean(reply.result);
    EscapeLength(reply.result);
    ReplyLength(reply.result, 5);
  }

  lemma WrotePlain(length: nat)
    ensures var result := Wrote(Roundabout(length)).result;
            |result| == 22 + length && Plain(result) && Succeeds(result)
  {
  }

  lemma PlainIsClean(s: Text)
    requires Plain(s)
    ensures Codes(s) && CleanText(s)
  {
  }

  /** A run that ends with a warning, and its whole output: a new file of which only the
      directory sync fails. The warning is written twice, each time with a text of its own,
      and the reply says that the file was written. */
  lemma {:induction false} WarnedExample(hex: nat -> Text, note: nat -> Text)
    requires Spelling(hex, note)
    ensures var full := Version(true, 0, 7, 420, 5, 0, 99);
            var e := Env(_ => None, i => if i == 6 then OsFault else NoFault, i => i + 1, _ => false);
            var (w, outcome) := PosixCommit.ToolRun(e, World(Disk(map[], []), [], 0), Private(0),
                                                    full.(size := 0, digest := 0), full, PosixCommit.MustBeMissing);
            var written, reply := Written(w.log, hex, note), Wrote(Roundabout(0));
            var n := |Stream(written[..|written|], reply)|;
            var c := Call(0, true, true, Kept(Stream(written[..|written|], reply)[..n]), n > MAX_RESPONSE_BYTES, false,
                          None);
            && outcome.OkWithWarning? && Get(w.disk.dir, Target) == Some(full)
            && |w.log| >= 2 && |written| >= 2
            && written[|written| - 2..] == [Warning(note(|w.log| - 2)), Warning(note(|w.log| - 1))]
            && Answers(outcome, w.log, hex, note, reply, |written|)
            && Arrived(c, w.log, hex, note, reply, |written|, n)
  {
    var full := Version(true, 0, 7, 420, 5, 0, 99);
    var e := Env(_ => None, i => if i == 6 then OsFault else NoFault, i => i + 1, _ => false);
    PosixCommit.WarnedWrite(e, Private(0), full.(size := 0, digest := 0), full);
    var log := PosixCommit.ToolRun(e, World(Disk(map[], []), [], 0), Private(0), full.(size := 0, digest := 0), full,
                                   PosixCommit.MustBeMissing).0.log;
    hide PosixCommit.ToolRun, Stream, Kept;
    WroteLength(0);
    TwoWarnings(log, hex, note);
    hide Written, ReplyObject, Encode, Overhead, Wrote;
  }

  lemma {:induction false} TwoWarnings(log: seq<Step>, hex: nat -> Text, note: nat -> Text)
    requires |log| >= 2 && log[|log| - 2..] == [Warn(true), Warn(true)]
    ensures var written := Written(log, hex, note);
            |written| >= 2 && written[|written| - 2..] == [Warning(note(|log| - 2)), Warning(note(|log| - 1))]
  {
    var l := |log|;
    assert log[l - 1] == log[l - 2..][1] && log[l - 2] == log[l - 2..][0];
    var front := log[..l - 1];
    assert front[l - 2] == Warn(true) && front[..l - 2] == log[..l - 2];
    assert Written(front, hex, note) == Written(log[..l - 2], hex, note) + [Warning(note(l - 2))];
  }

  /** The case happens: a new file is written without any failure under a path that is long
      but names it, the reply that repeats the path fits the limit exactly, together with
      the ready line the output does not, and the parent reports nothing, neither a success
      nor a mutation to review. */
  lemma {:induction false} UnreportedExample(hex: nat -> Text, note: nat -> Text)
    requires Spelling(hex, note)
    ensures var full := Version(true, 0, 7, 420, 5, 0, 99);
            var e := Env(_ => None, _ => NoFault, i => i + 1, _ => false);
            var (w, outcome) := PosixCommit.ToolRun(e, World(Disk(map[], []), [], 0), Private(0),
                                                    full.(size := 0, digest := 0), full, PosixCommit.MustBeMissing);
            exists length: nat ::
              var reply, m := Wrote(Roundabout(length)), |Written(w.log, hex, note)|;
              var n := |Stream(Written(w.log, hex, note)[..m], reply)|;
              var c := Call(0, true, true, [], true, false, Some(hex(99)));
              && outcome == PosixCommit.Written.Ok && Get(w.disk.dir, Target) == Some(full)
              && Answers(outcome, w.log, hex, note, reply, m) && Sent(reply) == reply
              && Arrived(c, w.log, hex, note, reply, m, n)
              && Conclude(c, 0, 1000) == (Fate.Failed, None)
  {
    var full := Version(true, 0, 7, 420, 5, 0, 99);
    var e := Env(_ => None, _ => NoFault, i => i + 1, _ => false);
    var draft := full.(size := 0, digest := 0);
    PosixCommit.QuietWrite(e, Private(0), draft, full);
    PosixCommit.ToolLog(e, Disk(map[], []), Private(0), draft, full, PosixCommit.MustBeMissing);
    assert !Pending(e, 5, 8);
    hide PosixCommit.WriteRun, PosixCommit.ReportRun;
    var log := PosixCommit.ToolRun(e, World(Disk(map[], []), [], 0), Private(0), draft, full,
                                   PosixCommit.MustBeMissing).0.log;
    OverheadSmall();
    var length := MAX_RESPONSE_BYTES - Overhead(5) - 22;
    var reply := Wrote(Roundabout(length));
    WroteLength(length);
    var written := Written(log, hex, note);
    WrittenReady(log, hex, note);
    assert Ready(hex(99)) in written && written[..|written|] == written;
    LongerThanReply(written, reply);
    NothingSeen(Call(0, true, true, [], true, false, Some(hex(99))));
    hide Stream, Written, Overhead, Wrote, Roundabout, ReplyObject, Encode;
    assert Arrived(Call(0, true, true, [], true, false, Some(hex(99))), log, hex, note, reply, |written|,
                   |Stream(written, reply)|);
  }

  lemma LongerThanReply(events: seq<Event>, reply: Reply)
    requires events != []
    ensures |Stream(events, reply)| > |ReplyText(reply)|
  {
    hide EventText, ReplyText;
  }

  lemma NothingSeen(c: Call)
    requires c.raw == [] && c.interrupted && !c.cleanupRaised
    ensures forall used, limit :: Conclude(c, used, limit) == (Fate.Failed, None)
  {
    hide Decode, Lines;
    LinesStep([], []);
    OneLine([]);
    SeenEmpty();
  }

  lemma SeenEmpty()
    ensures FirstDigest(Events(Lines([]))) == None
  {
    LinesStep([], []);
    OneLine([]);
  }
}
