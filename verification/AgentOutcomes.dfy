/** What a run of the agent adds up to, and why it ends: its books against the replies and
    the tools, one reason for every halt, and what a turn does with each kind of reply. */
module AgentOutcomes {
  import opened Wrappers
  import opened Unicode
  import opened AgentLoop
  import Jobs

  // Books

  function Tokens4(bytes: nat): nat { (bytes + 3) / 4 }

  function Larger(a: nat, b: nat): nat { if a > b then a else b }

  /** What a request and its reply cost: the reported tokens, but at least a quarter of the bytes. */
  function Cost(e: Env, request: seq<Msg>, reply: Reply): nat {
    if reply.NoReply? then 0
    else
      Larger(Tokens4(e.requestBytes(request)), UsageOf(reply).prompt)
      + Larger(Tokens4(e.messageBytes(Assistant(reply.content, reply.calls))), UsageOf(reply).completion)
  }

  /** What all requests cost; the `i`-th one is answered by the `i`-th reply. */
  function Ledger(e: Env, requests: seq<seq<Msg>>): nat {
    if requests == [] then 0
    else
      var n := |requests| - 1;
      Ledger(e, requests[..n]) + Cost(e, requests[n], e.reply(n))
  }

  function UsageOf(reply: Reply): Usage {
    if reply.Reply? && reply.usage.Some? then reply.usage.value else Usage(0, 0)
  }

  /** The tokens that the provider reported for all requests. */
  function Told(e: Env, requests: seq<seq<Msg>>): Usage {
    if requests == [] then Usage(0, 0)
    else
      var n := |requests| - 1;
      var before, last := Told(e, requests[..n]), UsageOf(e.reply(n));
      Usage(before.prompt + last.prompt, before.completion + last.completion)
  }

  function SentBytes(e: Env, requests: seq<seq<Msg>>): nat {
    if requests == [] then 0
    else SentBytes(e, requests[..|requests| - 1]) + e.requestBytes(requests[|requests| - 1])
  }

  /** The records of the first `n` tool calls, in order. */
  function Recorded(e: Env, n: nat): seq<Tx> {
    if n == 0 then []
    else Recorded(e, n - 1) + (if e.tool(n - 1).record.Some? then [e.tool(n - 1).record.value] else [])
  }

  /** The bytes that the first `n` tool calls spent. */
  function SpentBytes(e: Env, n: nat): nat {
    if n == 0 then 0 else SpentBytes(e, n - 1) + e.tool(n - 1).spent
  }

  /** The tool results in a history that are not mere notes of skipped calls. */
  function Executed(messages: seq<Msg>): nat {
    if messages == [] then 0
    else
      var last := messages[|messages| - 1];
      Executed(messages[..|messages| - 1]) + (if last.Tool? && !last.skipped then 1 else 0)
  }

  function Nudges(messages: seq<Msg>): nat {
    if messages == [] then 0
    else Nudges(messages[..|messages| - 1]) + (if messages[|messages| - 1].Nudge? then 1 else 0)
  }

  /** What was metered is what the requests cost. */
  ghost predicate Metering(e: Env, a: State) {
    && a.budget == Ledger(e, a.requests) && a.sent == SentBytes(e, a.requests)
    && Usage(a.prompt, a.completion) == Told(e, a.requests)
  }

  /** The records are those of the tool calls made; one that was refused for its size, or
      found the list full, is the last. */
  ghost predicate RecordsKept(e: Env, a: State) {
    || a.mutations == Recorded(e, a.toolCalls)
    || (&& a.toolCalls > 0 && a.mutations == Recorded(e, a.toolCalls - 1)
        && (|| |a.mutations| >= MAX_MUTATION_RECORDS
            || SpentBytes(e, a.toolCalls - 1) + e.tool(a.toolCalls - 1).spent > MAX_MUTATION_BYTES_PER_RUN))
  }

  /** The last request, as the estimate of the next one takes it. */
  ghost predicate LastNoted(e: Env, a: State) {
    if a.requests == [] then a.lastRequest == 0 && a.lastPrompt == 0
    else
      var n := |a.requests| - 1;
      var bytes := e.requestBytes(a.requests[n]);
      a.lastRequest == bytes && a.lastPrompt == Larger(Tokens4(bytes), UsageOf(e.reply(n)).prompt)
  }

  /** The counters agree with what happened. */
  ghost predicate Balanced(e: Env, a: State) {
    && Metering(e, a) && LastNoted(e, a)
    && a.mutations == Recorded(e, a.toolCalls) && a.mutationUsed == a.offered == SpentBytes(e, a.toolCalls)
    && a.toolCalls == Executed(a.messages) && a.emptyFinals == Nudges(a.messages) <= 1
  }

  lemma Appended(messages: seq<Msg>, m: Msg)
    ensures Executed(messages + [m]) == Executed(messages) + (if m.Tool? && !m.skipped then 1 else 0)
    ensures Nudges(messages + [m]) == Nudges(messages) + (if m.Nudge? then 1 else 0)
  {
    assert (messages + [m])[..|messages|] == messages;
  }

  lemma {:induction false} SkipsAppended(messages: seq<Msg>, calls: seq<CallId>)
    ensures Executed(messages + Skips(calls)) == Executed(messages)
    ensures Nudges(messages + Skips(calls)) == Nudges(messages)
    decreases |calls|
  {
    if calls == [] {
      assert messages + Skips(calls) == messages;
    } else {
      var m := Tool(calls[0], true);
      Appended(messages, m);
      SkipsAppended(messages + [m], calls[1..]);
      assert messages + Skips(calls) == messages + [m] + Skips(calls[1..]);
    }
  }

  // Why a run halts

  /** The next request would take more than is left. */
  ghost predicate TokensShort(e: Env, a: State) {
    var bytes := e.requestBytes(a.messages);
    var growth := if bytes > a.lastRequest then bytes - a.lastRequest else 0;
    || Larger(a.prompt + a.completion, a.budget) >= MAX_TOTAL_TOKENS_PER_RUN
    || Larger(a.prompt + a.completion, a.budget) + e.maxOutputTokens
       + Larger(Tokens4(bytes), a.lastPrompt + Tokens4(growth)) > MAX_TOTAL_TOKENS_PER_RUN
  }

  ghost predicate EndsWith(a: State, content: Text, calls: seq<CallId>) {
    a.messages != [] && a.messages[|a.messages| - 1] == Assistant(content, calls)
  }

  ghost predicate Reasoned(e: Env, a: State, why: Reason) {
    match why
    case OutOfTime => a.tick > 0 && e.late(a.tick - 1)
    case OutOfTokens => TokensShort(e, a)
    case OutOfHistory => e.historyBytes(a.messages) > MAX_PROVIDER_HISTORY_BYTES
    case WasCancelled => a.box.cancelSet
    case ProviderFailed => a.requests != [] && e.reply(|a.requests| - 1).NoReply?
    case EmptyAnswer =>
      exists content :: EndsWith(a, content, []) && Blank(content)
                        && (Nudges(a.messages) > 0 || |a.requests| >= e.maxTurns)
    case TooManyCalls =>
      exists content, calls :: EndsWith(a, content, calls)
                        && (|calls| > MAX_TOOL_CALLS_PER_TURN || a.toolCalls + |calls| > MAX_TOOL_CALLS_PER_RUN)
    case ToolFailed =>
      && a.toolCalls > 0
      && var end := e.tool(a.toolCalls - 1);
         end.Raised? || a.mutationUsed + end.spent > MAX_MUTATION_BYTES_PER_RUN
    case TooManyRecords => |a.mutations| >= MAX_MUTATION_RECORDS
    case OutOfTurns => |a.requests| >= e.maxTurns
  }

  // Each step

  lemma {:induction false} ArriveDue(a: State, messages: seq<Text>)
    ensures var b := Arrive(a, messages);
            b == a.(box := b.box, accepted := b.accepted) && b.box.cancelSet == a.box.cancelSet
    decreases |messages|
  {
    if messages != [] {
      var q := Jobs.Admission(a.box, messages[0]).Queue?;
      var accepted := if q then a.accepted + [messages[0]] else a.accepted;
      hide Jobs.Admission;
      ArriveDue(a.(box := Jobs.Enqueued(a.box, messages[0]), accepted := accepted), messages[1..]);
    }
  }

  /** Messages arrive one after the other. */
  lemma {:induction false} ArriveInOrder(a: State, first: seq<Text>, next: seq<Text>)
    ensures Arrive(a, first + next) == Arrive(Arrive(a, first), next)
    decreases |first|
  {
    if first == [] {
      assert first + next == next;
    } else {
      assert (first + next)[0] == first[0] && (first + next)[1..] == first[1..] + next;
      var q := Jobs.Admission(a.box, first[0]).Queue?;
      var accepted := if q then a.accepted + [first[0]] else a.accepted;
      ArriveInOrder(a.(box := Jobs.Enqueued(a.box, first[0]), accepted := accepted), first[1..], next);
      hide Jobs.Admission;
    }
  }

  /** A message that is sent while the agent works waits in the mailbox, if it is text, the
      box is open and has room, and the job is not cancelled at the same moment. */
  lemma {:induction false} MessageArrives(e: Env, a: State, message: Text)
    requires e.steerable && e.sends(a.tick) == [message] && !e.cancels(a.tick)
    requires Jobs.MailboxOk(a.box)
    ensures var b := Outside(e, a);
            if && !Blank(message) && Encodable(message) && Utf8(message) <= 64 * 1024 && a.box.accepting
               && |a.box.messages| < 32 && Jobs.Bytes(a.box.messages) + Utf8(message) <= 256 * 1024
            then b.box.messages == a.box.messages + [message] && b.accepted == a.accepted + [message]
            else b.box == a.box && b.accepted == a.accepted
  {
    LengthWithinBytes(message);
    assert [message][1..] == [];
    hide Blank, Encodable, Utf8, Jobs.Bytes;
    assert Arrive(a, [message]).box == Jobs.Enqueued(a.box, message);
  }

  lemma OutsideDue(e: Env, a: State)
    ensures var b := Outside(e, a);
            && b == a.(box := b.box, accepted := b.accepted, tick := a.tick + 1)
            && (b.box.cancelSet <==> a.box.cancelSet || e.cancels(a.tick))
  {
    if e.steerable { ArriveDue(a, e.sends(a.tick)); }
    hide Arrive;
  }

  lemma PollDue(e: Env, a: State, finalize: bool)
    ensures var (b, updates) := Poll(e, a, finalize);
            && b == a.(box := b.box, accepted := b.accepted, delivered := b.delivered, tick := a.tick + 1)
            && (b.box.cancelSet <==> a.box.cancelSet || e.cancels(a.tick))
  {
    OutsideDue(e, a);
    hide Outside, Trimmed;
  }

  /** A cancellation is noticed at the next check, and only a cancellation is. */
  lemma CheckCancelDue(e: Env, a: State)
    ensures var r := CheckCancel(e, a);
            && r.a == a.(box := r.a.box, accepted := r.a.accepted, tick := a.tick + 1)
            && r == (if a.box.cancelSet || e.cancels(a.tick) then Halt(r.a, WasCancelled) else Go(r.a))
            && (r.Halt? ==> r.a.box.cancelSet)
  {
    OutsideDue(e, a);
    hide Outside;
  }

  /** A tool call goes through exactly when it returns, within what the run may still write,
      and its record is then the last one. */
  lemma ExecuteDue(e: Env, a: State)
    requires a.mutations == Recorded(e, a.toolCalls) && a.mutationUsed == a.offered == SpentBytes(e, a.toolCalls)
    ensures var r, end := Execute(e, a), e.tool(a.toolCalls);
            && r.a.(offered := a.offered, mutations := a.mutations, mutationUsed := a.mutationUsed) ==
               a.(toolCalls := a.toolCalls + 1)
            && (r.Halt? ==> Reasoned(e, r.a, r.why) && (r.why.ToolFailed? || r.why.TooManyRecords?))
            && (r.Go? <==> && end.Returned? && SpentBytes(e, a.toolCalls + 1) <= MAX_MUTATION_BYTES_PER_RUN
                           && (end.record.Some? ==> |a.mutations| < MAX_MUTATION_RECORDS))
            && (r.Go? ==> && r.a.mutations == Recorded(e, r.a.toolCalls)
                          && r.a.mutationUsed == r.a.offered == SpentBytes(e, r.a.toolCalls))
            && RecordsKept(e, r.a)
            && !r.Final?
  {
  }

  lemma SameBooks(e: Env, a: State, b: State)
    requires Balanced(e, a)
    requires b == a.(box := b.box, accepted := b.accepted, delivered := b.delivered, tick := b.tick)
    ensures Balanced(e, b)
  {
  }

  lemma {:induction false} ExecuteAndRecordDue(e: Env, a: State, id: CallId)
    requires Balanced(e, a)
    ensures var r := ExecuteAndRecord(e, a, id);
            && Metering(e, r.a) && RecordsKept(e, r.a) && r.a.requests == a.requests && !r.Final?
            && (r.Halt? ==> Reasoned(e, r.a, r.why))
            && (r.Go? ==> Balanced(e, r.a) && r.a.messages == a.messages + [Tool(id, false)]
                          && r.a.toolCalls == a.toolCalls + 1)
  {
    hide Execute, CheckCancel, Ledger, SentBytes, Told, LastNoted, Recorded, SpentBytes, Executed, Nudges;
    Appended(a.messages, Tool(id, false));
    var b := CheckTime(e, a);
    if b.Go? {
      ExecuteDue(e, b.a);
      var c := Execute(e, b.a);
      if c.Go? {
        var d := c.a.(messages := c.a.messages + [Tool(id, false)]);
        CheckCancelDue(e, d);
        MeteringSame(e, a, d);
        MeteringSame(e, a, CheckCancel(e, d).a);
      }
    }
  }

  /** The responses to a batch of which the first `ran` calls ran. */
  function Responses(calls: seq<CallId>, ran: nat): seq<Msg> {
    seq(|calls|, i requires 0 <= i < |calls| => Tool(calls[i], i >= ran))
  }

  /** A batch in the history: all calls ran, or the rest was skipped for steering. */
  ghost predicate Batch(a: State, b: State, calls: seq<CallId>, ran: nat, updates: seq<Text>) {
    && ran <= |calls| && (ran == |calls| <==> updates == [])
    && b.toolCalls == a.toolCalls + ran
    && b.messages == a.messages + Responses(calls, ran) + (if updates == [] then [] else [Steering(updates)])
  }

  lemma BatchNext(a: State, d: State, b: State, calls: seq<CallId>, ran: nat, updates: seq<Text>)
    requires calls != [] && Batch(d, b, calls[1..], ran, updates)
    requires d.messages == a.messages + [Tool(calls[0], false)] && d.toolCalls == a.toolCalls + 1
    ensures Batch(a, b, calls, ran + 1, updates)
  {
    assert Responses(calls, ran + 1) == [Tool(calls[0], false)] + Responses(calls[1..], ran);
    assert a.messages + [Tool(calls[0], false)] + Responses(calls[1..], ran) == a.messages + Responses(calls, ran + 1);
  }

  lemma {:induction false} SteerDue(e: Env, a: State, calls: seq<CallId>, updates: seq<Text>)
    requires Balanced(e, a) && calls != [] && updates != []
    ensures var r := SteerBeforeTools(e, a, calls, updates);
            && Balanced(e, r.a) && r.a.requests == a.requests && !r.Final?
            && (r.Halt? ==> Reasoned(e, r.a, r.why)) && Batch(a, r.a, calls, 0, updates)
  {
    SkipsAppended(a.messages, calls);
    Appended(a.messages + Skips(calls), Steering(updates));
    assert Skips(calls) == Responses(calls, 0);
    hide Skips, Responses, Executed, Nudges, Recorded, SpentBytes;
  }

  /** A batch runs its calls in order until steering arrives, and then skips all the others. */
  lemma {:induction false} RunCallsDue(e: Env, a: State, calls: seq<CallId>)
      returns (ran: nat, updates: seq<Text>)
    requires Balanced(e, a)
    ensures var r := RunCalls(e, a, calls);
            && Metering(e, r.a) && RecordsKept(e, r.a) && r.a.requests == a.requests && !r.Final?
            && (r.Halt? ==> Reasoned(e, r.a, r.why))
            && (r.Go? ==> Balanced(e, r.a) && Batch(a, r.a, calls, ran, updates))
    decreases |calls|
  {
    hide CheckCancel, Poll, ExecuteAndRecord, SteerBeforeTools, Balanced, Metering, RecordsKept;
    ran, updates := 0, [];
    if calls == [] {
      MeteringOf(e, a);
      assert a.messages + Responses(calls, 0) + [] == a.messages;
    } else {
      CheckCancelDue(e, a);
      var b := CheckCancel(e, a);
      SameBooks(e, a, b.a);
      MeteringOf(e, b.a);
      if b.Go? {
        PollDue(e, b.a, false);
        var (c, due) := Poll(e, b.a, false);
        SameBooks(e, b.a, c);
        if due != [] {
          updates := due;
          SteerDue(e, c, calls, due);
          MeteringOf(e, SteerBeforeTools(e, c, calls, due).a);
        } else {
          ExecuteAndRecordDue(e, c, calls[0]);
          var d := ExecuteAndRecord(e, c, calls[0]);
          if d.Go? {
            ran, updates := RunCallsDue(e, d.a, calls[1..]);
            if RunCalls(e, d.a, calls[1..]).Go? {
              BatchNext(a, d.a, RunCalls(e, d.a, calls[1..]).a, calls, ran, updates);
            }
            ran := ran + 1;
          }
        }
      }
    }
  }

  lemma MeteringOf(e: Env, a: State)
    requires Balanced(e, a)
    ensures Metering(e, a) && RecordsKept(e, a)
  {
  }

  // Turns

  lemma {:induction false} ExecutePlannedDue(e: Env, a: State, content: Text, calls: seq<CallId>)
      returns (ran: nat, updates: seq<Text>)
    requires Balanced(e, a) && calls != [] && EndsWith(a, content, calls)
    ensures var r := ExecutePlanned(e, a, calls);
            && Metering(e, r.a) && RecordsKept(e, r.a) && r.a.requests == a.requests && !r.Final?
            && (r.Halt? ==> Reasoned(e, r.a, r.why))
            && (r.Go? ==> Balanced(e, r.a) && Batch(a, r.a, calls, ran, updates))
            && (r.Go? ==> |calls| <= MAX_TOOL_CALLS_PER_TURN && a.toolCalls + |calls| <= MAX_TOOL_CALLS_PER_RUN)
  {
    hide CheckCancel, Poll, RunCalls, SteerBeforeTools, Balanced, Metering, RecordsKept;
    ran, updates := 0, [];
    CheckCancelDue(e, a);
    var b := CheckCancel(e, a);
    SameBooks(e, a, b.a);
    MeteringOf(e, b.a);
    if b.Go? {
      if |calls| > MAX_TOOL_CALLS_PER_TURN || b.a.toolCalls + |calls| > MAX_TOOL_CALLS_PER_RUN {
        assert EndsWith(b.a, content, calls);
      } else {
        PollDue(e, b.a, false);
        var (c, due) := Poll(e, b.a, false);
        SameBooks(e, b.a, c);
        if due != [] {
          updates := due;
          SteerDue(e, c, calls, due);
          MeteringOf(e, SteerBeforeTools(e, c, calls, due).a);
        } else {
          ran, updates := RunCallsDue(e, c, calls);
        }
      }
    }
  }

  /** A text reply: an answer ends the run unless steering arrived, an empty one is sent back once. */
  lemma {:induction false} FinalizeDue(e: Env, a: State, content: Text, turn: nat) returns (updates: seq<Text>)
    requires Balanced(e, a) && EndsWith(a, content, []) && |a.requests| == turn + 1
    ensures var r := FinalizeOrSteer(e, a, content, turn);
            && Balanced(e, r.a) && r.a.requests == a.requests && r.a.toolCalls == a.toolCalls
            && (r.Halt? ==> Reasoned(e, r.a, r.why))
            && (r.Final? ==> !Blank(content) && r.content == content && r.a.messages == a.messages)
            && (r.Go? && !Blank(content) ==> updates != [] && r.a.messages == a.messages + [Steering(updates)])
            && (r.Go? && Blank(content) ==> r.a.messages == a.messages + [Nudge])
  {
    hide Poll, Metering, Executed, Nudges, Recorded, SpentBytes, LastNoted, Blank;
    updates := [];
    if Blank(content) {
      Appended(a.messages, Nudge);
      if a.emptyFinals > 0 || turn + 1 >= e.maxTurns {
        assert EndsWith(a, content, []);
      } else {
        MeteringSame(e, a, a.(emptyFinals := a.emptyFinals + 1, messages := a.messages + [Nudge]));
      }
    } else {
      PollDue(e, a, true);
      var (b, due) := Poll(e, a, true);
      MeteringSame(e, a, b);
      if due != [] {
        updates := due;
        Appended(a.messages, Steering(due));
        MeteringSame(e, b, b.(messages := b.messages + [Steering(due)]));
      }
    }
  }

  lemma MeteringSame(e: Env, a: State, b: State)
    requires a.requests == b.requests && a.budget == b.budget && a.sent == b.sent
    requires a.prompt == b.prompt && a.completion == b.completion
    requires a.lastPrompt == b.lastPrompt && a.lastRequest == b.lastRequest
    ensures Metering(e, a) == Metering(e, b) && LastNoted(e, a) == LastNoted(e, b)
  {
  }

  /** The history with the steering that arrived before the request, if any. */
  function Asked(messages: seq<Msg>, updates: seq<Text>): seq<Msg> {
    if updates == [] then messages else messages + [Steering(updates)]
  }

  lemma {:induction false} ReadyDue(e: Env, a: State)
    requires Balanced(e, a)
    ensures var r := Ready(e, a);
            && Balanced(e, r.a) && r.a.requests == a.requests && !r.Final?
            && r.a.messages == a.messages && r.a.toolCalls == a.toolCalls
            && (r.Halt? ==> Reasoned(e, r.a, r.why))
  {
    hide CheckCancel, Balanced;
    var b := CheckTime(e, a);
    SameBooks(e, a, b.a);
    if b.Go? && EnsureTokens(b.a).Go? {
      CheckCancelDue(e, b.a);
      SameBooks(e, b.a, CheckCancel(e, b.a).a);
    }
  }

  lemma {:induction false} GatherDue(e: Env, a: State) returns (updates: seq<Text>)
    requires Balanced(e, a)
    ensures var r := Gather(e, a);
            && Balanced(e, r.a) && r.a.requests == a.requests && !r.Final?
            && r.a.messages == Asked(a.messages, updates) && r.a.toolCalls == a.toolCalls
            && (r.Halt? ==> Reasoned(e, r.a, r.why))
            && (r.Go? ==> e.historyBytes(r.a.messages) <= MAX_PROVIDER_HISTORY_BYTES)
  {
    hide Poll, Metering, LastNoted, Executed, Nudges, Recorded, SpentBytes;
    PollDue(e, a, false);
    var b: State;
    b, updates := Poll(e, a, false).0, Poll(e, a, false).1;
    if updates != [] { Appended(b.messages, Steering(updates)); }
    MeteringSame(e, a, Steered(b, updates));
  }

  lemma RequestDue(e: Env, a: State)
    ensures var r := EnsureRequest(e, a, e.requestBytes(a.messages));
            && r.a == a && !r.Final?
            && (r.Halt? ==> r.why.OutOfTokens? && TokensShort(e, a))
            && (r.Go? && Metered(a) < MAX_TOTAL_TOKENS_PER_RUN ==> !TokensShort(e, a))
  {
  }

  lemma ReadyRoom(e: Env, a: State)
    ensures Ready(e, a).Go? ==> Metered(Ready(e, a).a) < MAX_TOTAL_TOKENS_PER_RUN
  {
    var b := CheckTime(e, a);
    CheckCancelDue(e, b.a);
    hide CheckCancel;
  }

  lemma GatherRoom(e: Env, a: State)
    ensures Metered(Gather(e, a).a) == Metered(a)
  {
    PollDue(e, a, false);
    hide Poll;
  }

  /** A request is made only when it fits what is left of the tokens and of the history. */
  lemma {:induction false} PrepareDue(e: Env, a: State) returns (updates: seq<Text>)
    requires Balanced(e, a)
    ensures var r := Prepare(e, a);
            && Balanced(e, r.a) && r.a.requests == a.requests && !r.Final?
            && (r.Halt? ==> Reasoned(e, r.a, r.why))
            && (r.Go? ==> r.a.messages == Asked(a.messages, updates) && r.a.toolCalls == a.toolCalls)
            && (r.Go? ==> !TokensShort(e, r.a) && e.historyBytes(r.a.messages) <= MAX_PROVIDER_HISTORY_BYTES)
  {
    hide Ready, Gather, EnsureRequest, Balanced, TokensShort, Metered;
    ReadyDue(e, a);
    ReadyRoom(e, a);
    updates := [];
    var b := Ready(e, a);
    if b.Go? {
      updates := GatherDue(e, b.a);
      GatherRoom(e, b.a);
      RequestDue(e, Gather(e, b.a).a);
    }
  }

  /** A reply is metered whole: nothing that the provider reports or the bytes show is left out. */
  lemma {:induction false} MeterDue(e: Env, a: State, reply: Reply)
    requires Metering(e, a) && reply.Reply? && reply == e.reply(|a.requests|)
    ensures var bytes := e.requestBytes(a.messages);
            var floor := EstimateTokens(e.messageBytes(Assistant(reply.content, reply.calls)));
            var b := Meter(Issued(a, bytes), reply.usage, EstimateTokens(bytes), floor, bytes);
            && Metering(e, b) && LastNoted(e, b)
            && b == a.(requests := a.requests + [a.messages], sent := b.sent, budget := b.budget, prompt := b.prompt,
                       completion := b.completion, lastPrompt := b.lastPrompt, lastRequest := b.lastRequest)
  {
    IssuedMetering(e, a);
    hide Ledger, SentBytes, Told;
  }

  lemma {:induction false} RecordResponseDue(e: Env, a: State, reply: Reply)
    requires Balanced(e, a) && reply.Reply? && reply == e.reply(|a.requests|)
    ensures var r := RecordResponse(e, Issued(a, e.requestBytes(a.messages)), reply, e.requestBytes(a.messages));
            && Metering(e, r.a) && RecordsKept(e, r.a) && r.a.requests == a.requests + [a.messages] && !r.Final?
            && (r.Halt? ==> Reasoned(e, r.a, r.why))
            && (r.Go? ==> Balanced(e, r.a) && r.a.messages == a.messages + [Assistant(reply.content, reply.calls)])
  {
    MeterDue(e, a, reply);
    Appended(a.messages, Assistant(reply.content, reply.calls));
    var r := RecordResponse(e, Issued(a, e.requestBytes(a.messages)), reply, e.requestBytes(a.messages));
    hide Meter, Issued, Executed, Nudges, Recorded, SpentBytes;
    if !(r.Halt? && r.why.OutOfTokens?) {
      MeteringSame(e, r.a.(messages := a.messages), r.a);
      hide Metering, LastNoted;
    }
  }

  lemma {:induction false} AnswerDue(e: Env, a: State, reply: Reply)
    requires Balanced(e, a) && reply.Reply? && reply == e.reply(|a.requests|)
    ensures var r := Answer(e, Issued(a, e.requestBytes(a.messages)), reply, e.requestBytes(a.messages));
            && Metering(e, r.a) && RecordsKept(e, r.a) && r.a.requests == a.requests + [a.messages] && !r.Final?
            && (r.Halt? ==> Reasoned(e, r.a, r.why))
            && (r.Go? ==> Balanced(e, r.a) && r.a.messages == a.messages + [Assistant(reply.content, reply.calls)])
  {
    var bytes := e.requestBytes(a.messages);
    RecordResponseDue(e, a, reply);
    var b := RecordResponse(e, Issued(a, bytes), reply, bytes);
    hide RecordResponse, Balanced, Issued, Metering, RecordsKept, CheckCancel;
    if b.Go? {
      CheckCancelDue(e, b.a);
      SameBooks(e, b.a, CheckCancel(e, b.a).a);
      MeteringOf(e, CheckCancel(e, b.a).a);
    }
  }

  lemma IssuedMetering(e: Env, a: State)
    ensures var requests := a.requests + [a.messages]; var reply := e.reply(|a.requests|);
            && Ledger(e, requests) == Ledger(e, a.requests) + Cost(e, a.messages, reply)
            && SentBytes(e, requests) == SentBytes(e, a.requests) + e.requestBytes(a.messages)
            && Told(e, requests).prompt == Told(e, a.requests).prompt + UsageOf(reply).prompt
            && Told(e, requests).completion == Told(e, a.requests).completion + UsageOf(reply).completion
  {
    assert (a.requests + [a.messages])[..|a.requests|] == a.requests;
  }

  /** What the history has gained when a turn asked with `updates` is over. */
  ghost predicate TurnDone(e: Env, a: State, b: State, turn: nat, updates: seq<Text>, ran: nat, later: seq<Text>) {
    var reply, asked := e.reply(turn), Asked(a.messages, updates);
    && reply.Reply? && b.requests == a.requests + [asked]
    && var answered := asked + [Assistant(reply.content, reply.calls)];
       if reply.calls != [] then
         && Batch(a.(messages := answered), b, reply.calls, ran, later)
         && |reply.calls| <= MAX_TOOL_CALLS_PER_TURN && a.toolCalls + |reply.calls| <= MAX_TOOL_CALLS_PER_RUN
       else b.toolCalls == a.toolCalls &&
            if Blank(reply.content) then b.messages == answered + [Nudge]
            else later != [] && b.messages == answered + [Steering(later)]
  }

  /** A turn issues one request and halts for a reason, answers with the reply's text, or
      goes on with the history extended by exactly what happened. */
  lemma {:induction false} TurnDue(e: Env, a: State, turn: nat)
      returns (updates: seq<Text>, ran: nat, later: seq<Text>)
    requires Balanced(e, a) && |a.requests| == turn
    ensures var r, reply := Turn(e, a, turn), e.reply(turn);
            && Metering(e, r.a) && RecordsKept(e, r.a)
            && (r.Halt? ==> Reasoned(e, r.a, r.why))
            && (r.Go? ==> Balanced(e, r.a) && TurnDone(e, a, r.a, turn, updates, ran, later))
            && (r.Final? ==>
                  && reply.Reply? && reply.calls == [] && !Blank(reply.content) && r.content == reply.content
                  && Balanced(e, r.a) && r.a.requests == a.requests + [Asked(a.messages, updates)]
                  && r.a.messages == Asked(a.messages, updates) + [Assistant(reply.content, [])])
  {
    hide Prepare, Answer, FinalizeOrSteer, ExecutePlanned, Metering, LastNoted, Executed, Nudges, Recorded, SpentBytes;
    ran, later := 0, [];
    updates := PrepareDue(e, a);
    var b := Prepare(e, a);
    if b.Go? {
      var reply, bytes := e.reply(turn), e.requestBytes(b.a.messages);
      if reply.NoReply? {
        IssuedMetering(e, b.a);
        UnansweredMetering(e, b.a);
      } else {
        AnswerDue(e, b.a, reply);
        var c := Answer(e, Issued(b.a, bytes), reply, bytes);
        if c.Go? {
          assert EndsWith(c.a, reply.content, reply.calls);
          SameCalls(e, b.a, c.a, reply);
          if reply.calls == [] {
            later := FinalizeDue(e, c.a, reply.content, turn);
            hide EndsWith, Blank;
          } else {
            ran, later := ExecutePlannedDue(e, c.a, reply.content, reply.calls);
            BatchFrom(a, c.a, ExecutePlanned(e, c.a, reply.calls).a, reply.calls, ran, later);
            hide EndsWith, Batch;
          }
        }
      }
    }
  }

  /** Tool results are what the tool calls counter counts. */
  lemma SameCalls(e: Env, b: State, c: State, reply: Reply)
    requires Balanced(e, b) && Balanced(e, c) && reply.Reply?
    requires c.messages == b.messages + [Assistant(reply.content, reply.calls)]
    ensures c.toolCalls == b.toolCalls
  {
    Appended(b.messages, Assistant(reply.content, reply.calls));
  }

  lemma BatchFrom(a: State, c: State, b: State, calls: seq<CallId>, ran: nat, updates: seq<Text>)
    requires c.toolCalls == a.toolCalls
    ensures Batch(c, b, calls, ran, updates) <==> Batch(a.(messages := c.messages), b, calls, ran, updates)
  {
  }

  lemma UnansweredMetering(e: Env, a: State)
    requires Metering(e, a) && e.reply(|a.requests|).NoReply?
    ensures Metering(e, Issued(a, e.requestBytes(a.messages)))
  {
    IssuedMetering(e, a);
    hide Ledger, SentBytes, Told;
  }

  // Runs

  lemma {:induction false} TurnsDue(e: Env, a: State, turn: nat)
    requires Balanced(e, a) && |a.requests| == turn
    ensures var r := Turns(e, a, turn);
            && Metering(e, r.a) && RecordsKept(e, r.a) && !r.Go? && (r.Halt? ==> Reasoned(e, r.a, r.why))
            && (r.Final? ==>
                  && Balanced(e, r.a) && r.a.requests != []
                  && var reply := e.reply(|r.a.requests| - 1);
                     reply.Reply? && reply.calls == [] && !Blank(reply.content) && r.content == reply.content)
    decreases e.maxTurns - turn
  {
    MeteringOf(e, a);
    hide Turn, Balanced, Metering, RecordsKept, Blank, Batch;
    if turn < e.maxTurns {
      var updates, ran, later := TurnDue(e, a, turn);
      var b := Turn(e, a, turn);
      if b.Go? {
        TurnsDue(e, b.a, turn + 1);
      }
    }
  }

  lemma InitialBalanced(e: Env, box: Jobs.Job)
    ensures Balanced(e, Initial(box))
  {
    assert [System, Task][..1] == [System] && [System][..0] == [];
    assert Executed([System]) == 0 && Nudges([System]) == 0;
  }

  /** Every run that ends without an answer has its reason, on record in its last state. */
  lemma {:induction false} EveryHaltHasItsReason(e: Env, box: Jobs.Job)
    ensures var r := Run(e, box); !r.Go? && (r.Halt? ==> Reasoned(e, r.a, r.why))
  {
    InitialBalanced(e, box);
    TurnsDue(e, Initial(box), 0);
  }

  /** The answer of a run is the text of the reply to its last request, and not blank. */
  lemma {:induction false} AnswerIsLastReply(e: Env, box: Jobs.Job)
    ensures var r := Run(e, box);
            r.Final? ==>
              && r.a.requests != []
              && var reply := e.reply(|r.a.requests| - 1);
                 reply.Reply? && reply.calls == [] && !Blank(reply.content) && r.content == reply.content
  {
    InitialBalanced(e, box);
    TurnsDue(e, Initial(box), 0);
  }

  /** However a run ends, the tokens it was charged are exactly the cost of its requests, and
      the tokens and bytes it tells are the reported and the sent ones; its records are those
      of its tool calls, in order. When it answers, none is missing, and the calls that the
      history shows as run are as many as were run. */
  lemma {:induction false} BooksAreTrue(e: Env, box: Jobs.Job)
    ensures var r := Run(e, box);
            && r.a.budget == Ledger(e, r.a.requests) && r.a.sent == SentBytes(e, r.a.requests)
            && Usage(r.a.prompt, r.a.completion) == Told(e, r.a.requests)
            && RecordsKept(e, r.a)
            && (r.Final? ==>
                  && r.a.mutations == Recorded(e, r.a.toolCalls)
                  && r.a.mutationUsed == r.a.offered == SpentBytes(e, r.a.toolCalls)
                  && r.a.toolCalls == Executed(r.a.messages) && Nudges(r.a.messages) <= 1)
  {
    InitialBalanced(e, box);
    TurnsDue(e, Initial(box), 0);
  }

  // Stopping

  /** Once cancelled, a turn issues no request and a batch runs no tool. */
  lemma {:induction false} CancelStops(e: Env, a: State, turn: nat, calls: seq<CallId>)
    requires a.box.cancelSet
    ensures var r := Turn(e, a, turn); r.Halt? && r.a.requests == a.requests
    ensures calls != [] ==>
              var r := RunCalls(e, a, calls);
              r.Halt? && r.why.WasCancelled? && r.a.toolCalls == a.toolCalls && r.a.messages == a.messages
  {
    var b := CheckTime(e, a);
    CheckCancelDue(e, b.a);
    CheckCancelDue(e, a);
    hide CheckCancel, Poll, ExecuteAndRecord, SteerBeforeTools, EnsureRequest, EnforceHistory;
  }

  /** Past the deadline, a turn issues no request and a batch runs no tool. */
  lemma {:induction false} LateStops(e: Env, a: State, turn: nat, calls: seq<CallId>)
    requires forall i | i >= a.tick :: e.late(i)
    ensures var r := Turn(e, a, turn); r.Halt? && r.why.OutOfTime? && r.a.requests == a.requests
    ensures calls != [] ==>
              var r := RunCalls(e, a, calls);
              r.a.toolCalls == a.toolCalls && (r.Go? ==> exists updates :: Batch(a, r.a, calls, 0, updates))
  {
    CheckCancelDue(e, a);
    var b := CheckCancel(e, a);
    PollDue(e, b.a, false);
    var (c, updates) := Poll(e, b.a, false);
    assert CheckTime(e, c).Halt?;
    assert Skips(calls) == Responses(calls, 0);
    hide CheckCancel, Poll, EnforceHistory, Skips, Responses;
    if b.Go? && updates != [] && calls != [] {
      StoppedBatch(e, b.a, c, calls, updates);
      assert RunCalls(e, a, calls).Go? ==> Batch(a, RunCalls(e, a, calls).a, calls, 0, updates);
    }
  }

  lemma StoppedBatch(e: Env, a: State, c: State, calls: seq<CallId>, updates: seq<Text>)
    requires c.messages == a.messages && c.toolCalls == a.toolCalls && updates != [] && calls != []
    ensures var r := SteerBeforeTools(e, c, calls, updates);
            r.a.toolCalls == a.toolCalls && Batch(a, r.a, calls, 0, updates)
  {
    assert Skips(calls) == Responses(calls, 0);
  }
}
