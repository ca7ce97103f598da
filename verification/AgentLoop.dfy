/** The turn loop of the sub-agent (`agent_loop.py`): history, steering, token, tool-call
    and mutation budgets. The provider, the tools, the clock, the senders of steering
    messages and the encoded sizes come from an `Env`: statements about every `Env` are
    statements about every run. */
module AgentLoop {
  import opened Wrappers
  import opened Unicode
  import Jobs

  const MAX_TOTAL_TOKENS_PER_RUN := 1_000_000
  const MAX_PROVIDER_HISTORY_BYTES := 12 * 1024 * 1024
  const MAX_TOOL_CALLS_PER_TURN := 32
  const MAX_TOOL_CALLS_PER_RUN := 128
  const MAX_MUTATION_BYTES_PER_RUN := 64 * 1024 * 1024
  const MAX_MUTATION_RECORDS := 128

  type CallId = nat
  type Tx = nat

  datatype Msg =
    | System
    | Task
    | Steering(updates: seq<Text>)
    | Nudge                                      // after an empty final response
    | Assistant(content: Text, calls: seq<CallId>)
    | Tool(id: CallId, skipped: bool)

  datatype Usage = Usage(prompt: nat, completion: nat)

  datatype Reply = NoReply | Reply(content: Text, calls: seq<CallId>, usage: Option<Usage>)

  /** How a tool call ends: it returns a result, or an exception ends the run. `spent` is
      what the child offered to workspace writes; a killed child never reports it. */
  datatype ToolEnd =
    | Returned(spent: nat, record: Option<Tx>)
    | Raised(spent: nat, record: Option<Tx>)

  datatype Env = Env(
    maxTurns: nat,
    maxOutputTokens: nat,
    steerable: bool,                             // a background job has a mailbox
    late: nat -> bool,
    sends: nat -> seq<Text>,
    cancels: nat -> bool,
    reply: nat -> Reply,
    tool: nat -> ToolEnd,
    requestBytes: seq<Msg> -> nat,
    historyBytes: seq<Msg> -> nat,
    messageBytes: Msg -> nat)

  /** The fields of the source, and from `tick` on what an observer of the run notes. */
  datatype State = State(
    messages: seq<Msg>, prompt: nat, completion: nat, budget: nat, lastPrompt: nat, lastRequest: nat,
    toolCalls: nat, emptyFinals: nat, mutationUsed: nat, mutations: seq<Tx>, box: Jobs.Job,
    tick: nat, accepted: seq<Text>, delivered: seq<Text>, requests: seq<seq<Msg>>, sent: nat, offered: nat)

  datatype Reason =
    | OutOfTime | OutOfTokens | OutOfHistory | WasCancelled | ProviderFailed | EmptyAnswer
    | TooManyCalls | ToolFailed | TooManyRecords | OutOfTurns

  datatype Step = Go(a: State) | Final(a: State, content: Text) | Halt(a: State, why: Reason) {
    predicate IsFailure() { !Go? }
    function PropagateFailure(): Step requires IsFailure() { this }
    function Extract(): State requires !IsFailure() { a }
  }

  // What happens between two observations: messages arrive, the parent may cancel

  function Arrive(a: State, messages: seq<Text>): State
    decreases |messages|
  {
    if messages == [] then a
    else
      var q := Jobs.Admission(a.box, messages[0]).Queue?;
      var accepted := if q then a.accepted + [messages[0]] else a.accepted;
      Arrive(a.(box := Jobs.Enqueued(a.box, messages[0]), accepted := accepted), messages[1..])
  }

  function Outside(e: Env, a: State): State {
    var b := if e.steerable then Arrive(a, e.sends(a.tick)) else a;
    (if e.cancels(a.tick) && !b.box.cancelSet then b.(box := Jobs.Shut(b.box.(cancelSet := true))) else b)
    .(tick := a.tick + 1)
  }

  function CheckCancel(e: Env, a: State): Step {
    var b := Outside(e, a);
    if b.box.cancelSet then Halt(b, WasCancelled) else Go(b)
  }

  function Trimmed(messages: seq<Text>): seq<Text> {
    if messages == [] then []
    else (if Blank(messages[0]) then [] else [Strip(messages[0])]) + Trimmed(messages[1..])
  }

  /** `_poll_control_messages`: what a poll hands out, and the state after it. */
  function Poll(e: Env, a: State, finalize: bool): (State, seq<Text>) {
    var b := Outside(e, a);
    if !e.steerable then (b, [])
    else
      (b.(box := Jobs.Drained(b.box, finalize), delivered := b.delivered + b.box.messages), Trimmed(b.box.messages))
  }

  function Steered(a: State, updates: seq<Text>): State {
    if updates == [] then a else a.(messages := a.messages + [Steering(updates)])
  }

  function EnforceHistory(e: Env, a: State): Step {
    if e.historyBytes(a.messages) > MAX_PROVIDER_HISTORY_BYTES then Halt(a, OutOfHistory) else Go(a)
  }

  function CheckTime(e: Env, a: State): Step {
    if e.late(a.tick) then Halt(a.(tick := a.tick + 1), OutOfTime) else Go(a.(tick := a.tick + 1))
  }

  // Tokens

  function EstimateTokens(bytes: nat): nat { (bytes + 3) / 4 }

  function Max(a: nat, b: nat): nat { if a < b then b else a }

  function Metered(a: State): nat { Max(a.prompt + a.completion, a.budget) }

  function EnsureTokens(a: State): Step {
    if Metered(a) >= MAX_TOTAL_TOKENS_PER_RUN then Halt(a, OutOfTokens) else Go(a)
  }

  function EnsureRequest(e: Env, a: State, bytes: nat): Step {
    var growth := if bytes > a.lastRequest then bytes - a.lastRequest else 0;
    var prompt := Max(EstimateTokens(bytes), a.lastPrompt + EstimateTokens(growth));
    if prompt + e.maxOutputTokens > MAX_TOTAL_TOKENS_PER_RUN - Metered(a) then Halt(a, OutOfTokens) else Go(a)
  }

  function Issued(a: State, bytes: nat): State { a.(requests := a.requests + [a.messages], sent := a.sent + bytes) }

  /** Every request is metered by what the provider reports, but at least by its size. */
  function Meter(a: State, usage: Option<Usage>, promptFloor: nat, completionFloor: nat, bytes: nat): State {
    var u := if usage.Some? then usage.value else Usage(0, 0);
    a.(prompt := a.prompt + u.prompt, completion := a.completion + u.completion,
       budget := a.budget + Max(promptFloor, u.prompt) + Max(completionFloor, u.completion),
       lastPrompt := Max(promptFloor, u.prompt), lastRequest := bytes)
  }

  function RecordResponse(e: Env, a: State, reply: Reply, bytes: nat): Step
    requires reply.Reply?
  {
    var message := Assistant(reply.content, reply.calls);
    var b := Meter(a, reply.usage, EstimateTokens(bytes), EstimateTokens(e.messageBytes(message)), bytes);
    if Metered(b) > MAX_TOTAL_TOKENS_PER_RUN then Halt(b, OutOfTokens)
    else EnforceHistory(e, b.(messages := b.messages + [message]))
  }

  // Tools

  function Skips(calls: seq<CallId>): seq<Msg> { seq(|calls|, i requires 0 <= i < |calls| => Tool(calls[i], true)) }

  function SteerBeforeTools(e: Env, a: State, calls: seq<CallId>, updates: seq<Text>): Step {
    EnforceHistory(e, Steered(a.(messages := a.messages + Skips(calls)), updates))
  }

  /** `MutationAccumulator.add`. */
  function Reported(a: State, record: Option<Tx>): Step {
    if record.None? then Go(a)
    else if |a.mutations| >= MAX_MUTATION_RECORDS then Halt(a, TooManyRecords)
    else Go(a.(mutations := a.mutations + [record.value]))
  }

  /** The child reserves at most what the budget leaves, or its call fails. */
  function Execute(e: Env, a: State): Step {
    var end := e.tool(a.toolCalls);
    var room := MAX_MUTATION_BYTES_PER_RUN - a.mutationUsed;
    var b := a.(toolCalls := a.toolCalls + 1);
    if end.spent > room then Halt(b, ToolFailed)
    else
      var c :- Reported(b.(offered := b.offered + end.spent), end.record);
      if end.Raised? then Halt(c, ToolFailed) else Go(c.(mutationUsed := c.mutationUsed + end.spent))
  }

  function ExecuteAndRecord(e: Env, a: State, id: CallId): Step {
    var b :- CheckTime(e, a);
    var c :- Execute(e, b);
    var d :- EnforceHistory(e, c.(messages := c.messages + [Tool(id, false)]));
    CheckCancel(e, d)
  }

  function RunCalls(e: Env, a: State, calls: seq<CallId>): Step
    decreases |calls|
  {
    if calls == [] then Go(a)
    else
      var b :- CheckCancel(e, a);
      var (c, updates) := Poll(e, b, false);
      if updates != [] then SteerBeforeTools(e, c, calls, updates)
      else
        var d :- ExecuteAndRecord(e, c, calls[0]);
        RunCalls(e, d, calls[1..])
  }

  function ExecutePlanned(e: Env, a: State, calls: seq<CallId>): Step {
    var b :- CheckCancel(e, a);
    if |calls| > MAX_TOOL_CALLS_PER_TURN || b.toolCalls + |calls| > MAX_TOOL_CALLS_PER_RUN then Halt(b, TooManyCalls)
    else
      var (c, updates) := Poll(e, b, false);
      if updates != [] then SteerBeforeTools(e, c, calls, updates) else RunCalls(e, c, calls)
  }

  // Turns

  function FinalizeOrSteer(e: Env, a: State, content: Text, turn: nat): Step {
    if Blank(content) then
      if a.emptyFinals > 0 || turn + 1 >= e.maxTurns then Halt(a, EmptyAnswer)
      else EnforceHistory(e, a.(emptyFinals := a.emptyFinals + 1, messages := a.messages + [Nudge]))
    else
      var (b, updates) := Poll(e, a, true);
      if updates != [] then EnforceHistory(e, Steered(b, updates)) else Final(b, content)
  }

  /** A turn up to the request. */
  function Ready(e: Env, a: State): Step {
    var b :- CheckTime(e, a);
    var c :- EnsureTokens(b);
    CheckCancel(e, c)
  }

  function Gather(e: Env, a: State): Step {
    var (b, updates) := Poll(e, a, false);
    EnforceHistory(e, Steered(b, updates))
  }

  function Prepare(e: Env, a: State): Step {
    var d :- Ready(e, a);
    var g :- Gather(e, d);
    EnsureRequest(e, g, e.requestBytes(g.messages))
  }

  function Answer(e: Env, a: State, reply: Reply, bytes: nat): Step
    requires reply.Reply?
  {
    var b :- RecordResponse(e, a, reply, bytes);
    CheckCancel(e, b)
  }

  function Turn(e: Env, a: State, turn: nat): Step {
    var b :- Prepare(e, a);
    var bytes := e.requestBytes(b.messages);
    var reply := e.reply(turn);
    if reply.NoReply? then Halt(Issued(b, bytes), ProviderFailed)
    else
      var c :- Answer(e, Issued(b, bytes), reply, bytes);
      if reply.calls == [] then FinalizeOrSteer(e, c, reply.content, turn)
      else ExecutePlanned(e, c, reply.calls)
  }

  function Turns(e: Env, a: State, turn: nat): Step
    decreases e.maxTurns - turn
  {
    if turn >= e.maxTurns then Halt(a, OutOfTurns)
    else
      var b :- Turn(e, a, turn);
      Turns(e, b, turn + 1)
  }

  function Initial(box: Jobs.Job): State {
    State([System, Task], 0, 0, 0, 0, 0, 0, 0, 0, [], box, 0, box.messages, [], [], 0, 0)
  }

  function Run(e: Env, box: Jobs.Job): Step { Turns(e, Initial(box), 0) }

  // The shape of a history

  datatype Shape =
    | Idle
    | Answering(pending: seq<CallId>, skipping: bool)    // tool responses are due
    | MustSteer                                          // calls were skipped: steering is due
    | Bad

  function After(s: Shape, m: Msg): Shape {
    match s
    case Idle =>
      if m.Tool? then Bad else if m.Assistant? && m.calls != [] then Answering(m.calls, false) else Idle
    case Answering(pending, skipping) =>
      if pending == [] || !m.Tool? || m.id != pending[0] || (skipping && !m.skipped) then Bad
      else if |pending| > 1 then Answering(pending[1..], m.skipped)
      else if m.skipped then MustSteer else Idle
    case MustSteer => if m.Steering? then Idle else Bad
    case Bad => Bad
  }

  function ShapeOf(messages: seq<Msg>): Shape {
    if messages == [] then Idle else After(ShapeOf(messages[..|messages| - 1]), messages[|messages| - 1])
  }

  lemma ShapeSnoc(messages: seq<Msg>, m: Msg)
    ensures ShapeOf(messages + [m]) == After(ShapeOf(messages), m)
  {
    assert (messages + [m])[..|messages|] == messages;
  }

  lemma {:induction false} ShapePrefix(messages: seq<Msg>, n: nat)
    requires n <= |messages| && ShapeOf(messages) != Bad
    ensures ShapeOf(messages[..n]) != Bad
    decreases |messages|
  {
    if n < |messages| {
      var rest := messages[..|messages| - 1];
      ShapePrefix(rest, n);
      assert rest[..n] == messages[..n];
    } else {
      assert messages[..n] == messages;
    }
  }

  lemma {:induction false} ShapeSkips(messages: seq<Msg>, calls: seq<CallId>, skipping: bool)
    requires calls != [] && ShapeOf(messages) == Answering(calls, skipping)
    ensures ShapeOf(messages + Skips(calls)) == MustSteer
    decreases |calls|
  {
    var first := messages + [Tool(calls[0], true)];
    ShapeSnoc(messages, Tool(calls[0], true));
    if |calls| == 1 {
      assert messages + Skips(calls) == first;
    } else {
      ShapeSkips(first, calls[1..], true);
      assert messages + Skips(calls) == first + Skips(calls[1..]);
    }
  }

  /** The responses to a batch: some calls ran, then the rest were skipped. */
  ghost predicate Answered(messages: seq<Msg>, from: nat, calls: seq<CallId>, ran: nat) {
    && ran <= |calls| && from + |calls| <= |messages|
    && (forall j | 0 <= j < |calls| :: messages[from + j] == Tool(calls[j], j >= ran))
    && (ran < |calls| ==> from + |calls| < |messages| && messages[from + |calls|].Steering?)
    && (from + |calls| < |messages| ==> !messages[from + |calls|].Tool?)
  }

  ghost predicate AnsweredAt(messages: seq<Msg>, i: nat, ran: nat) {
    i < |messages| && messages[i].Assistant? && Answered(messages, i + 1, messages[i].calls, ran)
  }

  lemma {:induction false} Follow(messages: seq<Msg>, from: nat, pending: seq<CallId>, skipping: bool)
      returns (ran: nat)
    requires from <= |messages| && pending != []
    requires ShapeOf(messages) == Idle && ShapeOf(messages[..from]) == Answering(pending, skipping)
    ensures Answered(messages, from, pending, ran) && (skipping ==> ran == 0)
    decreases |pending|
  {
    assert messages[..|messages|] == messages;
    ShapeNext(messages, from);
    var m := messages[from];
    if |pending| == 1 {
      ran := if m.skipped then 0 else 1;
      if from + 1 < |messages| {
        ShapeNext(messages, from + 1);
      } else {
        assert messages[..from + 1] == messages;
      }
    } else {
      var rest := Follow(messages, from + 1, pending[1..], m.skipped);
      ran := if m.skipped then 0 else rest + 1;
      forall j | 0 <= j < |pending| ensures messages[from + j] == Tool(pending[j], j >= ran) {
        if j > 0 {
          assert messages[from + 1 + (j - 1)] == Tool(pending[1..][j - 1], j - 1 >= rest);
        }
      }
    }
  }

  lemma {:induction false} ShapeNext(messages: seq<Msg>, i: nat)
    requires i < |messages| && ShapeOf(messages) != Bad
    ensures ShapeOf(messages[..i + 1]) == After(ShapeOf(messages[..i]), messages[i]) != Bad
  {
    ShapePrefix(messages, i + 1);
    assert messages[..i + 1][..i] == messages[..i];
  }

  /** What the shape means: every call of every assistant message is answered once, in
      order, right after it; once a call was skipped no later call of its batch ran, and
      the steering that caused it follows the batch. */
  lemma {:induction false} EveryCallAnswered(messages: seq<Msg>, i: nat)
    requires ShapeOf(messages) == Idle && i < |messages| && messages[i].Assistant?
    ensures exists ran :: AnsweredAt(messages, i, ran)
  {
    var calls := messages[i].calls;
    ShapeNext(messages, i);
    if calls != [] {
      var ran := Follow(messages, i + 1, calls, false);
      assert AnsweredAt(messages, i, ran);
    } else {
      if i + 1 < |messages| { ShapeNext(messages, i + 1); }
      assert AnsweredAt(messages, i, 0);
    }
  }

  // Steering in a history

  function Updates(messages: seq<Msg>): seq<Text> {
    if messages == [] then []
    else Updates(messages[..|messages| - 1]) +
         (if messages[|messages| - 1].Steering? then messages[|messages| - 1].updates else [])
  }

  lemma UpdatesSnoc(messages: seq<Msg>, m: Msg)
    ensures Updates(messages + [m]) == Updates(messages) + (if m.Steering? then m.updates else [])
  {
    assert (messages + [m])[..|messages|] == messages;
  }

  lemma {:induction false} UpdatesSkips(messages: seq<Msg>, calls: seq<CallId>)
    ensures Updates(messages + Skips(calls)) == Updates(messages)
    decreases |calls|
  {
    if calls == [] {
      assert messages + Skips(calls) == messages;
    } else {
      UpdatesSnoc(messages, Tool(calls[0], true));
      UpdatesSkips(messages + [Tool(calls[0], true)], calls[1..]);
      assert messages + Skips(calls) == messages + [Tool(calls[0], true)] + Skips(calls[1..]);
    }
  }

  lemma {:induction false} TrimmedConcat(a: seq<Text>, b: seq<Text>)
    ensures Trimmed(a + b) == Trimmed(a) + Trimmed(b)
  {
    hide Blank, Strip;
    if a == [] {
      assert a + b == b;
    } else {
      TrimmedConcat(a[1..], b);
      assert (a + b)[1..] == a[1..] + b && (a + b)[0] == a[0];
    }
  }

  /** No accepted message is blank: a batch is empty only if the mailbox was. */
  lemma TrimmedKeeps(messages: seq<Text>)
    requires messages != [] && !Blank(messages[0])
    ensures Trimmed(messages) != []
  {
  }

  // What every step keeps

  ghost predicate Safe(e: Env, a: State) {
    && (forall i | 0 <= i < |a.requests| ::
          ShapeOf(a.requests[i]) == Idle && e.historyBytes(a.requests[i]) <= MAX_PROVIDER_HISTORY_BYTES)
    && (a.requests != [] ==> a.sent <= 4 * (MAX_TOTAL_TOKENS_PER_RUN - e.maxOutputTokens))
    && a.toolCalls <= MAX_TOOL_CALLS_PER_RUN
    && |a.mutations| <= a.toolCalls
    && a.offered <= MAX_MUTATION_BYTES_PER_RUN
    && a.prompt + a.completion <= a.budget
  }

  predicate Tokens(a: State) {
    && a.budget <= MAX_TOTAL_TOKENS_PER_RUN
    && a.sent <= 4 * a.budget
  }

  predicate Spent(a: State) { a.offered == a.mutationUsed }

  /** `due` was handed out by a poll and is not yet in the history. */
  predicate Mail(a: State, due: seq<Text>) {
    && Jobs.MailboxOk(a.box)
    && (!a.box.cancelSet ==> a.accepted == a.delivered + a.box.messages)
    && Updates(a.messages) + due == Trimmed(a.delivered)
    && forall i | 0 <= i < |a.accepted| :: !Blank(a.accepted[i])
  }

  lemma {:induction false} TrimmedWhole(messages: seq<Text>)
    requires forall i | 0 <= i < |messages| :: !Blank(messages[i])
    ensures |Trimmed(messages)| == |messages|
    ensures forall i | 0 <= i < |messages| :: Trimmed(messages)[i] == Strip(messages[i])
  {
    if messages != [] {
      TrimmedWhole(messages[1..]);
    }
  }

  ghost predicate Due(e: Env, a: State, due: seq<Text>) { Safe(e, a) && Tokens(a) && Spent(a) && Mail(a, due) }

  ghost predicate Good(e: Env, a: State) { Due(e, a, []) }

  lemma {:induction false} ArriveKeeps(a: State, messages: seq<Text>)
    requires Mail(a, [])
    ensures var b := Arrive(a, messages);
            && Mail(b, []) && b.box.cancelSet == a.box.cancelSet && (!a.box.accepting ==> !b.box.accepting)
            && b == a.(box := b.box, accepted := b.accepted)
    decreases |messages|
  {
    if messages != [] {
      var q := Jobs.Admission(a.box, messages[0]).Queue?;
      var accepted := if q then a.accepted + [messages[0]] else a.accepted;
      var b := a.(box := Jobs.Enqueued(a.box, messages[0]), accepted := accepted);
      Jobs.EnqueuedKept(a.box, messages[0]);
      assert q ==> !Blank(messages[0]);
      hide Jobs.MailboxOk, Updates, Trimmed, Jobs.Admission, Blank;
      if !a.box.cancelSet && q {
        assert b.accepted == a.delivered + a.box.messages + [messages[0]] == b.delivered + b.box.messages;
      }
      ArriveKeeps(b, messages[1..]);
    }
  }

  lemma OutsideKeeps(e: Env, a: State)
    requires Mail(a, [])
    ensures var b := Outside(e, a);
            && Mail(b, []) && (a.box.cancelSet ==> b.box.cancelSet)
            && b == a.(box := b.box, accepted := b.accepted, tick := a.tick + 1)
  {
    var b := if e.steerable then Arrive(a, e.sends(a.tick)) else a;
    if e.steerable { ArriveKeeps(a, e.sends(a.tick)); }
    Jobs.DrainedKept(b.box, false);
    hide Arrive, Jobs.MailboxOk, Updates, Trimmed;
  }

  lemma PollKeeps(e: Env, a: State, finalize: bool)
    requires Mail(a, [])
    ensures var (b, updates) := Poll(e, a, finalize);
            && Mail(b, updates) && b.box.messages == (if e.steerable then [] else b.box.messages)
            && b == a.(box := b.box, accepted := b.accepted, delivered := b.delivered, tick := a.tick + 1)
            && (updates == [] ==> b.delivered == a.delivered && (e.steerable && finalize ==> !b.box.accepting))
  {
    OutsideKeeps(e, a);
    var b := Outside(e, a);
    if e.steerable {
      var batch := b.box.messages;
      Jobs.DrainedKept(b.box, finalize);
      TrimmedConcat(b.delivered, batch);
      if batch != [] { TrimmedKeeps(batch); }
      assert batch == [] ==> b.delivered + batch == b.delivered;
      hide Outside, Jobs.MailboxOk, Updates, Trimmed, Blank;
      assert Trimmed([]) == [] by { TrimmedEmpty(); }
      var c := Poll(e, a, finalize).0;
      assert c.delivered + c.box.messages == b.delivered + batch;
    }
  }

  lemma PolledGood(e: Env, a: State, finalize: bool)
    requires Good(e, a)
    ensures var (b, updates) := Poll(e, a, finalize);
            && Due(e, b, updates) && (updates == [] ==> Good(e, b))
            && b.messages == a.messages && b.requests == a.requests && b.toolCalls == a.toolCalls
            && (updates == [] ==> b.delivered == a.delivered && (e.steerable && finalize ==> !b.box.accepting))
            && (e.steerable ==> b.box.messages == [])
  {
    PollKeeps(e, a, finalize);
    hide Poll, Mail, ShapeOf;
  }

  lemma TrimmedEmpty()
    ensures Trimmed([]) == []
  {
  }

  lemma SteeredKeeps(a: State, updates: seq<Text>)
    requires Mail(a, updates)
    ensures Mail(Steered(a, updates), [])
    ensures ShapeOf(a.messages) == Idle ==> ShapeOf(Steered(a, updates).messages) == Idle
    ensures updates != [] && ShapeOf(a.messages) == MustSteer ==> ShapeOf(Steered(a, updates).messages) == Idle
  {
    if updates != [] {
      UpdatesSnoc(a.messages, Steering(updates));
      ShapeSnoc(a.messages, Steering(updates));
    }
    hide Updates, Trimmed, Jobs.MailboxOk;
  }

  /** Appending anything but steering leaves the mail in balance. */
  lemma AppendKeeps(a: State, m: Msg)
    requires Mail(a, []) && !m.Steering?
    ensures Mail(a.(messages := a.messages + [m]), [])
  {
    UpdatesSnoc(a.messages, m);
    hide Updates, Trimmed, Jobs.MailboxOk;
  }

  lemma CheckCancelKeeps(e: Env, a: State)
    requires Good(e, a)
    ensures var r := CheckCancel(e, a);
            && Good(e, r.a) && Safe(e, r.a) && !r.Final? && (r.Halt? ==> r.why == WasCancelled)
            && r.a == a.(box := r.a.box, accepted := r.a.accepted, tick := a.tick + 1)
  {
    OutsideKeeps(e, a);
    hide Outside, Mail, ShapeOf;
  }

  lemma SteerBeforeToolsKeeps(e: Env, a: State, calls: seq<CallId>, updates: seq<Text>, skipping: bool)
    requires Due(e, a, updates)
    requires calls != [] && updates != [] && ShapeOf(a.messages) == Answering(calls, skipping)
    ensures var r := SteerBeforeTools(e, a, calls, updates);
            && Good(e, r.a) && Safe(e, r.a) && !r.Final? && (r.Halt? ==> r.why == OutOfHistory)
            && ShapeOf(r.a.messages) == Idle
  {
    ShapeSkips(a.messages, calls, skipping);
    UpdatesSkips(a.messages, calls);
    SteeredKeeps(a.(messages := a.messages + Skips(calls)), updates);
    hide ShapeOf, Updates, Trimmed, Jobs.MailboxOk, Skips;
  }

  lemma ExecuteKeeps(e: Env, a: State)
    requires Good(e, a) && a.toolCalls < MAX_TOOL_CALLS_PER_RUN
    ensures var r := Execute(e, a);
            && Safe(e, r.a) && !r.Final? && (r.Halt? ==> r.why != TooManyRecords)
            && (r.Go? ==> Good(e, r.a) && r.a.messages == a.messages && r.a.toolCalls == a.toolCalls + 1)
  {
    hide ShapeOf, Updates, Trimmed, Jobs.MailboxOk;
  }

  lemma ExecuteAndRecordKeeps(e: Env, a: State, id: CallId)
    requires Good(e, a) && a.toolCalls < MAX_TOOL_CALLS_PER_RUN
    ensures var r := ExecuteAndRecord(e, a, id);
            && Safe(e, r.a) && !r.Final? && (r.Halt? ==> r.why != TooManyRecords)
            && (r.Go? ==> Good(e, r.a))
            && (r.Go? ==> r.a.messages == a.messages + [Tool(id, false)] && r.a.toolCalls == a.toolCalls + 1)
  {
    var b := CheckTime(e, a);
    if b.Go? {
      ExecuteKeeps(e, b.a);
      var c := Execute(e, b.a);
      if c.Go? {
        AppendKeeps(c.a, Tool(id, false));
        var d := c.a.(messages := c.a.messages + [Tool(id, false)]);
        assert Good(e, d);
        CheckCancelKeeps(e, d);
      }
    }
    hide Execute, CheckCancel, ShapeOf, Updates, Trimmed, Jobs.MailboxOk;
  }

  lemma {:induction false} RunCallsKeeps(e: Env, a: State, calls: seq<CallId>)
    requires Good(e, a) && a.toolCalls + |calls| <= MAX_TOOL_CALLS_PER_RUN
    requires ShapeOf(a.messages) == if calls == [] then Idle else Answering(calls, false)
    ensures var r := RunCalls(e, a, calls);
            && Safe(e, r.a) && !r.Final? && (r.Halt? ==> r.why != TooManyRecords)
            && (r.Go? ==> Good(e, r.a) && ShapeOf(r.a.messages) == Idle)
    decreases |calls|
  {
    hide ShapeOf, Mail, CheckCancel, Poll, ExecuteAndRecord, SteerBeforeTools;
    assert Safe(e, a);
    if calls != [] {
      CheckCancelKeeps(e, a);
      var b := CheckCancel(e, a);
      if b.Go? {
        PolledGood(e, b.a, false);
        var (c, updates) := Poll(e, b.a, false);
        hide Due, Good;
        if updates != [] {
          SteerBeforeToolsKeeps(e, c, calls, updates, false);
        } else {
          ExecuteAndRecordKeeps(e, c, calls[0]);
          var d := ExecuteAndRecord(e, c, calls[0]);
          if d.Go? {
            ShapeSnoc(c.messages, Tool(calls[0], false));
            RunCallsKeeps(e, d.a, calls[1..]);
          }
        }
      }
    }
  }

  lemma ExecutePlannedKeeps(e: Env, a: State, calls: seq<CallId>)
    requires Good(e, a) && calls != [] && ShapeOf(a.messages) == Answering(calls, false)
    ensures var r := ExecutePlanned(e, a, calls);
            && Safe(e, r.a) && !r.Final? && (r.Halt? ==> r.why != TooManyRecords)
            && (r.Go? ==> Good(e, r.a) && ShapeOf(r.a.messages) == Idle)
  {
    hide ShapeOf, Mail, CheckCancel, Poll, RunCalls, SteerBeforeTools;
    CheckCancelKeeps(e, a);
    var b := CheckCancel(e, a);
    if b.Go? && |calls| <= MAX_TOOL_CALLS_PER_TURN && b.a.toolCalls + |calls| <= MAX_TOOL_CALLS_PER_RUN {
      PolledGood(e, b.a, false);
      var (c, updates) := Poll(e, b.a, false);
      hide Due, Good;
      if updates != [] {
        SteerBeforeToolsKeeps(e, c, calls, updates, false);
      } else {
        RunCallsKeeps(e, c, calls);
      }
    }
  }

  /** A prepared request fits: what it takes and what is already metered leave room for
      the longest answer. */
  lemma {:induction false} PrepareKeeps(e: Env, a: State)
    requires Good(e, a) && ShapeOf(a.messages) == Idle
    ensures var r := Prepare(e, a);
            && Safe(e, r.a) && !r.Final? && (r.Halt? ==> r.why != TooManyRecords)
            && (r.Go? ==>
                && Good(e, r.a) && ShapeOf(r.a.messages) == Idle
                && e.historyBytes(r.a.messages) <= MAX_PROVIDER_HISTORY_BYTES
                && r.a.budget + EstimateTokens(e.requestBytes(r.a.messages)) + e.maxOutputTokens
                   <= MAX_TOTAL_TOKENS_PER_RUN)
  {
    ReadyKeeps(e, a);
    var d := Ready(e, a);
    if d.Go? {
      GatherKeeps(e, d.a);
      var g := Gather(e, d.a);
      if g.Go? {
        RequestFits(e, g.a, e.requestBytes(g.a.messages));
        assert Safe(e, g.a);
      }
    }
    hide Ready, Gather, EnsureRequest, Good, Safe, ShapeOf, EstimateTokens;
  }

  lemma RequestFits(e: Env, a: State, bytes: nat)
    requires Tokens(a)
    ensures var r := EnsureRequest(e, a, bytes);
            && r.a == a && !r.Final? && (r.Halt? ==> r.why != TooManyRecords)
            && (r.Go? ==> EstimateTokens(bytes) + e.maxOutputTokens <= MAX_TOTAL_TOKENS_PER_RUN - a.budget)
  {
  }

  lemma GatherKeeps(e: Env, a: State)
    requires Good(e, a) && ShapeOf(a.messages) == Idle
    ensures var r := Gather(e, a);
            && Good(e, r.a) && !r.Final? && (r.Halt? ==> r.why != TooManyRecords) && ShapeOf(r.a.messages) == Idle
            && (r.Go? ==> e.historyBytes(r.a.messages) <= MAX_PROVIDER_HISTORY_BYTES)
  {
    hide ShapeOf, Updates, Trimmed, Jobs.MailboxOk, Poll;
    PollKeeps(e, a, false);
    var (f, updates) := Poll(e, a, false);
    SteeredKeeps(f, updates);
    var g := Steered(f, updates);
    hide Mail;
    assert g == f.(messages := g.messages);
    hide Steered;
    assert Good(e, g);
  }

  lemma ReadyKeeps(e: Env, a: State)
    requires Good(e, a)
    ensures var r := Ready(e, a);
            && Safe(e, r.a) && !r.Final? && (r.Halt? ==> r.why != TooManyRecords)
            && (r.Go? ==> Good(e, r.a) && r.a.messages == a.messages)
  {
    hide ShapeOf, Updates, Trimmed, Jobs.MailboxOk;
    var b := CheckTime(e, a);
    if b.Go? && EnsureTokens(b.a).Go? {
      assert Good(e, b.a);
      CheckCancelKeeps(e, b.a);
    }
    hide CheckCancel;
  }

  lemma IssuedKeeps(e: Env, a: State, bytes: nat)
    requires Good(e, a) && ShapeOf(a.messages) == Idle && e.historyBytes(a.messages) <= MAX_PROVIDER_HISTORY_BYTES
    requires EstimateTokens(bytes) + e.maxOutputTokens <= MAX_TOTAL_TOKENS_PER_RUN - a.budget
    ensures Safe(e, Issued(a, bytes))
  {
    hide ShapeOf, Mail;
  }

  lemma AnswerKeeps(e: Env, a: State, reply: Reply, bytes: nat)
    requires Good(e, a) && Safe(e, Issued(a, bytes)) && reply.Reply?
    ensures var r := Answer(e, Issued(a, bytes), reply, bytes);
            && Safe(e, r.a) && !r.Final? && (r.Halt? ==> r.why != TooManyRecords)
            && (r.Go? ==> Good(e, r.a) && r.a.messages == a.messages + [Assistant(reply.content, reply.calls)]
                          && r.a.requests == a.requests + [a.messages] && r.a.delivered == a.delivered)
  {
    AppendKeeps(a, Assistant(reply.content, reply.calls));
    var b := RecordResponse(e, Issued(a, bytes), reply, bytes);
    hide ShapeOf, Updates, Trimmed, Jobs.MailboxOk;
    if b.Go? {
      assert Good(e, b.a);
      CheckCancelKeeps(e, b.a);
    }
    hide CheckCancel;
  }

  /** A final answer: everything accepted was in the very request it answers, and the
      mailbox is closed. */
  ghost predicate Concluded(e: Env, a: State, content: Text) {
    && !Blank(content) && a.requests != []
    && a.messages == a.requests[|a.requests| - 1] + [Assistant(content, [])]
    && ShapeOf(a.messages) == Idle
    && (!a.box.cancelSet && e.steerable ==>
          && a.accepted == a.delivered
          && Updates(a.requests[|a.requests| - 1]) == Trimmed(a.accepted)
          && !a.box.accepting)
  }

  lemma FinalizeKeeps(e: Env, a: State, content: Text, turn: nat)
    requires Good(e, a) && a.requests != []
    requires a.messages == a.requests[|a.requests| - 1] + [Assistant(content, [])]
    ensures var r := FinalizeOrSteer(e, a, content, turn);
            && Safe(e, r.a) && (r.Halt? ==> r.why != TooManyRecords)
            && (r.Go? ==> Good(e, r.a) && ShapeOf(r.a.messages) == Idle)
            && (r.Final? ==> r.content == content && Good(e, r.a) && Concluded(e, r.a, content))
  {
    hide ShapeOf, Poll, Updates, Trimmed, Blank, Jobs.MailboxOk;
    assert Good(e, a);
    var last := a.requests[|a.requests| - 1];
    ShapeSnoc(last, Assistant(content, []));
    LastIsIdle(e, a);
    if Blank(content) {
      AppendKeeps(a, Nudge);
      ShapeSnoc(a.messages, Nudge);
      hide Mail;
    } else {
      PolledGood(e, a, true);
      var (b, updates) := Poll(e, a, true);
      if updates != [] {
        SteeredKeeps(b, updates);
        hide Mail, Steered;
        assert Due(e, Steered(b, updates), []) by { SteeredDue(e, b, updates); }
      } else {
        FinalConcluded(e, b, content);
      }
    }
  }

  lemma LastIsIdle(e: Env, a: State)
    requires Good(e, a) && a.requests != []
    ensures ShapeOf(a.requests[|a.requests| - 1]) == Idle
  {
  }

  lemma SteeredDue(e: Env, b: State, updates: seq<Text>)
    requires Due(e, b, updates)
    ensures Due(e, Steered(b, updates), [])
  {
    SteeredKeeps(b, updates);
    hide Mail, ShapeOf;
  }

  lemma FinalConcluded(e: Env, b: State, content: Text)
    requires Good(e, b) && b.requests != [] && !Blank(content)
    requires e.steerable ==> b.box.messages == [] && !b.box.accepting
    requires b.messages == b.requests[|b.requests| - 1] + [Assistant(content, [])]
    ensures Concluded(e, b, content)
  {
    var last := b.requests[|b.requests| - 1];
    ShapeSnoc(last, Assistant(content, []));
    UpdatesSnoc(last, Assistant(content, []));
    hide ShapeOf, Updates, Trimmed, Jobs.MailboxOk, Blank;
    assert b.delivered + [] == b.delivered;
  }

  lemma {:induction false} TurnKeeps(e: Env, a: State, turn: nat)
    requires Good(e, a) && ShapeOf(a.messages) == Idle
    ensures var r := Turn(e, a, turn);
            && Safe(e, r.a) && (r.Halt? ==> r.why != TooManyRecords)
            && (r.Go? ==> Good(e, r.a) && ShapeOf(r.a.messages) == Idle)
            && (r.Final? ==> Good(e, r.a) && Concluded(e, r.a, r.content))
  {
    PrepareKeeps(e, a);
    var b := Prepare(e, a);
    hide Prepare, FinalizeOrSteer, ExecutePlanned, Good, Safe, ShapeOf, EstimateTokens, Concluded;
    if b.Go? {
      var bytes := e.requestBytes(b.a.messages);
      var reply := e.reply(turn);
      IssuedKeeps(e, b.a, bytes);
      if reply.Reply? {
        AnswerKeeps(e, b.a, reply, bytes);
        var c := Answer(e, Issued(b.a, bytes), reply, bytes);
        hide Answer;
        if c.Go? {
          ShapeSnoc(b.a.messages, Assistant(reply.content, reply.calls));
          if reply.calls == [] {
            FinalizeKeeps(e, c.a, reply.content, turn);
          } else {
            ExecutePlannedKeeps(e, c.a, reply.calls);
          }
        }
      }
    }
  }

  lemma {:induction false} TurnsKeep(e: Env, a: State, turn: nat)
    requires Good(e, a) && ShapeOf(a.messages) == Idle
    ensures var r := Turns(e, a, turn);
            && !r.Go? && Safe(e, r.a) && (r.Halt? ==> r.why != TooManyRecords)
            && (r.Final? ==> Good(e, r.a) && Concluded(e, r.a, r.content))
    decreases e.maxTurns - turn
  {
    assert Safe(e, a);
    hide Good, Safe, ShapeOf, Concluded, Turn;
    if turn < e.maxTurns {
      TurnKeeps(e, a, turn);
      var b := Turn(e, a, turn);
      if b.Go? {
        TurnsKeep(e, b.a, turn + 1);
        assert Turns(e, a, turn) == Turns(e, b.a, turn + 1);
      } else {
        assert Turns(e, a, turn) == b;
      }
    }
  }

  lemma InitialGood(e: Env, box: Jobs.Job)
    requires Jobs.MailboxOk(box)
    ensures Good(e, Initial(box)) && ShapeOf(Initial(box).messages) == Idle
  {
    assert [System, Task][..1] == [System];
    assert Updates([System, Task]) == [];
    assert [] + box.messages == box.messages;
  }

  // The main results, over every run

  /** Every request of every run, however it ends, carries a history in which each call is
      answered exactly once and in order. */
  lemma {:induction false} EveryRequestWellFormed(e: Env, box: Jobs.Job, i: nat, k: nat)
    requires Jobs.MailboxOk(box)
    requires var a := Run(e, box).a; i < |a.requests| && k < |a.requests[i]| && a.requests[i][k].Assistant?
    ensures var request := Run(e, box).a.requests[i];
            exists ran :: AnsweredAt(request, k, ran)
  {
    InitialGood(e, box);
    TurnsKeep(e, Initial(box), 0);
    EveryCallAnswered(Run(e, box).a.requests[i], k);
  }

  /** The requests of all turns together, re-sent history included, stay below what the
      token budget pays for; so do the calls, the journaled mutations and the bytes offered
      to the workspace, and the record list never overflows. */
  lemma {:induction false} RunWithinBudgets(e: Env, box: Jobs.Job)
    requires Jobs.MailboxOk(box)
    ensures var r := Run(e, box);
            && (r.a.requests != [] ==> r.a.sent <= 4 * (MAX_TOTAL_TOKENS_PER_RUN - e.maxOutputTokens))
            && |r.a.mutations| <= r.a.toolCalls <= MAX_TOOL_CALLS_PER_RUN
            && r.a.offered <= MAX_MUTATION_BYTES_PER_RUN
            && (r.Halt? ==> r.why != TooManyRecords)
            && r.a.prompt + r.a.completion <= r.a.budget
            && (r.Final? ==> r.a.budget <= MAX_TOTAL_TOKENS_PER_RUN)
  {
    InitialGood(e, box);
    TurnsKeep(e, Initial(box), 0);
  }

  /** No accepted steering is lost: the request that a completed run answers contains all of
      it, in order, and nothing can be accepted afterwards. */
  lemma NoSteeringLost(e: Env, box: Jobs.Job, later: Text)
    requires Jobs.MailboxOk(box) && e.steerable
    requires Run(e, box).Final? && !Run(e, box).a.box.cancelSet
    ensures var a := Run(e, box).a;
            && a.requests != []
            && a.messages == a.requests[|a.requests| - 1] + [Assistant(Run(e, box).content, [])]
            && !Jobs.Admission(a.box, later).Queue?
            && (var seen := Updates(a.requests[|a.requests| - 1]);
                |seen| == |a.accepted| && forall i | 0 <= i < |seen| :: seen[i] == Strip(a.accepted[i]))
  {
    InitialGood(e, box);
    TurnsKeep(e, Initial(box), 0);
    TrimmedWhole(Run(e, box).a.accepted);
    hide Turns, Good, Safe, ShapeOf, Updates, Trimmed, Initial;
  }
}
