/** The turn loop as it runs: each method does what the function of its name in
    `AgentLoop` says, and ends as that function says. The mailbox is the job's own. */
module AgentRun {
  import opened Wrappers
  import opened Unicode
  import opened Loop = AgentLoop
  import Jobs

  datatype Ending = Continue | Concludes(content: Text) | Stopped(why: Reason)

  function StepOf(a: State, x: Ending): Step {
    match x
    case Continue => Go(a)
    case Concludes(content) => Final(a, content)
    case Stopped(why) => Halt(a, why)
  }

  class Agent {
    const e: Env
    const job: Jobs.JobRecord
    var messages: seq<Msg>
    var prompt: nat
    var completion: nat
    var budget: nat
    var lastPrompt: nat
    var lastRequest: nat
    var toolCalls: nat
    var emptyFinals: nat
    var mutationUsed: nat
    var mutations: seq<Tx>
    var tick: nat
    ghost var accepted: seq<Text>
    ghost var delivered: seq<Text>
    ghost var requests: seq<seq<Msg>>
    ghost var sent: nat
    ghost var offered: nat

    constructor (e: Env, job: Jobs.JobRecord)
      ensures this.e == e && this.job == job && View() == Initial(job.View())
    {
      this.e, this.job := e, job;
      messages, mutations := [System, Task], [];
      prompt, completion, budget, lastPrompt, lastRequest := 0, 0, 0, 0, 0;
      toolCalls, emptyFinals, mutationUsed := 0, 0, 0;
      tick, accepted, delivered, requests, sent, offered := 0, job.messages, [], [], 0, 0;
    }

    ghost function View(): State
      reads this, job
    {
      State(messages, prompt, completion, budget, lastPrompt, lastRequest, toolCalls, emptyFinals, mutationUsed,
            mutations,
            job.View(), tick, accepted, delivered, requests, sent, offered)
    }

    /** The senders and the parent act. */
    method LetOthersAct()
      modifies this, job
      ensures View() == Outside(e, old(View()))
    {
      ghost var start := View();
      if e.steerable {
        var rest := e.sends(tick);
        while rest != []
          invariant Arrive(View(), rest) == Arrive(start, e.sends(start.tick)) && tick == start.tick
          decreases |rest|
        {
          var q := job.QueueMessage(rest[0]);
          if q.Queue? {
            accepted := accepted + [rest[0]];
          }
          rest := rest[1..];
        }
      }
      if e.cancels(tick) && !job.cancelSet {
        job.cancelSet := true;
        job.CloseMessages();
      }
      tick := tick + 1;
    }

    method CheckCancel() returns (x: Ending)
      modifies this, job
      ensures StepOf(View(), x) == Loop.CheckCancel(e, old(View()))
    {
      LetOthersAct();
      x := if job.cancelSet then Stopped(WasCancelled) else Continue;
    }

    method Poll(finalize: bool) returns (updates: seq<Text>)
      modifies this, job
      ensures (View(), updates) == Loop.Poll(e, old(View()), finalize)
    {
      LetOthersAct();
      if !e.steerable {
        return [];
      }
      var batch := job.DrainMessages(finalize);
      delivered := delivered + batch;
      updates := [];
      var i := |batch|;
      while i > 0
        invariant 0 <= i <= |batch| && updates == Trimmed(batch[i..])
      {
        i := i - 1;
        assert batch[i..][0] == batch[i] && batch[i..][1..] == batch[i + 1..];
        if Strip(batch[i]) != [] {
          updates := [Strip(batch[i])] + updates;
        }
      }
      assert batch[0..] == batch;
    }

    method AppendSteering(updates: seq<Text>)
      modifies this
      ensures View() == Steered(old(View()), updates)
    {
      if updates != [] {
        messages := messages + [Steering(updates)];
      }
    }

    method EnforceHistory() returns (x: Ending)
      ensures StepOf(View(), x) == Loop.EnforceHistory(e, View())
    {
      x := if e.historyBytes(messages) > MAX_PROVIDER_HISTORY_BYTES then Stopped(OutOfHistory) else Continue;
    }

    method CheckTime() returns (x: Ending)
      modifies this
      ensures StepOf(View(), x) == Loop.CheckTime(e, old(View()))
    {
      x := if e.late(tick) then Stopped(OutOfTime) else Continue;
      tick := tick + 1;
    }

    method EnsureTokens() returns (x: Ending)
      ensures StepOf(View(), x) == Loop.EnsureTokens(View())
    {
      var metered := Max(prompt + completion, budget);
      x := if metered >= MAX_TOTAL_TOKENS_PER_RUN then Stopped(OutOfTokens) else Continue;
    }

    method EnsureRequest(bytes: nat) returns (x: Ending)
      ensures StepOf(View(), x) == Loop.EnsureRequest(e, View(), bytes)
    {
      var used := Max(prompt + completion, budget);
      var growth := if bytes > lastRequest then bytes - lastRequest else 0;
      var reserved := Max(EstimateTokens(bytes), lastPrompt + EstimateTokens(growth)) + e.maxOutputTokens;
      x := if reserved > MAX_TOTAL_TOKENS_PER_RUN - used then Stopped(OutOfTokens) else Continue;
    }

    method Meter(usage: Option<Usage>, promptFloor: nat, completionFloor: nat, bytes: nat)
      modifies this
      ensures View() == Loop.Meter(old(View()), usage, promptFloor, completionFloor, bytes)
    {
      var prompted, completed := promptFloor, completionFloor;
      if usage.Some? {
        prompted := Max(prompted, usage.value.prompt);
        completed := Max(completed, usage.value.completion);
        prompt := prompt + usage.value.prompt;
        completion := completion + usage.value.completion;
      }
      budget := budget + prompted + completed;
      lastPrompt, lastRequest := prompted, bytes;
    }

    method RecordResponse(reply: Reply, bytes: nat) returns (x: Ending)
      requires reply.Reply?
      modifies this
      ensures StepOf(View(), x) == Loop.RecordResponse(e, old(View()), reply, bytes)
    {
      hide Loop.Meter;
      var message := Assistant(reply.content, reply.calls);
      Meter(reply.usage, EstimateTokens(bytes), EstimateTokens(e.messageBytes(message)), bytes);
      if Max(prompt + completion, budget) > MAX_TOTAL_TOKENS_PER_RUN {
        return Stopped(OutOfTokens);
      }
      messages := messages + [message];
      x := EnforceHistory();
    }

    method SteerBeforeTools(calls: seq<CallId>, updates: seq<Text>) returns (x: Ending)
      modifies this
      ensures StepOf(View(), x) == Loop.SteerBeforeTools(e, old(View()), calls, updates)
    {
      ghost var start := View();
      for i := 0 to |calls|
        invariant View() == start.(messages := start.messages + Skips(calls[..i]))
      {
        messages := messages + [Tool(calls[i], true)];
        assert Skips(calls[..i + 1]) == Skips(calls[..i]) + [Tool(calls[i], true)];
      }
      assert calls[..|calls|] == calls;
      AppendSteering(updates);
      x := EnforceHistory();
    }

    method Report(record: Option<Tx>) returns (x: Ending)
      modifies this
      ensures StepOf(View(), x) == Reported(old(View()), record)
    {
      if record.None? {
        return Continue;
      }
      if |mutations| >= MAX_MUTATION_RECORDS {
        return Stopped(TooManyRecords);
      }
      mutations := mutations + [record.value];
      return Continue;
    }

    method Execute() returns (x: Ending)
      modifies this
      ensures StepOf(View(), x) == Loop.Execute(e, old(View()))
    {
      hide Reported;
      var end := e.tool(toolCalls);
      toolCalls := toolCalls + 1;
      if end.spent > MAX_MUTATION_BYTES_PER_RUN - mutationUsed {
        return Stopped(ToolFailed);
      }
      offered := offered + end.spent;
      x := Report(end.record);
      if !x.Continue? {
        return;
      }
      if end.Raised? {
        return Stopped(ToolFailed);
      }
      mutationUsed := mutationUsed + end.spent;
    }

    method ExecuteAndRecord(id: CallId) returns (x: Ending)
      modifies this, job
      ensures StepOf(View(), x) == Loop.ExecuteAndRecord(e, old(View()), id)
    {
      hide Loop.Execute, Loop.CheckCancel;
      x := CheckTime();
      if x.Continue? {
        x := Execute();
        if x.Continue? {
          messages := messages + [Tool(id, false)];
          x := EnforceHistory();
          if x.Continue? {
            x := CheckCancel();
          }
        }
      }
    }

    method ExecutePlanned(calls: seq<CallId>) returns (x: Ending)
      modifies this, job
      ensures StepOf(View(), x) == Loop.ExecutePlanned(e, old(View()), calls)
    {
      hide Loop.CheckCancel, Loop.Poll, Loop.SteerBeforeTools, Loop.ExecuteAndRecord;
      x := CheckCancel();
      if !x.Continue? {
        return;
      }
      if |calls| > MAX_TOOL_CALLS_PER_TURN || toolCalls + |calls| > MAX_TOOL_CALLS_PER_RUN {
        return Stopped(TooManyCalls);
      }
      var updates := Poll(false);
      if updates != [] {
        x := SteerBeforeTools(calls, updates);
        return;
      }
      x := RunCalls(calls);
    }

    method RunCalls(calls: seq<CallId>) returns (x: Ending)
      modifies this, job
      ensures StepOf(View(), x) == Loop.RunCalls(e, old(View()), calls)
    {
      hide Loop.CheckCancel, Loop.Poll, Loop.SteerBeforeTools, Loop.ExecuteAndRecord;
      var rest := calls;
      while rest != []
        invariant Loop.RunCalls(e, View(), rest) == Loop.RunCalls(e, old(View()), calls)
        decreases |rest|
      {
        x := CheckCancel();
        if !x.Continue? {
          return;
        }
        var updates := Poll(false);
        if updates != [] {
          x := SteerBeforeTools(rest, updates);
          return;
        }
        x := ExecuteAndRecord(rest[0]);
        if !x.Continue? {
          return;
        }
        rest := rest[1..];
      }
      x := Continue;
    }

    method FinalizeOrSteer(content: Text, turn: nat) returns (x: Ending)
      modifies this, job
      ensures StepOf(View(), x) == Loop.FinalizeOrSteer(e, old(View()), content, turn)
    {
      hide Loop.Poll;
      if Blank(content) {
        if emptyFinals > 0 || turn + 1 >= e.maxTurns {
          return Stopped(EmptyAnswer);
        }
        emptyFinals := emptyFinals + 1;
        messages := messages + [Nudge];
        x := EnforceHistory();
        return;
      }
      var updates := Poll(true);
      if updates != [] {
        AppendSteering(updates);
        x := EnforceHistory();
        return;
      }
      return Concludes(content);
    }

    method Prepare() returns (x: Ending)
      modifies this, job
      ensures StepOf(View(), x) == Loop.Prepare(e, old(View()))
    {
      hide Loop.CheckCancel, Loop.Poll;
      x := CheckTime();
      if !x.Continue? { return; }
      x := EnsureTokens();
      if !x.Continue? { return; }
      x := CheckCancel();
      if !x.Continue? { return; }
      var updates := Poll(false);
      AppendSteering(updates);
      x := EnforceHistory();
      if !x.Continue? { return; }
      x := EnsureRequest(e.requestBytes(messages));
    }

    method RunTurn(turn: nat) returns (x: Ending)
      modifies this, job
      ensures StepOf(View(), x) == Turn(e, old(View()), turn)
    {
      hide Loop.Prepare, Loop.CheckCancel, Loop.RecordResponse, Loop.FinalizeOrSteer, Loop.ExecutePlanned;
      x := Prepare();
      if !x.Continue? { return; }
      var bytes := e.requestBytes(messages);
      requests, sent := requests + [messages], sent + bytes;
      var reply := e.reply(turn);
      if reply.NoReply? {
        return Stopped(ProviderFailed);
      }
      x := RecordResponse(reply, bytes);
      if !x.Continue? { return; }
      x := CheckCancel();
      if !x.Continue? { return; }
      if reply.calls == [] {
        x := FinalizeOrSteer(reply.content, turn);
      } else {
        x := ExecutePlanned(reply.calls);
      }
    }

    method RunAgent() returns (x: Ending)
      modifies this, job
      ensures StepOf(View(), x) == Turns(e, old(View()), 0)
    {
      hide Turn;
      var turn := 0;
      while turn < e.maxTurns
        invariant Turns(e, View(), turn) == Turns(e, old(View()), 0)
        decreases e.maxTurns - turn
      {
        x := RunTurn(turn);
        if !x.Continue? {
          return;
        }
        turn := turn + 1;
      }
      x := Stopped(OutOfTurns);
    }
  }
}
