/** The agent graph: an agent node that asks the provider for the next
    message, a tools node that answers the tool calls of that message, the
    routing between them, the per-turn seeding of the conversation thread and
    the interactive loop over the user's queries. */
module Agent {
  import opened Strings
  import opened Messages
  import opened FileServer
  import opened Tools

  /** The language model bound to the three tools: the next reply as a
      function of the whole history it is given. */
  type Provider = seq<Message> -> ProviderReply

  datatype Route = ToTools | ToEnd

  /** `should_continue`: on to the tools while the last message asks for tools. */
  function ShouldContinue(history: seq<Message>): Route
    requires |history| > 0 && history[|history| - 1].AiMessage?
  {
    if |history[|history| - 1].toolCalls| > 0 then ToTools else ToEnd
  }

  /** The tool calls `tools_node` answers: those of the last message. */
  function LastToolCalls(history: seq<Message>): seq<ToolCall>
  {
    if |history| > 0 && history[|history| - 1].AiMessage? then history[|history| - 1].toolCalls else []
  }

  /** The route goes to the tools exactly when the tools node will have calls
      to answer: the calls of the message just added. */
  lemma RouteFollowsLastCalls(history: seq<Message>, m: Message)
    requires m.AiMessage?
    ensures ShouldContinue(history + [m]) == ToTools <==> |LastToolCalls(history + [m])| > 0
    ensures LastToolCalls(history + [m]) == m.toolCalls
  {
  }

  /** `agent_node`: the provider's reply as an assistant message, or nothing
      when the provider raised. */
  function AgentNode(provider: Provider, history: seq<Message>): Option<Message>
  {
    match provider(history)
    case ProviderError(_) => None
    case Reply(content, calls) => Some(AiMessage(content, calls))
  }

  datatype Node = AtAgent | AtTools

  /** How a run of the graph ended: at END, by an exception out of a node, or
      because the fuel bound of the model ran out. */
  datatype Status = Finished | Raised | OutOfFuel

  datatype RunResult = RunResult(history: seq<Message>, files: Files, status: Status)

  /** The compiled graph run from `node`, with `invoke` running each tool
      call: START leads to the agent, the agent to the tools or END, the
      tools back to the agent. Each node executed
      costs one unit of `fuel`. A node that raises commits nothing to the
      history; saves done before the failing call stay on disk. */
  function Run(invoke: Invoke, provider: Provider, node: Node, history: seq<Message>, files: Files, fuel: nat): RunResult
    decreases fuel
  {
    if fuel == 0 then RunResult(history, files, OutOfFuel)
    else
      match node
      case AtAgent =>
        (match AgentNode(provider, history)
         case None => RunResult(history, files, Raised)
         case Some(m) =>
           var h := history + [m];
           if ShouldContinue(h) == ToTools then Run(invoke, provider, AtTools, h, files, fuel - 1)
           else RunResult(h, files, Finished))
      case AtTools =>
        var b := RunCalls(invoke, files, LastToolCalls(history));
        if b.raised then RunResult(history, b.files, Raised)
        else Run(invoke, provider, AtAgent, history + b.outputs, b.files, fuel - 1)
  }

  /** The history is append-only: a run only ever adds messages after the ones
      it started with. */
  lemma {:induction false} RunAppendOnly(invoke: Invoke, provider: Provider, node: Node, history: seq<Message>, files: Files, fuel: nat)
    ensures var o := Run(invoke, provider, node, history, files, fuel);
            |history| <= |o.history| && o.history[..|history|] == history
    decreases fuel, 1
  {
    if node == AtAgent {
      AgentRunAppendOnly(invoke, provider, history, files, fuel);
    } else {
      ToolsRunAppendOnly(invoke, provider, history, files, fuel);
    }
  }

  lemma {:induction false} AgentRunAppendOnly(invoke: Invoke, provider: Provider, history: seq<Message>, files: Files, fuel: nat)
    ensures var o := Run(invoke, provider, AtAgent, history, files, fuel);
            |history| <= |o.history| && o.history[..|history|] == history
    decreases fuel, 0
  {
    if fuel > 0 {
      var m := AgentNode(provider, history);
      if m.Some? {
        var h := history + [m.value];
        if ShouldContinue(h) == ToTools {
          RunAppendOnly(invoke, provider, AtTools, h, files, fuel - 1);
          assert h[..|history|] == history;
        }
      }
    }
  }

  lemma {:induction false} ToolsRunAppendOnly(invoke: Invoke, provider: Provider, history: seq<Message>, files: Files, fuel: nat)
    ensures var o := Run(invoke, provider, AtTools, history, files, fuel);
            |history| <= |o.history| && o.history[..|history|] == history
    decreases fuel, 0
  {
    if fuel > 0 {
      var b := RunCalls(invoke, files, LastToolCalls(history));
      if !b.raised {
        var h := history + b.outputs;
        RunAppendOnly(invoke, provider, AtAgent, h, b.files, fuel - 1);
        assert h[..|history|] == history;
      }
    }
  }

  /** The messages a finished run adds after `before`, starting at the agent:
      the provider's reply to the history so far; if that reply asks for
      tools, one result per call, in order, and then again, until a reply that
      asks for none. */
  predicate Rounds(provider: Provider, before: seq<Message>, added: seq<Message>)
    decreases |added|
  {
    |added| > 0 && added[0].AiMessage? &&
    provider(before) == Reply(added[0].content, added[0].toolCalls) &&
    (if |added[0].toolCalls| == 0 then |added| == 1
     else
       var n := 1 + |added[0].toolCalls|;
       n < |added| && Answers(added[1..n], added[0].toolCalls) &&
       Rounds(provider, before + added[..n], added[n..]))
  }

  /** A run from the agent that reaches END has added whole rounds: every
      message the agent added is the provider's reply to the full history
      before it, and every batch of tool calls is answered in full, in order,
      before the provider is asked again. */
  lemma {:induction false} FinishedRunIsRounds(invoke: Invoke, provider: Provider, history: seq<Message>, files: Files, fuel: nat)
    ensures var o := Run(invoke, provider, AtAgent, history, files, fuel);
            o.status == Finished ==>
              |history| < |o.history| && Rounds(provider, history, o.history[|history|..])
    decreases fuel, 1
  {
    var o := Run(invoke, provider, AtAgent, history, files, fuel);
    if fuel > 0 && o.status == Finished {
      AgentStep(invoke, provider, history, files, fuel);
      var reply := provider(history);
      var m := AiMessage(reply.content, reply.toolCalls);
      if |m.toolCalls| == 0 {
        assert o.history == history + [m];
        assert o.history[|history|..] == [m];
      } else {
        FinishedToolsRound(invoke, provider, history, m, files, fuel - 1);
      }
    }
  }

  /** The round that starts with a reply asking for tools: the batch answers
      every call and the run goes on at the agent with whole rounds. */
  lemma {:induction false} FinishedToolsRound(invoke: Invoke, provider: Provider, history: seq<Message>, m: Message,
                                             files: Files, fuel: nat)
    requires m.AiMessage? && |m.toolCalls| > 0 && provider(history) == Reply(m.content, m.toolCalls)
    ensures var o := Run(invoke, provider, AtTools, history + [m], files, fuel);
            o.status == Finished ==>
              |history| < |o.history| && Rounds(provider, history, o.history[|history|..])
    decreases fuel, 0
  {
    var h := history + [m];
    var o := Run(invoke, provider, AtTools, h, files, fuel);
    if o.status == Finished {
      assert LastToolCalls(h) == m.toolCalls;
      ToolsStepToAgent(invoke, provider, h, files, fuel);
      var b := RunCalls(invoke, files, m.toolCalls);
      var h2 := h + b.outputs;
      FinishedRunIsRounds(invoke, provider, h2, b.files, fuel - 1);
      RunAppendOnly(invoke, provider, AtAgent, h2, b.files, fuel - 1);
      CallsAnswer(invoke, files, m.toolCalls);
      RoundThenRounds(provider, history, m, b.outputs, o.history);
    }
  }

  /** A history that extends one round after `history` with whole rounds has
      whole rounds after `history`. */
  lemma RoundThenRounds(provider: Provider, history: seq<Message>, m: Message, outs: seq<Message>, full: seq<Message>)
    requires m.AiMessage? && |m.toolCalls| > 0 && provider(history) == Reply(m.content, m.toolCalls)
    requires Answers(outs, m.toolCalls)
    requires |history + [m] + outs| < |full| && full[..|history + [m] + outs|] == history + [m] + outs
    requires Rounds(provider, history + [m] + outs, full[|history + [m] + outs|..])
    ensures |history| < |full| && Rounds(provider, history, full[|history|..])
  {
    var h2 := history + [m] + outs;
    var rest := full[|h2|..];
    assert full == h2 + rest;
    RoundsCons(provider, history, m, outs, rest);
    SplitAfter(history, [m], outs, rest);
  }

  /** One step at the agent: a provider error raises, otherwise the reply is
      appended and the route chooses the tools or END. */
  lemma AgentStep(invoke: Invoke, provider: Provider, history: seq<Message>, files: Files, fuel: nat)
    requires fuel > 0
    ensures provider(history).ProviderError? ==>
              Run(invoke, provider, AtAgent, history, files, fuel) == RunResult(history, files, Raised)
    ensures provider(history).Reply? ==>
              var h := history + [AiMessage(provider(history).content, provider(history).toolCalls)];
              Run(invoke, provider, AtAgent, history, files, fuel) ==
                if |provider(history).toolCalls| > 0 then Run(invoke, provider, AtTools, h, files, fuel - 1)
                else RunResult(h, files, Finished)
  {
  }

  /** One step at the tools: a raising batch ends the run with the saves it
      made, otherwise its results are appended and the agent runs again. */
  lemma ToolsStep(invoke: Invoke, provider: Provider, history: seq<Message>, files: Files, fuel: nat)
    requires fuel > 0
    ensures var b := RunCalls(invoke, files, LastToolCalls(history));
            Run(invoke, provider, AtTools, history, files, fuel) ==
              if b.raised then RunResult(history, b.files, Raised)
              else Run(invoke, provider, AtAgent, history + b.outputs, b.files, fuel - 1)
  {
  }

  /** A run at the tools node that reaches END got past the batch without a
      raise and went on at the agent. */
  lemma ToolsStepToAgent(invoke: Invoke, provider: Provider, h: seq<Message>, files: Files, fuel: nat)
    requires Run(invoke, provider, AtTools, h, files, fuel).status == Finished
    ensures fuel > 0 && !RunCalls(invoke, files, LastToolCalls(h)).raised
    ensures Run(invoke, provider, AtTools, h, files, fuel)
            == Run(invoke, provider, AtAgent, h + RunCalls(invoke, files, LastToolCalls(h)).outputs,
                   RunCalls(invoke, files, LastToolCalls(h)).files, fuel - 1)
  {
  }

  lemma SplitAfter(a: seq<Message>, b: seq<Message>, c: seq<Message>, d: seq<Message>)
    ensures a + b + c + d == a + (b + c + d)
    ensures (a + (b + c + d))[|a|..] == b + c + d
  {
  }

  /** One round (a reply asking for tools and its answers) before further rounds. */
  lemma RoundsCons(provider: Provider, before: seq<Message>, m: Message, outs: seq<Message>, rest: seq<Message>)
    requires m.AiMessage? && |m.toolCalls| > 0
    requires provider(before) == Reply(m.content, m.toolCalls)
    requires Answers(outs, m.toolCalls)
    requires Rounds(provider, before + [m] + outs, rest)
    ensures Rounds(provider, before, [m] + outs + rest)
  {
    var added := [m] + outs + rest;
    var n := 1 + |m.toolCalls|;
    assert added[0] == m;
    assert added[..n] == [m] + outs;
    assert added[1..n] == outs;
    assert added[n..] == rest;
    assert before + added[..n] == before + [m] + outs;
  }

  /** Rounds end with an assistant message that asks for no tool. */
  lemma {:induction false} RoundsEndWithAnswer(provider: Provider, before: seq<Message>, added: seq<Message>)
    requires Rounds(provider, before, added)
    ensures added[|added| - 1].AiMessage? && |added[|added| - 1].toolCalls| == 0
    decreases |added|
  {
    if |added[0].toolCalls| > 0 {
      var n := 1 + |added[0].toolCalls|;
      RoundsEndWithAnswer(provider, before + added[..n], added[n..]);
      assert added[n..][|added[n..]| - 1] == added[|added| - 1];
    }
  }

  /** The text reported at the end of a turn: the content of the last message. */
  function LastContent(history: seq<Message>): string
  {
    if |history| == 0 then "" else history[|history| - 1].content
  }

  /** A run that reaches END stops right after an assistant message without
      tool calls, and that message's content is the answer reported. */
  lemma FinishedRunEndsWithAnswer(invoke: Invoke, provider: Provider, history: seq<Message>, files: Files, fuel: nat)
    ensures var o := Run(invoke, provider, AtAgent, history, files, fuel);
            o.status == Finished ==>
              |o.history| > 0 && o.history[|o.history| - 1].AiMessage? &&
              |o.history[|o.history| - 1].toolCalls| == 0
  {
    var o := Run(invoke, provider, AtAgent, history, files, fuel);
    if o.status == Finished {
      FinishedRunIsRounds(invoke, provider, history, files, fuel);
      var added := o.history[|history|..];
      RoundsEndWithAnswer(provider, history, added);
      assert added[|added| - 1] == o.history[|o.history| - 1];
    }
  }

  // ----------------------------------------------------------------- turns

  /** `run_agent_process`: the thread's stored history gets the system
      instruction and the user's query appended, and the graph runs from START
      with `invoke` answering the tool calls. */
  function Turn(invoke: Invoke, provider: Provider, instruction: string, thread: seq<Message>, files: Files,
                query: string, fuel: nat): RunResult
  {
    Run(invoke, provider, AtAgent, thread + [SystemMessage(instruction), HumanMessage(query)], files, fuel)
  }

  /** A turn keeps every message of the earlier turns, then the instruction and
      the query, in that order. */
  lemma TurnKeepsThread(invoke: Invoke, provider: Provider, instruction: string, thread: seq<Message>, files: Files,
                        query: string, fuel: nat)
    ensures var o := Turn(invoke, provider, instruction, thread, files, query, fuel);
            |thread| + 2 <= |o.history| && o.history[..|thread|] == thread &&
            o.history[|thread|] == SystemMessage(instruction) && o.history[|thread| + 1] == HumanMessage(query)
  {
    var seed := thread + [SystemMessage(instruction), HumanMessage(query)];
    RunAppendOnly(invoke, provider, AtAgent, seed, files, fuel);
    var o := Turn(invoke, provider, instruction, thread, files, query, fuel);
    assert o.history[..|seed|][..|thread|] == o.history[..|thread|];
    assert seed[|thread|] == o.history[..|seed|][|thread|];
    assert seed[|thread| + 1] == o.history[..|seed|][|thread| + 1];
  }

  // --------------------------------------------------------------- session

  /** What the interactive loop does with one line the user typed. */
  datatype Command = Quit | Skip | Ask(query: string)

  predicate IsQuitWord(q: string)
  {
    LowerAscii(q) == "sair" || LowerAscii(q) == "exit" || LowerAscii(q) == "quit"
  }

  /** The exit words are tested first, then a blank line is skipped. */
  function Classify(q: string): Command
  {
    if IsQuitWord(q) then Quit else if IsBlank(q) then Skip else Ask(q)
  }

  datatype SessionResult = SessionResult(answers: seq<string>, thread: seq<Message>, files: Files)

  /** The `__main__` loop over the queries typed, in order: it stops at an exit
      word, at the end of input, or when a turn does not reach END (the
      exception ends the program); a blank query runs nothing. */
  function Session(invoke: Invoke, provider: Provider, instruction: string, thread: seq<Message>, files: Files,
                   queries: seq<string>, fuel: nat): SessionResult
    decreases |queries|
  {
    if |queries| == 0 then SessionResult([], thread, files)
    else
      match Classify(queries[0])
      case Quit => SessionResult([], thread, files)
      case Skip => Session(invoke, provider, instruction, thread, files, queries[1..], fuel)
      case Ask(q) =>
        var o := Turn(invoke, provider, instruction, thread, files, q, fuel);
        if o.status == Finished then
          var rest := Session(invoke, provider, instruction, o.history, o.files, queries[1..], fuel);
          SessionResult([LastContent(o.history)] + rest.answers, rest.thread, rest.files)
        else SessionResult([], o.history, o.files)
  }

  /** Nothing typed after an exit word is run. */
  lemma {:induction false} SessionStopsAtQuit(invoke: Invoke, provider: Provider, instruction: string, thread: seq<Message>,
                                             files: Files, queries: seq<string>, fuel: nat, k: nat)
    requires k < |queries| && IsQuitWord(queries[k])
    ensures Session(invoke, provider, instruction, thread, files, queries, fuel)
            == Session(invoke, provider, instruction, thread, files, queries[..k], fuel)
    decreases k
  {
    if k == 0 {
      assert queries[..0] == [];
    } else {
      assert queries[..k][0] == queries[0];
      assert queries[..k][1..] == queries[1..][..k - 1];
      match Classify(queries[0])
      case Quit =>
      case Skip =>
        SessionStopsAtQuit(invoke, provider, instruction, thread, files, queries[1..], fuel, k - 1);
      case Ask(q) =>
        var o := Turn(invoke, provider, instruction, thread, files, q, fuel);
        if o.status == Finished {
          SessionStopsAtQuit(invoke, provider, instruction, o.history, o.files, queries[1..], fuel, k - 1);
        }
    }
  }

  /** No exit word is blank, so the order of the two tests does not matter
      for them. */
  lemma BlankIsNoQuitWord(q: string)
    requires IsBlank(q)
    ensures !IsQuitWord(q)
  {
    if |q| > 0 {
      assert IsSpace(q[0]);
      assert LowerAscii(q)[0] == q[0];
    }
  }

  /** A blank query changes nothing: the session continues as if it had not
      been typed. */
  lemma BlankQuerySkipped(invoke: Invoke, provider: Provider, instruction: string, thread: seq<Message>,
                          files: Files, queries: seq<string>, fuel: nat)
    requires |queries| > 0 && IsBlank(queries[0])
    ensures Session(invoke, provider, instruction, thread, files, queries, fuel)
            == Session(invoke, provider, instruction, thread, files, queries[1..], fuel)
  {
    BlankIsNoQuitWord(queries[0]);
  }

  /** The thread only grows over a session: earlier turns are kept. */
  lemma {:induction false} SessionKeepsThread(invoke: Invoke, provider: Provider, instruction: string, thread: seq<Message>,
                                             files: Files, queries: seq<string>, fuel: nat)
    ensures var s := Session(invoke, provider, instruction, thread, files, queries, fuel);
            |thread| <= |s.thread| && s.thread[..|thread|] == thread
    decreases |queries|
  {
    if |queries| > 0 {
      match Classify(queries[0])
      case Quit =>
      case Skip =>
        SessionKeepsThread(invoke, provider, instruction, thread, files, queries[1..], fuel);
      case Ask(q) =>
        var o := Turn(invoke, provider, instruction, thread, files, q, fuel);
        TurnKeepsThread(invoke, provider, instruction, thread, files, q, fuel);
        if o.status == Finished {
          SessionKeepsThread(invoke, provider, instruction, o.history, o.files, queries[1..], fuel);
          var s := Session(invoke, provider, instruction, o.history, o.files, queries[1..], fuel);
          assert s.thread[..|o.history|][..|thread|] == s.thread[..|thread|];
        }
    }
  }

  /** At most one answer per query typed. */
  lemma {:induction false} SessionAnswersAtMostOnePerQuery(invoke: Invoke, provider: Provider, instruction: string,
                                                          thread: seq<Message>, files: Files, queries: seq<string>, fuel: nat)
    ensures |Session(invoke, provider, instruction, thread, files, queries, fuel).answers| <= |queries|
    decreases |queries|
  {
    if |queries| > 0 {
      match Classify(queries[0])
      case Quit =>
      case Skip =>
        SessionAnswersAtMostOnePerQuery(invoke, provider, instruction, thread, files, queries[1..], fuel);
      case Ask(q) =>
        var o := Turn(invoke, provider, instruction, thread, files, q, fuel);
        if o.status == Finished {
          SessionAnswersAtMostOnePerQuery(invoke, provider, instruction, o.history, o.files, queries[1..], fuel);
        }
    }
  }
}
