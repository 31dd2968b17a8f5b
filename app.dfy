/** The running agent: the sandbox it drives through its tools, the provider,
    and the conversation store, with the graph's nodes and loop, one turn and
    the interactive session as methods proved against the run specification. */
module App {
  import opened Strings
  import opened Messages
  import opened FileServer
  import opened Tools
  import opened Agent

  /** The conversation thread every turn uses. */
  const ThreadId: string := "juiz_principal"

  class AgentApp {
    const provider: Provider
    const instruction: string
    const server: Sandbox
    /** How `list_files_tool` reads the server's reply. */
    const adapter: ListAdapter
    /** The checkpointer's store: the history kept for each thread. */
    var threads: map<string, seq<Message>>

    constructor (provider: Provider, instruction: string, server: Sandbox, adapter: ListAdapter)
      ensures this.provider == provider && this.instruction == instruction && this.server == server
      ensures this.adapter == adapter
      ensures threads == map[]
    {
      this.provider := provider;
      this.instruction := instruction;
      this.server := server;
      this.adapter := adapter;
      threads := map[];
    }

    /** The history stored for the conversation thread, empty before the first turn. */
    function Thread(): seq<Message>
      reads this
    {
      if ThreadId in threads then threads[ThreadId] else []
    }

    /** One tool call: the adapter named, forwarding to the server, or the
        unknown-tool text without contacting it. */
    method CallTool(call: ToolCall) returns (text: string, raised: bool)
      requires server.Valid()
      modifies server
      ensures server.Valid()
      ensures InvokeTool(server.env, adapter, old(server.files), call) == (if raised then Failed else Answered(text, server.files))
      ensures raised ==> server.files == old(server.files)
    {
      raised := false;
      if call.name == ListTool {
        text := ListReply(adapter, server.files);
      } else if call.name == ReadTool {
        if "filename" in call.args {
          text := ReadFileContent(server.env, server.files, call.args["filename"]);
        } else {
          text, raised := "", true;
        }
      } else if call.name == SaveTool {
        if "filename" in call.args && "content" in call.args {
          text := server.SaveDocument(call.args["filename"], call.args["content"]);
        } else {
          text, raised := "", true;
        }
      } else {
        text := UnknownTool;
      }
    }

    /** `tools_node`: the calls of the last message, in order, each answered by
        a result message with the call's id and name; a call that raises ends
        the node. */
    method ToolsNode(history: seq<Message>) returns (outputs: seq<Message>, raised: bool)
      requires server.Valid()
      modifies server
      ensures server.Valid()
      ensures RunCalls(Dispatch(server.env, adapter), old(server.files), LastToolCalls(history)) == Batch(outputs, server.files, raised)
    {
      var calls := LastToolCalls(history);
      outputs, raised := [], false;
      var i := 0;
      while i < |calls|
        invariant 0 <= i <= |calls|
        invariant server.Valid()
        invariant RunCalls(Dispatch(server.env, adapter), old(server.files), calls[..i]) == Batch(outputs, server.files, false)
      {
        ghost var current := server.files;
        CallsStep(Dispatch(server.env, adapter), old(server.files), calls, i, outputs, current);
        assert Dispatch(server.env, adapter)(current, calls[i]) == InvokeTool(server.env, adapter, current, calls[i]);
        var text, failed := CallTool(calls[i]);
        if failed {
          raised := true;
          CallsRaisedStay(Dispatch(server.env, adapter), old(server.files), calls, i + 1);
          return;
        }
        outputs := outputs + [ToolMessage(text, calls[i].id, calls[i].name)];
        i := i + 1;
      }
      assert calls[..i] == calls;
    }

    /** The agent node as one step of the graph: the provider's reply is
        appended, then the route either ends the run or goes on at the tools;
        a provider error ends it raising. */
    method AgentRound(history: seq<Message>, left: nat) returns (next: seq<Message>, ended: Option<Status>)
      requires left > 0
      ensures ended.Some? ==> Run(Dispatch(server.env, adapter), provider, AtAgent, history, server.files, left)
                              == RunResult(next, server.files, ended.value)
      ensures ended.None? ==> Run(Dispatch(server.env, adapter), provider, AtAgent, history, server.files, left)
                              == Run(Dispatch(server.env, adapter), provider, AtTools, next, server.files, left - 1)
    {
      AgentStep(Dispatch(server.env, adapter), provider, history, server.files, left);
      var reply := provider(history);
      if reply.ProviderError? {
        next, ended := history, Some(Raised);
        return;
      }
      next := history + [AiMessage(reply.content, reply.toolCalls)];
      if ShouldContinue(next) == ToEnd {
        ended := Some(Finished);
      } else {
        ended := None;
      }
    }

    /** The tools node as one step of the graph: the run from the tools is the
        run from the agent on the extended history, or ends raising. */
    method ToolsRound(history: seq<Message>, left: nat) returns (next: seq<Message>, raised: bool)
      requires left > 0 && server.Valid()
      modifies server
      ensures server.Valid()
      ensures raised ==> Run(Dispatch(server.env, adapter), provider, AtTools, history, old(server.files), left)
                         == RunResult(history, server.files, Raised)
      ensures !raised ==> Run(Dispatch(server.env, adapter), provider, AtTools, history, old(server.files), left)
                          == Run(Dispatch(server.env, adapter), provider, AtAgent, next, server.files, left - 1)
    {
      ToolsStep(Dispatch(server.env, adapter), provider, history, server.files, left);
      var outputs;
      outputs, raised := ToolsNode(history);
      next := history + outputs;
    }

    /** The compiled graph invoked on `start`: agent and tools alternate until an
        agent message without tool calls, a raise, or the end of `fuel`. */
    method RunGraph(start: seq<Message>, fuel: nat) returns (history: seq<Message>, status: Status)
      requires server.Valid()
      modifies server
      ensures server.Valid()
      ensures Run(Dispatch(server.env, adapter), provider, AtAgent, start, old(server.files), fuel) == RunResult(history, server.files, status)
    {
      var node := AtAgent;
      var left := fuel;
      history := start;
      while true
        invariant server.Valid()
        invariant Run(Dispatch(server.env, adapter), provider, node, history, server.files, left)
                  == Run(Dispatch(server.env, adapter), provider, AtAgent, start, old(server.files), fuel)
        decreases left
      {
        if left == 0 {
          status := OutOfFuel;
          return;
        }
        if node == AtAgent {
          var next, ended := AgentRound(history, left);
          history := next;
          if ended.Some? {
            status := ended.value;
            return;
          }
          node := AtTools;
        } else {
          var next, raised := ToolsRound(history, left);
          if raised {
            status := Raised;
            return;
          }
          history := next;
          node := AtAgent;
        }
        left := left - 1;
      }
    }

    /** `run_agent_process`: seed the thread with the instruction and the query,
        run the graph, store the final history for the thread and report the
        last message's content. */
    method RunAgentProcess(query: string, fuel: nat) returns (answer: Option<string>, status: Status)
      requires server.Valid()
      modifies this, server
      ensures server.Valid()
      ensures var o := Turn(Dispatch(server.env, adapter), provider, instruction, old(Thread()), old(server.files), query, fuel);
              threads == old(threads)[ThreadId := o.history] && server.files == o.files && status == o.status &&
              answer == (if o.status == Finished then Some(LastContent(o.history)) else None)
    {
      var seed := Thread() + [SystemMessage(instruction), HumanMessage(query)];
      var history;
      history, status := RunGraph(seed, fuel);
      threads := threads[ThreadId := history];
      answer := if status == Finished then Some(LastContent(history)) else None;
    }

    /** The `__main__` loop: one turn per query typed, until an exit word, the
        end of input, or a turn that raises. */
    method RunSession(queries: seq<string>, fuel: nat) returns (answers: seq<string>)
      requires server.Valid()
      modifies this, server
      ensures server.Valid()
      ensures threads - {ThreadId} == old(threads) - {ThreadId}
      ensures var s := Session(Dispatch(server.env, adapter), provider, instruction, old(Thread()), old(server.files), queries, fuel);
              answers == s.answers && Thread() == s.thread && server.files == s.files
    {
      answers := [];
      ghost var total := Session(Dispatch(server.env, adapter), provider, instruction, Thread(), server.files, queries, fuel);
      var i := 0;
      while i < |queries|
        invariant 0 <= i <= |queries|
        invariant server.Valid()
        invariant threads - {ThreadId} == old(threads) - {ThreadId}
        invariant var r := Session(Dispatch(server.env, adapter), provider, instruction, Thread(), server.files, queries[i..], fuel);
                  total == SessionResult(answers + r.answers, r.thread, r.files)
        decreases |queries| - i
      {
        assert queries[i..][1..] == queries[i + 1..];
        var command := Classify(queries[i]);
        if command == Quit {
          return;
        }
        if command.Ask? {
          var answer, status := RunAgentProcess(command.query, fuel);
          if status != Finished {
            return;
          }
          answers := answers + [answer.value];
        }
        i := i + 1;
      }
    }
  }
}
