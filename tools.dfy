/** The three tools the agent binds, which forward to the document server,
    and the dispatch of one batch of tool calls by name. */
module Tools {
  import opened Strings
  import opened Sorting
  import opened Paths
  import opened Messages
  import opened FileServer

  const ListTool: string := "list_files_tool"
  const ReadTool: string := "read_file_tool"
  const SaveTool: string := "save_file_tool"
  const UnknownTool: string := "Erro: Ferramenta desconhecida."

  // ------------------------------------------------------------- adapters

  /** `list_files_tool` as written: the server renders the listing as one text
      item per name and the adapter returns the text of the first item only. */
  function ListFilesToolAsWritten(files: Files): string
  {
    ListAvailableFiles(files)[0]
  }

  /** With two or more files the adapter as written reports exactly one name,
      the least, so the model never learns the others. */
  lemma ListFilesAsWrittenLosesNames(files: Files)
    requires |files| >= 2
    ensures ListFilesToolAsWritten(files) in files
    ensures forall n :: n in files && n != ListFilesToolAsWritten(files) ==> LexLt(ListFilesToolAsWritten(files), n)
    ensures exists n :: n in files && n != ListFilesToolAsWritten(files)
  {
    var r := ListAvailableFiles(files);
    assert r[0] in r && r[1] in r;
    forall n | n in files && n != r[0] ensures LexLt(r[0], n) {
      var k :| 0 <= k < |r| && r[k] == n;
      assert k > 0;
    }
  }

  /** `list_files_tool` as intended: the text of every item, one per line. */
  function ListFilesTool(files: Files): string
  {
    Join("\n", ListAvailableFiles(files))
  }

  /** Name `n` is item `k` of the sorted listing and sits at that item's
      place in the corrected listing text. */
  predicate ListedAt(files: Files, n: string, k: nat)
  {
    var r := ListAvailableFiles(files);
    k < |r| && r[k] == n &&
    Offset("\n", r, k) + |n| <= |ListFilesTool(files)| &&
    ListFilesTool(files)[Offset("\n", r, k)..Offset("\n", r, k) + |n|] == n
  }

  /** Every file of the sandbox appears in the corrected listing, at its place
      in the sorted order. */
  lemma ListFilesToolReportsEveryFile(files: Files, n: string)
    requires n in files
    ensures exists k :: ListedAt(files, n, k)
  {
    var r := ListAvailableFiles(files);
    FileListed(files, n);
    var k :| 0 <= k < |r| && r[k] == n;
    ItemListedAt(files, k);
  }

  lemma ItemListedAt(files: Files, k: nat)
    requires k < |ListAvailableFiles(files)|
    ensures ListedAt(files, ListAvailableFiles(files)[k], k)
  {
    JoinItem("\n", ListAvailableFiles(files), k);
  }

  /** An empty sandbox is reported with the sentinel text alone. */
  lemma ListFilesToolEmpty(files: Files)
    requires |files| == 0
    ensures ListFilesTool(files) == NoFilesFound
  {
  }

  /** How the list adapter turns the server's reply into the tool's text: the
      first text item alone, as the program does, or every item, one per line,
      as its description intends. */
  datatype ListAdapter = FirstItem | AllItems

  function ListReply(adapter: ListAdapter, files: Files): string
  {
    match adapter
    case FirstItem => ListFilesToolAsWritten(files)
    case AllItems => ListFilesTool(files)
  }

  /** With two or more files the two adapters answer a listing differently:
      the program's answer is one name, the intended one is longer. */
  lemma ListAdaptersDiffer(files: Files)
    requires |files| >= 2
    ensures |ListReply(FirstItem, files)| < |ListReply(AllItems, files)|
  {
    var r := ListAvailableFiles(files);
    JoinItem("\n", r, 1);
    assert Offset("\n", r, 1) == |r[0]| + 1;
  }

  // ------------------------------------------------------------- dispatch

  /** The result of one call: the text the tool returned and the sandbox after
      it, or `Failed` when the tool's argument validation raised. */
  datatype Outcome = Answered(text: string, files: Files) | Failed

  /** The arguments a known tool requires are present. */
  predicate ArgsPresent(call: ToolCall)
  {
    (call.name == ReadTool ==> "filename" in call.args) &&
    (call.name == SaveTool ==> "filename" in call.args && "content" in call.args)
  }

  /** One iteration of `tools_node`: dispatch by name to an adapter, or the
      unknown-tool text. */
  function InvokeTool(env: Env, adapter: ListAdapter, files: Files, call: ToolCall): (o: Outcome)
    ensures o.Failed? <==> !ArgsPresent(call)
    ensures call.name == ListTool ==> o == Answered(ListReply(adapter, files), files)
    ensures o.Answered? && call.name != SaveTool ==> o.files == files
    ensures o.Answered? && call.name == SaveTool ==>
              o.files == SavedFiles(files, call.args["filename"], call.args["content"])
    ensures call.name != ListTool && call.name != ReadTool && call.name != SaveTool ==>
              o == Answered(UnknownTool, files)
  {
    if call.name == ListTool then Answered(ListReply(adapter, files), files)
    else if call.name == ReadTool then
      if "filename" in call.args then Answered(ReadFileContent(env, files, call.args["filename"]), files)
      else Failed
    else if call.name == SaveTool then
      if "filename" in call.args && "content" in call.args then
        var filename := call.args["filename"];
        var content := call.args["content"];
        Answered(SaveReply(filename), SavedFiles(files, filename, content))
      else Failed
    else Answered(UnknownTool, files)
  }

  /** A way of running one tool call on the sandbox. */
  type Invoke = (Files, ToolCall) -> Outcome

  /** What `tools_node` produces for a batch of calls: the result messages, the
      sandbox afterwards, and whether a call raised (which stops the batch). */
  datatype Batch = Batch(outputs: seq<Message>, files: Files, raised: bool)

  /** The tool calls of a batch run one after another, each on the sandbox the
      previous ones left, with `invoke` running one call. */
  function RunCalls(invoke: Invoke, files: Files, calls: seq<ToolCall>): Batch
    decreases |calls|
  {
    if |calls| == 0 then Batch([], files, false)
    else
      var before := RunCalls(invoke, files, calls[..|calls| - 1]);
      var call := calls[|calls| - 1];
      if before.raised then before
      else
        match invoke(before.files, call)
        case Failed => Batch(before.outputs, before.files, true)
        case Answered(text, after) => Batch(before.outputs + [ToolMessage(text, call.id, call.name)], after, false)
  }

  /** The dispatch of `tools_node` as a function of the sandbox and the call. */
  function Dispatch(env: Env, adapter: ListAdapter): Invoke
  {
    (files: Files, call: ToolCall) => InvokeTool(env, adapter, files, call)
  }

  /** `tools_node` on the calls of the last message. */
  function RunBatch(env: Env, adapter: ListAdapter, files: Files, calls: seq<ToolCall>): Batch
  {
    RunCalls(Dispatch(env, adapter), files, calls)
  }

  /** One more call of a run that has not raised: a failure raises with the
      results so far, an answer adds its result and the sandbox it left. */
  lemma CallsStep(invoke: Invoke, files: Files, calls: seq<ToolCall>, i: nat, outputs: seq<Message>, current: Files)
    requires i < |calls| && RunCalls(invoke, files, calls[..i]) == Batch(outputs, current, false)
    ensures invoke(current, calls[i]).Failed? ==>
              RunCalls(invoke, files, calls[..i + 1]) == Batch(outputs, current, true)
    ensures invoke(current, calls[i]).Answered? ==>
              RunCalls(invoke, files, calls[..i + 1]) ==
                Batch(outputs + [ToolMessage(invoke(current, calls[i]).text, calls[i].id, calls[i].name)],
                      invoke(current, calls[i]).files, false)
  {
    assert calls[..i + 1][..i] == calls[..i];
  }

  /** The outcome of call `k` of a batch on the sandbox the calls before it left. */
  function OutcomeAt(invoke: Invoke, files: Files, calls: seq<ToolCall>, k: nat): Outcome
    requires k < |calls|
  {
    invoke(RunCalls(invoke, files, calls[..k]).files, calls[k])
  }

  lemma OutcomeAtPrefix(invoke: Invoke, files: Files, calls: seq<ToolCall>, n: nat, k: nat)
    requires k < n <= |calls|
    ensures OutcomeAt(invoke, files, calls[..n], k) == OutcomeAt(invoke, files, calls, k)
  {
    assert calls[..n][..k] == calls[..k];
    assert calls[..n][k] == calls[k];
  }

  /** Once a call has raised, the rest of the batch does not run. */
  lemma {:induction false} CallsRaisedStay(invoke: Invoke, files: Files, calls: seq<ToolCall>, i: nat)
    requires i <= |calls|
    requires RunCalls(invoke, files, calls[..i]).raised
    ensures RunCalls(invoke, files, calls) == RunCalls(invoke, files, calls[..i])
    decreases |calls| - i
  {
    if i < |calls| {
      var init := calls[..|calls| - 1];
      assert init[..i] == calls[..i];
      CallsRaisedStay(invoke, files, init, i);
    } else {
      assert calls[..i] == calls;
    }
  }

  lemma BatchRaisedStays(env: Env, adapter: ListAdapter, files: Files, calls: seq<ToolCall>, i: nat)
    requires i <= |calls|
    requires RunBatch(env, adapter, files, calls[..i]).raised
    ensures RunBatch(env, adapter, files, calls) == RunBatch(env, adapter, files, calls[..i])
  {
    CallsRaisedStay(Dispatch(env, adapter), files, calls, i);
  }

  /** A run of calls raises exactly when one of its calls fails. */
  lemma {:induction false} CallsRaisedIff(invoke: Invoke, files: Files, calls: seq<ToolCall>)
    ensures RunCalls(invoke, files, calls).raised <==>
              exists k :: 0 <= k < |calls| && OutcomeAt(invoke, files, calls, k).Failed?
    decreases |calls|
  {
    if |calls| > 0 {
      var n := |calls| - 1;
      var init := calls[..n];
      var b := RunCalls(invoke, files, calls);
      var bi := RunCalls(invoke, files, init);
      CallsRaisedIff(invoke, files, init);
      forall k | 0 <= k < n ensures OutcomeAt(invoke, files, init, k) == OutcomeAt(invoke, files, calls, k) {
        OutcomeAtPrefix(invoke, files, calls, n, k);
      }
      var last := OutcomeAt(invoke, files, calls, n);
      assert last == invoke(bi.files, calls[n]);
      assert b.raised <==> bi.raised || last.Failed?;
      if b.raised {
        if !bi.raised {
          assert OutcomeAt(invoke, files, calls, n).Failed?;
        } else {
          var k :| 0 <= k < n && OutcomeAt(invoke, files, init, k).Failed?;
          assert OutcomeAt(invoke, files, calls, k).Failed?;
        }
      }
      if exists k :: 0 <= k < |calls| && OutcomeAt(invoke, files, calls, k).Failed? {
        var k :| 0 <= k < |calls| && OutcomeAt(invoke, files, calls, k).Failed?;
        if k < n {
          assert OutcomeAt(invoke, files, init, k).Failed?;
        }
      }
    }
  }

  /** A batch raises exactly when one of its calls lacks a required argument. */
  lemma BatchRaisedIff(env: Env, adapter: ListAdapter, files: Files, calls: seq<ToolCall>)
    ensures RunBatch(env, adapter, files, calls).raised <==> exists k :: 0 <= k < |calls| && !ArgsPresent(calls[k])
  {
    CallsRaisedIff(Dispatch(env, adapter), files, calls);
    forall k | 0 <= k < |calls|
      ensures OutcomeAt(Dispatch(env, adapter), files, calls, k).Failed? <==> !ArgsPresent(calls[k])
    {
    }
  }

  /** In a run that does not raise, the calls before the last did not raise
      either, and the last call's answer comes after theirs. */
  lemma LastCallAnswered(invoke: Invoke, files: Files, calls: seq<ToolCall>)
    requires |calls| > 0 && !RunCalls(invoke, files, calls).raised
    ensures var n := |calls| - 1;
            var last := OutcomeAt(invoke, files, calls, n);
            !RunCalls(invoke, files, calls[..n]).raised && last.Answered? &&
            RunCalls(invoke, files, calls).outputs ==
              RunCalls(invoke, files, calls[..n]).outputs + [ToolMessage(last.text, calls[n].id, calls[n].name)]
  {
  }

  /** A run of calls that does not raise has one result per call. */
  lemma {:induction false} CallsLength(invoke: Invoke, files: Files, calls: seq<ToolCall>)
    ensures !RunCalls(invoke, files, calls).raised ==> |RunCalls(invoke, files, calls).outputs| == |calls|
    decreases |calls|
  {
    if |calls| > 0 && !RunCalls(invoke, files, calls).raised {
      LastCallAnswered(invoke, files, calls);
      CallsLength(invoke, files, calls[..|calls| - 1]);
    }
  }

  /** In a run of calls that does not raise, result `k` answers call `k` with
      what the call returns on the sandbox left by the calls before it. */
  lemma {:induction false} CallAnswered(invoke: Invoke, files: Files, calls: seq<ToolCall>, k: nat)
    requires k < |calls| && !RunCalls(invoke, files, calls).raised
    ensures k < |RunCalls(invoke, files, calls).outputs|
    ensures OutcomeAt(invoke, files, calls, k).Answered?
    ensures RunCalls(invoke, files, calls).outputs[k] ==
              ToolMessage(OutcomeAt(invoke, files, calls, k).text, calls[k].id, calls[k].name)
    decreases |calls|
  {
    var n := |calls| - 1;
    var init := calls[..n];
    LastCallAnswered(invoke, files, calls);
    CallsLength(invoke, files, init);
    if k < n {
      CallAnswered(invoke, files, init, k);
      OutcomeAtPrefix(invoke, files, calls, n, k);
      assert init[k] == calls[k];
    }
  }

  /** A run of calls that does not raise answers every call, in order, with
      that call's id and name, and the answer to call `k` is what the call
      returns on the sandbox left by the calls before it. */
  lemma CallsAnswerEveryCall(invoke: Invoke, files: Files, calls: seq<ToolCall>)
    ensures var b := RunCalls(invoke, files, calls);
            !b.raised ==>
              |b.outputs| == |calls| &&
              forall k :: 0 <= k < |calls| ==>
                OutcomeAt(invoke, files, calls, k).Answered? &&
                b.outputs[k] == ToolMessage(OutcomeAt(invoke, files, calls, k).text, calls[k].id, calls[k].name)
  {
    if !RunCalls(invoke, files, calls).raised {
      CallsLength(invoke, files, calls);
      forall k | 0 <= k < |calls|
        ensures OutcomeAt(invoke, files, calls, k).Answered?
        ensures RunCalls(invoke, files, calls).outputs[k] ==
                  ToolMessage(OutcomeAt(invoke, files, calls, k).text, calls[k].id, calls[k].name)
      {
        CallAnswered(invoke, files, calls, k);
      }
    }
  }

  /** A batch that does not raise answers every call, in order, with that
      call's id and name, and the answer to call `k` is what the named tool
      returns on the sandbox left by the calls before it. */
  lemma BatchAnswersEveryCall(env: Env, adapter: ListAdapter, files: Files, calls: seq<ToolCall>)
    ensures var b := RunBatch(env, adapter, files, calls);
            !b.raised ==>
              |b.outputs| == |calls| &&
              forall k :: 0 <= k < |calls| ==>
                InvokeTool(env, adapter, RunBatch(env, adapter, files, calls[..k]).files, calls[k]).Answered? &&
                b.outputs[k] == ToolMessage(InvokeTool(env, adapter, RunBatch(env, adapter, files, calls[..k]).files, calls[k]).text,
                                            calls[k].id, calls[k].name)
  {
    CallsAnswerEveryCall(Dispatch(env, adapter), files, calls);
  }

  /** The results of a run of calls that does not raise answer its calls one
      for one. */
  lemma CallsAnswer(invoke: Invoke, files: Files, calls: seq<ToolCall>)
    ensures !RunCalls(invoke, files, calls).raised ==> Answers(RunCalls(invoke, files, calls).outputs, calls)
  {
    CallsAnswerEveryCall(invoke, files, calls);
  }

  /** Only saves change the sandbox: a batch without a save call leaves it as
      it was. */
  lemma {:induction false} BatchWithoutSaveKeepsFiles(env: Env, adapter: ListAdapter, files: Files, calls: seq<ToolCall>)
    requires forall k :: 0 <= k < |calls| ==> calls[k].name != SaveTool
    ensures RunBatch(env, adapter, files, calls).files == files
    decreases |calls|
  {
    if |calls| > 0 {
      var init := calls[..|calls| - 1];
      assert forall k :: 0 <= k < |init| ==> init[k] == calls[k];
      BatchWithoutSaveKeepsFiles(env, adapter, files, init);
    }
  }

  /** Two calls that both answer give their two answers, in order. */
  lemma CallsOfTwo(invoke: Invoke, files: Files, a: ToolCall, b: ToolCall)
    requires invoke(files, a).Answered?
    requires invoke(invoke(files, a).files, b).Answered?
    ensures var first := invoke(files, a);
            var second := invoke(first.files, b);
            RunCalls(invoke, files, [a, b]) ==
              Batch([ToolMessage(first.text, a.id, a.name), ToolMessage(second.text, b.id, b.name)], second.files, false)
  {
    var first := invoke(files, a);
    assert [a][..0] == [];
    assert RunCalls(invoke, files, [a]) == Batch([ToolMessage(first.text, a.id, a.name)], first.files, false);
    assert [a, b][..1] == [a];
  }

  /** A read on the sandbox a save left returns the content written. */
  lemma InvokeReadAfterSave(env: Env, adapter: ListAdapter, files: Files, save: ToolCall, read: ToolCall)
    requires save.name == SaveTool && "filename" in save.args && "content" in save.args
    requires read.name == ReadTool && "filename" in read.args
    requires read.args["filename"] == SaveName(save.args["filename"])
    requires PlainName(SaveName(save.args["filename"]))
    requires LowerAscii(Suffix(SaveName(save.args["filename"]))) != ".pdf"
    requires LowerAscii(Suffix(SaveName(save.args["filename"]))) != ".html"
    ensures InvokeTool(env, adapter, files, save) ==
              Answered(SaveReply(save.args["filename"]), SavedFiles(files, save.args["filename"], save.args["content"]))
    ensures InvokeTool(env, adapter, SavedFiles(files, save.args["filename"], save.args["content"]), read) ==
              Answered(UniversalNewlines(save.args["content"]), SavedFiles(files, save.args["filename"], save.args["content"]))
  {
    SaveThenRead(env, files, save.args["filename"], save.args["content"]);
  }

  /** A save followed, in the same batch, by a read of the saved name returns
      the content written (as text mode reads it). */
  lemma SaveThenReadInOneBatch(env: Env, adapter: ListAdapter, files: Files, save: ToolCall, read: ToolCall)
    requires save.name == SaveTool && "filename" in save.args && "content" in save.args
    requires read.name == ReadTool && "filename" in read.args
    requires read.args["filename"] == SaveName(save.args["filename"])
    requires PlainName(SaveName(save.args["filename"]))
    requires LowerAscii(Suffix(SaveName(save.args["filename"]))) != ".pdf"
    requires LowerAscii(Suffix(SaveName(save.args["filename"]))) != ".html"
    ensures RunBatch(env, adapter, files, [save, read]).outputs ==
              [ToolMessage(SaveReply(save.args["filename"]), save.id, SaveTool),
               ToolMessage(UniversalNewlines(save.args["content"]), read.id, ReadTool)]
    ensures !RunBatch(env, adapter, files, [save, read]).raised
  {
    var d := Dispatch(env, adapter);
    InvokeReadAfterSave(env, adapter, files, save, read);
    var written := SavedFiles(files, save.args["filename"], save.args["content"]);
    assert d(files, save) == InvokeTool(env, adapter, files, save);
    assert d(written, read) == InvokeTool(env, adapter, written, read);
    CallsOfTwo(d, files, save, read);
  }
}
