# Legal assistant agent: sandboxed document server and agent loop

The system is a legal assistant made of two programs.

`file_server.py` is a document server exposed over MCP (Model Context Protocol). It owns one sandbox directory, `./dados_processos`, and offers three operations:

- list the files of the sandbox;
- read one file, as text, PDF or HTML;
- save a document into the sandbox.

Every failure comes back as a reply string, never as an exception.

`legal_agent.py` is the agent. A LangGraph graph alternates between two nodes:

- an *agent* node, which asks the language model for its next message;
- a *tools* node, which answers every tool call of that message through three tool adapters that forward to the server.

Each user query is one turn on the conversation thread `juiz_principal`, whose history the checkpointer keeps across turns. An interactive loop reads queries until an exit word.

The model has these parts:

- `strings.dfy`: the Python text operations used. These are `sep.join`, ASCII `lower()`, `str.isspace`, text-mode newline translation and `str(n)`.
- `sorting.dfy`: Python's `str` order and `sorted` over a set of names.
- `paths.dfy`: pathlib in lexical form. It covers parsing, `/`, `resolve()` (normalising `.` and `..`, where an absolute name replaces the base), `is_relative_to` as a prefix test on path components, `.name`, `.suffix`, and `os.path.basename`.
- `file_server.dfy`:
  - the sandbox is a map from file name to stored text;
  - the three operations are specification functions;
  - PDF page assembly is a method with a loop, proved against its function;
  - `Sandbox` is a class whose `SaveDocument` method overwrites one entry.
- `messages.dfy`: the message vocabulary (system, human, assistant with tool calls, tool result).
- `tools.dfy`: the tool adapters and the dispatch of one batch of tool calls, run in order on the sandbox each call leaves. The list adapter is a parameter with two values:
  - `FirstItem`, which keeps the first text item of the server's reply, as the program does;
  - `AllItems`, which keeps every item, one per line, as the tool's description intends (see "## Findings").
- `agent.dfy`:
  - the graph run as a function of an abstract provider (history to reply) and of the way one tool call is answered;
  - routing, and the per-turn seeding of the thread;
  - the interactive session.
- `app.dfy`: the running agent as a class. It holds the provider, the server's sandbox, the list adapter it was built with, and the checkpointer's thread store. The tools node, the graph loop, one turn and the session are methods, each proved equal to the run specification.

The graph has no iteration cap. A run therefore takes a `fuel` bound that counts node executions, and it reports `OutOfFuel` when the bound runs out.

Two places where the model follows the code rather than a reading of its intent:

- The plain-text read opens the file in text mode. Python then turns "\r\n" and a lone "\r" into "\n". A save followed by a read returns exactly the content saved only when the content has no carriage return (`SaveThenRead`, `CarriageReturnNotPreserved`).
- `Path("./dados_processos")` drops the `.` component. The directory named in replies is therefore `dados_processos`.

## Model

| member | source | states |
|---|---|---|
| FileServer.TargetPathParsed | file_server.py:11 | The sandbox path `./dados_processos` parses to the one relative component `dados_processos`. |
| Paths.SplitSlashRoundTrip | file_server.py:55 | Splitting a path string on "/" loses nothing: joining the pieces with "/" gives the string back, and no piece holds a "/". |
| Paths.Resolve | file_server.py:55-56 | `resolve()` normalises "." and ".." lexically, and an absolute name replaces the base. Its result holds no "", "." or ".." component. |
| Paths.NormalizeIsCanonical | file_server.py:55-56 | The normalised path holds no "", "." or ".." component, and normalising again changes nothing. |
| Paths.IsRelativeTo | file_server.py:56 | `is_relative_to` is a prefix test on components. SiblingWithSharedPrefixRejected shows how this differs from a text test. |
| Paths.Suffix | file_server.py:62 | When the last "." is neither the first nor the last character, the suffix is the tail from that "."; otherwise it is empty. A non-empty suffix is a proper tail of the name that starts with its only "." and holds at least one character after it. |
| Paths.SuffixOfExtension | file_server.py:62 | A stem, a "." and an extension without dots has "." plus that extension as suffix. |
| Paths.Basename | file_server.py:83 | The basename holds no "/". It is a tail of the name given, and a "/" comes right before it when it is not the whole name. |
| Strings.UniversalNewlines | file_server.py:68-69 | Text-mode reading leaves no carriage return and never lengthens the text. |
| Strings.UniversalNewlinesKeepsPlainText | file_server.py:68-69 | Text without carriage returns reads back unchanged. |
| Strings.UniversalNewlinesCrLf | file_server.py:68-69 | A "\r\n" between two pieces without carriage returns reads as one "\n". |
| Strings.Repr | file_server.py:70-71 | `repr` of a path uses single quotes, or double quotes when the path holds a single quote and no double quote. Inside the quotes it escapes the quote in use, the backslash and the unprintable characters below U+0100. ReprOfPlainText and ReprOfOneSingleQuote state its two cases. |
| Strings.ReprOfPlainText | file_server.py:70-71 | A text without quotes, backslashes or unprintable characters is shown between single quotes as it is. |
| Strings.ReprOfOneSingleQuote | file_server.py:70-71 | A single quote in a text without double quotes switches to double quotes, and the single quote itself is not escaped. |
| Sorting.SortedNames | file_server.py:47 | `sorted` of a set of names has one entry per name, contains exactly those names, and is strictly increasing. |
| FileServer.ListAvailableFiles | file_server.py:46-47 | An empty sandbox gives exactly the "no files" sentinel. Otherwise the result is strictly increasing in Python string order, has one entry per file, and contains exactly the names of the files. |
| FileServer.FileListed | file_server.py:46-47 | Every file of the sandbox appears in the listing. |
| FileServer.ListedNamesReachTheirFiles | file_server.py:46-69 | In a sandbox whose names are all plain file names, every listed name is inside the sandbox and reaches the stored text of that file. |
| FileServer.ListingIsTheSortedOrder | file_server.py:46-47 | Any strictly sorted sequence of exactly the file names equals the listing. The result therefore does not depend on the order in which the directory is enumerated, and it is the same on every call while nothing is written. |
| FileServer.PageMarker | file_server.py:25 | The marker put before page n. PageMarkerRoundTrip states what it shows. |
| FileServer.PageMarkerRoundTrip | file_server.py:25 | The number a page marker shows reads back as its page number, so markers of different pages differ. |
| FileServer.PageBlocks | file_server.py:22-25 | The list the loop builds, one block per page with text. PageBlocksSpec states its contents. |
| FileServer.PagesWithTextSpec | file_server.py:22-24 | The kept page indices are exactly the pages whose text is non-empty, in increasing order. |
| FileServer.PageBlocksSpec | file_server.py:22-25 | There is one block per kept page. Block j is the marker "--- PÁGINA n ---\n" followed by that page's text, where n is the page's 1-based position in the whole document. |
| FileServer.PdfTextLayout | file_server.py:22-26 | In the assembled PDF text, block j (the marker of the j-th page with text, then that page's text) sits at its offset. The text ends with the last block: nothing follows it. |
| FileServer.PdfText | file_server.py:18-28 | The text of a parsed PDF: the kept blocks joined with "\n", or "[ERRO NO PDF: …]" with the message of the parse failure. PdfTextLayout and PdfBlocksSeparated state its layout. |
| FileServer.PdfBlocksSeparated | file_server.py:26 | Consecutive blocks of the assembled text are separated by exactly one "\n". |
| FileServer.ExtractTextFromPdf | file_server.py:18-28 | The loop that appends one block per page with text, then the join, computes the specified PDF text. A parse failure gives the "[ERRO NO PDF: …]" reply. |
| FileServer.ReadFileContent | file_server.py:52-71 | Reading tests containment first, then existence, then dispatches on the suffix. The lemmas in the rows below state each of these steps. |
| FileServer.IsADirectory | file_server.py:70-71 | The message of the error raised when a directory is opened: "[Errno 21] Is a directory: " followed by the `repr` of the path. |
| FileServer.IsADirectoryOfPlainPath | file_server.py:70-71 | For a path that needs no escape, that message shows the path between single quotes. |
| FileServer.RootShape | file_server.py:56 | The resolved sandbox root is the normalised working directory followed by `dados_processos`. |
| FileServer.PlainNameTarget | file_server.py:55-56 | A plain file name resolves to the path directly below the root, so it is inside the sandbox. |
| FileServer.ReadOutsideRejected | file_server.py:55-57 | For a name whose resolved path is outside the root, the reply is the security error whatever the sandbox holds. Nothing is looked up. |
| FileServer.ResolveParentThen | file_server.py:55 | `../x` resolves to `x` beside the root. |
| FileServer.ParentEscapeRejected | file_server.py:55-57 | `../x` escapes the sandbox and is refused with the security error, for every x other than the root's own name. |
| FileServer.AbsoluteEscapeRejected | file_server.py:55-56 | An absolute name `/a/b` replaces the sandbox path and is not inside it, unless one of its components is the root's name. |
| FileServer.SiblingWithSharedPrefixRejected | file_server.py:55-56 | A sibling such as `../dados_processos_old` has text that starts with the root's text, yet it is outside the sandbox: containment compares components, not text. |
| FileServer.MissingPlainNameNotFound | file_server.py:56-60 | A plain name that no file has gives "Arquivo não encontrado.". The containment test passes first. |
| FileServer.ReadingTheRootIsAnError | file_server.py:59-71 | Reading `.` reaches the root itself, which exists and is a directory. The reply is "Erro: " followed by the is-a-directory message. |
| FileServer.ReadingTheRootShowsItsPath | file_server.py:59-71 | When the root path needs no escape, reading `.` replies "Erro: [Errno 21] Is a directory: '<root>'". |
| FileServer.ReadDispatchesOnSuffix | file_server.py:62-69 | A stored file is read by its lower-cased suffix: `.pdf` goes to PDF extraction, `.html` to HTML extraction, and anything else returns the stored text as text mode reads it. |
| FileServer.UpperCasePdfIsExtracted | file_server.py:62-64 | A stored file whose name ends in ".PDF" still goes to PDF extraction, since the suffix is compared lower-cased. |
| FileServer.SaveName | file_server.py:83 | A save writes under the basename of the name given. Paths.Basename states its properties. |
| FileServer.SaveReply | file_server.py:83-93 | The reply starts with the success text exactly when the basename is a plain file name, and the success text then names that basename. The reply starts with "Erro ao salvar: " exactly when the basename is not plain, and then states the is-a-directory error. |
| FileServer.SavedFiles | file_server.py:83-89 | After a save, the basename's entry holds exactly the content. Every other entry is unchanged, and no other name appears or disappears. A basename that denotes a directory writes nothing. A sandbox holding only plain names still does after the save. |
| FileServer.SaveWritesInsideSandbox | file_server.py:83-84 | The one path a save writes resolves directly below the root, whatever the name given. |
| FileServer.SaveThenRead | file_server.py:67-69 | Reading a saved name back, when its suffix is neither `.pdf` nor `.html`, gives the content after newline translation. Without carriage returns, that is the content itself. |
| FileServer.CarriageReturnNotPreserved | file_server.py:68-69 | A saved "\r\n" reads back as "\n", so for such content the round trip is not exact. |
| FileServer.Sandbox.SaveDocument | file_server.py:75-93 | The method changes the sandbox to the specified saved directory and returns the specified reply. It keeps the sandbox's names plain. |
| Tools.ListFilesToolAsWritten | legal_agent.py:92-93 | The program's list adapter: the first text item of the server's reply, which is the first name of the listing. |
| Tools.ListFilesTool | legal_agent.py:90-93 | The list adapter as its description intends: every item of the server's reply, one per line. |
| Tools.ListFilesAsWrittenLosesNames | legal_agent.py:92-93 | With two or more files, the adapter as written reports one file's name, the least. At least one other file is never reported. |
| Tools.ListFilesToolReportsEveryFile | legal_agent.py:92-93 | The corrected adapter reports every file of the sandbox, each at its place in the sorted listing. |
| Tools.ListFilesToolEmpty | legal_agent.py:92-93 | For an empty sandbox the corrected adapter reports the sentinel text alone. |
| Tools.ListReply | legal_agent.py:92-93 | The text of a listing under each adapter: `FirstItem` is the program's, `AllItems` the intended one. |
| Tools.ListAdaptersDiffer | legal_agent.py:92-93 | With two or more files, the program's listing text is strictly shorter than the intended one. |
| Tools.InvokeTool | legal_agent.py:88-105 | A call fails exactly when a required argument is missing. Only a successful save changes the sandbox, and it changes it to the saved directory. An unknown name returns "Erro: Ferramenta desconhecida." without touching the server. The list branch answers with the chosen adapter. |
| Tools.RunCalls | legal_agent.py:118-138 | The calls of a batch run in order, each on the sandbox the earlier calls left. A call that raises stops the batch. The lemmas in the rows below state what a batch produces. |
| Tools.RunBatch | legal_agent.py:118-138 | `tools_node` on the calls of the last message, with the tools' own dispatch. |
| Tools.CallsRaisedStay | legal_agent.py:121-131 | Once a call of a batch has raised, the rest of the batch does not run. |
| Tools.BatchRaisedStays | legal_agent.py:121-131 | The same for the tools node's own dispatch. |
| Tools.CallsRaisedIff | legal_agent.py:121-131 | A batch raises exactly when one of its calls fails on the sandbox that the calls before it left. |
| Tools.BatchRaisedIff | legal_agent.py:121-131 | A batch raises exactly when one of its calls lacks a required argument. |
| Tools.CallsLength | legal_agent.py:121-137 | A batch that does not raise has one result per call. |
| Tools.CallAnswered | legal_agent.py:121-137 | In a batch that does not raise, result k answers call k, with its id and name, with what that call returns on the sandbox that the calls before it left. |
| Tools.CallsAnswerEveryCall | legal_agent.py:118-138 | A batch that does not raise answers every call in order. Each result carries its call's id and name and the text the call returned. |
| Tools.BatchAnswersEveryCall | legal_agent.py:118-138 | The same for the tools node's own dispatch: the text of result k is what the named tool returns on the sandbox that calls 0..k-1 left. |
| Tools.CallsAnswer | legal_agent.py:118-138 | The results of a batch that does not raise answer its calls one for one. |
| Tools.BatchWithoutSaveKeepsFiles | legal_agent.py:124-129 | A batch without a save call leaves the sandbox as it was. |
| Tools.SaveThenReadInOneBatch | legal_agent.py:121-137 | A save followed in the same batch by a read of the saved name answers both calls. The read returns the content written, as text mode reads it. |
| Agent.AgentNode | legal_agent.py:115-116 | The provider's reply to the whole history, as one assistant message, or nothing when the provider raises. FinishedRunIsRounds states its place in a run. |
| Agent.ShouldContinue | legal_agent.py:140-141 | The route after an assistant message: to the tools when it carries tool calls, otherwise to END. RouteFollowsLastCalls relates it to the tools node. |
| Agent.Run | legal_agent.py:143-149 | The compiled graph: START to the agent, the agent to the tools or END, the tools back to the agent. A node that raises ends the run. The lemmas in the rows below state its properties. |
| Agent.RouteFollowsLastCalls | legal_agent.py:140-141 | After an assistant message, the route goes to the tools exactly when the tools node will have calls to answer, namely that message's calls. |
| Agent.RunAppendOnly | legal_agent.py:113 | The history is append-only: a run keeps every message it started with, in place. |
| Agent.FinishedRunIsRounds | legal_agent.py:143-149 | A run that reaches END has added whole rounds. Each agent message is the provider's reply to the full history before it. Each batch of tool calls is answered in full, in order, before the provider is asked again. |
| Agent.RoundsEndWithAnswer | legal_agent.py:140-149 | Whole rounds end with an assistant message that asks for no tool. |
| Agent.FinishedRunEndsWithAnswer | legal_agent.py:140-149 | A run ends at END only right after an assistant message without tool calls. |
| Agent.Turn | legal_agent.py:172-181 | One turn: the stored thread with the system instruction and the query appended, run from START. |
| Agent.TurnKeepsThread | legal_agent.py:172-181 | A turn keeps all earlier messages of the thread, then the system instruction, then the query. |
| Agent.Classify | legal_agent.py:198-203 | Classifies one typed line: an exit word quits, a blank line is skipped, any other line is a query. The exit words are tested first. |
| Agent.Session | legal_agent.py:194-206 | The interactive loop over the typed lines. A turn that does not reach END ends it. |
| Agent.SessionStopsAtQuit | legal_agent.py:198-200 | Nothing typed after an exit word (`sair`, `exit`, `quit`, in any ASCII case) is run. |
| Agent.BlankIsNoQuitWord | legal_agent.py:198-203 | A blank line is never an exit word. |
| Agent.BlankQuerySkipped | legal_agent.py:202-203 | A whitespace-only query runs nothing: the session goes on as if it had not been typed. |
| Agent.SessionKeepsThread | legal_agent.py:194-206 | Over a session the stored thread only grows. Earlier turns are kept. |
| Agent.SessionAnswersAtMostOnePerQuery | legal_agent.py:194-206 | A session reports at most one answer per query. |
| App.AgentApp.CallTool | legal_agent.py:124-131 | One call through an adapter gives exactly the specified outcome on the server's sandbox, with the app's list adapter. A call that raises leaves the sandbox unchanged. |
| App.AgentApp.ToolsNode | legal_agent.py:118-138 | The loop over the last message's calls yields exactly the specified batch: the results, the sandbox after them, and whether a call raised. |
| App.AgentApp.AgentRound | legal_agent.py:115-116 | The agent step, as a method, ends the run or continues at the tools exactly as the run specification does. |
| App.AgentApp.ToolsRound | legal_agent.py:118-138 | The tools step, as a method, ends the run raising or continues at the agent exactly as the run specification does. |
| App.AgentApp.RunGraph | legal_agent.py:143-149 | The alternating loop computes exactly the specified run: the final history, the sandbox and how it ended. |
| App.AgentApp.RunAgentProcess | legal_agent.py:172-183 | A turn seeds the stored thread, runs the graph, and stores the final history under `juiz_principal`. When the run reaches END, the turn reports the last message's content. |
| App.AgentApp.RunSession | legal_agent.py:194-206 | The interactive loop yields exactly the specified session: the answers, the stored thread and the sandbox. The histories stored for other threads are left as they were. |

## Left out

- The real filesystem:
  - The sandbox holds regular files directly under the root. Subdirectories, symbolic links, `mkdir` and `is_file` are not modelled, and `resolve()` is lexical.
  - Byte decoding with `errors="ignore"` is not modelled: a stored file is already text.
- OS errors: the only operating-system error modelled is "is a directory". It covers reading the root, and saving to a basename that is "", "." or "..". Other failures, and the error reply of listing at file_server.py:48-49, are not modelled.
- PDF and HTML parsing: the PDF library and BeautifulSoup are parameters. One gives a file's page texts or an error message; the other gives a file's extracted text.
- `repr` of a path escapes only the unprintable characters below U+0100. Python also escapes higher unprintable characters, such as U+2028; the model keeps them as they are.
- The sandbox's names: the specification functions accept any map from name to text. Only the `Sandbox` class keeps its names plain (no "", ".", ".." or "/"), as a directory's entries are.
- Names holding a NUL character: Python refuses them with a `ValueError` ("embedded null byte"), which the tools turn into their error replies. The model treats such a name as an ordinary one.
- Lower-casing: only ASCII letters are lowered. That is exact for the comparisons with `.pdf`, `.html` and the exit words.
- Two conversions to text are not modelled:
  - tool arguments are taken as text;
  - `str(res)` of a non-text tool result is not modelled.
- The language model and its configuration (`get_llm`, environment variables, `.env`): the provider is an abstract function from history to reply or error.
- The MCP transport, sessions and `async` are not modelled: calls are sequential plain calls.
  - The read and save adapters keep the first text item of the server's reply, which is the whole reply.
  - The list adapter keeps the first item under `FirstItem`, as the program does, and every item under `AllItems`.
  - The run, turn and session definitions take the tool dispatch as a parameter, so they hold for both adapters.
- The checkpointer: it is a map from thread id to history. Crash recovery is not modelled, and neither is the id-based merging of the `add_messages` reducer (messages are appended).
- LangGraph's own recursion limit is not modelled. Termination is bounded by `fuel`, and `OutOfFuel` is an outcome of the model only.
- Output: console printing, the text of the system instruction, and the `KeyboardInterrupt` handler (legal_agent.py:208-209) are not modelled.
- AbsoluteEscapeRejected: states only that `/a/b` is outside the sandbox. The security-error reply then follows from ReadOutsideRejected.
- SiblingWithSharedPrefixRejected: states only that the sibling is outside the sandbox. The reply then follows from ReadOutsideRejected.
- SaveThenRead: the exact round trip is stated for content without carriage returns. Text-mode reading translates them.

## Findings

| source | as written | input that shows it | evidently intended | confidence | as-written member | corrected member |
|---|---|---|---|---|---|---|
| legal_agent.py:92-93 | `list_files_tool` returns only `result.content[0].text`. The server renders a returned list as one text item per element. | The sandbox holds `a.txt` and `b.txt`: the tool reports only `a.txt`. | Report every file, one name per line. | medium, not executed | Tools.ListFilesAsWrittenLosesNames | Tools.ListFilesToolReportsEveryFile |
