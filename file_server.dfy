/** The sandboxed document server: it lists, reads and saves the files of
    one directory, `./dados_processos`, and assembles the text of a PDF from
    the texts of its pages. Every failure is a reply string, never an
    exception. The directory is a map from file name to stored text; it holds
    regular files only. */
module FileServer {
  import opened Strings
  import opened Paths
  import opened Sorting

  /** `TARGET_DIRECTORY` as written in the server. */
  const TargetDirectory: string := "./dados_processos"
  /** `Path("./dados_processos")`: pathlib drops the "." component. */
  const TargetPath: Path := Path(false, ["dados_processos"])
  /** `str(TARGET_DIRECTORY)`, as shown in replies. */
  const TargetDisplay: string := "dados_processos"

  const NoFilesFound: string := "Nenhum arquivo encontrado."
  const SecurityError: string := "ERRO DE SEGURANÇA."
  const FileNotFound: string := "Arquivo não encontrado."
  const SuccessPrefix: string := "Sucesso: Arquivo '"
  const SaveErrorPrefix: string := "Erro ao salvar: "

  /** The regular files of the sandbox: name to stored text. */
  type Files = map<string, string>

  /** Every name is a plain component: not "", "." or "..", no "/". */
  predicate ValidFiles(files: Files)
  {
    forall n :: n in files ==> PlainName(n)
  }

  /** What the PDF library makes of a file: the text of each page in order,
      or the message of the exception it raised. */
  datatype PdfParse = Pages(texts: seq<string>) | Unreadable(reason: string)

  /** What the server takes from its surroundings: the process's working
      directory (components below "/") and the two extraction libraries. */
  datatype Env = Env(cwd: seq<string>, parsePdf: string -> PdfParse, extractHtml: string -> string)

  /** `str(e)` for the error `open` raises on a directory: the path is shown
      as `repr` writes it. */
  function IsADirectory(path: string): string
  {
    "[Errno 21] Is a directory: " + Repr(path)
  }

  lemma TargetPathParsed()
    ensures ParsePath(TargetDirectory) == TargetPath
  {
    assert forall i :: 0 <= i < |TargetDisplay| ==> TargetDisplay[i] != '/';
    assert TargetDirectory == "./" + TargetDisplay;
    ParseDotSlash(TargetDisplay);
  }

  // ---------------------------------------------------------------- listing

  /** `list_available_files`: the sorted names, or the "no files" sentinel
      when the directory is empty. */
  function ListAvailableFiles(files: Files): (r: seq<string>)
    ensures |files| == 0 ==> r == [NoFilesFound]
    ensures |files| > 0 ==> StrictlySorted(r) && |r| == |files|
    ensures |files| > 0 ==> forall n :: n in r <==> n in files
  {
    if |files| == 0 then [NoFilesFound] else SortedNames(files.Keys)
  }

  /** Every file of the sandbox is listed. */
  lemma FileListed(files: Files, n: string)
    requires n in files
    ensures n in ListAvailableFiles(files)
  {
    assert n in files.Keys;
  }

  /** Every name listed for a non-empty sandbox is read as the file it names:
      it is inside the sandbox and reaches that file's stored text. */
  lemma ListedNamesReachTheirFiles(env: Env, files: Files, n: string)
    requires ValidFiles(files) && |files| > 0 && n in ListAvailableFiles(files)
    ensures n in files && InSandbox(env, n)
    ensures EntryAt(files, ReadTarget(env, n)[|Root(env)|..]) == RegularFile(files[n])
  {
    PlainNameTarget(env, n);
  }

  /** The listing is the one strictly increasing sequence of the file names, so
      it does not depend on the order the directory is enumerated in and is the
      same on every call while nothing is written. */
  lemma ListingIsTheSortedOrder(files: Files, names: seq<string>)
    requires |files| > 0
    requires StrictlySorted(names) && forall n :: n in names <==> n in files
    ensures ListAvailableFiles(files) == names
  {
    StrictlySortedUnique(ListAvailableFiles(files), names);
  }

  // ---------------------------------------------------------- PDF assembly

  /** The marker put before page `n` (counted from 1). */
  function PageMarker(n: nat): string
  {
    "--- PÁGINA " + NatToString(n) + " ---\n"
  }

  /** The page number a marker shows, read back from between its fixed
      parts. */
  function MarkerNumber(marker: string): int
    requires |marker| >= 16
  {
    DecimalValue(marker[11..|marker| - 5])
  }

  /** A marker shows the number of its page, so markers of different pages
      differ. */
  lemma PageMarkerRoundTrip(n: nat)
    ensures |PageMarker(n)| >= 16 && MarkerNumber(PageMarker(n)) == n
  {
    NatToStringRoundTrip(n);
    var d := NatToString(n);
    assert |"--- PÁGINA "| == 11 && |" ---\n"| == 5;
    assert PageMarker(n) == "--- PÁGINA " + (d + " ---\n");
    assert PageMarker(n)[11..|PageMarker(n)| - 5] == d;
  }

  /** The list `extract_text_from_pdf` builds: one block per page with text. */
  function PageBlocks(pages: seq<string>): seq<string>
    decreases |pages|
  {
    if |pages| == 0 then []
    else
      var k := |pages| - 1;
      PageBlocks(pages[..k]) + (if pages[k] != "" then [PageMarker(k + 1) + pages[k]] else [])
  }

  /** The indices, in increasing order, of the pages that have text. */
  function PagesWithText(pages: seq<string>): seq<nat>
    decreases |pages|
  {
    if |pages| == 0 then []
    else
      var k := |pages| - 1;
      PagesWithText(pages[..k]) + (if pages[k] != "" then [k] else [])
  }

  /** Exactly the pages with text are kept, in page order. */
  lemma {:induction false} PagesWithTextSpec(pages: seq<string>)
    ensures forall i :: i in PagesWithText(pages) <==> 0 <= i < |pages| && pages[i] != ""
    ensures forall a, b :: 0 <= a < b < |PagesWithText(pages)| ==>
              PagesWithText(pages)[a] < PagesWithText(pages)[b]
    decreases |pages|
  {
    if |pages| > 0 {
      var k := |pages| - 1;
      var prev := PagesWithText(pages[..k]);
      PagesWithTextSpec(pages[..k]);
      assert forall a :: 0 <= a < |prev| ==> prev[a] in prev;
      forall i ensures i in PagesWithText(pages) <==> 0 <= i < |pages| && pages[i] != "" {
        if 0 <= i < k { assert pages[..k][i] == pages[i]; }
      }
    }
  }

  /** Block `j` of the assembly is the marker of the `j`-th page with text,
      numbered by its place in the document, followed by that page's text. */
  lemma {:induction false} PageBlocksSpec(pages: seq<string>)
    ensures |PageBlocks(pages)| == |PagesWithText(pages)|
    ensures forall j :: 0 <= j < |PageBlocks(pages)| ==>
              PagesWithText(pages)[j] < |pages| && pages[PagesWithText(pages)[j]] != "" &&
              PageBlocks(pages)[j] == PageMarker(PagesWithText(pages)[j] + 1) + pages[PagesWithText(pages)[j]]
    decreases |pages|
  {
    if |pages| > 0 {
      var k := |pages| - 1;
      PageBlocksSpec(pages[..k]);
      forall j | 0 <= j < |PageBlocks(pages[..k])|
        ensures pages[..k][PagesWithText(pages[..k])[j]] == pages[PagesWithText(pages[..k])[j]]
      {
      }
    }
  }

  /** The text of a parsed PDF: the kept blocks joined with "\n", or the
      error marker. */
  function PdfText(parse: PdfParse): string
  {
    match parse
    case Pages(texts) => Join("\n", PageBlocks(texts))
    case Unreadable(reason) => "[ERRO NO PDF: " + reason + "]"
  }

  /** The text of a parsed PDF lays block `j` (page `PagesWithText[j]` with its
      marker) at its offset, and ends with the last block. */
  lemma PdfTextLayout(texts: seq<string>, j: nat)
    requires j < |PageBlocks(texts)|
    ensures |PagesWithText(texts)| == |PageBlocks(texts)|
    ensures PagesWithText(texts)[j] < |texts| && texts[PagesWithText(texts)[j]] != ""
    ensures var at := Offset("\n", PageBlocks(texts), j);
            var text := PdfText(Pages(texts));
            at + |PageBlocks(texts)[j]| <= |text| &&
            text[at..at + |PageBlocks(texts)[j]|]
              == PageMarker(PagesWithText(texts)[j] + 1) + texts[PagesWithText(texts)[j]]
    ensures |PdfText(Pages(texts))| == Offset("\n", PageBlocks(texts), |PageBlocks(texts)|) - 1
  {
    var blocks := PageBlocks(texts);
    var idx := PagesWithText(texts);
    PageBlocksSpec(texts);
    assert blocks[j] == PageMarker(idx[j] + 1) + texts[idx[j]];
    assert PdfText(Pages(texts)) == Join("\n", blocks);
    JoinItem("\n", blocks, j);
    JoinLength("\n", blocks);
  }

  /** Neighbouring blocks of the text of a parsed PDF are separated by
      exactly one "\n". */
  lemma PdfBlocksSeparated(texts: seq<string>, j: nat)
    requires j + 1 < |PageBlocks(texts)|
    ensures var blocks := PageBlocks(texts);
            var text := PdfText(Pages(texts));
            Offset("\n", blocks, j + 1) <= |text| &&
            text[Offset("\n", blocks, j) + |blocks[j]|..Offset("\n", blocks, j + 1)] == "\n"
  {
    assert PdfText(Pages(texts)) == Join("\n", PageBlocks(texts));
    JoinSeparator("\n", PageBlocks(texts), j);
  }

  /** `extract_text_from_pdf`: walks the pages, appending one block per page
      that has text, then joins the blocks with "\n". */
  method ExtractTextFromPdf(parse: PdfParse) returns (r: string)
    ensures r == PdfText(parse)
  {
    match parse
    case Unreadable(reason) =>
      r := "[ERRO NO PDF: " + reason + "]";
    case Pages(pages) =>
      var text: seq<string> := [];
      var i := 0;
      while i < |pages|
        invariant 0 <= i <= |pages|
        invariant text == PageBlocks(pages[..i])
      {
        assert pages[..i + 1][..i] == pages[..i];
        if pages[i] != "" {
          text := text + [PageMarker(i + 1) + pages[i]];
        }
        i := i + 1;
      }
      assert pages[..i] == pages;
      r := Join("\n", text);
  }

  // ---------------------------------------------------------------- reading

  /** What a resolved path inside the sandbox denotes. */
  datatype Entry = Absent | Directory | RegularFile(content: string)

  /** The entry `rel` (components below the root) names: the root itself, a
      file of the root, or nothing. */
  function EntryAt(files: Files, rel: seq<string>): Entry
  {
    if rel == [] then Directory
    else if |rel| == 1 && rel[0] in files then RegularFile(files[rel[0]])
    else Absent
  }

  /** `TARGET_DIRECTORY.resolve()`. */
  function Root(env: Env): seq<string>
  {
    Resolve(env.cwd, TargetPath)
  }

  /** `(TARGET_DIRECTORY / filename).resolve()`. */
  function ReadTarget(env: Env, filename: string): seq<string>
  {
    Resolve(env.cwd, JoinPath(TargetPath, filename))
  }

  /** The containment test of `read_file_content`. */
  predicate InSandbox(env: Env, filename: string)
  {
    IsRelativeTo(ReadTarget(env, filename), Root(env))
  }

  /** What `read_file_content` replies for an entry inside the sandbox at
      resolved path `target`: missing, or dispatched on the lower-cased suffix
      of its name. */
  function ReadEntry(env: Env, entry: Entry, target: seq<string>): string
  {
    var suffix := LowerAscii(Suffix(Name(target)));
    var shown := IsADirectory(AbsoluteString(target));
    match entry
    case Absent => FileNotFound
    case Directory =>
      if suffix == ".pdf" then PdfText(Unreadable(shown))
      else if suffix == ".html" then "[ERRO NO HTML: " + shown + "]"
      else "Erro: " + shown
    case RegularFile(content) =>
      if suffix == ".pdf" then PdfText(env.parsePdf(content))
      else if suffix == ".html" then env.extractHtml(content)
      else UniversalNewlines(content)
  }

  /** `read_file_content`: containment first, then existence, then dispatch on
      the lower-cased suffix. */
  function ReadFileContent(env: Env, files: Files, filename: string): string
  {
    if !InSandbox(env, filename) then SecurityError
    else
      var target := ReadTarget(env, filename);
      ReadEntry(env, EntryAt(files, target[|Root(env)|..]), target)
  }

  /** The root is the resolved working directory with "dados_processos" below it. */
  lemma RootShape(env: Env)
    ensures Root(env) == Normalize(env.cwd) + ["dados_processos"]
  {
    assert (env.cwd + ["dados_processos"])[..|env.cwd|] == env.cwd;
  }

  /** A plain name is looked up as that file of the sandbox. */
  lemma PlainNameTarget(env: Env, name: string)
    requires PlainName(name)
    ensures ReadTarget(env, name) == Root(env) + [name]
    ensures InSandbox(env, name)
    ensures ReadTarget(env, name)[|Root(env)|..] == [name]
  {
    ResolveJoinPlainName(env.cwd, TargetPath, name);
  }

  /** A path outside the root gives the security error whatever the directory
      holds: nothing is looked up. */
  lemma ReadOutsideRejected(env: Env, files: Files, filename: string)
    requires !InSandbox(env, filename)
    ensures forall other: Files {:trigger ReadFileContent(env, other, filename)} ::
              ReadFileContent(env, other, filename) == SecurityError
  {
  }

  lemma ParsePathParentThen(name: string)
    requires PlainName(name)
    ensures ParsePath("../" + name) == Path(false, ["..", name])
  {
    assert ["..", name][1..] == [name];
    assert "../" + name == Join("/", ["..", name]);
    SplitJoinRoundTrip(["..", name]);
    assert ["..", name] == [".."] + [name];
    KeptPartsAppend([".."], [name]);
    KeptPartsOne("..");
    KeptPartsOne(name);
  }

  /** Resolving "../x" from the root gives x beside the root. */
  lemma ResolveParentThen(env: Env, name: string)
    requires PlainName(name)
    ensures ReadTarget(env, "../" + name) == Normalize(env.cwd) + [name]
  {
    ParsePathParentThen(name);
    var c := env.cwd;
    assert c + (["dados_processos"] + ["..", name]) == (c + ["dados_processos"]) + [".."] + [name];
    var n := Normalize(c);
    assert (n + ["dados_processos"])[..|n|] == n;
    NormalizeSnoc((c + ["dados_processos"]) + [".."], name);
    NormalizeSnoc(c + ["dados_processos"], "..");
    NormalizeSnoc(c, "dados_processos");
  }

  /** "../x" climbs out of the root and is refused, unless x is the root's own
      name (then it is the sandbox file path again, see PlainNameTarget). */
  lemma ParentEscapeRejected(env: Env, files: Files, name: string)
    requires PlainName(name) && name != "dados_processos"
    ensures !InSandbox(env, "../" + name)
    ensures ReadFileContent(env, files, "../" + name) == SecurityError
  {
    ResolveParentThen(env, name);
    RootShape(env);
    var c := Normalize(env.cwd);
    assert (c + [name])[|c|] != (c + ["dados_processos"])[|c|];
  }

  lemma ParseAbsoluteTwo(a: string, b: string)
    requires PlainName(a) && PlainName(b)
    ensures ParsePath("/" + a + "/" + b) == Path(true, [a, b])
  {
    var segs := ["", a, b];
    assert segs[1..] == [a, b] && segs[1..][1..] == [b];
    assert Join("/", [a, b]) == a + "/" + b;
    assert Join("/", segs) == "" + "/" + (a + "/" + b);
    assert "/" + a + "/" + b == Join("/", segs);
    SplitJoinRoundTrip(segs);
    assert segs == [""] + [a] + [b];
    KeptPartsAppend([""] + [a], [b]);
    KeptPartsAppend([""], [a]);
    KeptPartsOne("");
    KeptPartsOne(a);
    KeptPartsOne(b);
  }

  /** An absolute name replaces the sandbox path: "/a/b" (such as
      "/etc/passwd") is outside the sandbox, and so refused by
      ReadOutsideRejected, unless one of its components is the root's name. */
  lemma AbsoluteEscapeRejected(env: Env, a: string, b: string)
    requires PlainName(a) && PlainName(b)
    requires a != "dados_processos" && b != "dados_processos"
    ensures !InSandbox(env, "/" + a + "/" + b)
  {
    ParseAbsoluteTwo(a, b);
    var target := [a, b];
    CanonicalIsNormal(target);
    RootShape(env);
  }

  /** Containment is tested on components, not on the text of the path: a
      sibling directory such as "dados_processos_old" starts with the root's
      text but lies outside it. */
  lemma SiblingWithSharedPrefixRejected(env: Env, extra: string)
    requires extra != "" && '/' !in extra
    ensures StartsWith(AbsoluteString(ReadTarget(env, "../" + TargetDisplay + extra)), AbsoluteString(Root(env)))
    ensures !InSandbox(env, "../" + TargetDisplay + extra)
  {
    var sibling := TargetDisplay + extra;
    assert '/' !in sibling by {
      forall i | 0 <= i < |sibling| ensures sibling[i] != '/' {
        if i >= |TargetDisplay| { assert sibling[i] == extra[i - |TargetDisplay|]; }
      }
    }
    assert |sibling| > |TargetDisplay|;
    assert "../" + TargetDisplay + extra == "../" + sibling;
    ResolveParentThen(env, sibling);
    RootShape(env);
    var c := Normalize(env.cwd);
    assert (c + [sibling])[|c|] != (c + [TargetDisplay])[|c|];
    AbsoluteStringExtends(c, TargetDisplay, extra);
  }

  /** Lengthening the last component lengthens the text of the path. */
  lemma AbsoluteStringExtends(c: seq<string>, last: string, extra: string)
    ensures StartsWith(AbsoluteString(c + [last + extra]), AbsoluteString(c + [last]))
  {
    JoinSnoc("/", c, last);
    JoinSnoc("/", c, last + extra);
    var front := if |c| == 0 then "/" else "/" + Join("/", c) + "/";
    assert AbsoluteString(c + [last]) == front + last;
    assert AbsoluteString(c + [last + extra]) == (front + last) + extra;
  }

  predicate StartsWith(s: string, prefix: string)
  {
    |prefix| <= |s| && s[..|prefix|] == prefix
  }

  lemma {:induction false} JoinSnoc(sep: string, xs: seq<string>, y: string)
    ensures |xs| == 0 ==> Join(sep, xs + [y]) == y
    ensures |xs| > 0 ==> Join(sep, xs + [y]) == Join(sep, xs) + sep + y
    decreases |xs|
  {
    if |xs| > 0 {
      assert (xs + [y])[1..] == xs[1..] + [y];
      JoinSnoc(sep, xs[1..], y);
    }
  }

  /** Containment is decided before existence: a name inside the sandbox that
      no file has is reported as missing. */
  lemma MissingPlainNameNotFound(env: Env, files: Files, name: string)
    requires PlainName(name) && name !in files
    ensures ReadFileContent(env, files, name) == FileNotFound
  {
    PlainNameTarget(env, name);
  }

  /** The root itself exists but is a directory: reading it gives an error reply. */
  lemma ReadingTheRootIsAnError(env: Env, files: Files)
    ensures ReadFileContent(env, files, ".") == "Erro: " + IsADirectory(AbsoluteString(Root(env)))
  {
    ParseDot();
    assert TargetPath.parts + [] == TargetPath.parts;
    RootShape(env);
    assert ReadTarget(env, ".") == Root(env);
    assert Name(Root(env)) == TargetDisplay;
    RootNameHasNoSuffix();
  }

  /** A path that needs no escape is shown between single quotes. */
  lemma IsADirectoryOfPlainPath(path: string)
    requires Unescaped(path, '\'')
    ensures IsADirectory(path) == "[Errno 21] Is a directory: '" + path + "'"
  {
    ReprOfPlainText(path);
  }

  /** With a root path that needs no escape, the reply shows it between
      single quotes. */
  lemma ReadingTheRootShowsItsPath(env: Env, files: Files)
    requires Unescaped(AbsoluteString(Root(env)), '\'')
    ensures ReadFileContent(env, files, ".") ==
              "Erro: " + ("[Errno 21] Is a directory: '" + AbsoluteString(Root(env)) + "'")
  {
    ReadingTheRootIsAnError(env, files);
    IsADirectoryOfPlainPath(AbsoluteString(Root(env)));
  }

  lemma RootNameHasNoSuffix()
    ensures Suffix(TargetDisplay) == ""
  {
    assert forall i :: 0 <= i < |TargetDisplay| ==> TargetDisplay[i] != '.';
    SuffixWithoutDot(TargetDisplay);
  }

  /** A file of the sandbox is read according to its lower-cased suffix: PDF
      extraction, HTML extraction, or the stored text as text mode reads it. */
  lemma ReadDispatchesOnSuffix(env: Env, files: Files, name: string)
    requires PlainName(name) && name in files
    ensures var suffix := LowerAscii(Suffix(name));
            var r := ReadFileContent(env, files, name);
            (suffix == ".pdf" ==> r == PdfText(env.parsePdf(files[name]))) &&
            (suffix == ".html" ==> r == env.extractHtml(files[name])) &&
            (suffix != ".pdf" && suffix != ".html" ==> r == UniversalNewlines(files[name]))
  {
    PlainNameTarget(env, name);
    var target := ReadTarget(env, name);
    assert Name(target) == name;
    assert EntryAt(files, target[|Root(env)|..]) == RegularFile(files[name]);
    assert ReadFileContent(env, files, name) == ReadEntry(env, RegularFile(files[name]), target);
  }

  /** A stored file named with an upper-case ".PDF" extension still goes to
      PDF extraction: the suffix is compared once lower-cased. */
  lemma UpperCasePdfIsExtracted(env: Env, files: Files, stem: string)
    requires PlainName(stem + ".PDF") && stem + ".PDF" in files && stem != ""
    ensures ReadFileContent(env, files, stem + ".PDF") == PdfText(env.parsePdf(files[stem + ".PDF"]))
  {
    var name := stem + ".PDF";
    assert name == stem + "." + "PDF";
    SuffixOfExtension(stem, "PDF");
    PdfSuffixLowered();
    assert LowerAscii(Suffix(name)) == ".pdf";
    ReadDispatchesOnSuffix(env, files, name);
  }

  lemma PdfSuffixLowered()
    ensures LowerAscii(".PDF") == ".pdf"
  {
    assert LowerAscii(".PDF") == [LowerChar('.'), LowerChar('P'), LowerChar('D'), LowerChar('F')];
  }

  // ----------------------------------------------------------------- saving

  /** The name `save_document` writes: the basename of what it was given. */
  function SaveName(filename: string): string
  {
    Basename(filename)
  }

  /** `str(TARGET_DIRECTORY / name)` for a name that denotes a directory. */
  function DirectoryShown(name: string): string
  {
    if name == ".." then TargetDisplay + "/.." else TargetDisplay
  }

  /** The reply of `save_document`: the success text naming the file written
      exactly when the basename is a plain file name, otherwise the error
      prefix followed by the message of the error `open` raised. */
  function SaveReply(filename: string): (r: string)
    ensures PlainName(SaveName(filename)) <==> StartsWith(r, SuccessPrefix)
    ensures !PlainName(SaveName(filename)) <==> StartsWith(r, SaveErrorPrefix)
    ensures !PlainName(SaveName(filename)) ==>
              r == SaveErrorPrefix + IsADirectory(DirectoryShown(SaveName(filename)))
    ensures PlainName(SaveName(filename)) ==>
              |SuccessPrefix| + |SaveName(filename)| <= |r| &&
              r[|SuccessPrefix|..|SuccessPrefix| + |SaveName(filename)|] == SaveName(filename)
  {
    var safe := SaveName(filename);
    if PlainName(safe) then
      var rest := "' salvo com sucesso em " + TargetDisplay + ".";
      StartsWithOwnPrefix(SuccessPrefix, SaveErrorPrefix, safe + rest);
      PrefixThenSlice(SuccessPrefix, safe, rest);
      SuccessPrefix + (safe + rest)
    else
      var tail := IsADirectory(DirectoryShown(safe));
      StartsWithOwnPrefix(SaveErrorPrefix, SuccessPrefix, tail);
      SaveErrorPrefix + tail
  }

  lemma PrefixThenSlice(p: string, a: string, b: string)
    ensures |p| + |a| <= |p + (a + b)| && (p + (a + b))[|p|..|p| + |a|] == a
  {
  }

  /** Two prefixes that differ in their second character exclude each other. */
  lemma StartsWithOwnPrefix(p: string, q: string, tail: string)
    requires |p| > 1 && |q| > 1 && p[1] != q[1]
    ensures StartsWith(p + tail, p) && !StartsWith(p + tail, q)
  {
    assert (p + tail)[..|p|] == p;
    assert (p + tail)[1] == p[1];
  }

  /** The directory after `save_document`: the basename's file holds exactly
      `content`, every other file is as it was; a basename that denotes a
      directory ("", ".", "..") writes nothing. */
  function SavedFiles(files: Files, filename: string, content: string): (r: Files)
    ensures PlainName(SaveName(filename)) ==> SaveName(filename) in r && r[SaveName(filename)] == content
    ensures !PlainName(SaveName(filename)) ==> r == files
    ensures forall n :: n != SaveName(filename) ==> (n in r <==> n in files)
    ensures forall n :: n != SaveName(filename) && n in files ==> r[n] == files[n]
    ensures ValidFiles(files) ==> ValidFiles(r)
  {
    var safe := SaveName(filename);
    if PlainName(safe) then files[safe := content] else files
  }

  /** The one file a save writes resolves to a path directly below the root:
      no write lands outside the sandbox, whatever the given name. */
  lemma SaveWritesInsideSandbox(env: Env, filename: string)
    requires PlainName(SaveName(filename))
    ensures Resolve(env.cwd, JoinPath(TargetPath, SaveName(filename))) == Root(env) + [SaveName(filename)]
    ensures IsRelativeTo(Resolve(env.cwd, JoinPath(TargetPath, SaveName(filename))), Root(env))
  {
    PlainNameTarget(env, SaveName(filename));
  }

  /** A name written by a save reads back: the basename, read as text, gives the
      content with text-mode newline translation; without carriage returns that
      is the content itself. */
  lemma SaveThenRead(env: Env, files: Files, filename: string, content: string)
    requires PlainName(SaveName(filename))
    requires LowerAscii(Suffix(SaveName(filename))) != ".pdf"
    requires LowerAscii(Suffix(SaveName(filename))) != ".html"
    ensures ReadFileContent(env, SavedFiles(files, filename, content), SaveName(filename))
            == UniversalNewlines(content)
    ensures '\r' !in content ==>
              ReadFileContent(env, SavedFiles(files, filename, content), SaveName(filename)) == content
  {
    ReadDispatchesOnSuffix(env, SavedFiles(files, filename, content), SaveName(filename));
    if '\r' !in content {
      UniversalNewlinesKeepsPlainText(content);
    }
  }

  /** Text mode reading turns a stored "\r\n" into "\n": the round trip is not
      exact for such content. */
  lemma CarriageReturnNotPreserved(env: Env, files: Files, filename: string, x: string, y: string)
    requires PlainName(SaveName(filename))
    requires LowerAscii(Suffix(SaveName(filename))) != ".pdf"
    requires LowerAscii(Suffix(SaveName(filename))) != ".html"
    requires '\r' !in x && '\r' !in y
    ensures ReadFileContent(env, SavedFiles(files, filename, x + "\r\n" + y), SaveName(filename)) == x + "\n" + y
    ensures x + "\n" + y != x + "\r\n" + y
  {
    SaveThenRead(env, files, filename, x + "\r\n" + y);
    UniversalNewlinesCrLf(x, y);
    assert |x + "\n" + y| < |x + "\r\n" + y|;
  }

  /** The sandbox directory, the only state the server changes. */
  class Sandbox {
    var files: Files
    const env: Env

    /** The directory holds only names a directory can hold. */
    predicate Valid()
      reads this
    {
      ValidFiles(files)
    }

    constructor (env: Env, files: Files)
      requires ValidFiles(files)
      ensures this.env == env && this.files == files
      ensures Valid()
    {
      this.env := env;
      this.files := files;
    }

    /** `save_document`: strip to the basename, overwrite that one file. */
    method SaveDocument(filename: string, content: string) returns (reply: string)
      requires Valid()
      modifies this
      ensures Valid()
      ensures files == SavedFiles(old(files), filename, content)
      ensures reply == SaveReply(filename)
    {
      var safe := Basename(filename);
      if safe == "" || safe == "." || safe == ".." {
        reply := SaveErrorPrefix + IsADirectory(DirectoryShown(safe));
      } else {
        assert PlainName(safe);
        files := files[safe := content];
        var rest := "' salvo com sucesso em " + TargetDisplay + ".";
        reply := SuccessPrefix + (safe + rest);
      }
    }
  }
}
