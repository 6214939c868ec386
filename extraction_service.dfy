/** ExtractionService: one procedure per archive backend (ZipArchive, the rar
    extension or the `unrar` tool, the `7za` tool), each turning what the
    backend reports into the `{code, desc}` response the controller returns.
    The backends themselves are outcomes handed in through `Backend`. */
module ExtractionService {
  import opened Wrappers
  import opened FileStore
  import Shell

  /** The `desc` texts, as tags (their wording and translation are not
      modelled). */
  datatype Message =
    | EncryptionUnsupported   // "Encryption is not supported yet"
    | ZipUnavailable          // "Zip extension is not available"
    | CannotOpenZip           // "Cannot open Zip file"
    | UnrarFailed             // "Oops something went wrong. Check that you have rar extension or unrar installed"
    | SevenZipFailed          // "Oops something went wrong. Check that you have p7zip installed"

  /** The response array: `code` and, sometimes, `desc`. */
  datatype Response = Response(code: int, desc: Option<Message>)
  {
    /** Code 1 alone reports success; code 0 comes with a description. */
    predicate WellFormed() {
      (code == 0 || code == 1) && (desc.Some? <==> code == 0)
    }
  }

  function Failure(m: Message): Response { Response(0, Some(m)) }

  const Success := Response(1, None)

  /** What `ZipArchive::open` returns: TRUE, FALSE or an error code. */
  datatype OpenResult = OpenTrue | OpenFalse | OpenError(errorCode: int)

  /** PHP's `!` on that value: only FALSE and the integer 0 are falsy. */
  predicate Falsy(o: OpenResult) {
    o == OpenFalse || o == OpenError(0)
  }

  /** What the archive backends do, as far as the core can observe it. */
  datatype Backend = Backend(
    zipLoaded: bool,                 // extension_loaded("zip")
    rarLoaded: bool,                 // extension_loaded("rar")
    zipOpen: string -> OpenResult,   // ZipArchive::open($file)
    rarList: string -> seq<string>,  // names of rar_list(rar_open($file))
    outputLines: string -> nat,      // sizeof($output) after exec($command, $output)
    writes: Call -> Tree)            // what a call writes to the local filesystem

  /** A backend's response and the calls it made, in order. */
  datatype BackendRun = BackendRun(response: Response, calls: seq<Call>)

  /** `7za -y x <file> -o<extractTo>` with both paths shell-quoted. */
  function SevenZipCommand(file: string, extractTo: string): string
  {
    "7za -y x " + Shell.EscapeShellArg(file) + " -o" + Shell.EscapeShellArg(extractTo)
  }

  /** `unrar x <file> -R <extractTo>/ -o+` with both paths shell-quoted. */
  function UnrarCommand(file: string, extractTo: string): string
  {
    "unrar x " + Shell.EscapeShellArg(file) + " -R " + Shell.EscapeShellArg(extractTo) + "/ -o+"
  }

  /** extractZip. Without the zip extension: code 0 and nothing opened. The
      open check is written `!$zip->open($file) === TRUE`, which PHP reads as
      `(!open) === TRUE`: it reports "Cannot open" only for a falsy result,
      and an error code such as ER_NOZIP goes on to `extractTo`. Once past
      the check the answer is code 1, whatever `extractTo` returns. */
  function ExtractZip(b: Backend, file: string, extractTo: string): (d: BackendRun)
    ensures d.response.WellFormed()
    ensures !b.zipLoaded ==> d == BackendRun(Failure(ZipUnavailable), [])
    ensures b.zipLoaded ==> (d.response.code == 0 <==> Falsy(b.zipOpen(file)))
    ensures b.zipLoaded && Falsy(b.zipOpen(file)) ==> d.response.desc == Some(CannotOpenZip)
    ensures d.response.code == 0 ==> d.calls == []
    ensures d.response.code == 1 ==> d.calls == [ZipExtractTo(file, extractTo)]
  {
    if !b.zipLoaded then BackendRun(Failure(ZipUnavailable), [])
    else if Falsy(b.zipOpen(file)) then BackendRun(Failure(CannotOpenZip), [])
    else BackendRun(Success, [ZipExtractTo(file, extractTo)])
  }

  /** The calls extractRar makes: one `unrar` run without the rar
      extension, one entry extraction per listed entry with it. */
  function RarCalls(b: Backend, file: string, extractTo: string): (r: seq<Call>)
    ensures !b.rarLoaded ==> r == [Exec(UnrarCommand(file, extractTo))]
    ensures b.rarLoaded ==> |r| == |b.rarList(file)|
    ensures b.rarLoaded ==> forall k :: 0 <= k < |r| ==> r[k] == RarEntryExtract(file, b.rarList(file)[k], extractTo)
  {
    if b.rarLoaded then
      var names := b.rarList(file);
      seq(|names|, k requires 0 <= k < |names| => RarEntryExtract(file, names[k], extractTo))
    else [Exec(UnrarCommand(file, extractTo))]
  }

  /** The response of extractRar: without the rar extension it is code 0
      exactly when `unrar` printed at most four lines (its exit status is
      not looked at); with the extension it is always code 1. */
  function RarResponse(b: Backend, file: string, extractTo: string): (r: Response)
    ensures r.WellFormed()
    ensures r.code == 0 <==> !b.rarLoaded && b.outputLines(UnrarCommand(file, extractTo)) <= 4
    ensures r.code == 0 ==> r.desc == Some(UnrarFailed)
  {
    if !b.rarLoaded && b.outputLines(UnrarCommand(file, extractTo)) <= 4 then Failure(UnrarFailed)
    else Success
  }

  /** extractRar as evidently intended: runs `unrar` when the rar extension
      is missing, otherwise extracts each listed entry in turn. */
  method ExtractRar(b: Backend, file: string, extractTo: string) returns (d: BackendRun)
    ensures d == BackendRun(RarResponse(b, file, extractTo), RarCalls(b, file, extractTo))
  {
    if !b.rarLoaded {
      var command := UnrarCommand(file, extractTo);
      if b.outputLines(command) <= 4 {
        return BackendRun(Failure(UnrarFailed), [Exec(command)]);
      }
      d := BackendRun(Success, [Exec(command)]);
    } else {
      var list := b.rarList(file);
      var calls: seq<Call> := [];
      for i := 0 to |list|
        invariant |calls| == i
        invariant forall k :: 0 <= k < i ==> calls[k] == RarEntryExtract(file, list[k], extractTo)
      {
        calls := calls + [RarEntryExtract(file, list[i], extractTo)];
      }
      d := BackendRun(Success, calls);
    }
  }

  /** extractRar exactly as written. On the rar-extension branch its first
      statement, `$this->logger->debug()`, passes no message to a logger
      method whose message parameter has no default, so PHP throws
      ArgumentCountError before `rar_open` is reached; None stands for that
      exception. Without the extension it behaves as ExtractRar. */
  function ExtractRarAsWritten(b: Backend, file: string, extractTo: string): (r: Option<BackendRun>)
    ensures r.None? <==> b.rarLoaded
    ensures r.Some? ==> r.value.calls == [Exec(UnrarCommand(file, extractTo))]
    ensures r.Some? ==> r.value.response.WellFormed()
  {
    if b.rarLoaded then None
    else
      var command := UnrarCommand(file, extractTo);
      Some(BackendRun(if b.outputLines(command) <= 4 then Failure(UnrarFailed) else Success, [Exec(command)]))
  }

  /** With the rar extension loaded and a non-empty archive, the code as
      written extracts nothing and answers nothing, where ExtractRar extracts
      the first listed entry first and answers code 1. */
  lemma RarExtensionThrowsAsWritten(b: Backend, file: string, extractTo: string)
    requires b.rarLoaded && b.rarList(file) != []
    ensures ExtractRarAsWritten(b, file, extractTo) == None
    ensures RarCalls(b, file, extractTo) != []
    ensures RarCalls(b, file, extractTo)[0] == RarEntryExtract(file, b.rarList(file)[0], extractTo)
    ensures RarResponse(b, file, extractTo) == Success
  {
  }

  /** Without the rar extension the code as written and ExtractRar agree. */
  lemma RarAsWrittenAgreesWithoutExtension(b: Backend, file: string, extractTo: string)
    requires !b.rarLoaded
    ensures ExtractRarAsWritten(b, file, extractTo) == Some(BackendRun(RarResponse(b, file, extractTo), RarCalls(b, file, extractTo)))
  {
  }

  /** extractOther: runs `7za` and answers code 0 exactly when it printed at
      most five lines (its exit status is not looked at). */
  function ExtractOther(b: Backend, file: string, extractTo: string): (d: BackendRun)
    ensures d.response.WellFormed()
    ensures d.calls == [Exec(SevenZipCommand(file, extractTo))]
    ensures d.response.code == 0 <==> b.outputLines(SevenZipCommand(file, extractTo)) <= 5
    ensures d.response.code == 0 ==> d.response.desc == Some(SevenZipFailed)
  {
    var command := SevenZipCommand(file, extractTo);
    if b.outputLines(command) <= 5 then BackendRun(Failure(SevenZipFailed), [Exec(command)])
    else BackendRun(Success, [Exec(command)])
  }

  /** An integer error code from `open` (ER_NOZIP is 19) is not caught by the
      check as written: the archive is reported extracted. */
  lemma ZipErrorCodeReportsSuccess(b: Backend, file: string, extractTo: string)
    requires b.zipLoaded && b.zipOpen(file).OpenError? && b.zipOpen(file).errorCode != 0
    ensures ExtractZip(b, file, extractTo).response == Success
  {
  }

  /** The fixed head of the 7za command: three words, nothing pending. */
  lemma SevenZipHead()
    ensures Shell.Run(Shell.Start, "7za -y x ") == Shell.Lexer(["7za", "-y", "x"], [], false, Shell.Bare)
  {
    var l0 := Shell.Start;
    var l1 := Shell.RunToken(l0, "7za");
    assert "7za" + " " == "7za ";
    var l2 := Shell.RunToken(l1, "-y");
    assert "-y" + " " == "-y ";
    Shell.RunAppend(l0, "7za ", "-y ");
    assert "7za " + "-y " == "7za -y ";
    assert Shell.Run(l0, "7za -y ") == l2;
    var l3 := Shell.RunToken(l2, "x");
    assert "x" + " " == "x ";
    Shell.RunAppend(l0, "7za -y ", "x ");
    assert "7za -y " + "x " == "7za -y x ";
    assert l3.words == ["7za", "-y", "x"];
  }

  /** The state the shell is in after reading the whole 7za command. */
  lemma SevenZipRun(file: string, extractTo: string)
    ensures Shell.Run(Shell.Start, SevenZipCommand(file, extractTo))
         == Shell.Lexer(["7za", "-y", "x", file], "-o" + extractTo, true, Shell.Bare)
  {
    var e1 := Shell.EscapeShellArg(file);
    var e2 := Shell.EscapeShellArg(extractTo);
    var p1 := "7za -y x ";
    var l1 := Shell.Lexer(["7za", "-y", "x"], [], false, Shell.Bare);
    SevenZipHead();
    Shell.RunEscaped(l1, file);
    Shell.RunAppend(Shell.Start, p1, e1);
    assert [] + file == file;
    var l2 := l1.(word := file, inWord := true);
    assert Shell.Run(Shell.Start, p1 + e1) == l2;
    Shell.BlankThen(l2, "-o");
    Shell.RunAppend(Shell.Start, p1 + e1, " -o");
    var l3 := Shell.Lexer(["7za", "-y", "x", file], "-o", true, Shell.Bare);
    assert Shell.Run(Shell.Start, p1 + e1 + " -o") == l3;
    Shell.RunEscaped(l3, extractTo);
    Shell.RunAppend(Shell.Start, p1 + e1 + " -o", e2);
  }

  /** `7za` receives exactly four arguments: `-y`, `x`, the archive, and
      `-o` glued to the destination, for any paths that escapeshellarg
      copies unchanged (under a UTF-8 locale, without NUL). */
  lemma SevenZipArguments(file: string, extractTo: string)
    ensures Shell.Words(SevenZipCommand(file, extractTo)) == Some(["7za", "-y", "x", file, "-o" + extractTo])
  {
    var l := Shell.Lexer(["7za", "-y", "x", file], "-o" + extractTo, true, Shell.Bare);
    SevenZipRun(file, extractTo);
    Shell.WordsAtEnd(SevenZipCommand(file, extractTo), l);
    assert l.words + [l.word] == ["7za", "-y", "x", file, "-o" + extractTo];
  }

  /** The fixed head of the unrar command: two words, nothing pending. */
  lemma UnrarHead()
    ensures Shell.Run(Shell.Start, "unrar x ") == Shell.Lexer(["unrar", "x"], [], false, Shell.Bare)
  {
    var l0 := Shell.Start;
    var l1 := Shell.RunToken(l0, "unrar");
    assert "unrar" + " " == "unrar ";
    var l2 := Shell.RunToken(l1, "x");
    assert "x" + " " == "x ";
    Shell.RunAppend(l0, "unrar ", "x ");
    assert "unrar " + "x " == "unrar x ";
    assert l2.words == ["unrar", "x"];
  }

  /** The quoted archive and `-R`, read between words: two more words. */
  lemma ArchiveThenR(l: Shell.Lexer, file: string)
    requires l.mode == Shell.Bare && !l.inWord && l.word == []
    ensures Shell.Run(l, Shell.EscapeShellArg(file) + " -R ")
         == Shell.Lexer(l.words + [file, "-R"], [], false, Shell.Bare)
  {
    var e1 := Shell.EscapeShellArg(file);
    Shell.RunEscaped(l, file);
    assert [] + file == file;
    var l2 := l.(word := file, inWord := true);
    Shell.BlankThen(l2, "-R");
    var l3 := Shell.Lexer(l.words + [file], "-R", true, Shell.Bare);
    Shell.RunBlank(l3);
    Shell.RunAppend(l2, " -R", " ");
    assert " -R" + " " == " -R ";
    Shell.RunAppend(l, e1, " -R ");
    assert l.words + [file] + ["-R"] == l.words + [file, "-R"];
  }

  /** The unrar command up to the destination: four words, nothing pending. */
  lemma UnrarRunHead(file: string)
    ensures Shell.Run(Shell.Start, "unrar x " + Shell.EscapeShellArg(file) + " -R ")
         == Shell.Lexer(["unrar", "x", file, "-R"], [], false, Shell.Bare)
  {
    var rest := Shell.EscapeShellArg(file) + " -R ";
    assert "unrar x " + Shell.EscapeShellArg(file) + " -R " == "unrar x " + rest;
    UnrarHead();
    ArchiveThenR(Shell.Lexer(["unrar", "x"], [], false, Shell.Bare), file);
    Shell.RunAppend(Shell.Start, "unrar x ", rest);
  }

  /** The state the shell is in after reading the whole unrar command. */
  lemma UnrarRun(file: string, extractTo: string)
    ensures Shell.Run(Shell.Start, UnrarCommand(file, extractTo))
         == Shell.Lexer(["unrar", "x", file, "-R", extractTo + "/"], "-o+", true, Shell.Bare)
  {
    var head := "unrar x " + Shell.EscapeShellArg(file) + " -R ";
    var e2 := Shell.EscapeShellArg(extractTo);
    UnrarRunHead(file);
    var l4 := Shell.Lexer(["unrar", "x", file, "-R"], [], false, Shell.Bare);
    Shell.RunEscaped(l4, extractTo);
    Shell.RunAppend(Shell.Start, head, e2);
    assert [] + extractTo == extractTo;
    var l5 := l4.(word := extractTo, inWord := true);
    assert Shell.Run(Shell.Start, head + e2) == l5;
    Shell.RunPlain(l5, "/");
    var l6 := l5.(word := extractTo + "/");
    Shell.BlankThen(l6, "-o+");
    Shell.RunAppend(l5, "/", " -o+");
    assert "/" + " -o+" == "/ -o+";
    Shell.RunAppend(Shell.Start, head + e2, "/ -o+");
  }

  /** `unrar` receives `x`, the archive, `-R`, the destination with a slash
      appended, and `-o+`, for any paths that escapeshellarg copies
      unchanged (under a UTF-8 locale, without NUL). */
  lemma UnrarArguments(file: string, extractTo: string)
    ensures Shell.Words(UnrarCommand(file, extractTo)) == Some(["unrar", "x", file, "-R", extractTo + "/", "-o+"])
  {
    var l := Shell.Lexer(["unrar", "x", file, "-R", extractTo + "/"], "-o+", true, Shell.Bare);
    UnrarRun(file, extractTo);
    Shell.WordsAtEnd(UnrarCommand(file, extractTo), l);
    assert l.words + [l.word] == ["unrar", "x", file, "-R", extractTo + "/", "-o+"];
  }

  /** The 7za command line determines its archive and destination: two
      different pairs never produce the same command. */
  lemma SevenZipCommandInjective(f1: string, d1: string, f2: string, d2: string)
    requires SevenZipCommand(f1, d1) == SevenZipCommand(f2, d2)
    ensures f1 == f2 && d1 == d2
  {
    SevenZipArguments(f1, d1);
    SevenZipArguments(f2, d2);
    assert ("-o" + d1)[2..] == d1;
    assert ("-o" + d2)[2..] == d2;
  }
}
