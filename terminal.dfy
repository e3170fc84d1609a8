/**
 * The agent command line shown beside the results (TerminalEmulator.tsx): a
 * history of lines, an input line, and the interpreter that runs a command
 * against the pipeline result and the project description.
 *
 * Opening the refinement drawer and writing to the clipboard are the two
 * effects outside the history; the interpreter returns them to its caller.
 */
module Terminal {
  import opened Types
  import opened Text

  const WelcomeLines: seq<string> := [
    "Willkommen beim Agent-CLI v3.0.0",
    "Tippe \"help\" für eine Liste der Befehle."]

  const HelpLines: seq<string> := [
    "Verfügbare Befehle:",
    "  ls              - Listet Workspace-Dateien auf",
    "  cat [file]      - Zeigt Dateiinhalt an",
    "  inspect [file]  - Startet Refinement-Analyse",
    "  export          - Kopiert Master-Prompt",
    "  status          - Zeigt Projekt-Metadaten",
    "  clear           - Leert das Terminal"]

  const ListingHeader := "Workspace Files:"
  const CatFooter := "------------------"
  const InspectUsage := "Fehler: Bitte ein Ziel angeben (z.B. inspect .cursorrules)"
  const ExportDone := "ERFOLG: Master-Prompt in Zwischenablage kopiert."

  /** `result.stage3?.workspaceFiles || []`: only a bundle has files. */
  function Files(result: PipelineResult): seq<WorkspaceFile> {
    match result.stage3
    case Some(WorkspaceBundle(_, files)) => files
    case _ => []
  }

  /** `result.stage3?.masterPrompt || ''`: only a bundle has a master prompt. */
  function ExportText(result: PipelineResult): string {
    match result.stage3
    case Some(WorkspaceBundle(masterPrompt, _)) => masterPrompt
    case _ => ""
  }

  /** The words of a command: the trimmed, lower-cased input split at each
      space. */
  function Tokens(input: string): (args: seq<string>)
    ensures |args| >= 1
  {
    Split(ToLower(Trim(input)), ' ')
  }

  /** `args[i]`, which is `undefined` past the end. */
  function Arg(args: seq<string>, i: nat): Option<string> {
    if i < |args| then Some(args[i]) else None
  }

  /** How a possibly missing word is written into a message. */
  function ArgText(arg: Option<string>): string {
    match arg
    case Some(word) => word
    case None => "undefined"
  }

  /** `files.find(f => f.name.toLowerCase() === fileName?.toLowerCase())`:
      the first file whose name equals the word up to case; nothing when
      there is no word. */
  function FindFile(files: seq<WorkspaceFile>, fileName: Option<string>): Option<WorkspaceFile>
    decreases |files|
  {
    if files == [] || fileName.None? then None
    else if ToLower(files[0].name) == ToLower(fileName.value) then Some(files[0])
    else FindFile(files[1..], fileName)
  }

  /** One `ls` line per file, in file order. */
  function FileListing(files: seq<WorkspaceFile>): seq<string> {
    seq(|files|, i requires 0 <= i < |files| => "  " + files[i].name + " (" + files[i].language + ")")
  }

  function StatusLines(project: ProjectData): seq<string> {
    [ "Projekt: " + project.title,
      "Umfang: " + project.projectScope.Label(),
      "Komplexität: " + project.complexity.Label(),
      "IDE: " + project.ide.Label(),
      "Modell: " + project.preferredModel.Label()]
  }

  /** What a command does: lines to append (after the echo line) with the
      refinement target and the clipboard text it hands out, or clearing
      the screen. */
  datatype Reply =
    | Lines(output: seq<string>, refinement: Option<string>, clipboard: Option<string>)
    | ClearScreen

  /** The interpreter: dispatch on the first word. */
  function Respond(args: seq<string>, result: PipelineResult, project: ProjectData): Reply
    requires |args| >= 1
  {
    var baseCmd := args[0];
    if baseCmd == "help" then
      Lines(HelpLines, None, None)
    else if baseCmd == "ls" then
      Lines([ListingHeader] + FileListing(Files(result)), None, None)
    else if baseCmd == "cat" then
      var fileName := Arg(args, 1);
      match FindFile(Files(result), fileName)
      case Some(file) => Lines(["--- " + file.name + " ---", file.content, CatFooter], None, None)
      case None => Lines(["Fehler: Datei \"" + ArgText(fileName) + "\" nicht gefunden."], None, None)
    else if baseCmd == "inspect" then
      var target := Arg(args, 1);
      if target.Some? && target.value != "" then
        Lines(["Inspektor für \"" + target.value + "\" gestartet..."], Some("CLI Inspect: " + target.value), None)
      else
        Lines([InspectUsage], None, None)
    else if baseCmd == "export" then
      Lines([ExportDone], None, Some(ExportText(result)))
    else if baseCmd == "status" then
      Lines(StatusLines(project), None, None)
    else if baseCmd == "clear" then
      ClearScreen
    else
      Lines(["Unbekannter Befehl: " + baseCmd + ". Tippe \"help\"."], None, None)
  }

  /** The input is ignored exactly when it is blank. */
  lemma BlankIffNoCommand(input: string)
    ensures ToLower(Trim(input)) == "" <==> AllWhitespace(input)
  {
    BlankIffAllWhitespace(input);
  }

  /** The command name is the first space-separated word of the trimmed,
      lower-cased input: a prefix of it, without spaces, ended by a space or
      by the end of the input. */
  lemma CommandNameIsFirstWord(input: string)
    ensures var command := ToLower(Trim(input));
            var name := Tokens(input)[0];
            && IsPrefix(name, command)
            && ' ' !in name
            && (|name| < |command| ==> command[|name|] == ' ')
            && (forall i :: 0 <= i < |name| ==> !IsUpperLetter(name[i]))
  {
    SplitFirstPiece(ToLower(Trim(input)), ' ');
  }

  /** The lookup finds a file whose name matches the word up to case, the
      first such file; it finds nothing exactly when no file matches. */
  lemma {:induction false} FindFileSpec(files: seq<WorkspaceFile>, word: string)
    ensures var found := FindFile(files, Some(word));
            && (found.None? <==> forall f :: f in files ==> ToLower(f.name) != ToLower(word))
            && (found.Some? ==>
                  exists i :: 0 <= i < |files| && files[i] == found.value
                           && ToLower(found.value.name) == ToLower(word)
                           && forall j :: 0 <= j < i ==> ToLower(files[j].name) != ToLower(word))
    decreases |files|
  {
    if files != [] && ToLower(files[0].name) != ToLower(word) {
      FindFileSpec(files[1..], word);
      var found := FindFile(files, Some(word));
      if found.Some? {
        var i :| 0 <= i < |files[1..]| && files[1..][i] == found.value
                 && ToLower(found.value.name) == ToLower(word)
                 && forall j :: 0 <= j < i ==> ToLower(files[1..][j].name) != ToLower(word);
        assert files[i + 1] == found.value;
        assert forall j :: 0 <= j < i + 1 ==> ToLower(files[j].name) != ToLower(word) by {
          forall j | 0 <= j < i + 1
            ensures ToLower(files[j].name) != ToLower(word)
          {
            if j > 0 {
              assert files[j] == files[1..][j - 1];
            }
          }
        }
      } else {
        forall f | f in files
          ensures ToLower(f.name) != ToLower(word)
        {
          if f != files[0] {
            assert f in files[1..];
          }
        }
      }
    } else if files != [] {
      assert 0 <= 0 < |files| && files[0] == FindFile(files, Some(word)).value;
    }
  }

  /** Typing a file name in any case finds the file: the word `cat` gets is
      lower-cased, and names are compared lower-cased. */
  lemma CatIgnoresCase(files: seq<WorkspaceFile>, f: WorkspaceFile, typed: string)
    requires f in files && ToLower(f.name) == ToLower(typed)
    ensures FindFile(files, Some(ToLower(typed))).Some?
    ensures ToLower(FindFile(files, Some(ToLower(typed))).value.name) == ToLower(typed)
  {
    ToLowerIdempotent(typed);
    FindFileSpec(files, ToLower(typed));
  }

  /** What each command appends: `help` seven lines; `ls` a header and one
      line per file; `cat` the header, content and footer of the file, or
      one error line; `inspect`, `export` and an unknown command one line;
      `status` five lines. Only `clear` clears the screen. */
  lemma OutputLengths(args: seq<string>, result: PipelineResult, project: ProjectData)
    requires |args| >= 1
    ensures var reply := Respond(args, result, project);
            && (reply.ClearScreen? <==> args[0] == "clear")
            && (reply.Lines? ==>
                  |reply.output| ==
                    if args[0] == "help" then 7
                    else if args[0] == "ls" then 1 + |Files(result)|
                    else if args[0] == "cat" && FindFile(Files(result), Arg(args, 1)).Some? then 3
                    else if args[0] == "status" then 5
                    else 1)
  {
  }

  /** `ls` lists the files in order, one line each, after the header. */
  lemma ListingFollowsFiles(args: seq<string>, result: PipelineResult, project: ProjectData, i: int)
    requires |args| >= 1 && args[0] == "ls" && 0 <= i < |Files(result)|
    ensures Respond(args, result, project).Lines?
    ensures var out := Respond(args, result, project).output;
            && out[0] == ListingHeader
            && out[i + 1] == "  " + Files(result)[i].name + " (" + Files(result)[i].language + ")"
  {
  }

  /** `cat` shows the matching file between a header naming it and the
      footer; without a match it names the word (or `undefined`) in an
      error line. */
  lemma CatShowsFile(args: seq<string>, result: PipelineResult, project: ProjectData)
    requires |args| >= 2 && args[0] == "cat"
    ensures var out := Respond(args, result, project).output;
            match FindFile(Files(result), Some(args[1]))
            case Some(file) =>
              && out == ["--- " + file.name + " ---", file.content, CatFooter]
              && file in Files(result) && ToLower(file.name) == ToLower(args[1])
            case None =>
              && out == ["Fehler: Datei \"" + args[1] + "\" nicht gefunden."]
              && forall f :: f in Files(result) ==> ToLower(f.name) != ToLower(args[1])
  {
    FindFileSpec(Files(result), args[1]);
  }

  /** Only `inspect` with a target opens the refinement drawer, for
      "CLI Inspect: " and the target; only `export` hands text to the
      clipboard, the bundle's master prompt. */
  lemma EffectsOfCommands(args: seq<string>, result: PipelineResult, project: ProjectData)
    requires |args| >= 1
    ensures var reply := Respond(args, result, project);
            && (reply.Lines? && reply.refinement.Some? <==> args[0] == "inspect" && |args| >= 2 && args[1] != "")
            && (reply.Lines? && reply.refinement.Some? ==> reply.refinement.value == "CLI Inspect: " + args[1])
            && (reply.Lines? && reply.clipboard.Some? <==> args[0] == "export")
            && (reply.Lines? && reply.clipboard.Some? ==> reply.clipboard.value == ExportText(result))
  {
  }

  /** The command line's state: the lines shown and the input being typed. */
  class TerminalEmulator {
    var history: seq<string>
    var input: string

    constructor ()
      ensures history == WelcomeLines && input == ""
    {
      history := WelcomeLines;
      input := "";
    }

    /** Typing into the input line. */
    method SetInput(value: string)
      modifies this
      ensures input == value && history == old(history)
    {
      input := value;
    }

    /** `handleCommand`: a blank input does nothing; `clear` empties the
        history; every other command appends the echo of the raw input and
        its output. The input is cleared after any command. */
    method HandleCommand(result: PipelineResult, project: ProjectData)
      returns (refinement: Option<string>, clipboard: Option<string>)
      modifies this
      ensures AllWhitespace(old(input)) ==>
                history == old(history) && input == old(input) && refinement.None? && clipboard.None?
      ensures !AllWhitespace(old(input)) ==>
                match Respond(Tokens(old(input)), result, project)
                case ClearScreen =>
                  history == [] && input == "" && refinement.None? && clipboard.None?
                case Lines(output, target, text) =>
                  && history == old(history) + ["> " + old(input)] + output
                  && input == "" && refinement == target && clipboard == text
    {
      refinement, clipboard := None, None;
      var cmd := ToLower(Trim(input));
      BlankIffNoCommand(input);
      if cmd == "" {
        return;
      }
      var files := Files(result);
      var newHistory := history + ["> " + input];
      var args := Split(cmd, ' ');
      var baseCmd := args[0];
      if baseCmd == "help" {
        newHistory := newHistory + HelpLines;
      } else if baseCmd == "ls" {
        newHistory := newHistory + [ListingHeader] + FileListing(files);
      } else if baseCmd == "cat" {
        var fileName := Arg(args, 1);
        var file := FindFile(files, fileName);
        if file.Some? {
          newHistory := newHistory + ["--- " + file.value.name + " ---", file.value.content, CatFooter];
        } else {
          newHistory := newHistory + ["Fehler: Datei \"" + ArgText(fileName) + "\" nicht gefunden."];
        }
      } else if baseCmd == "inspect" {
        var target := Arg(args, 1);
        if target.Some? && target.value != "" {
          refinement := Some("CLI Inspect: " + target.value);
          newHistory := newHistory + ["Inspektor für \"" + target.value + "\" gestartet..."];
        } else {
          newHistory := newHistory + [InspectUsage];
        }
      } else if baseCmd == "export" {
        clipboard := Some(ExportText(result));
        newHistory := newHistory + [ExportDone];
      } else if baseCmd == "status" {
        newHistory := newHistory + StatusLines(project);
      } else if baseCmd == "clear" {
        history := [];
        input := "";
        return;
      } else {
        newHistory := newHistory + ["Unbekannter Befehl: " + baseCmd + ". Tippe \"help\"."];
      }
      history := newHistory;
      input := "";
    }
  }
}
