/** The decision logic of the command handlers of `Shell` (cpp_shell.cpp:94-342): which
    message each prints and which requests it makes, given the answers of the
    environment. Messages are values of `Report`; their fixed wording and colours are
    not modelled. */
module Handlers {
  import opened Wrappers
  import opened Text
  import opened Environment
  import opened Commands

  const VERSION := "1.0.0"

  const CatUsage := "cat <filename>"
  const MkdirUsage := "mkdir <directory>"
  const RmUsage := "rm <file_or_folder>"
  const RenameUsage := "rename <old_name> <new_name>"
  const MoveUsage := "move <source> <destination>"

  /** One line of the history listing: its 1-based number and the recorded command. */
  datatype Entry = Entry(number: nat, text: string)

  datatype Report =
    | Silent
    | Goodbye
    | HelpText
    | VersionText(version: string)
    | NoHistory
    | HistoryList(entries: seq<Entry>)
    | Listing(path: string, found: seq<FindEntry>)
    | CannotAccess(path: string)
    | HomeNotFound
    | DirectoryNotFound(target: string)
    | Usage(syntax: string)
    | CannotOpen(path: string)
    | FileShown(path: string)
    | DirectoryCreated(path: string)
    | DirectoryExists(path: string)
    | CannotCreate(path: string)
    | NotFound(target: string)
    | DirectoryDeleted(target: string)
    | CannotDeleteDirectory(target: string)
    | FileDeleted(target: string)
    | CannotDeleteFile(target: string)
    | Opened(application: string)
    | WorkingDirectory(dir: string)
    | Renamed(from: string, to: string)
    | CannotRename(from: string)
    | Moved(from: string, to: string)
    | CannotMove(from: string)
    | NotRecognized(name: string)

  /** What one handler call does: the message, the requests made in order, and the new
      `currentDir` when the handler changes it. */
  datatype Outcome = Outcome(report: Report, effects: seq<Effect>, newDir: Option<string>)

  function Done(report: Report, effects: seq<Effect>): Outcome {
    Outcome(report, effects, None)
  }

  /** The history listing: entry i carries the number i + 1. */
  function Numbered(history: seq<string>): seq<Entry> {
    seq(|history|, i requires 0 <= i < |history| => Entry(i + 1, history[i]))
  }

  /** `cmdHistory` (cpp_shell.cpp:125-136). */
  function HistoryReport(history: seq<string>): Report {
    if history == [] then NoHistory else HistoryList(Numbered(history))
  }

  /** The find records `cmdLs` prints: all but "." and "..", in their order. */
  function WithoutDots(entries: seq<FindEntry>): (r: seq<FindEntry>)
    ensures |r| <= |entries|
    ensures forall e :: e in r <==> e in entries && e.name != "." && e.name != ".."
  {
    if entries == [] then []
    else
      var rest := WithoutDots(entries[1..]);
      if entries[0].name == "." || entries[0].name == ".." then rest else [entries[0]] + rest
  }

  /** Filtering distributes over concatenation: the records of each part are shown in
      their own order, the first part's before the second's, each exactly once. */
  lemma {:induction false} WithoutDotsAppend(a: seq<FindEntry>, b: seq<FindEntry>)
    ensures WithoutDots(a + b) == WithoutDots(a) + WithoutDots(b)
  {
    if a == [] {
      assert a + b == b;
    } else {
      assert (a + b)[0] == a[0];
      assert (a + b)[1..] == a[1..] + b;
      WithoutDotsAppend(a[1..], b);
      if a[0].name != "." && a[0].name != ".." {
        AppendAssociative([a[0]], WithoutDots(a[1..]), WithoutDots(b));
      }
    }
  }

  /** A single record is shown exactly when it is not a dot entry. */
  lemma {:induction false} WithoutDotsSingle(e: FindEntry)
    ensures WithoutDots([e]) == if e.name == "." || e.name == ".." then [] else [e]
  {
    assert [e][1..] == [];
  }

  /** `cmdLs` (cpp_shell.cpp:139-170): the path defaults to ".", the search pattern is
      path + "\*". */
  function LsOutcome(args: seq<string>, fs: Fs): Outcome {
    var path := if |args| > 1 then args[1] else ".";
    match fs.find(path + "\\*")
    case None => Done(CannotAccess(path), [])
    case Some(entries) => Done(Listing(path, WithoutDots(entries)), [])
  }

  /** `cmdCd` (cpp_shell.cpp:173-194): the target is the argument, or USERPROFILE when
      there is none; `currentDir` is refreshed only when _chdir succeeds. */
  function CdOutcome(args: seq<string>, fs: Fs): Outcome {
    if |args| < 2 && fs.home.None? then Done(HomeNotFound, [])
    else
      var target := if |args| < 2 then fs.home.value else args[1];
      match fs.chdir(target)
      case ChdirFailed => Done(DirectoryNotFound(target), [ChangeDirectory(target)])
      case ChdirDone(cwd) =>
        Outcome(Silent, [ChangeDirectory(target)], Some(CurrentDirectory(cwd)))
  }

  /** `cmdCat` (cpp_shell.cpp:197-216); the streaming of the contents is not modelled. */
  function CatOutcome(args: seq<string>, fs: Fs): Outcome {
    if |args| < 2 then Done(Usage(CatUsage), [])
    else if !fs.canOpen(args[1]) then Done(CannotOpen(args[1]), [])
    else Done(FileShown(args[1]), [])
  }

  /** `cmdMkdir` (cpp_shell.cpp:219-235). */
  function MkdirOutcome(args: seq<string>, fs: Fs): Outcome {
    if |args| < 2 then Done(Usage(MkdirUsage), [])
    else
      var path := args[1];
      var report := match fs.createDirectory(path)
        case Created => DirectoryCreated(path)
        case AlreadyExists => DirectoryExists(path)
        case CreateFailed => CannotCreate(path);
      Done(report, [CreateDirectory(path)])
  }

  /** `cmdRm` (cpp_shell.cpp:243-272). */
  function RmOutcome(args: seq<string>, fs: Fs): Outcome {
    if |args| < 2 then Done(Usage(RmUsage), [])
    else
      var target := args[1];
      match fs.attributes(target)
      case InvalidAttributes => Done(NotFound(target), [])
      case Attrs(true) =>
        Done(if fs.removeDirectory(target) then DirectoryDeleted(target)
             else CannotDeleteDirectory(target), [RemoveDirectory(target)])
      case Attrs(false) =>
        Done(if fs.deleteFile(target) then FileDeleted(target) else CannotDeleteFile(target),
             [DeleteFile(target)])
  }

  /** `cmdNotepad` (cpp_shell.cpp:275-283): the launch is requested, never awaited. */
  function NotepadOutcome(args: seq<string>): Outcome {
    var file := if |args| > 1 then args[1] else "";
    Done(Opened("Notepad"), [Launch("notepad.exe", file)])
  }

  /** `cmdCode` (cpp_shell.cpp:286-294). */
  function CodeOutcome(args: seq<string>): Outcome {
    var path := if |args| > 1 then args[1] else ".";
    Done(Opened("VS Code"), [Launch("code", path)])
  }

  /** `cmdRename` (cpp_shell.cpp:302-316): the new name is passed to MoveFileA as it is. */
  function RenameOutcome(args: seq<string>, fs: Fs): Outcome {
    if |args| < 3 then Done(Usage(RenameUsage), [])
    else
      var from, to := args[1], args[2];
      Done(if fs.moveFile(from, to) then Renamed(from, to) else CannotRename(from),
           [MoveFile(from, to)])
  }

  const Separators: set<char> := {'\\', '/'}

  /** The part of `path` after its last '\' or '/', or all of it when it has neither:
      the longest suffix without a separator. */
  function BaseName(path: string): (b: string)
    ensures |b| <= |path| && b == path[|path| - |b|..]
    ensures NoneIn(b, Separators)
    ensures |b| < |path| ==> path[|path| - |b| - 1] in Separators
  {
    match FindLastOf(path, Separators)
    case Some(pos) => path[pos + 1..]
    case None => path
  }

  /** Where `cmdMove` sends the source (cpp_shell.cpp:328-335): into `dest` under the
      source's base name when `dest` is an existing directory, else to `dest` itself. */
  function MoveDestination(source: string, dest: string, destAttributes: Attributes): string {
    if destAttributes == Attrs(true) then dest + "\\" + BaseName(source) else dest
  }

  /** `cmdMove` (cpp_shell.cpp:319-342). */
  function MoveOutcome(args: seq<string>, fs: Fs): Outcome {
    if |args| < 3 then Done(Usage(MoveUsage), [])
    else
      var source := args[1];
      var dest := MoveDestination(source, args[2], fs.attributes(args[2]));
      Done(if fs.moveFile(source, dest) then Moved(source, dest) else CannotMove(source),
           [MoveFile(source, dest)])
  }

  /** The dispatch of `processCommand` (cpp_shell.cpp:362-409) once the line is known to
      be neither blank nor `exit`; `history` already holds the line. */
  function Handle(args: seq<string>, fs: Fs, history: seq<string>): Outcome
    requires |args| > 0
  {
    match Route(args[0])
    case Help => Done(HelpText, [])
    case Version => Done(VersionText(VERSION), [])
    case ShowHistory => Done(HistoryReport(history), [])
    case List => LsOutcome(args, fs)
    case ChangeDir => CdOutcome(args, fs)
    case ReadFile => CatOutcome(args, fs)
    case MakeDir => MkdirOutcome(args, fs)
    case Clear => Done(Silent, [ClearScreen])
    case Remove => RmOutcome(args, fs)
    case Notepad => NotepadOutcome(args)
    case Code => CodeOutcome(args)
    case WorkingDir => Done(WorkingDirectory(CurrentDirectory(fs.getcwd)), [])
    case Rename => RenameOutcome(args, fs)
    case Move => MoveOutcome(args, fs)
    case Unrecognized => Done(NotRecognized(args[0]), [])
  }

  /** The `currentDir` a dispatched command leaves behind, when it changes it. */
  function NewDir(args: seq<string>, fs: Fs): Option<string>
    requires |args| > 0
  {
    if Route(args[0]) == ChangeDir then CdOutcome(args, fs).newDir else None
  }

  /** The listing shows every recorded command, numbered from 1, in order. */
  lemma {:induction false} HistoryListing(history: seq<string>)
    ensures HistoryReport(history).NoHistory? <==> history == []
    ensures history != [] ==> HistoryReport(history) == HistoryList(Numbered(history))
    ensures |Numbered(history)| == |history|
    ensures forall i :: 0 <= i < |history| ==>
      Numbered(history)[i].number == i + 1 && Numbered(history)[i].text == history[i]
  {
  }

  /** A command prints its usage line exactly when it has fewer tokens than it needs,
      and then makes no request at all. */
  lemma {:induction false} UsageGuard(args: seq<string>, fs: Fs, history: seq<string>)
    requires |args| > 0
    ensures Handle(args, fs, history).report.Usage? <==> |args| < MinArgs(Route(args[0]))
    ensures |args| < MinArgs(Route(args[0])) ==>
      Handle(args, fs, history).effects == [] && Handle(args, fs, history).newDir.None?
  {
    match Route(args[0])
    case ReadFile =>
    case MakeDir =>
    case Remove =>
    case Rename =>
    case Move =>
    case _ =>
  }

  /** cd without an argument and without USERPROFILE reports the missing home directory
      and tries nothing; otherwise it tries _chdir once, reports the missing directory
      exactly when _chdir fails, and is silent and moves `currentDir` exactly when it
      succeeds. */
  lemma {:induction false} CdBranches(args: seq<string>, fs: Fs)
    ensures |args| < 2 && fs.home.None? ==> CdOutcome(args, fs) == Outcome(HomeNotFound, [], None)
    ensures !(|args| < 2 && fs.home.None?) ==>
      var target := if |args| < 2 then fs.home.value else args[1];
      var o := CdOutcome(args, fs);
      o.effects == [ChangeDirectory(target)] &&
      (o.report == DirectoryNotFound(target) <==> fs.chdir(target).ChdirFailed?) &&
      (o.report == Silent <==> fs.chdir(target).ChdirDone?) &&
      (o.newDir.Some? <==> fs.chdir(target).ChdirDone?)
  {
  }

  /** cat shows the file exactly when it can be opened, and never asks for a change. */
  lemma {:induction false} CatBranches(args: seq<string>, fs: Fs)
    requires |args| >= 2
    ensures CatOutcome(args, fs).effects == []
    ensures CatOutcome(args, fs).report == FileShown(args[1]) <==> fs.canOpen(args[1])
    ensures CatOutcome(args, fs).report == CannotOpen(args[1]) <==> !fs.canOpen(args[1])
  {
  }

  /** notepad and code always launch their program once, with the argument when there is
      one and otherwise "" (notepad) or "." (code); the extra tokens are ignored. */
  lemma {:induction false} LaunchArguments(args: seq<string>)
    ensures NotepadOutcome(args).effects ==
      [Launch("notepad.exe", if |args| > 1 then args[1] else "")]
    ensures CodeOutcome(args).effects == [Launch("code", if |args| > 1 then args[1] else ".")]
  {
  }

  /** Only mkdir, rm, rename and move ask for a change of the filesystem, and no
      command makes more than one request. */
  lemma {:induction false} OnlyFileCommandsMutate(args: seq<string>, fs: Fs, history: seq<string>)
    requires |args| > 0
    ensures |Handle(args, fs, history).effects| <= 1
    ensures forall e :: e in Handle(args, fs, history).effects && MutatesFilesystem(e) ==>
      Route(args[0]) in {MakeDir, Remove, Rename, Move}
  {
    match Route(args[0])
    case MakeDir =>
    case Remove =>
    case Rename =>
    case Move =>
    case _ =>
  }

  /** Only a successful cd changes `currentDir`: not a failed _chdir, not a missing home
      directory, not any other command. */
  lemma {:induction false} OnlyCdChangesDirectory(args: seq<string>, fs: Fs, history: seq<string>)
    requires |args| > 0
    ensures Handle(args, fs, history).newDir == NewDir(args, fs)
    ensures NewDir(args, fs).Some? <==>
      Route(args[0]) == ChangeDir && !(|args| < 2 && fs.home.None?) &&
      fs.chdir(if |args| < 2 then fs.home.value else args[1]).ChdirDone?
  {
    match Route(args[0])
    case ChangeDir =>
    case _ =>
  }

  /** A name that is no alias gets the "not recognized" message and nothing else. */
  lemma {:induction false} UnrecognizedDoesNothing(args: seq<string>, fs: Fs, history: seq<string>)
    requires |args| > 0 && Route(args[0]) == Unrecognized
    ensures Handle(args, fs, history) == Outcome(NotRecognized(args[0]), [], None)
  {
  }

  /** rm reports a missing path before trying any delete; otherwise it removes a
      directory or deletes a file, never both, and each failure has its own message. */
  lemma {:induction false} RmBranches(args: seq<string>, fs: Fs)
    requires |args| >= 2
    ensures var o := RmOutcome(args, fs);
      match fs.attributes(args[1])
      case InvalidAttributes => o.report == NotFound(args[1]) && o.effects == []
      case Attrs(true) =>
        o.effects == [RemoveDirectory(args[1])] &&
        (o.report == DirectoryDeleted(args[1]) <==> fs.removeDirectory(args[1])) &&
        (o.report == CannotDeleteDirectory(args[1]) <==> !fs.removeDirectory(args[1]))
      case Attrs(false) =>
        o.effects == [DeleteFile(args[1])] &&
        (o.report == FileDeleted(args[1]) <==> fs.deleteFile(args[1])) &&
        (o.report == CannotDeleteFile(args[1]) <==> !fs.deleteFile(args[1]))
  {
  }

  /** mkdir always tries the creation once and tells "already exists" apart from other
      failures. */
  lemma {:induction false} MkdirBranches(args: seq<string>, fs: Fs)
    requires |args| >= 2
    ensures MkdirOutcome(args, fs).effects == [CreateDirectory(args[1])]
    ensures MkdirOutcome(args, fs).report == DirectoryCreated(args[1]) <==>
      fs.createDirectory(args[1]) == Created
    ensures MkdirOutcome(args, fs).report == DirectoryExists(args[1]) <==>
      fs.createDirectory(args[1]) == AlreadyExists
    ensures MkdirOutcome(args, fs).report == CannotCreate(args[1]) <==>
      fs.createDirectory(args[1]) == CreateFailed
  {
  }

  /** `BaseName` picks the name after the last separator, whatever precedes it. */
  lemma {:induction false} BaseNameOf(prefix: string, name: string)
    requires NoneIn(name, Separators)
    requires prefix == [] || prefix[|prefix| - 1] in Separators
    ensures BaseName(prefix + name) == name
  {
    var path := prefix + name;
    assert path[|path| - |name|..] == name;
  }

  /** Moving into an existing directory keeps the source's own name; any other
      destination is used as given. */
  lemma {:induction false} MoveIntoDirectory(args: seq<string>, fs: Fs, prefix: string, name: string)
    requires |args| >= 3 && args[1] == prefix + name
    requires NoneIn(name, Separators)
    requires prefix == [] || prefix[|prefix| - 1] in Separators
    ensures fs.attributes(args[2]) == Attrs(true) ==>
      MoveOutcome(args, fs).effects == [MoveFile(args[1], args[2] + "\\" + name)]
    ensures fs.attributes(args[2]) != Attrs(true) ==>
      MoveOutcome(args, fs).effects == [MoveFile(args[1], args[2])]
  {
    BaseNameOf(prefix, name);
  }

  /** rename and move each ask MoveFileA once and report success exactly when it
      succeeds, failure exactly when it fails. */
  lemma {:induction false} MoveFileBranches(args: seq<string>, fs: Fs)
    requires |args| >= 3
    ensures RenameOutcome(args, fs).report == Renamed(args[1], args[2]) <==>
      fs.moveFile(args[1], args[2])
    ensures RenameOutcome(args, fs).report == CannotRename(args[1]) <==>
      !fs.moveFile(args[1], args[2])
    ensures var dest := MoveDestination(args[1], args[2], fs.attributes(args[2]));
      MoveOutcome(args, fs).effects == [MoveFile(args[1], dest)] &&
      (MoveOutcome(args, fs).report == Moved(args[1], dest) <==> fs.moveFile(args[1], dest)) &&
      (MoveOutcome(args, fs).report == CannotMove(args[1]) <==> !fs.moveFile(args[1], dest))
  {
  }

  /** rename has no directory rule: the new name reaches MoveFileA unchanged even when it
      names an existing directory, where move would have appended the base name. */
  lemma {:induction false} RenameKeepsNewName(args: seq<string>, fs: Fs)
    requires |args| >= 3
    ensures RenameOutcome(args, fs).effects == [MoveFile(args[1], args[2])]
    ensures fs.attributes(args[2]) == Attrs(true) ==>
      MoveOutcome(args, fs).effects != RenameOutcome(args, fs).effects
  {
    if fs.attributes(args[2]) == Attrs(true) {
      var d := args[2] + "\\" + BaseName(args[1]);
      assert |d| > |args[2]|;
    }
  }
}
