/** The `Shell` class of cpp_shell.cpp (lines 12-430): the session state (`history`,
    `username`, `currentDir`, `running`), the per-line step `processCommand` and the
    loop `run`. */
module ShellModel {
  import opened Wrappers
  import opened Text
  import opened Tokenizer
  import opened Environment
  import opened Commands
  import opened Handlers

  /** One line read by `run`, with the answers the environment gives while it is
      processed. */
  datatype Line = Line(text: string, fs: Fs)

  /** The texts of the lines, in order. */
  function Texts(input: seq<Line>): seq<string> {
    seq(|input|, i requires 0 <= i < |input| => input[i].text)
  }

  /** A line with no token: `processCommand` returns at once. */
  predicate IsBlank(line: string) {
    Tokens(line) == []
  }

  /** A line whose first token is exactly "exit". */
  predicate IsExit(line: string) {
    var args := Tokens(line);
    args != [] && args[0] == "exit"
  }

  /** What history may hold: a trimmed line with a first token other than "exit". */
  predicate Recordable(entry: string) {
    Trim(entry) == entry && !IsBlank(entry) && !IsExit(entry)
  }

  /** The history entries a session of lines appends: the trimmed text of every line that
      is neither blank nor `exit`, up to the first `exit`. */
  function Recorded(lines: seq<string>): seq<string> {
    if lines == [] || IsExit(lines[0]) then []
    else if IsBlank(lines[0]) then Recorded(lines[1..])
    else [Trim(lines[0])] + Recorded(lines[1..])
  }

  /** What one line adds to the history: its trimmed text, unless it is blank or `exit`. */
  function Contribution(line: string): seq<string> {
    if IsBlank(line) || IsExit(line) then [] else [Trim(line)]
  }

  predicate HasExit(lines: seq<string>) {
    exists i :: 0 <= i < |lines| && IsExit(lines[i])
  }

  /** How many lines `run` reads: up to and including the first `exit`, or all of them. */
  function LinesRead(lines: seq<string>): nat {
    if lines == [] then 0
    else if IsExit(lines[0]) then 1
    else 1 + LinesRead(lines[1..])
  }

  /** `currentDir` after a line: the prompt refreshes it from _getcwd, then a successful
      cd sets it again. */
  function DirAfter(line: Line): string {
    DirAfterCommand(line.text, line.fs, CurrentDirectory(line.fs.getcwd))
  }

  /** `currentDir` after processing `text` when it was `before`: only a cd that
      reaches a directory replaces it. */
  function DirAfterCommand(text: string, fs: Fs, before: string): string {
    if !IsBlank(text) && !IsExit(text) && NewDir(Tokens(text), fs).Some?
    then NewDir(Tokens(text), fs).value
    else before
  }

  /** A non-blank line always has a non-empty trim. */
  lemma {:induction false} TrimOfNonBlank(line: string)
    requires !IsBlank(line)
    ensures Trim(line) != []
  {
    TokensEmptyIffBlank(line);
  }

  /** The trim of a line that is neither blank nor `exit` may be recorded. */
  lemma {:induction false} TrimIsRecordable(line: string)
    requires !IsBlank(line) && !IsExit(line)
    ensures Recordable(Trim(line))
  {
    TrimIdempotent(line);
    TokensOfTrim(line);
  }

  /** Every entry a session records is trimmed, non-blank and not `exit`. */
  lemma {:induction false} RecordedAreRecordable(lines: seq<string>)
    ensures forall i :: 0 <= i < |Recorded(lines)| ==> Recordable(Recorded(lines)[i])
    ensures |Recorded(lines)| <= |lines|
    decreases |lines|
  {
    if lines != [] && !IsExit(lines[0]) {
      RecordedAreRecordable(lines[1..]);
      if !IsBlank(lines[0]) {
        TrimIsRecordable(lines[0]);
      }
    }
  }

  /** Before any `exit`, one more line adds its trimmed text exactly when it is
      neither blank nor `exit`. */
  lemma {:induction false} RecordedSnoc(lines: seq<string>, line: string)
    requires !HasExit(lines)
    ensures Recorded(lines + [line]) == Recorded(lines) + Contribution(line)
    decreases |lines|
  {
    if lines == [] {
      assert lines + [line] == [line];
    } else {
      assert !IsExit(lines[0]);
      assert (lines + [line])[1..] == lines[1..] + [line];
      assert !HasExit(lines[1..]) by {
        forall i | 0 <= i < |lines[1..]| ensures !IsExit(lines[1..][i]) {
          assert lines[1..][i] == lines[i + 1];
        }
      }
      RecordedSnoc(lines[1..], line);
    }
  }

  /** Nothing after an `exit` is recorded. */
  lemma {:induction false} RecordedStopsAtExit(lines: seq<string>, rest: seq<string>)
    requires HasExit(lines)
    ensures Recorded(lines + rest) == Recorded(lines)
    decreases |lines|
  {
    assert lines != [];
    assert (lines + rest)[0] == lines[0];
    if !IsExit(lines[0]) {
      assert (lines + rest)[1..] == lines[1..] + rest;
      var i :| 0 <= i < |lines| && IsExit(lines[i]);
      assert lines[1..][i - 1] == lines[i];
      RecordedStopsAtExit(lines[1..], rest);
    }
  }

  /** Lines before the first `exit` are all read. */
  lemma {:induction false} LinesReadPrefix(lines: seq<string>, rest: seq<string>)
    requires !HasExit(lines)
    ensures LinesRead(lines + rest) == |lines| + LinesRead(rest)
    decreases |lines|
  {
    if lines == [] {
      assert lines + rest == rest;
    } else {
      assert (lines + rest)[0] == lines[0] && !IsExit(lines[0]);
      assert (lines + rest)[1..] == lines[1..] + rest;
      assert !HasExit(lines[1..]) by {
        forall i | 0 <= i < |lines[1..]| ensures !IsExit(lines[1..][i]) {
          assert lines[1..][i] == lines[i + 1];
        }
      }
      LinesReadPrefix(lines[1..], rest);
    }
  }

  /** An `exit` is among the lines exactly when it is the first line or among the rest. */
  lemma {:induction false} HasExitCons(lines: seq<string>)
    requires lines != []
    ensures HasExit(lines) == (IsExit(lines[0]) || HasExit(lines[1..]))
  {
    if HasExit(lines) && !IsExit(lines[0]) {
      var i :| 0 <= i < |lines| && IsExit(lines[i]);
      assert lines[1..][i - 1] == lines[i];
    }
    if HasExit(lines[1..]) {
      var i :| 0 <= i < |lines[1..]| && IsExit(lines[1..][i]);
      assert lines[i + 1] == lines[1..][i];
    }
  }

  /** The lines from `n` on: line `n` first, then the lines from `n + 1` on. */
  lemma {:induction false} SessionUnfold(texts: seq<string>, n: nat)
    requires n < |texts|
    ensures Recorded(texts[n..]) ==
      if IsExit(texts[n]) then [] else Contribution(texts[n]) + Recorded(texts[n + 1..])
    ensures LinesRead(texts[n..]) == if IsExit(texts[n]) then 1 else 1 + LinesRead(texts[n + 1..])
    ensures HasExit(texts[n..]) == (IsExit(texts[n]) || HasExit(texts[n + 1..]))
  {
    var rest := texts[n..];
    assert rest[0] == texts[n] && rest[1..] == texts[n + 1..];
    HasExitCons(rest);
  }

  class Shell {
    var history: seq<string>
    const username: string
    var currentDir: string
    var running: bool

    /** History only ever holds lines `processCommand` records. */
    predicate Valid()
      reads this
    {
      forall i {:trigger Recordable(history[i])} :: 0 <= i < |history| ==> Recordable(history[i])
    }

    /** `Shell()` (cpp_shell.cpp:60-63), given what GetUserNameA and _getcwd answer. */
    constructor (user: Option<string>, cwd: Option<string>)
      ensures Valid()
      ensures history == [] && running
      ensures username == UserName(user) && currentDir == CurrentDirectory(cwd)
    {
      history := [];
      username := UserName(user);
      currentDir := CurrentDirectory(cwd);
      running := true;
    }

    /** `displayPrompt` (cpp_shell.cpp:80-84) refreshes `currentDir`; the text it prints
        is not modelled. */
    method DisplayPrompt(fs: Fs)
      modifies this`currentDir
      ensures currentDir == CurrentDirectory(fs.getcwd)
    {
      currentDir := CurrentDirectory(fs.getcwd);
    }

    /** `saveToHistory` (cpp_shell.cpp:87-92): append the trimmed command unless it is
        empty. */
    method SaveToHistory(cmd: string)
      modifies this`history
      ensures history == old(history) + (if Trim(cmd) == [] then [] else [Trim(cmd)])
    {
      var trimmed := Trim(cmd);
      if trimmed != [] {
        history := history + [trimmed];
      }
    }

    /** `cmdHistory` (cpp_shell.cpp:125-136): one numbered line per entry, in order. */
    method CmdHistory() returns (report: Report)
      ensures report == HistoryReport(history)
    {
      if |history| == 0 {
        return NoHistory;
      }
      var entries: seq<Entry> := [];
      for i := 0 to |history|
        invariant |entries| == i
        invariant forall k :: 0 <= k < i ==> entries[k] == Entry(k + 1, history[k])
      {
        entries := entries + [Entry(i + 1, history[i])];
      }
      assert entries == Numbered(history);
      report := HistoryList(entries);
    }

    /** `cmdLs` (cpp_shell.cpp:139-170): the do/while over the find records prints all
        but "." and "..", in the order they come. */
    method CmdLs(args: seq<string>, fs: Fs) returns (o: Outcome)
      ensures o == LsOutcome(args, fs)
    {
      var path := if |args| > 1 then args[1] else ".";
      var found := fs.find(path + "\\*");
      if found.None? {
        return Done(CannotAccess(path), []);
      }
      var entries := found.value;
      var shown: seq<FindEntry> := [];
      var i := 0;
      while i < |entries|
        invariant 0 <= i <= |entries|
        invariant shown + WithoutDots(entries[i..]) == WithoutDots(entries)
      {
        assert entries[i..][1..] == entries[i + 1..];
        var name := entries[i].name;
        if name != "." && name != ".." {
          AppendAssociative(shown, [entries[i]], WithoutDots(entries[i + 1..]));
          shown := shown + [entries[i]];
        }
        i := i + 1;
      }
      assert entries[|entries|..] == [];
      assert shown == WithoutDots(entries);
      assert LsOutcome(args, fs) == Done(Listing(path, WithoutDots(entries)), []);
      o := Done(Listing(path, shown), []);
    }

    /** `cmdCd` (cpp_shell.cpp:173-194): `currentDir` changes only when _chdir succeeds. */
    method CmdCd(args: seq<string>, fs: Fs) returns (o: Outcome)
      modifies this`currentDir
      ensures o == CdOutcome(args, fs)
      ensures currentDir == (if o.newDir.Some? then o.newDir.value else old(currentDir))
    {
      var target;
      if |args| < 2 {
        match fs.home
        case None =>
          return Done(HomeNotFound, []);
        case Some(home) =>
          target := home;
      } else {
        target := args[1];
      }
      match fs.chdir(target)
      case ChdirFailed =>
        o := Done(DirectoryNotFound(target), [ChangeDirectory(target)]);
      case ChdirDone(cwd) =>
        currentDir := CurrentDirectory(cwd);
        o := Outcome(Silent, [ChangeDirectory(target)], Some(currentDir));
    }

    /** `cmdMove` (cpp_shell.cpp:319-342): `dest` is extended in place when it names an
        existing directory. */
    method CmdMove(args: seq<string>, fs: Fs) returns (o: Outcome)
      ensures o == MoveOutcome(args, fs)
    {
      if |args| < 3 {
        return Done(Usage(MoveUsage), []);
      }
      var source := args[1];
      var dest := args[2];
      if fs.attributes(dest) == Attrs(true) {
        var pos := FindLastOf(source, Separators);
        var filename := if pos.Some? then source[pos.value + 1..] else source;
        assert filename == BaseName(source);
        dest := dest + "\\" + filename;
      }
      var report := if fs.moveFile(source, dest) then Moved(source, dest) else CannotMove(source);
      o := Done(report, [MoveFile(source, dest)]);
    }

    /** `processCommand` (cpp_shell.cpp:345-412): returns whether the shell keeps
        running, with what the line did. */
    method ProcessCommand(input: string, fs: Fs) returns (keepRunning: bool, o: Outcome)
      requires Valid()
      modifies this`history, this`currentDir
      ensures Valid()
      ensures keepRunning == !IsExit(input)
      ensures IsBlank(input) ==> o == Outcome(Silent, [], None)
      ensures IsExit(input) ==> o == Outcome(Goodbye, [], None)
      ensures IsBlank(input) || IsExit(input) ==> history == old(history)
      ensures !IsBlank(input) && !IsExit(input) ==>
        && history == old(history) + [Trim(input)]
        && o == Handle(Tokens(input), fs, history)
        && o.newDir == NewDir(Tokens(input), fs)
      ensures currentDir == DirAfterCommand(input, fs, old(currentDir))
    {
      var args := ParseCommand(input);
      if |args| == 0 {
        return true, Outcome(Silent, [], None);
      }
      var cmd := args[0];
      if cmd == "exit" {
        return false, Outcome(Goodbye, [], None);
      }
      TrimOfNonBlank(input);
      TrimIsRecordable(input);
      SaveToHistory(input);
      keepRunning := true;
      o := Dispatch(args, fs);
    }

    /** The alias chain of `processCommand` (cpp_shell.cpp:361-409), run after the line is
        saved: each command's handler, or the "not recognized" message. */
    method Dispatch(args: seq<string>, fs: Fs) returns (o: Outcome)
      requires |args| > 0
      modifies this`currentDir
      ensures o == Handle(args, fs, history)
      ensures o.newDir == NewDir(args, fs)
      ensures currentDir == (if o.newDir.Some? then o.newDir.value else old(currentDir))
    {
      var cmd := args[0];
      match Route(cmd)
      case Help => o := Done(HelpText, []);
      case Version => o := Done(VersionText(VERSION), []);
      case ShowHistory =>
        var report := CmdHistory();
        o := Done(report, []);
      case List => o := CmdLs(args, fs);
      case ChangeDir => o := CmdCd(args, fs);
      case ReadFile => o := CatOutcome(args, fs);
      case MakeDir => o := MkdirOutcome(args, fs);
      case Clear => o := Done(Silent, [ClearScreen]);
      case Remove => o := RmOutcome(args, fs);
      case Notepad => o := NotepadOutcome(args);
      case Code => o := CodeOutcome(args);
      case WorkingDir => o := Done(WorkingDirectory(CurrentDirectory(fs.getcwd)), []);
      case Rename => o := RenameOutcome(args, fs);
      case Move => o := CmdMove(args, fs);
      case Unrecognized => o := Done(NotRecognized(cmd), []);
    }

    /** One round of `run` (cpp_shell.cpp:419-427) on a line that was read: show the
        prompt, then process the line. */
    method Step(line: Line) returns (keepRunning: bool)
      requires Valid()
      modifies this`history, this`currentDir
      ensures Valid()
      ensures keepRunning == !IsExit(line.text)
      ensures history == old(history) + Contribution(line.text)
      ensures currentDir == DirAfter(line)
    {
      DisplayPrompt(line.fs);
      var outcome;
      keepRunning, outcome := ProcessCommand(line.text, line.fs);
    }

    /** `run` (cpp_shell.cpp:415-428): prompt and process lines until a line is `exit` or
        the input ends; at the end of the input the prompt is still shown, against `eof`. */
    method Run(input: seq<Line>, eof: Fs) returns (consumed: nat)
      requires Valid()
      modifies this`history, this`currentDir, this`running
      ensures Valid()
      ensures consumed <= |input|
      ensures consumed == (if old(running) then LinesRead(Texts(input)) else 0)
      ensures running == (old(running) && !HasExit(Texts(input)))
      ensures history == old(history) + (if old(running) then Recorded(Texts(input)) else [])
      ensures currentDir ==
        if !old(running) then old(currentDir)
        else if running then CurrentDirectory(eof.getcwd)
        else DirAfter(input[consumed - 1])
    {
      consumed := 0;
      if !running {
        return;
      }
      ghost var texts := Texts(input);
      while running && consumed < |input|
        invariant Valid()
        invariant consumed <= |input|
        invariant running ==> history + Recorded(texts[consumed..]) == old(history) + Recorded(texts)
        invariant running ==> consumed + LinesRead(texts[consumed..]) == LinesRead(texts)
        invariant running ==> HasExit(texts[consumed..]) == HasExit(texts)
        invariant !running ==> history == old(history) + Recorded(texts)
        invariant !running ==> consumed == LinesRead(texts) && consumed > 0 && HasExit(texts)
        invariant !running ==> currentDir == DirAfter(input[consumed - 1])
        decreases |input| - consumed
      {
        var line := input[consumed];
        SessionUnfold(texts, consumed);
        ghost var before := history;
        var keep := Step(line);
        AppendAssociative(before, Contribution(line.text), Recorded(texts[consumed + 1..]));
        running := keep;
        consumed := consumed + 1;
      }
      if running {
        assert texts[consumed..] == [];
        DisplayPrompt(eof);
      }
    }
  }
}
