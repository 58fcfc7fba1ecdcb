# cpp-shell in Dafny

A model of the interpreter at the heart of cpp-shell, a small Windows terminal emulator
written in C++ (`cpp_shell.cpp`). The model covers the `Shell` class:

- `trim` and `parseCommand`, which turn a line into tokens;
- `processCommand`:
  - a blank line is ignored;
  - `exit` stops the shell without touching the history;
  - every other line is saved to the history, then its first token is routed through an
    exact, case-sensitive chain of aliases to a handler;
- the handlers `-help`, `-version`, `-history`, `ls`, `cd`, `cat`, `mkdir`, `clear`, `rm`,
  `notepad`, `code`, `wd`, `rename` and `move`;
- the `run` loop.

Windows and the C runtime are not modelled. A value of `Environment.Fs` fixes what each
call answers while one line is processed: GetFileAttributesA, FindFirstFileA,
`_chdir`/`_getcwd`, `std::ifstream`, CreateDirectoryA with GetLastError, RemoveDirectoryA,
DeleteFileA, MoveFileA and `getenv("USERPROFILE")`.

A handler returns an `Outcome` with three parts:

- the message it prints, as a `Report` value;
- the requests it makes, as `Effect`s: a directory created, a file moved, a program
  launched, and so on;
- the new `currentDir`, when the handler changes it.

The modules follow the source:

| file | module | models |
|---|---|---|
| text.dfy | `Text` | `std::string` searches and `trim` |
| tokenizer.dfy | `Tokenizer` | `parseCommand` and the `>>` word extraction |
| environment.dfy | `Environment` | the oracle, `getCurrentDirectory`, `getUsername` |
| commands.dfy | `Commands` | the alias chain |
| handlers.dfy | `Handlers` | the `cmd*` handlers, as functions of their arguments and the oracle |
| shell.dfy | `ShellModel` | the `Shell` object: constructor, prompt, history, `processCommand`, `run` |

The code fixes the following details:

- The history holds `trim(input)`, the raw line trimmed. It does not hold the tokens
  joined again, so inner runs of spaces are kept.
- Every non-blank line other than `exit` is recorded: unrecognized commands, commands
  that fail, and `-history` itself, which is recorded before it is listed.
- Only the dashed spellings `-help`, `-version` and `-history` are recognized. Matching is
  exact and case-sensitive.
- `rename` passes the new name to MoveFileA unchanged. Only `move` appends the source's
  base name when the destination is an existing directory.
- `wd` prints a fresh `_getcwd`, not the cached `currentDir`.
- Tokens are split on the C `isspace` set, which adds the vertical tab and the form feed to
  the characters `trim` strips. A line of vertical tabs is therefore blank: it has no
  tokens and is not recorded, although its trim is not empty.
- At end of input, `run` has already shown the prompt. That prompt refreshes `currentDir`
  once more before the loop ends.

## Model

| member | source | states |
|---|---|---|
| Text.FindFirstNotOf | cpp_shell.cpp:41 | the index found is outside the set and every earlier character is inside it; npos (None) exactly when every character is in the set |
| Text.FindLastNotOf | cpp_shell.cpp:43 | the index found is outside the set and every later character is inside it; npos exactly when every character is in the set |
| Text.FindLastOf | cpp_shell.cpp:332 | the index found holds a separator and no later character is one; npos exactly when the string has none |
| Text.Trim | cpp_shell.cpp:40-45 | the result is "" exactly when the line consists only of " \t\n\r"; otherwise it starts and ends with another character and is no longer than the line |
| Text.TrimSplit | cpp_shell.cpp:40-45 | every line is lead + trim(line) + trail, with lead and trail made only of " \t\n\r" and the middle trimmed: trim removes nothing else |
| Text.TrimUnique | cpp_shell.cpp:40-45 | any split of a line into strippable characters, a trimmed middle and strippable characters has trim(line) as its middle |
| Text.TrimIdempotent | cpp_shell.cpp:40-45 | trimming twice gives the same result as trimming once |
| Tokenizer.WordLength | cpp_shell.cpp:52 | one `>>` takes the maximal run of non-`isspace` characters: all of them are non-space and the next character, if any, is a space |
| Tokenizer.WordEnd | cpp_shell.cpp:52 | the loop stops at the end of the maximal run of non-space characters, which is WordLength |
| Tokenizer.ReadWords | cpp_shell.cpp:51-55 | the `while (iss >> token)` loop yields exactly Tokens(s) |
| Tokenizer.ParseCommand | cpp_shell.cpp:48-56 | the tokens of the trimmed line equal the tokens of the line itself, and each is non-empty and free of whitespace |
| Tokenizer.TokensOfTrim | cpp_shell.cpp:50 | trimming before tokenizing changes nothing, because trim strips only characters `>>` skips |
| Tokenizer.TokensAreWords | cpp_shell.cpp:52-53 | every token is non-empty and holds no whitespace |
| Tokenizer.TokensEmptyIffBlank | cpp_shell.cpp:48-56 | a line has no tokens exactly when it consists only of `isspace` characters |
| Tokenizer.TokensSkipLeading | cpp_shell.cpp:52 | leading whitespace does not change the tokens |
| Tokenizer.TokensSkipTrailing | cpp_shell.cpp:52 | trailing whitespace does not change the tokens |
| Tokenizer.TokensOfLayout | cpp_shell.cpp:48-56 | a line built from whitespace gaps and words (gaps between words non-empty) tokenizes back to exactly those words, in order |
| Tokenizer.LayoutOfLine | cpp_shell.cpp:48-56 | every line is such a layout of its own tokens, so the round trip describes every input |
| Tokenizer.Tokens | cpp_shell.cpp:51-55 | no ensures; the words `while (iss >> token)` extracts, in order; specified by TokensOfLayout, LayoutOfLine and TokensAreWords, and ReadWords is proved equal to it |
| Commands.AliasesRoute | cpp_shell.cpp:362-404 | each alias in the command table selects its command |
| Commands.RouteFromAliases | cpp_shell.cpp:362-404 | the chain selects a command only for one of that command's aliases |
| Commands.RouteUnrecognized | cpp_shell.cpp:362-409 | a name reaches the "not recognized" branch exactly when it is none of the 22 aliases, so other cases, undashed spellings and "exit" fall through |
| Commands.AliasesDisjoint | cpp_shell.cpp:372-404 | no name is an alias of two commands |
| Commands.Route | cpp_shell.cpp:362-409 | no ensures; the exact, case-sensitive if/else chain on the first token; specified by AliasesRoute, RouteFromAliases and RouteUnrecognized |
| Commands.KnownNamesAreAliases | cpp_shell.cpp:362-404 | a name is one of the 22 recognized names exactly when it is an alias of some command |
| Handlers.WithoutDots | cpp_shell.cpp:157-166 | `ls` shows a record exactly when it is found and is neither "." nor "..", and never shows more records than were found |
| Handlers.WithoutDotsAppend | cpp_shell.cpp:157-166 | for any two consecutive stretches of the records one search returns, the first stretch's records are shown before the second's, in order, each exactly as often as it was found |
| Handlers.WithoutDotsSingle | cpp_shell.cpp:159-164 | one record is shown once exactly when its name is neither "." nor ".." |
| Handlers.BaseName | cpp_shell.cpp:332-333 | the file name is the longest suffix of the source with no '\' or '/'; when it is shorter than the path, a separator precedes it |
| Handlers.BaseNameOf | cpp_shell.cpp:332-333 | for any prefix ending in a separator (or empty) and any separator-free name, the file name of prefix + name is name |
| Handlers.HistoryListing | cpp_shell.cpp:125-136 | "no commands" exactly when the history is empty; otherwise one entry per command, entry i numbered i + 1 and holding history[i] |
| Handlers.UsageGuard | cpp_shell.cpp:197-323 | a command prints its usage line exactly when it has fewer tokens than it needs (cat, mkdir, rm: 2; rename, move: 3); it then makes no request and leaves `currentDir` alone |
| Handlers.CatBranches | cpp_shell.cpp:197-216 | cat shows the file exactly when it can be opened, reports "cannot open" otherwise, and never asks for a change |
| Handlers.LaunchArguments | cpp_shell.cpp:275-294 | notepad and code always launch once, with the first argument or the defaults "" and ".", whatever other tokens follow |
| Handlers.OnlyFileCommandsMutate | cpp_shell.cpp:139-342 | no command makes more than one request, and only mkdir, rm, rename and move ask for a filesystem change |
| Handlers.OnlyCdChangesDirectory | cpp_shell.cpp:173-194 | `currentDir` is set exactly when the command is cd, its target exists (an argument, or USERPROFILE is set) and `_chdir` succeeds |
| Handlers.UnrecognizedDoesNothing | cpp_shell.cpp:405-409 | an unknown name prints "not recognized" and makes no request |
| Handlers.RmBranches | cpp_shell.cpp:243-272 | a missing path is reported before any delete is tried; otherwise a directory is removed or a file deleted (never both); the success message appears exactly when RemoveDirectoryA (or DeleteFileA) succeeds, the failure message exactly when it fails |
| Handlers.MkdirBranches | cpp_shell.cpp:219-235 | the creation is tried once; "created" is reported exactly when CreateDirectoryA succeeds, "already exists" exactly when GetLastError says so, and "cannot create" exactly for the other failures |
| Handlers.MoveIntoDirectory | cpp_shell.cpp:328-337 | a move into an existing directory goes to dest + "\" + the source's file name; any other destination is used as given |
| Handlers.RenameKeepsNewName | cpp_shell.cpp:302-316 | rename passes the new name unchanged, so it differs from move whenever the target is an existing directory |
| Handlers.CdBranches | cpp_shell.cpp:173-194 | without an argument and without USERPROFILE, cd reports the missing home directory and tries nothing; otherwise it tries `_chdir` once, reports "Cannot find directory" exactly when it fails, and is silent and sets `currentDir` exactly when it succeeds |
| Handlers.MoveFileBranches | cpp_shell.cpp:302-342 | rename and move each ask MoveFileA once; "Renamed"/"Moved" is reported exactly when it succeeds and "Cannot rename"/"Cannot move" exactly when it fails |
| Handlers.HistoryReport | cpp_shell.cpp:125-136 | no ensures; the `-history` listing; specified by HistoryListing, and CmdHistory is proved equal to it |
| Handlers.LsOutcome | cpp_shell.cpp:139-170 | no ensures; `ls`'s path default, search pattern and listing; specified through WithoutDots, WithoutDotsAppend and WithoutDotsSingle, and CmdLs is proved equal to it |
| Handlers.CdOutcome | cpp_shell.cpp:173-194 | no ensures; `cmdCd`'s decision logic; specified by CdBranches and OnlyCdChangesDirectory |
| Handlers.CatOutcome | cpp_shell.cpp:197-216 | no ensures; `cmdCat`'s decision logic; specified by UsageGuard and CatBranches |
| Handlers.MkdirOutcome | cpp_shell.cpp:219-235 | no ensures; `cmdMkdir`'s decision logic; specified by UsageGuard and MkdirBranches |
| Handlers.RmOutcome | cpp_shell.cpp:243-272 | no ensures; `cmdRm`'s decision logic; specified by UsageGuard and RmBranches |
| Handlers.NotepadOutcome | cpp_shell.cpp:275-283 | no ensures; `cmdNotepad`; specified by LaunchArguments |
| Handlers.CodeOutcome | cpp_shell.cpp:286-294 | no ensures; `cmdCode`; specified by LaunchArguments |
| Handlers.RenameOutcome | cpp_shell.cpp:302-316 | no ensures; `cmdRename`'s decision logic; specified by UsageGuard, RenameKeepsNewName and MoveFileBranches |
| Handlers.MoveDestination | cpp_shell.cpp:328-335 | no ensures; `cmdMove`'s destination rule; specified by MoveIntoDirectory through BaseName and BaseNameOf |
| Handlers.MoveOutcome | cpp_shell.cpp:319-342 | no ensures; `cmdMove`'s decision logic; specified by UsageGuard, MoveIntoDirectory and MoveFileBranches, and CmdMove is proved equal to it |
| Handlers.Handle | cpp_shell.cpp:361-409 | no ensures; the handler the alias chain selects, with its outcome; specified by OnlyFileCommandsMutate, OnlyCdChangesDirectory and UnrecognizedDoesNothing, and Dispatch is proved equal to it |
| Handlers.NewDir | cpp_shell.cpp:361-409 | no ensures; the `currentDir` a dispatched command leaves behind; specified by OnlyCdChangesDirectory |
| ShellModel.TrimOfNonBlank | cpp_shell.cpp:87-92 | a line with a token has a non-empty trim, so `saveToHistory` never drops a line `processCommand` hands it |
| ShellModel.TrimIsRecordable | cpp_shell.cpp:345-359 | what is saved for a line that is neither blank nor `exit` is trimmed, not blank and not `exit` |
| ShellModel.RecordedAreRecordable | cpp_shell.cpp:345-359 | every entry a session records is trimmed, not blank and not `exit`, and a session records at most one entry per line |
| ShellModel.RecordedSnoc | cpp_shell.cpp:345-359 | before any `exit`, one more line adds its trimmed text exactly when it is neither blank nor `exit` |
| ShellModel.RecordedStopsAtExit | cpp_shell.cpp:352-356 | nothing after an `exit` line is recorded |
| ShellModel.LinesReadPrefix | cpp_shell.cpp:419-427 | every line before the first `exit` is read |
| ShellModel.Recorded | cpp_shell.cpp:415-428 | no ensures; the history entries a sequence of input lines adds; specified by RecordedAreRecordable, RecordedSnoc and RecordedStopsAtExit, and Run is proved against it |
| ShellModel.LinesRead | cpp_shell.cpp:415-428 | no ensures; how many lines `run` reads, through the first `exit`; specified by LinesReadPrefix, and Run is proved against it |
| ShellModel.Shell.constructor | cpp_shell.cpp:60-63 | the history starts empty, the shell is running, and the user name and directory come from GetUserNameA and `_getcwd` with their fallbacks |
| ShellModel.Shell.DisplayPrompt | cpp_shell.cpp:80-84 | `currentDir` is refreshed from `_getcwd` |
| ShellModel.Shell.SaveToHistory | cpp_shell.cpp:87-92 | the trimmed command is appended exactly when it is not empty |
| ShellModel.Shell.CmdHistory | cpp_shell.cpp:125-136 | the loop produces the numbered listing of the whole history (HistoryReport) |
| ShellModel.Shell.CmdLs | cpp_shell.cpp:139-170 | the loop over the find records gives the listing without "." and ".." in the order found, or "cannot access" when the search fails |
| ShellModel.Shell.CmdCd | cpp_shell.cpp:173-194 | the outcome is CdOutcome and `currentDir` changes only to the directory a successful `_chdir` leads to |
| ShellModel.Shell.CmdMove | cpp_shell.cpp:319-342 | extending `dest` in place gives MoveOutcome, which uses the destination rule |
| ShellModel.Shell.ProcessCommand | cpp_shell.cpp:345-412 | it returns false exactly for `exit`; a blank line or `exit` leaves the history alone; any other line appends its trim and gets the handler the alias chain selects; `currentDir` changes only through a successful cd |
| ShellModel.Shell.Dispatch | cpp_shell.cpp:361-409 | the alias chain calls the selected handler; its outcome and the new `currentDir` are those of Handle and NewDir |
| ShellModel.Shell.Step | cpp_shell.cpp:419-427 | one round keeps running exactly unless the line is `exit`, adds the line's contribution to the history, and leaves `currentDir` as the prompt and the line set it |
| ShellModel.Shell.Run | cpp_shell.cpp:415-428 | `run` reads up to and including the first `exit` (all lines when there is none), stays running only if no `exit` came, and appends exactly the recorded session; history stays valid; a shell not running does nothing |

## Left out

- Output: the console text, ANSI colours, window title and banner (`initialize`), the
  help and version text, and the separators in the listings. A message is modelled only
  as which `Report` it is, with its arguments.
- `main` (cpp_shell.cpp:436-463): console allocation and window placement.
- The Windows and C runtime calls are answers in `Fs`, not a filesystem. A request the
  shell makes (`Effect`) is not applied to the answers the next line receives; each line
  carries its own `Fs`.
- ShellExecuteA (notepad, code) and `system("cls")` (clear) are recorded as requests; the
  programs they start are not modelled.
- cat: the file's lines, once it is open, are shown as `FileShown(path)`; the reading and
  the printing are not modelled.
- ls: a failed search is `None` and a successful one is the sequence of find records.
  The Win32 handle and FindClose are not modelled.
- Standard input is a finite `seq<Line>`. End of file is the end of that sequence, and the
  prompt shown before it is read against the final `eof` answers.
- CurrentDirectory and UserName: the MAX_PATH and 256-byte buffers are not modelled; a
  name that does not fit is a failed call, which the oracle can answer.
- -help and -version print fixed text; the model keeps only which text (`HelpText`,
  `VersionText("1.0.0")`).
