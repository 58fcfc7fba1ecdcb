/** The alias chain of `processCommand` (cpp_shell.cpp:362-409): the first token is
    compared, exactly and case-sensitively, against fixed names. */
module Commands {
  datatype Command =
    | Help | Version | ShowHistory
    | List | ChangeDir | ReadFile | MakeDir | Clear | Remove
    | Notepad | Code | WorkingDir | Rename | Move
    | Unrecognized

  /** The if/else-if chain, in the source's order. */
  function Route(name: string): Command {
    if name == "-help" then Help
    else if name == "-version" then Version
    else if name == "-history" then ShowHistory
    else if name == "ls" || name == "dir" then List
    else if name == "cd" then ChangeDir
    else if name == "cat" || name == "type" then ReadFile
    else if name == "mkdir" then MakeDir
    else if name == "clear" || name == "cls" then Clear
    else if name == "rm" || name == "del" || name == "delete" then Remove
    else if name == "notepad" then Notepad
    else if name == "code" then Code
    else if name == "wd" || name == "pwd" then WorkingDir
    else if name == "rename" || name == "ren" then Rename
    else if name == "move" || name == "mv" then Move
    else Unrecognized
  }

  /** The alias group of each command, as a table independent of the chain. */
  function Aliases(c: Command): set<string> {
    match c
    case Help => {"-help"}
    case Version => {"-version"}
    case ShowHistory => {"-history"}
    case List => {"ls", "dir"}
    case ChangeDir => {"cd"}
    case ReadFile => {"cat", "type"}
    case MakeDir => {"mkdir"}
    case Clear => {"clear", "cls"}
    case Remove => {"rm", "del", "delete"}
    case Notepad => {"notepad"}
    case Code => {"code"}
    case WorkingDir => {"wd", "pwd"}
    case Rename => {"rename", "ren"}
    case Move => {"move", "mv"}
    case Unrecognized => {}
  }

  /** Every name the chain recognizes: the union of the alias groups, written out once as a
      constant; `KnownNamesAreAliases` proves it is exactly that union. */
  const KnownNames: set<string> :=
    {"-help", "-version", "-history", "ls", "dir", "cd", "cat", "type", "mkdir", "clear",
     "cls", "rm", "del", "delete", "notepad", "code", "wd", "pwd", "rename", "ren",
     "move", "mv"}

  /** Every alias of a command selects that command. */
  lemma {:induction false} AliasesRoute(c: Command, name: string)
    requires name in Aliases(c)
    ensures Route(name) == c
  {
    assert name in KnownNames by {
      assert Aliases(c) <= KnownNames;
    }
    RouteUnrecognized(name);
    RouteFromAliases(name);
    if Route(name) != c {
      AliasesDisjoint(c, Route(name));
    }
  }

  /** The chain selects a command only for one of its aliases. */
  lemma {:induction false} RouteFromAliases(name: string)
    ensures Route(name) != Unrecognized ==> name in Aliases(Route(name))
  {
  }

  /** Names outside the table, including "exit", other spellings and other cases,
      fall through to the "not recognized" branch. */
  lemma {:induction false} RouteUnrecognized(name: string)
    ensures Route(name) == Unrecognized <==> name !in KnownNames
  {
  }

  /** A name is known exactly when it is an alias of some command. */
  lemma {:induction false} KnownNamesAreAliases(name: string)
    ensures name in KnownNames <==> exists c :: name in Aliases(c)
  {
    RouteUnrecognized(name);
    RouteFromAliases(name);
    if c :| name in Aliases(c) {
      AliasesRoute(c, name);
    }
  }

  /** No name belongs to two alias groups. */
  lemma {:induction false} AliasesDisjoint(c1: Command, c2: Command)
    requires c1 != c2
    ensures Aliases(c1) !! Aliases(c2)
  {
  }


  /** The fewest tokens, the command name included, with which a handler acts; with fewer
      it prints its usage line and does nothing else. */
  function MinArgs(c: Command): nat {
    match c
    case ReadFile => 2
    case MakeDir => 2
    case Remove => 2
    case Rename => 3
    case Move => 3
    case _ => 1
  }
}
