/** The operating modes of the command-line front end and the resolver that
    maps the first positional argument to one of them (internal/setup.go). */
module Modes {

  datatype Option<+T> = None | Some(value: T)

  /** The closed set of modes, listed in the order of their numeric values. */
  datatype Mode = Help | Query | Chat | Glob | Photo | Version

  /** The only error the resolver reports: the token that is no command word. */
  datatype CommandError = UnknownCommand(token: string)

  /** The resolver's answer: a mode, and an error when the token was not
      recognised (the mode is then the fallback value Help). */
  datatype Resolution = Resolution(mode: Mode, err: Option<CommandError>)

  /** Every mode once, indexed by its numeric value. */
  const AllModes: seq<Mode> := [Help, Query, Chat, Glob, Photo, Version]

  /** The numeric value the enumeration gives a mode (HELP is 0, VERSION is 5). */
  function Ordinal(m: Mode): (n: nat)
    ensures n < |AllModes| && AllModes[n] == m
  {
    match m
    case Help => 0
    case Query => 1
    case Chat => 2
    case Glob => 3
    case Photo => 4
    case Version => 5
  }

  /** The long command word of a mode. */
  function LongWord(m: Mode): string {
    match m
    case Help => "help"
    case Query => "query"
    case Chat => "chat"
    case Glob => "glob"
    case Photo => "photo"
    case Version => "version"
  }

  /** The one-letter alias of a mode. */
  function ShortWord(m: Mode): string {
    match m
    case Help => "h"
    case Query => "q"
    case Chat => "c"
    case Glob => "g"
    case Photo => "p"
    case Version => "v"
  }

  /** True of exactly the twelve command words. */
  predicate IsCommandWord(cmd: string) {
    exists m: Mode :: cmd == LongWord(m) || cmd == ShortWord(m)
  }

  /** getModeFromArgs: exact match of one token against the command words. */
  function ModeFromArg(cmd: string): (r: Resolution)
    ensures r.err.None? ==> cmd == LongWord(r.mode) || cmd == ShortWord(r.mode)
    ensures r.err.Some? ==> r.mode == Help && r.err.value == UnknownCommand(cmd)
  {
    match cmd
    case "photo" => Resolution(Photo, None)
    case "p" => Resolution(Photo, None)
    case "chat" => Resolution(Chat, None)
    case "c" => Resolution(Chat, None)
    case "query" => Resolution(Query, None)
    case "q" => Resolution(Query, None)
    case "glob" => Resolution(Glob, None)
    case "g" => Resolution(Glob, None)
    case "help" => Resolution(Help, None)
    case "h" => Resolution(Help, None)
    case "version" => Resolution(Version, None)
    case "v" => Resolution(Version, None)
    case _ => Resolution(Help, Some(UnknownCommand(cmd)))
  }

  /** Both words of every mode resolve to that mode, without error. */
  lemma WordsResolve(m: Mode)
    ensures ModeFromArg(LongWord(m)) == Resolution(m, None)
    ensures ModeFromArg(ShortWord(m)) == Resolution(m, None)
  {
  }

  /** Resolution succeeds exactly on the twelve command words. */
  lemma ResolvesIffCommandWord(cmd: string)
    ensures ModeFromArg(cmd).err.None? <==> IsCommandWord(cmd)
  {
    var r := ModeFromArg(cmd);
    if r.err.None? {
      assert cmd == LongWord(r.mode) || cmd == ShortWord(r.mode);
    }
    if IsCommandWord(cmd) {
      var m: Mode :| cmd == LongWord(m) || cmd == ShortWord(m);
      WordsResolve(m);
    }
  }

  /** Different modes have different words: no word, long or short, is
      shared by two modes, so the six word pairs name six distinct modes. */
  lemma WordsDistinct(m1: Mode, m2: Mode)
    requires m1 != m2
    ensures LongWord(m1) != LongWord(m2)
    ensures ShortWord(m1) != ShortWord(m2)
    ensures LongWord(m1) != ShortWord(m2)
  {
    WordsResolve(m1);
    WordsResolve(m2);
  }

  /** Matching is exact: a capitalised word, a padded word and the empty
      token are all unknown and fall back to Help. */
  lemma ExactMatchOnly()
    ensures ModeFromArg("Chat") == Resolution(Help, Some(UnknownCommand("Chat")))
    ensures ModeFromArg("chat ") == Resolution(Help, Some(UnknownCommand("chat ")))
    ensures ModeFromArg("") == Resolution(Help, Some(UnknownCommand("")))
  {
  }
}
