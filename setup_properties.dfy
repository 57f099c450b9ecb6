/** What the setup pipeline promises: the order of its steps, that it stops
    at the first failure, which configuration fields each mode writes, which
    file each family loads, and that it builds exactly the querier the
    constructor makes from the final configuration. */
module SetupProperties {
  import opened Modes
  import opened SetupPipeline

  /** The mode Setup runs for the positional arguments args. */
  function ModeOf(args: seq<string>): Mode
    requires |args| > 0
  {
    ModeFromArg(args[0]).mode
  }

  /** The glob string Setup stores when the glob collaborator succeeds. */
  function GlobResult<Q>(env: Env<Q>): string {
    if env.globSetup.Ok? then env.globSetup.value else ""
  }

  /** The steps of a mode's branch, after the home-directory lookup, when no
      collaborator fails, in the order Setup takes them. */
  function FullBranch(mode: Mode, glob: string): seq<Step> {
    match mode
    case Help =>
      [PrintUsage, ExitProcess(0)]
    case Version =>
      [ReadBuildInfo, PrintVersion, ExitProcess(0)]
    case Chat =>
      [LoadConfig(TextConfigFile), ForceChatMode,
       ApplyOverrides(TextFamily), RunPromptSetup(TextFamily), ConstructQuerier(TextFamily)]
    case Query =>
      [LoadConfig(TextConfigFile),
       ApplyOverrides(TextFamily), RunPromptSetup(TextFamily), ConstructQuerier(TextFamily)]
    case Glob =>
      [LoadConfig(TextConfigFile), ApplyOverrides(TextFamily),
       RunGlobSetup, WriteGlob(glob), RunPromptSetup(TextFamily), ConstructQuerier(TextFamily)]
    case Photo =>
      [LoadConfig(PhotoConfigFile),
       ApplyOverrides(PhotoFamily), RunPromptSetup(PhotoFamily), ConstructQuerier(PhotoFamily)]
  }

  /** Every step of a mode's run when no collaborator fails, in order: the
      reference the traces are measured against. */
  function FullRun(mode: Mode, token: string, glob: string): (t: seq<Step>)
    ensures 2 < |t| && t[0] == ResolveMode(token) && t[1] == FindHomeDir
    ensures InStepOrder(t)
  {
    [ResolveMode(token), FindHomeDir] + FullBranch(mode, glob)
  }

  /** Where the field writes and the configuration load sit in a full run. */
  lemma FullRunShape(mode: Mode, token: string, glob: string, i: nat)
    requires i < |FullRun(mode, token, glob)|
    ensures var s := FullRun(mode, token, glob)[i];
            && (s == ForceChatMode ==> mode == Chat && i == 3)
            && (s == RunGlobSetup ==> mode == Glob && i == 4)
            && (s.WriteGlob? ==> mode == Glob && i == 5 && s.glob == glob)
            && (s.LoadConfig? ==> i == 2 && (IsTextMode(mode) || mode == Photo)
                                  && (IsTextMode(mode) ==> s.fileName == TextConfigFile)
                                  && (mode == Photo ==> s.fileName == PhotoConfigFile))
  {
    var full := FullRun(mode, token, glob);
    assert full[i] == if i < 2 then full[i] else FullBranch(mode, glob)[i - 2];
  }

  /** The step at which an error is reported. */
  predicate ReportedAt(e: SetupError, s: Step) {
    match e
    case Command(_) => s.ResolveMode?
    case HomeDirNotFound(_) => s == FindHomeDir
    case ConfigLoadFailed(_) => s.LoadConfig?
    case GlobSetupFailed(_) => s == RunGlobSetup
    case PromptSetupFailed(_) => s.RunPromptSetup?
    case TextQuerierFailed(_) => s == ConstructQuerier(TextFamily)
    case PhotoQuerierFailed(_) => s == ConstructQuerier(PhotoFamily)
    case BuildInfoUnavailable => s == ReadBuildInfo
  }

  /** r took a prefix of full: all of it unless it failed, and on a failure
      exactly the steps up to the one that reported it. */
  ghost predicate StopsWithin<Q>(r: Run<Q>, full: seq<Step>) {
    && 0 < |r.trace| <= |full|
    && (forall i :: 0 <= i < |r.trace| ==> r.trace[i] == full[i])
    && (!r.outcome.Failed? ==> |r.trace| == |full|)
    && (r.outcome.Failed? ==> ReportedAt(r.outcome.err, r.trace[|r.trace| - 1]))
  }

  /** The text branch takes a prefix of its full branch. */
  lemma TextBranchStopsWithin<Q>(mode: Mode, home: string, env: Env<Q>)
    requires IsTextMode(mode)
    ensures StopsWithin(TextBranch(mode, home, env), FullBranch(mode, GlobResult(env)))
  {
    var r := TextBranch(mode, home, env);
    var full := FullBranch(mode, GlobResult(env));
    var loaded := env.loadText(home, TextConfigFile);
    if loaded.Err? {
      assert r.trace == full[..1];
    } else if mode == Glob && env.globSetup.Err? {
      assert r.trace == full[..3];
    } else {
      var n := if mode == Query then 3 else if mode == Chat then 4 else 5;
      var prompted := env.promptsText(TextBeforePrompts(mode, loaded.value, env));
      if prompted.Err? {
        assert r.trace == full[..n];
      } else {
        assert r.trace == full[..n + 1];
      }
    }
  }

  /** The photo branch takes a prefix of its full branch. */
  lemma PhotoBranchStopsWithin<Q>(home: string, env: Env<Q>)
    ensures StopsWithin(PhotoBranch(home, env), FullBranch(Photo, GlobResult(env)))
  {
    var r := PhotoBranch(home, env);
    var full := FullBranch(Photo, GlobResult(env));
    var loaded := env.loadPhoto(home, PhotoConfigFile);
    if loaded.Err? {
      assert r.trace == full[..1];
    } else if env.promptsPhoto(env.overridePhoto(loaded.value, DefaultFlags(env.homeEnv))).Err? {
      assert r.trace == full[..3];
    } else {
      assert r.trace == full[..4];
    }
  }

  /** Every run takes a prefix of its mode's full run: all of it when Setup
      succeeds or ends the process, and, on a failure, exactly the steps up
      to the one that failed, so that no later step runs. */
  lemma TraceFollowsFullRun<Q>(usage: string, args: seq<string>, env: Env<Q>)
    requires |args| > 0
    ensures StopsWithin(Pipeline(usage, args, env), FullRun(ModeOf(args), args[0], GlobResult(env)))
    ensures 2 < |Pipeline(usage, args, env).trace| ==> ModeFromArg(args[0]).err.None? && env.homeDir.Ok?
    ensures ModeOf(args) == Glob && 5 < |Pipeline(usage, args, env).trace| ==> env.globSetup.Ok?
  {
    var r := Pipeline(usage, args, env);
    var mode := ModeOf(args);
    var full := FullRun(mode, args[0], GlobResult(env));
    var head := [ResolveMode(args[0]), FindHomeDir];
    if ModeFromArg(args[0]).err.Some? {
      assert r.trace == full[..1];
    } else if env.homeDir.Err? {
      assert r.trace == full[..2];
    } else {
      var b := Branch(mode, usage, env.homeDir.value, env);
      var fb := FullBranch(mode, GlobResult(env));
      if IsTextMode(mode) {
        TextBranchStopsWithin(mode, env.homeDir.value, env);
      } else if mode == Photo {
        PhotoBranchStopsWithin(env.homeDir.value, env);
      }
      StopsWithinAfterHead(head, b, fb);
    }
  }

  /** Putting the same steps in front of a run and of its reference keeps
      the run within the reference. */
  lemma StopsWithinAfterHead<Q>(head: seq<Step>, b: Run<Q>, fb: seq<Step>)
    requires StopsWithin(b, fb)
    ensures StopsWithin(Run(b.outcome, head + b.trace), head + fb)
  {
    var t := head + b.trace;
    forall i | 0 <= i < |t|
      ensures t[i] == (head + fb)[i]
    {
      if i >= |head| {
        assert t[i] == b.trace[i - |head|];
      }
    }
    assert t[|t| - 1] == b.trace[|b.trace| - 1];
  }

  /** In a trace whose every step comes after the one before it, any step
      comes after every earlier one. */
  lemma {:induction false} RanksIncrease(t: seq<Step>, i: nat, j: nat)
    requires InStepOrder(t) && i < j < |t|
    ensures Rank(t[i]) < Rank(t[j])
    decreases j - i
  {
    if i + 1 < j {
      RanksIncrease(t, i + 1, j);
    }
  }

  /** An ordered trace repeats no step and holds at most one querier
      construction. */
  lemma OrderedTraceFacts(t: seq<Step>)
    requires InStepOrder(t)
    ensures forall i, j :: 0 <= i < j < |t| ==> Rank(t[i]) < Rank(t[j])
    ensures forall i, j :: 0 <= i < j < |t| ==> t[i] != t[j]
    ensures forall i, j :: 0 <= i < |t| && 0 <= j < |t| && t[i].ConstructQuerier? && t[j].ConstructQuerier? ==> i == j
  {
    forall i, j | 0 <= i < j < |t|
      ensures Rank(t[i]) < Rank(t[j])
    {
      RanksIncrease(t, i, j);
    }
  }

  /** The steps of every run occur in strictly increasing pipeline order,
      none twice; in particular at most one querier constructor runs. */
  lemma StepsInOrder<Q>(usage: string, args: seq<string>, env: Env<Q>)
    requires |args| > 0
    ensures var t := Pipeline(usage, args, env).trace;
            && (forall i, j :: 0 <= i < j < |t| ==> Rank(t[i]) < Rank(t[j]))
            && (forall i, j :: 0 <= i < j < |t| ==> t[i] != t[j])
            && (forall i, j :: 0 <= i < |t| && 0 <= j < |t| && t[i].ConstructQuerier? && t[j].ConstructQuerier? ==> i == j)
  {
    var t := Pipeline(usage, args, env).trace;
    var full := FullRun(ModeOf(args), args[0], GlobResult(env));
    TraceFollowsFullRun(usage, args, env);
    forall i | 0 <= i < |t| - 1
      ensures Rank(t[i]) < Rank(t[i + 1])
    {
      assert t[i] == full[i] && t[i + 1] == full[i + 1];
    }
    OrderedTraceFacts(t);
  }

  /** An unknown first argument is reported, with the token, right after
      resolution: no home-directory lookup, no configuration load, no
      querier. */
  lemma UnknownCommandBuildsNothing<Q>(usage: string, args: seq<string>, env: Env<Q>)
    requires |args| > 0 && !IsCommandWord(args[0])
    ensures Pipeline(usage, args, env)
      == Run(Failed(Command(UnknownCommand(args[0]))), [ResolveMode(args[0])])
  {
    ResolvesIffCommandWord(args[0]);
  }

  /** A failed home-directory lookup aborts every mode, help and version
      included, before any branch runs. */
  lemma HomeDirFailureAborts<Q>(usage: string, args: seq<string>, env: Env<Q>)
    requires |args| > 0 && IsCommandWord(args[0]) && env.homeDir.Err?
    ensures Pipeline(usage, args, env)
      == Run(Failed(HomeDirNotFound(env.homeDir.cause)), [ResolveMode(args[0]), FindHomeDir])
  {
    ResolvesIffCommandWord(args[0]);
  }

  /** The text family (chat, query, glob): what each collaborator's failure
      reports, and that success returns exactly the querier the constructor
      builds from the configuration prompt setup produced. The cases are
      exhaustive, so a querier is returned only when every step succeeded. */
  lemma TextOutcome<Q>(usage: string, args: seq<string>, env: Env<Q>)
    requires |args| > 0 && ModeFromArg(args[0]).err.None?
    requires IsTextMode(ModeOf(args)) && env.homeDir.Ok?
    ensures var mode := ModeOf(args);
            var r := Pipeline(usage, args, env).outcome;
            var loaded := env.loadText(env.homeDir.value, TextConfigFile);
            && (loaded.Err? ==> r == Failed(ConfigLoadFailed(loaded.cause)))
            && (loaded.Ok? && mode == Glob && env.globSetup.Err? ==>
                  r == Failed(GlobSetupFailed(env.globSetup.cause)))
            && (loaded.Ok? && (mode == Glob ==> env.globSetup.Ok?) ==>
                  var prompted := env.promptsText(TextBeforePrompts(mode, loaded.value, env));
                  && (prompted.Err? ==> r == Failed(PromptSetupFailed(prompted.cause)))
                  && (prompted.Ok? && env.createText(prompted.value).Err? ==>
                        r == Failed(TextQuerierFailed(env.createText(prompted.value).cause)))
                  && (prompted.Ok? && env.createText(prompted.value).Ok? ==>
                        r == Built(env.createText(prompted.value).value)))
  {
  }

  /** The photo family: the same short-circuit rule, over photoConfig.json,
      with no chat-mode or glob step. */
  lemma PhotoOutcome<Q>(usage: string, args: seq<string>, env: Env<Q>)
    requires |args| > 0 && ModeFromArg(args[0]).err.None?
    requires ModeOf(args) == Photo && env.homeDir.Ok?
    ensures var r := Pipeline(usage, args, env).outcome;
            var loaded := env.loadPhoto(env.homeDir.value, PhotoConfigFile);
            && (loaded.Err? ==> r == Failed(ConfigLoadFailed(loaded.cause)))
            && (loaded.Ok? ==>
                  var prompted := env.promptsPhoto(env.overridePhoto(loaded.value, DefaultFlags(env.homeEnv)));
                  && (prompted.Err? ==> r == Failed(PromptSetupFailed(prompted.cause)))
                  && (prompted.Ok? && env.createPhoto(prompted.value).Err? ==>
                        r == Failed(PhotoQuerierFailed(env.createPhoto(prompted.value).cause)))
                  && (prompted.Ok? && env.createPhoto(prompted.value).Ok? ==>
                        r == Built(env.createPhoto(prompted.value).value)))
  {
  }

  /** Help and version never build a querier: help prints the usage and
      ends the process with status 0; version fails when no build info is
      available and otherwise prints it and ends the process with status 0. */
  lemma HelpAndVersionBuildNothing<Q>(usage: string, args: seq<string>, env: Env<Q>)
    requires |args| > 0 && ModeFromArg(args[0]).err.None? && env.homeDir.Ok?
    requires ModeOf(args) == Help || ModeOf(args) == Version
    ensures var r := Pipeline(usage, args, env);
            && (ModeOf(args) == Help ==>
                  r == Run(Exited(0, Usage(usage)), [ResolveMode(args[0]), FindHomeDir, PrintUsage, ExitProcess(0)]))
            && (ModeOf(args) == Version && env.buildInfo.None? ==>
                  r == Run(Failed(BuildInfoUnavailable), [ResolveMode(args[0]), FindHomeDir, ReadBuildInfo]))
            && (ModeOf(args) == Version && env.buildInfo.Some? ==>
                  r.outcome == Exited(0, VersionLine(env.buildInfo.value)))
  {
  }

  /** A querier is built only in the four querier modes, and the process is
      ended only by help and version, always with status 0. */
  lemma OutcomeMatchesMode<Q>(usage: string, args: seq<string>, env: Env<Q>)
    requires |args| > 0
    ensures var r := Pipeline(usage, args, env).outcome;
            && (r.Built? ==> ModeFromArg(args[0]).err.None? && ModeOf(args) != Help && ModeOf(args) != Version)
            && (r.Exited? ==> r.code == 0 && ModeFromArg(args[0]).err.None?
                              && (ModeOf(args) == Help || ModeOf(args) == Version))
  {
  }

  /** The fields Setup itself writes before prompt setup: in chat mode the
      overrides see ChatMode already true; query writes nothing itself;
      query and glob leave ChatMode to
      the loaded value and the overrides; only glob writes Glob, after the
      overrides, so the glob result is what prompt setup sees and every
      other field is as the overrides left it. */
  lemma FieldWritesBeforePrompts<Q>(mode: Mode, loaded: TextConfig, env: Env<Q>)
    requires IsTextMode(mode) && (mode == Glob ==> env.globSetup.Ok?)
    ensures var c := TextBeforePrompts(mode, loaded, env);
            var flags := DefaultFlags(env.homeEnv);
            && (mode == Chat ==> c == env.overrideText(loaded.(chatMode := true), flags))
            && (mode == Query ==> c == env.overrideText(loaded, flags))
            && (mode != Chat ==> c.chatMode == env.overrideText(loaded, flags).chatMode)
            && (mode != Glob ==> c.glob == env.overrideText(if mode == Chat then loaded.(chatMode := true) else loaded, flags).glob)
            && (mode == Glob ==> c.glob == env.globSetup.value
                                 && c.chatMode == env.overrideText(loaded, flags).chatMode
                                 && c.other == env.overrideText(loaded, flags).other)
  {
  }

  /** ChatMode is written only in chat mode, and there right after the load
      and right before the flag overrides. */
  lemma ChatModeWrittenOnlyInChat<Q>(usage: string, args: seq<string>, env: Env<Q>)
    requires |args| > 0
    ensures var t := Pipeline(usage, args, env).trace;
            && (ForceChatMode in t ==> ModeFromArg(args[0]).err.None? && ModeOf(args) == Chat)
            && (forall i :: 0 <= i < |t| && t[i] == ForceChatMode ==>
                  0 < i < |t| - 1 && t[i - 1] == LoadConfig(TextConfigFile) && t[i + 1] == ApplyOverrides(TextFamily))
            && ((ModeFromArg(args[0]).err.None? && ModeOf(args) == Chat && env.homeDir.Ok?
                 && env.loadText(env.homeDir.value, TextConfigFile).Ok?) ==> ForceChatMode in t)
  {
    var t := Pipeline(usage, args, env).trace;
    var full := FullRun(ModeOf(args), args[0], GlobResult(env));
    TraceFollowsFullRun(usage, args, env);
    forall i | 0 <= i < |t| && t[i] == ForceChatMode
      ensures ModeFromArg(args[0]).err.None? && ModeOf(args) == Chat
      ensures 0 < i < |t| - 1 && t[i - 1] == LoadConfig(TextConfigFile) && t[i + 1] == ApplyOverrides(TextFamily)
    {
      assert full[i] == ForceChatMode;
      FullRunShape(ModeOf(args), args[0], GlobResult(env), i);
    }
  }

  /** Glob is written only in glob mode, with the glob collaborator's
      result, after the flag overrides and the glob setup and right before
      prompt setup. */
  lemma GlobWrittenOnlyInGlobMode<Q>(usage: string, args: seq<string>, env: Env<Q>)
    requires |args| > 0
    ensures var t := Pipeline(usage, args, env).trace;
            && (forall i :: 0 <= i < |t| && t[i].WriteGlob? ==>
                  && ModeFromArg(args[0]).err.None? && ModeOf(args) == Glob
                  && env.globSetup == Ok(t[i].glob)
                  && 1 < i < |t| - 1
                  && t[i - 2] == ApplyOverrides(TextFamily) && t[i - 1] == RunGlobSetup
                  && t[i + 1] == RunPromptSetup(TextFamily))
            && (RunGlobSetup in t ==> ModeFromArg(args[0]).err.None? && ModeOf(args) == Glob)
  {
    var t := Pipeline(usage, args, env).trace;
    var full := FullRun(ModeOf(args), args[0], GlobResult(env));
    TraceFollowsFullRun(usage, args, env);
    forall i | 0 <= i < |t| && t[i].WriteGlob?
      ensures ModeFromArg(args[0]).err.None? && ModeOf(args) == Glob && env.globSetup == Ok(t[i].glob)
      ensures 1 < i < |t| - 1 && t[i - 2] == ApplyOverrides(TextFamily) && t[i - 1] == RunGlobSetup
      ensures t[i + 1] == RunPromptSetup(TextFamily)
    {
      assert full[i] == t[i];
      FullRunShape(ModeOf(args), args[0], GlobResult(env), i);
    }
    forall i | 0 <= i < |t| && t[i] == RunGlobSetup
      ensures ModeFromArg(args[0]).err.None? && ModeOf(args) == Glob
    {
      assert full[i] == t[i];
      FullRunShape(ModeOf(args), args[0], GlobResult(env), i);
    }
  }

  /** The text family loads only textConfig.json and the photo family only
      photoConfig.json; the photo branch touches neither ChatMode nor Glob
      and runs no glob setup. */
  lemma ConfigFileByFamily<Q>(usage: string, args: seq<string>, env: Env<Q>)
    requires |args| > 0
    ensures var t := Pipeline(usage, args, env).trace;
            && (forall i :: 0 <= i < |t| && t[i].LoadConfig? ==>
                  && ModeFromArg(args[0]).err.None?
                  && (IsTextMode(ModeOf(args)) ==> t[i].fileName == TextConfigFile)
                  && (ModeOf(args) == Photo ==> t[i].fileName == PhotoConfigFile)
                  && (IsTextMode(ModeOf(args)) || ModeOf(args) == Photo))
            && (ModeOf(args) == Photo ==>
                  forall i :: 0 <= i < |t| ==> !t[i].ForceChatMode? && !t[i].RunGlobSetup? && !t[i].WriteGlob?)
  {
    var t := Pipeline(usage, args, env).trace;
    var full := FullRun(ModeOf(args), args[0], GlobResult(env));
    TraceFollowsFullRun(usage, args, env);
    forall i | 0 <= i < |t|
      ensures t[i].LoadConfig? ==> ModeFromArg(args[0]).err.None?
      ensures t[i].LoadConfig? ==> IsTextMode(ModeOf(args)) || ModeOf(args) == Photo
      ensures t[i].LoadConfig? && IsTextMode(ModeOf(args)) ==> t[i].fileName == TextConfigFile
      ensures t[i].LoadConfig? && ModeOf(args) == Photo ==> t[i].fileName == PhotoConfigFile
      ensures ModeOf(args) == Photo ==> !t[i].ForceChatMode? && !t[i].RunGlobSetup? && !t[i].WriteGlob?
    {
      assert t[i] == full[i];
      FullRunShape(ModeOf(args), args[0], GlobResult(env), i);
    }
  }
}
