/** The setup pipeline of the command-line front end (internal/setup.go,
    Setup): resolve the mode, find the home directory, load the family's
    configuration, force chat mode, apply flag overrides, store the glob,
    set up prompts and construct one querier, stopping at the first error.

    Every collaborator the pipeline calls (the home-directory lookup, the
    configuration loader, the flag-override functions, the glob setup,
    prompt setup, the two querier constructors, the build-info reader) is an
    input, bundled in Env. The querier type is a parameter Q: the pipeline
    only passes on what a constructor built. A ghost trace records, in
    order, every collaborator call and every field write, so that the
    ordering and short-circuit rules can be stated. */
module SetupPipeline {
  import opened Modes

  /** A collaborator's answer: a value, or a failure with its cause. */
  datatype Result<+T> = Ok(value: T) | Err(cause: string)

  /** The flag values the override rule compares against (defaultFlags). */
  datatype Flags = Flags(
    chatModel: string,
    photoModel: string,
    photoPrefix: string,
    photoDir: string,
    stdinReplace: string,
    printRaw: bool,
    replyMode: bool)

  /** The constant table of flag defaults; the photo directory is built from
      the HOME environment variable, given here as homeEnv. */
  function DefaultFlags(homeEnv: string): (r: Flags)
    ensures r.chatModel == "gpt-4-turbo-preview" && r.photoModel == "dall-e-3" && r.photoPrefix == "clai"
    // the photo directory is the Pictures folder directly under HOME
    ensures |r.photoDir| == |homeEnv| + 9 && r.photoDir[..|homeEnv|] == homeEnv
            && r.photoDir[|homeEnv|..] == "/Pictures"
    // no replacement token, raw printing or reply mode unless a flag asks
    ensures r.stdinReplace == "" && !r.printRaw && !r.replyMode
  {
    Flags(
      chatModel := "gpt-4-turbo-preview",
      photoModel := "dall-e-3",
      photoPrefix := "clai",
      photoDir := homeEnv + "/Pictures",
      stdinReplace := "",
      printRaw := false,
      replyMode := false)
  }

  const TextConfigFile: string := "textConfig.json"
  const PhotoConfigFile: string := "photoConfig.json"

  /** The text configuration: the two fields Setup writes itself, and every
      other field as an opaque name-to-value map. */
  datatype TextConfig = TextConfig(chatMode: bool, glob: string, other: map<string, string>)

  /** The photo configuration: Setup writes none of its fields itself. */
  datatype PhotoConfig = PhotoConfig(other: map<string, string>)

  /** What the Go runtime's build-info reader reports. */
  datatype BuildInfo = BuildInfo(version: string, goVersion: string, checksum: string)

  /** The collaborators of Setup, as values and total functions. */
  datatype Env<Q> = Env(
    homeEnv: string,                                    // HOME, read for the flag defaults
    homeDir: Result<string>,                            // the user's home directory lookup
    loadText: (string, string) -> Result<TextConfig>,   // loader with the chat migrator and text default
    loadPhoto: (string, string) -> Result<PhotoConfig>, // loader with the photo migrator and photo default
    overrideText: (TextConfig, Flags) -> TextConfig,    // flag overrides for the text family
    overridePhoto: (PhotoConfig, Flags) -> PhotoConfig, // flag overrides for the photo family
    globSetup: Result<string>,                          // the glob collaborator
    promptsText: TextConfig -> Result<TextConfig>,      // SetupPrompts on a text configuration
    promptsPhoto: PhotoConfig -> Result<PhotoConfig>,   // SetupPrompts on a photo configuration
    createText: TextConfig -> Result<Q>,                // the text querier constructor
    createPhoto: PhotoConfig -> Result<Q>,              // the photo querier constructor
    buildInfo: Option<BuildInfo>)                       // build info, when the binary carries it

  datatype SetupError =
    | Command(e: CommandError)
    | HomeDirNotFound(cause: string)
    | ConfigLoadFailed(cause: string)
    | GlobSetupFailed(cause: string)
    | PromptSetupFailed(cause: string)
    | TextQuerierFailed(cause: string)
    | PhotoQuerierFailed(cause: string)
    | BuildInfoUnavailable

  /** What the help and version branches print before the process exits. */
  datatype Printed = Usage(text: string) | VersionLine(info: BuildInfo)

  /** How Setup ends: with a querier, with an error and no querier, or by
      ending the process after printing. */
  datatype Outcome<Q> =
    | Built(querier: Q)
    | Failed(err: SetupError)
    | Exited(code: int, printed: Printed)

  datatype Family = TextFamily | PhotoFamily

  /** One collaborator call or one field write of Setup. */
  datatype Step =
    | ResolveMode(token: string)
    | FindHomeDir
    | LoadConfig(fileName: string)
    | ForceChatMode                  // the write ChatMode := true
    | ApplyOverrides(family: Family)
    | RunGlobSetup
    | WriteGlob(glob: string)        // the write Glob := the glob result
    | RunPromptSetup(family: Family)
    | ConstructQuerier(family: Family)
    | PrintUsage
    | ReadBuildInfo
    | PrintVersion
    | ExitProcess(code: int)

  /** An outcome with the steps that led to it. */
  datatype Run<Q> = Run(outcome: Outcome<Q>, trace: seq<Step>)

  /** The position of a step in the fixed order of the pipeline. */
  function Rank(s: Step): nat {
    match s
    case ResolveMode(_) => 0
    case FindHomeDir => 1
    case LoadConfig(_) => 2
    case PrintUsage => 2
    case ReadBuildInfo => 2
    case ForceChatMode => 3
    case PrintVersion => 3
    case ApplyOverrides(_) => 4
    case RunGlobSetup => 5
    case WriteGlob(_) => 6
    case RunPromptSetup(_) => 7
    case ConstructQuerier(_) => 8
    case ExitProcess(_) => 9
  }

  /** Each step of t comes later in the pipeline order than the step
      before it. */
  ghost predicate InStepOrder(t: seq<Step>) {
    forall i :: 0 <= i < |t| - 1 ==> Rank(t[i]) < Rank(t[i + 1])
  }

  predicate IsTextMode(m: Mode) {
    m == Chat || m == Query || m == Glob
  }

  // ---------------------------------------------------------------------
  // The specification: the pipeline as a function of its inputs
  // ---------------------------------------------------------------------

  /** The text configuration as Setup hands it to prompt setup: chat mode
      forced on the loaded value (chat only), then the flag overrides, then
      the glob result written (glob only, when the glob collaborator
      succeeded). */
  function TextBeforePrompts<Q>(mode: Mode, loaded: TextConfig, env: Env<Q>): (r: TextConfig)
    requires IsTextMode(mode) && (mode == Glob ==> env.globSetup.Ok?)
    // the Glob write comes last, so prompt setup sees the glob result whatever the overrides did
    ensures mode == Glob ==> r.glob == env.globSetup.value
    // query mode writes no field itself: prompt setup sees the overridden load
    ensures mode == Query ==> r == env.overrideText(loaded, DefaultFlags(env.homeEnv))
  {
    var forced := if mode == Chat then loaded.(chatMode := true) else loaded;
    var overridden := env.overrideText(forced, DefaultFlags(env.homeEnv));
    if mode == Glob then overridden.(glob := env.globSetup.value) else overridden
  }

  /** The text branch, from loading textConfig.json on. */
  function TextBranch<Q>(mode: Mode, home: string, env: Env<Q>): (r: Run<Q>)
    requires IsTextMode(mode)
    ensures |r.trace| > 0 && r.trace[0] == LoadConfig(TextConfigFile)
  {
    var loaded := env.loadText(home, TextConfigFile);
    if loaded.Err? then
      Run(Failed(ConfigLoadFailed(loaded.cause)), [LoadConfig(TextConfigFile)])
    else
      var t1 := [LoadConfig(TextConfigFile)]
        + (if mode == Chat then [ForceChatMode] else [])
        + [ApplyOverrides(TextFamily)];
      if mode == Glob && env.globSetup.Err? then
        Run(Failed(GlobSetupFailed(env.globSetup.cause)), t1 + [RunGlobSetup])
      else
        var t2 := t1
          + (if mode == Glob then [RunGlobSetup, WriteGlob(env.globSetup.value)] else [])
          + [RunPromptSetup(TextFamily)];
        var prompted := env.promptsText(TextBeforePrompts(mode, loaded.value, env));
        if prompted.Err? then
          Run(Failed(PromptSetupFailed(prompted.cause)), t2)
        else
          var t3 := t2 + [ConstructQuerier(TextFamily)];
          var built := env.createText(prompted.value);
          if built.Err? then Run(Failed(TextQuerierFailed(built.cause)), t3)
          else Run(Built(built.value), t3)
  }

  /** The photo branch, from loading photoConfig.json on. */
  function PhotoBranch<Q>(home: string, env: Env<Q>): (r: Run<Q>)
    ensures |r.trace| > 0 && r.trace[0] == LoadConfig(PhotoConfigFile)
  {
    var loaded := env.loadPhoto(home, PhotoConfigFile);
    if loaded.Err? then
      Run(Failed(ConfigLoadFailed(loaded.cause)), [LoadConfig(PhotoConfigFile)])
    else
      var overridden := env.overridePhoto(loaded.value, DefaultFlags(env.homeEnv));
      var t1 := [LoadConfig(PhotoConfigFile), ApplyOverrides(PhotoFamily), RunPromptSetup(PhotoFamily)];
      var prompted := env.promptsPhoto(overridden);
      if prompted.Err? then
        Run(Failed(PromptSetupFailed(prompted.cause)), t1)
      else
        var t2 := t1 + [ConstructQuerier(PhotoFamily)];
        var built := env.createPhoto(prompted.value);
        if built.Err? then Run(Failed(PhotoQuerierFailed(built.cause)), t2)
        else Run(Built(built.value), t2)
  }

  /** The branch a resolved mode selects, once the home directory is known. */
  function Branch<Q>(mode: Mode, usage: string, home: string, env: Env<Q>): (r: Run<Q>)
    ensures r.outcome.Exited? ==> |r.trace| > 0 && r.trace[|r.trace| - 1] == ExitProcess(r.outcome.code)
  {
    match mode
    case Chat => TextBranch(mode, home, env)
    case Query => TextBranch(mode, home, env)
    case Glob => TextBranch(mode, home, env)
    case Photo => PhotoBranch(home, env)
    case Help => Run(Exited(0, Usage(usage)), [PrintUsage, ExitProcess(0)])
    case Version =>
      if env.buildInfo.None? then Run(Failed(BuildInfoUnavailable), [ReadBuildInfo])
      else Run(Exited(0, VersionLine(env.buildInfo.value)), [ReadBuildInfo, PrintVersion, ExitProcess(0)])
  }

  /** The whole of Setup on the positional arguments args. */
  function Pipeline<Q>(usage: string, args: seq<string>, env: Env<Q>): (r: Run<Q>)
    requires |args| > 0
    ensures |r.trace| > 0 && r.trace[0] == ResolveMode(args[0])
  {
    var res := ModeFromArg(args[0]);
    if res.err.Some? then
      Run(Failed(Command(res.err.value)), [ResolveMode(args[0])])
    else if env.homeDir.Err? then
      Run(Failed(HomeDirNotFound(env.homeDir.cause)), [ResolveMode(args[0]), FindHomeDir])
    else
      var b := Branch(res.mode, usage, env.homeDir.value, env);
      Run(b.outcome, [ResolveMode(args[0]), FindHomeDir] + b.trace)
  }

  // ---------------------------------------------------------------------
  // The implementation: Setup updating its configuration step by step
  // ---------------------------------------------------------------------

  /** Setup: resolve the mode, look up the home directory, then run the
      branch the mode selects, returning at the first failure. */
  method Setup<Q>(usage: string, args: seq<string>, env: Env<Q>)
    returns (outcome: Outcome<Q>, ghost trace: seq<Step>)
    requires |args| > 0
    ensures outcome == Pipeline(usage, args, env).outcome
    ensures trace == Pipeline(usage, args, env).trace
  {
    var flags := DefaultFlags(env.homeEnv);
    trace := [ResolveMode(args[0])];
    var res := ModeFromArg(args[0]);
    if res.err.Some? {
      outcome := Failed(Command(res.err.value));
      return;
    }
    var mode := res.mode;
    trace := trace + [FindHomeDir];
    if env.homeDir.Err? {
      outcome := Failed(HomeDirNotFound(env.homeDir.cause));
      return;
    }
    var homeDir := env.homeDir.value;
    ghost var branch: seq<Step>;
    if IsTextMode(mode) {
      outcome, branch := SetupText(mode, homeDir, flags, env);
    } else if mode == Photo {
      outcome, branch := SetupPhoto(homeDir, flags, env);
    } else if mode == Help {
      branch := [PrintUsage, ExitProcess(0)];
      outcome := Exited(0, Usage(usage));
    } else {
      branch := [ReadBuildInfo];
      if env.buildInfo.None? {
        outcome := Failed(BuildInfoUnavailable);
      } else {
        branch := branch + [PrintVersion, ExitProcess(0)];
        outcome := Exited(0, VersionLine(env.buildInfo.value));
      }
    }
    trace := trace + branch;
  }

  /** The text branch of Setup: the local record tConf is loaded from
      textConfig.json, then written step by step. */
  method SetupText<Q>(mode: Mode, homeDir: string, flags: Flags, env: Env<Q>)
    returns (outcome: Outcome<Q>, ghost trace: seq<Step>)
    requires IsTextMode(mode) && flags == DefaultFlags(env.homeEnv)
    ensures outcome == TextBranch(mode, homeDir, env).outcome
    ensures trace == TextBranch(mode, homeDir, env).trace
  {
    trace := [LoadConfig(TextConfigFile)];
    var loaded := env.loadText(homeDir, TextConfigFile);
    if loaded.Err? {
      outcome := Failed(ConfigLoadFailed(loaded.cause));
      return;
    }
    var tConf := loaded.value;
    if mode == Chat {
      tConf := tConf.(chatMode := true);
      trace := trace + [ForceChatMode];
    }
    tConf := env.overrideText(tConf, flags);
    trace := trace + [ApplyOverrides(TextFamily)];
    if mode == Glob {
      trace := trace + [RunGlobSetup];
      var globStr := env.globSetup;
      if globStr.Err? {
        outcome := Failed(GlobSetupFailed(globStr.cause));
        return;
      }
      tConf := tConf.(glob := globStr.value);
      trace := trace + [WriteGlob(globStr.value)];
    }
    trace := trace + [RunPromptSetup(TextFamily)];
    var prompted := env.promptsText(tConf);
    if prompted.Err? {
      outcome := Failed(PromptSetupFailed(prompted.cause));
      return;
    }
    tConf := prompted.value;
    trace := trace + [ConstructQuerier(TextFamily)];
    var cq := env.createText(tConf);
    if cq.Err? {
      outcome := Failed(TextQuerierFailed(cq.cause));
      return;
    }
    outcome := Built(cq.value);
  }

  /** The photo branch of Setup: the local record pConf is loaded from
      photoConfig.json, overridden and prompted. */
  method SetupPhoto<Q>(homeDir: string, flags: Flags, env: Env<Q>)
    returns (outcome: Outcome<Q>, ghost trace: seq<Step>)
    requires flags == DefaultFlags(env.homeEnv)
    ensures outcome == PhotoBranch(homeDir, env).outcome
    ensures trace == PhotoBranch(homeDir, env).trace
  {
    trace := [LoadConfig(PhotoConfigFile)];
    var loaded := env.loadPhoto(homeDir, PhotoConfigFile);
    if loaded.Err? {
      outcome := Failed(ConfigLoadFailed(loaded.cause));
      return;
    }
    var pConf := loaded.value;
    pConf := env.overridePhoto(pConf, flags);
    trace := trace + [ApplyOverrides(PhotoFamily)];
    trace := trace + [RunPromptSetup(PhotoFamily)];
    var prompted := env.promptsPhoto(pConf);
    if prompted.Err? {
      outcome := Failed(PromptSetupFailed(prompted.cause));
      return;
    }
    pConf := prompted.value;
    trace := trace + [ConstructQuerier(PhotoFamily)];
    var pq := env.createPhoto(pConf);
    if pq.Err? {
      outcome := Failed(PhotoQuerierFailed(pq.cause));
      return;
    }
    outcome := Built(pq.value);
  }
}
