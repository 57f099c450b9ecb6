# clai setup: mode resolution and setup dispatch, modelled in Dafny

This project models the start-up path of the `clai` command-line front end,
`internal/setup.go`. The first positional argument selects one of six modes:
help, query, chat, glob, photo or version. `Setup` then runs a fixed
pipeline that stops at the first error:

1. resolve the mode;
2. look up the home directory;
3. load the family's configuration (`textConfig.json` or `photoConfig.json`);
4. in chat mode, force `ChatMode` to true;
5. apply the flag overrides;
6. in glob mode, store the glob string;
7. set up prompts;
8. construct one querier.

Help and version print and end the process instead.

Files:

- `modes.dfy`, module `Modes`: the `Mode` enumeration, its numeric values,
  the two command words of each mode, and `ModeFromArg`, the exact-match
  resolver (`getModeFromArgs`).
- `setup.dfy`, module `SetupPipeline`: the configuration records, the
  constant table of flag defaults (`DefaultFlags`, source lines 33-41), the
  collaborators as inputs (`Env`), and two forms of `Setup`.
  - `Pipeline` is the specification, a function of the inputs.
  - `Setup` is the imperative method, proved equal to `Pipeline`. It
    resolves the mode, looks up the home directory and returns early at
    either error, then calls one of two branch methods or handles help and
    version itself.
  - `SetupText` and `SetupPhoto` are the branch methods, proved equal to
    `TextBranch` and `PhotoBranch`. Each reassigns its local configuration
    value (`tConf`, `pConf`) one write at a time and returns at each
    failure, in the order of the Go code.
- `setup_properties.dfy`, module `SetupProperties`: the properties of the
  pipeline, stated over `Pipeline` for all inputs.

How the collaborators are modelled. Every collaborator is a field of `Env`:
a result value or a total function.

- `os.UserHomeDir` is the result `homeDir`.
- The HOME variable used for the default photo directory is `homeEnv`.
- The configuration loader is `loadText` or `loadPhoto`. Each takes the
  home directory and the file name, and stands for `LoadConfigFromFile`
  with that family's migrator and built-in default.
- The flag-override functions are `overrideText` and `overridePhoto`. Each
  takes the configuration and the default table.
- The glob setup is `globSetup`.
- Prompt setup is `promptsText` or `promptsPhoto`. It returns the updated
  configuration or a failure.
- The querier constructors are `createText` and `createPhoto`.
- The build-info reader is `buildInfo`.

The querier is a type parameter `Q`, so the model can only pass on what a
constructor built.

A ghost trace of `Step`s records every collaborator call and every field
write, in order. `ForceChatMode` is the write `ChatMode = true`;
`WriteGlob(g)` is the write `Glob = g`. The ordering and short-circuit rules
are stated against `FullRun`, the list of steps a mode takes when nothing
fails:

- every run's trace is a prefix of its mode's `FullRun`;
- a run that succeeds, or that ends the process, takes all of it;
- a failing run ends at exactly the step that reported the error.

## Model

| member | source | states |
|---|---|---|
| `Modes.Ordinal` | internal/setup.go:22-31 | the enumeration's value of each mode follows declaration order: it is below six and indexes that mode in the list of all modes (HELP = 0 … VERSION = 5) |
| `Modes.ModeFromArg` | internal/setup.go:43-60 | a token that resolves without error is the long word or the alias of the mode returned; any other token gives an UnknownCommand error carrying that token, with the fallback mode HELP |
| `Modes.WordsResolve` | internal/setup.go:44-56 | the long word and the one-letter alias of every mode both resolve to that mode with no error (photo/p, chat/c, query/q, glob/g, help/h, version/v) |
| `Modes.ResolvesIffCommandWord` | internal/setup.go:43-59 | resolution succeeds if and only if the token is one of the twelve command words |
| `Modes.WordsDistinct` | internal/setup.go:24-31 | different modes share no word, long or short, so the six word pairs name six pairwise-distinct modes |
| `Modes.ExactMatchOnly` | internal/setup.go:57-58 | matching is exact: "Chat", "chat " and "" are unknown, report themselves and fall back to HELP |
| `SetupPipeline.DefaultFlags` | internal/setup.go:33-41 | the default table: chat model "gpt-4-turbo-preview", photo model "dall-e-3", photo prefix "clai", photo directory HOME followed by "/Pictures", no stdin replacement token, raw printing and reply mode off |
| `SetupPipeline.TextBeforePrompts` | internal/setup.go:80-90 | the text configuration handed to prompt setup: in glob mode its Glob is the glob result whatever the overrides set, and in query mode it is exactly the overridden loaded configuration, since query writes no field itself (the per-mode statement in full is `FieldWritesBeforePrompts`) |
| `SetupPipeline.TextBranch` | internal/setup.go:75-99 | the text branch (chat, query, glob) begins by loading textConfig.json |
| `SetupPipeline.PhotoBranch` | internal/setup.go:100-114 | the photo branch begins by loading photoConfig.json |
| `SetupPipeline.Branch` | internal/setup.go:74-127 | when a branch ends the process, its last step is the process exit with the outcome's status |
| `SetupPipeline.Pipeline` | internal/setup.go:62-73 | every run starts by resolving the first positional argument |
| `SetupPipeline.Setup` | internal/setup.go:62-129 | the method, returning at each failure and dispatching to the branch methods, yields exactly the outcome and trace of the specification `Pipeline` |
| `SetupPipeline.SetupText` | internal/setup.go:75-99 | the text branch as a method: loading textConfig.json, forcing ChatMode in chat mode, overriding, storing the glob in glob mode, prompting and constructing, returning at each failure, yields exactly the outcome and trace of `TextBranch` |
| `SetupPipeline.SetupPhoto` | internal/setup.go:100-114 | the photo branch as a method: loading photoConfig.json, overriding, prompting and constructing, returning at each failure, yields exactly the outcome and trace of `PhotoBranch` |
| `SetupProperties.FullRun` | internal/setup.go:62-124 | the full run of every mode starts with resolution and the home-directory lookup, and each of its steps follows the one before it in pipeline order |
| `SetupProperties.FullRunShape` | internal/setup.go:74-105 | in a full run the ChatMode write occurs only in chat mode at position 3; glob setup and the Glob write occur only in glob mode at positions 4 and 5, and the write stores the glob result; the configuration load is at position 2 and reads textConfig.json for the text family and photoConfig.json for photo |
| `SetupProperties.TextBranchStopsWithin` | internal/setup.go:76-98 | the text branch takes a prefix of its full branch: all of it unless it failed, and on failure it ends at the step that reported the error |
| `SetupProperties.PhotoBranchStopsWithin` | internal/setup.go:101-114 | the same for the photo branch |
| `SetupProperties.TraceFollowsFullRun` | internal/setup.go:62-129 | every run takes a prefix of its mode's full run; success and process exit take all of it; a failure ends at the step that reported it, so no later step runs |
| `SetupProperties.RanksIncrease` | internal/setup.go:62-129 | in a trace where each step follows the one before it in pipeline order, every step follows every earlier step |
| `SetupProperties.OrderedTraceFacts` | internal/setup.go:62-129 | an ordered trace is strictly increasing in pipeline order, repeats no step, and holds at most one querier construction |
| `SetupProperties.StepsInOrder` | internal/setup.go:62-129 | the steps of every run occur in strictly increasing pipeline order, none twice, and at most one querier constructor runs |
| `SetupProperties.UnknownCommandBuildsNothing` | internal/setup.go:64-68 | an unknown first argument fails with UnknownCommand(token) right after resolution: no home-directory lookup, no configuration load, no querier |
| `SetupProperties.HomeDirFailureAborts` | internal/setup.go:70-73 | a failed home-directory lookup aborts every recognised mode, help and version included, before any branch step |
| `SetupProperties.TextOutcome` | internal/setup.go:75-99 | text family, case by case: a load, glob, prompt or constructor failure each gives its own error and no querier; when all succeed, the result is exactly the querier built from the configuration prompt setup returned |
| `SetupProperties.PhotoOutcome` | internal/setup.go:100-114 | photo family, case by case: load, prompt or constructor failure gives its error and no querier; otherwise the querier built from the prompted, overridden photo configuration |
| `SetupProperties.HelpAndVersionBuildNothing` | internal/setup.go:115-124 | help prints the usage and exits with status 0; version without build info fails with no querier, and with build info prints it and exits with status 0 |
| `SetupProperties.OutcomeMatchesMode` | internal/setup.go:74-128 | a querier is returned only for a recognised querier mode (chat, query, glob, photo); only help and version end the process, always with status 0 |
| `SetupProperties.FieldWritesBeforePrompts` | internal/setup.go:80-90 | in chat mode the overrides receive the loaded configuration with ChatMode already true; in query mode prompt setup receives exactly the overridden load; query and glob leave ChatMode to the loaded value and the overrides; only glob writes Glob, after the overrides, so prompt setup sees the glob result while every other field is as the overrides left it |
| `SetupProperties.ChatModeWrittenOnlyInChat` | internal/setup.go:80-83 | ChatMode is written only in chat mode, directly after the load and directly before the overrides, and always in chat mode once the load succeeds |
| `SetupProperties.GlobWrittenOnlyInGlobMode` | internal/setup.go:84-90 | Glob is written only in glob mode, with the glob collaborator's result, after the overrides and the glob setup and directly before prompt setup; glob setup itself runs only in glob mode |
| `SetupProperties.ConfigFileByFamily` | internal/setup.go:75-105 | a configuration load happens only for a querier mode, from textConfig.json for chat, query and glob and from photoConfig.json for photo; the photo branch never writes ChatMode, never runs glob setup and never writes Glob |

## Left out

- Modes.ModeFromArg: the error carries the token it was given. The source's message formats `os.Args[1]` instead (internal/setup.go:58), which names a different argument when flags come before the command. Error-message text is not modelled anywhere.
- Error wrapping and formatting (`fmt.Errorf` with `%v`, `%w`, and the stray `%err` verb at internal/setup.go:78) are not modelled. Each failure is a `SetupError` constructor carrying the collaborator's cause.
- Empty positional arguments: the source indexes `args[0]` without a length check (internal/setup.go:65) and would panic. The model requires at least one positional argument.
- Flag parsing (`setupFlags`, `flag.Args`): the positional arguments are an input, and the parsed flag set is inside the override functions.
- In the source the overrides take `&tConf`/`&pConf`, and `SetupPrompts` is called on the record itself; both change it in place. Here both are pure functions of the record, and their results are assigned back, so in-place update and aliasing of the configuration record are not modelled.
- `applyFlagOverridesForText` and `applyFlagOverridesForPhoto` are opaque functions of the configuration and the default table. Their bodies are not part of this model, so the rule that a flag overrides a field only when it differs from its default is not modelled. `DefaultFlags` is kept as the constant table the overrides receive.
- `tools.LoadConfigFromFile`, the two migrators and `text.DEFAULT`/`photo.DEFAULT` (file reading, parsing, legacy migration, write-back) are opaque loaders. `os.UserHomeDir` and the HOME variable are inputs.
- `glob.Setup`, `SetupPrompts`, `CreateTextQuerier` and `NewPhotoQuerier` are opaque collaborators. What prompt setup writes into the configuration, and what a querier does, are not modelled.
- Printing and `os.Exit(0)` in the help and version branches (internal/setup.go:115-124) are modelled only as the `Exited` outcome. It records the printed usage or build info and the status 0, with no text formatting. `debug.ReadBuildInfo` is the input `buildInfo`.
- The `default` branch (internal/setup.go:125-126) and the final return (internal/setup.go:128) cannot be reached. The resolver returns only the six modes, `Mode` is a closed datatype here, and `os.Exit` does not return.
- The text and photo configurations name only the fields `Setup` writes (`ChatMode`, `Glob`). Every other field is an opaque map.
- `PromptConfig` (internal/setup.go:17-20) is a type `Setup` never uses. It is not modelled.
- internal/vendors/anthropic/claude_models.go declares wire-format types and no logic. The stream decoding that uses them is not part of this model.

Two consequences of the order in `Setup`:

- chat mode is forced before the flag overrides (internal/setup.go:80-83), so an override can still change `ChatMode`;
- help and version run only after a successful home-directory lookup (internal/setup.go:70-73), so a failing lookup makes `clai help` fail too.
