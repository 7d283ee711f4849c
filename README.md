# Command registry and dispatcher of `cli/app.go`, in Dafny

This project models the `cli` package's application object. An `App` holds a
registry of subcommands and a registry of application-wide flags. Each
`Command` carries a handler and its own flag registry. `App.Run` does the
dispatch:

1. It takes the command name from the first raw token, or uses
   `DefaultCommandName` when that token is empty or absent.
2. It looks up that command. An unknown name gives the zero `Command`.
3. It extracts every global flag, then every flag of that command, into a
   parameter bag.
4. It lets the optional `Before` hook redirect to another command name.
5. It calls the selected handler, or `Fallback` with the final name when no
   handler was selected.

Files and modules:

- `cli_types.dfy` (module `CliTypes`): the values.
  - `Flag`, `Parameter`, `Args` and `Cmd` are values.
  - `Command` is a value, as in Go. Its flag map is the class `FlagMap`.
  - `FlagMap` is a class because a Go map is shared by every copy of the
    struct that holds it. A flag added later to the caller's copy of a
    command is therefore seen through the App's registry only when the map
    already existed at registration time. `Scenarios.FlagMapSharing` shows
    both cases.
- `args.dfy` (module `ArgsModel`): the argument view.
  - `Peek`.
  - `ExtractAll`: a series of extraction steps as a fold over a flag
    sequence.
  - `ExtractEach`: the `range` loop over a flag map. The map's visiting
    order is left open: `ExtractEach` chooses each next key
    nondeterministically, and its contract holds for every order
    (`IsEnumeration`).
- `dispatch.dfy` (module `Selection`): the selection rule as pure functions
  (`CommandName`, `Dispatch`, `Perform`), with lemmas on its cases.
- `app.dfy` (module `Cli`): the `App` class.
  - `commands` and `flags` are `Option<map<…>>` fields. `None` is a nil Go
    map.
  - The `Register*` methods update those fields.
  - `Run` is proved against `Selection.Dispatch` and `ArgsModel.ExtractAll`.
- `scenarios.dfy` (module `Scenarios`): small clients that use only the
  contracts. They cover a registered command with a global flag, the default
  name reaching `Fallback`, an unknown token with no `Fallback`, a `Before`
  redirect, a leading flag token, re-registration and flag-map sharing.

Code that is outside `cli/app.go` is not modelled in detail:

- `NewArgs` is the identity on the token list.
- `Peek(i)` gives the i-th token, or `""` when there is none.
- `Args.Extract` is the oracle parameter `extract` of `Run`. It is any
  function from (tokens, flag) to (parameter, remaining tokens).
- `Parameters.AddParameter` appends to a sequence.
- `NewCmd` builds the `Cmd` value.
- Handlers, `Before` and `Fallback` are function values stored in the App and
  its commands.
- A call of a nil `Fallback` panics in Go. Here it is the outcome
  `NilFallback(name)`.

The code resolves `DefaultCommandName` only when the first token is empty or
absent (`cli/app.go:77-79`). A non-empty first token that names no command is
still the command name and reaches `Fallback` unchanged. It is not replaced
by the default command (`Selection.UnknownFirstTokenIsNotDefaulted`).

## Model

| member | source | states |
|---|---|---|
| `CliTypes.Command.RegisterFlag` | cli/app.go:61-66 | a nil flag map is replaced by a fresh map holding exactly `f` under `f.long`; an existing map is updated in place (so shared copies see it) with `f` under `f.long`, all other keys kept; name, help and handler are unchanged and only that map may change |
| `CliTypes.Command.Flags` | cli/app.go:68-71 | the command's flags: none (nil) exactly when no flag map exists, otherwise every flag stored under its own long name |
| `CliTypes.FlagMap.Put` | cli/app.go:65 | the map afterwards is the old one with `f` under `f.long` (overwriting), and every flag stays keyed by its long name |
| `Cli.App.constructor` | cli/app.go:27-32 | an explicitly built `App{}`: both registries nil, no hooks, empty default name and version |
| `Cli.App.Commands` | cli/app.go:34-37 | every registered command is stored under its own name |
| `Cli.App.Flags` | cli/app.go:39-42 | every global flag is stored under its own long name |
| `Cli.App.RegisterCommand` | cli/app.go:44-50 | afterwards looking up `c.name` yields `c` whatever was there before (last write wins); every other name yields what it yielded before; a nil registry ends up with exactly the key `c.name`; flags, hooks, default name and version unchanged |
| `Cli.App.RegisterFlag` | cli/app.go:52-58 | `f` is stored under `f.long`; other keys keep presence and value; a nil registry ends up with exactly `f.long`; the command registry (and so every command's flags) is untouched |
| `Cli.App.Run` | cli/app.go:73-104 | each global flag is extracted exactly once, then each flag of the command resolved from the raw tokens; an unregistered name adds no extraction; the `Cmd` holds the results of those steps in that order, one parameter per step; the outcome is the selection rule applied to `Before`'s answer: the handler of the final name, else `Fallback` with the final name, else the nil-`Fallback` failure exactly when neither exists; that failure never happens when a `Fallback` is set and always happens when there is no `Fallback`, no `Before` hook and no handler for the resolved name |
| `ArgsModel.ExtractEach` | cli/app.go:84-91 | every key of the flag map is visited exactly once in some order; the parameters and tokens are those of extracting the flags in that order, one parameter per flag |
| `ArgsModel.ExtractAll` | cli/app.go:84-91 | a series of extraction steps produces exactly one parameter per flag |
| `ArgsModel.ExtractAllAppend` | cli/app.go:84-91 | extracting the global flags and then the command's flags equals one run over the concatenation; the global parameters come first |
| `ArgsModel.ExtractAllAt` | cli/app.go:85-86 | the i-th parameter is what `Extract` returned for the i-th flag, applied to the tokens left by the earlier steps |
| `ArgsModel.EnumerationLength` | cli/app.go:84-91 | visiting each key of a map once takes exactly as many steps as the map has keys |
| `Selection.Dispatch` | cli/app.go:76-103 | the selection rule as `Run` performs it: when it picks a handler, that is the handler registered under the final name (`Before`'s non-empty answer, else the resolved name); when it picks `Fallback`, it passes the final name, which has no handler |
| `Selection.CommandName` | cli/app.go:76-79 | a non-empty first token is the name; the default is used only when the first token is empty or absent |
| `Selection.UnregisteredNameIsInert` | cli/app.go:80 | a name with no registry entry yields no handler to run and no flag map to extract from: both are only ever found under a registered name |
| `Selection.DispatchByFinalName` | cli/app.go:93-103 | the handler that runs and the name `Fallback` receives both belong to one final name: `Before`'s non-empty answer, or else the resolved name |
| `Selection.NoOverrideKeepsResolvedCommand` | cli/app.go:93-102 | with no hook or an empty answer, the originally resolved handler runs when it exists, else `Fallback` gets the resolved name |
| `Selection.OverrideReplacesHandler` | cli/app.go:95-98 | a non-empty answer re-selects the handler from the registry under that name, even when the original command had a handler |
| `Selection.FallbackIffNoHandler` | cli/app.go:100-103 | `Fallback` is selected exactly when the final name has no handler, and it receives the final name |
| `Selection.RegisteredCommandRuns` | cli/app.go:76-81 | a command registered under the non-empty first token runs its own handler when not overridden |
| `Selection.UnknownFirstTokenIsNotDefaulted` | cli/app.go:76-80 | a non-empty first token without a handler goes to `Fallback` under its own name, even when the default name is registered |
| `Selection.EmptyFirstTokenUsesDefault` | cli/app.go:76-80 | with an empty or absent first token, selection is by the default name |

## Left out

- `AppInstance` and its `sync.Once` singleton (cli/app.go:27-32): an `App` is built explicitly instead. Concurrency-safe one-time initialisation is not modelled.
- The internals of `Args.Extract` are not part of this model. Extraction is an arbitrary oracle, so nothing is claimed about which tokens it removes.
- `Cli.App.Run`: `NewArgs`, `Peek`, `Parameters.AddParameter` and `NewCmd` are defined outside cli/app.go. The model gives them assumed meanings.
  - `NewArgs` is taken to be the identity on the token list.
  - `Peek(i)` is taken to give the i-th token, or "" when there is none.
  - `AddParameter` is taken to append to a sequence.
  - `NewCmd` is taken to pair the remaining tokens with that sequence.
  - The claims "one parameter per extraction step" and "the `Cmd` holds the step results in order" rest on `AddParameter` appending. A bag keyed by flag name would keep one parameter where a global flag and a command flag share a long name.
  - The claim that the raw first token is the command name rests on `NewArgs` and `Peek`.
- Callback bodies are not modelled. Handlers, `Before` and `Fallback` are total, side-effect-free functions of their arguments. In Go they receive a `*Cmd` and may mutate it or the App. The model passes `Cmd` by value.
- The order of Go's `range` over a map is unspecified. The model leaves it open: properties are stated for every visiting order, never for one.
- `Cli.App.Commands` and `Cli.App.Flags` return the registry's value. In Go the caller gets the map itself and could write through it. Such writes are not modelled.
- `Version` and `Help` are carried as plain data with no behaviour.
- A nil-`Fallback` call is a runtime panic in Go. Here it is the result `NilFallback(name)`, not an aborted program.
