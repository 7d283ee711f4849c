/** The selection rule of `App.Run` as a function of values: which command
    name is resolved from the raw arguments, which handler that selects, how a
    non-empty answer of the `Before` hook re-selects it, and whether the
    handler or `Fallback` (with which name) is invoked. */
module Selection {
  import opened CliTypes
  import opened ArgsModel

  /** The contents of a registry; a nil Go map reads as empty. */
  function Entries<V>(registry: Option<map<string, V>>): map<string, V>
  {
    if registry.Some? then registry.value else map[]
  }

  /** `a.commands[name]`: the registered command, or the zero Command. */
  function LookupCommand(registry: Option<map<string, Command>>, name: string): Command
  {
    if name in Entries(registry) then Entries(registry)[name] else ZeroCommand
  }

  /** An unregistered name is inert: a handler to run or a flag map to
      extract from is only ever found under a registered name. */
  lemma UnregisteredNameIsInert(registry: Option<map<string, Command>>, name: string)
    ensures LookupCommand(registry, name).handler.Some? || LookupCommand(registry, name).flags != null
            ==> name in Entries(registry)
  {
  }

  /** The name `Run` resolves before anything is extracted: the first raw
      token when it is non-empty, otherwise the configured default. */
  function CommandName(arguments: seq<string>, defaultName: string): (name: string)
    ensures |arguments| > 0 && arguments[0] != "" ==> name == arguments[0]
    ensures name != defaultName ==> |arguments| > 0 && name == arguments[0] && name != ""
  {
    var first := Peek(NewArgs(arguments), 0);
    if first == "" then defaultName else first
  }

  /** What `Run` ends up invoking. */
  datatype Target = InvokeHandler(handler: Handler) | InvokeFallback(name: string)

  /** The selection as `Run` performs it: the handler of the resolved name is
      kept unless `Before` answered a non-empty name, which replaces both the
      name and the handler. `answer` is "" when there is no `Before` hook. */
  function Dispatch(arguments: seq<string>, defaultName: string, registry: Option<map<string, Command>>,
                    answer: string): (t: Target)
    ensures t.InvokeHandler? ==> LookupCommand(registry, FinalName(arguments, defaultName, answer)).handler == Some(t.handler)
    ensures t.InvokeFallback? ==> t.name == FinalName(arguments, defaultName, answer)
    ensures t.InvokeFallback? ==> LookupCommand(registry, t.name).handler.None?
  {
    var name := CommandName(arguments, defaultName);
    var handler := LookupCommand(registry, name).handler;
    var finalName := if answer != "" then answer else name;
    var finalHandler := if answer != "" then LookupCommand(registry, answer).handler else handler;
    if finalHandler.Some? then InvokeHandler(finalHandler.value) else InvokeFallback(finalName)
  }

  /** The name dispatch is finally about: `Before`'s answer when non-empty,
      otherwise the name resolved from the arguments. */
  function FinalName(arguments: seq<string>, defaultName: string, answer: string): string
  {
    if answer != "" then answer else CommandName(arguments, defaultName)
  }

  /** Reference rule: invoke the handler registered under `name`, or
      `Fallback` with that same name when there is none. */
  function SelectByName(registry: Option<map<string, Command>>, name: string): Target
  {
    var handler := LookupCommand(registry, name).handler;
    if handler.Some? then InvokeHandler(handler.value) else InvokeFallback(name)
  }

  /** The handler that runs and the name `Fallback` receives always belong
      to the same final name. */
  lemma DispatchByFinalName(arguments: seq<string>, defaultName: string,
                            registry: Option<map<string, Command>>, answer: string)
    ensures Dispatch(arguments, defaultName, registry, answer)
         == SelectByName(registry, FinalName(arguments, defaultName, answer))
  {
  }

  /** Without an override the handler of the originally resolved command
      runs when it has one; otherwise `Fallback` gets the resolved name. */
  lemma NoOverrideKeepsResolvedCommand(arguments: seq<string>, defaultName: string,
                                       registry: Option<map<string, Command>>)
    ensures var name := CommandName(arguments, defaultName);
            var handler := LookupCommand(registry, name).handler;
            Dispatch(arguments, defaultName, registry, "")
              == if handler.Some? then InvokeHandler(handler.value) else InvokeFallback(name)
  {
  }

  /** A non-empty answer of `Before` re-selects from the registry, even when
      the originally resolved command had a handler of its own. */
  lemma OverrideReplacesHandler(arguments: seq<string>, defaultName: string,
                                registry: Option<map<string, Command>>, answer: string)
    requires answer != ""
    ensures var handler := LookupCommand(registry, answer).handler;
            Dispatch(arguments, defaultName, registry, answer)
              == if handler.Some? then InvokeHandler(handler.value) else InvokeFallback(answer)
  {
  }

  /** `Fallback` is chosen exactly when no handler is registered under the
      final name, and it then receives that name. */
  lemma FallbackIffNoHandler(arguments: seq<string>, defaultName: string,
                             registry: Option<map<string, Command>>, answer: string)
    ensures var name := FinalName(arguments, defaultName, answer);
            var t := Dispatch(arguments, defaultName, registry, answer);
            && (t.InvokeFallback? <==> LookupCommand(registry, name).handler.None?)
            && (t.InvokeFallback? ==> t.name == name)
  {
    DispatchByFinalName(arguments, defaultName, registry, answer);
  }

  /** A registered command named by the first token runs its own handler
      when `Before` does not override. */
  lemma RegisteredCommandRuns(arguments: seq<string>, defaultName: string,
                              registry: Option<map<string, Command>>, h: Handler)
    requires |arguments| > 0 && arguments[0] != ""
    requires arguments[0] in Entries(registry) && Entries(registry)[arguments[0]].handler == Some(h)
    ensures Dispatch(arguments, defaultName, registry, "") == InvokeHandler(h)
  {
  }

  /** A non-empty first token that names no command with a handler is still
      the command name: the default is not substituted for it, even when the
      default is registered, and `Fallback` receives the token itself. */
  lemma UnknownFirstTokenIsNotDefaulted(arguments: seq<string>, defaultName: string,
                                        registry: Option<map<string, Command>>)
    requires |arguments| > 0 && arguments[0] != ""
    requires LookupCommand(registry, arguments[0]).handler.None?
    ensures Dispatch(arguments, defaultName, registry, "") == InvokeFallback(arguments[0])
  {
  }

  /** With no first token, or an empty one, the default command is used. */
  lemma EmptyFirstTokenUsesDefault(arguments: seq<string>, defaultName: string,
                                   registry: Option<map<string, Command>>)
    requires |arguments| == 0 || arguments[0] == ""
    ensures Dispatch(arguments, defaultName, registry, "") == SelectByName(registry, defaultName)
  {
  }

  /** What `Run` returns for a target: the handler's exit value, the
      fallback's, or the fatal call of a nil `Fallback`. */
  datatype Outcome = Exit(value: ExitValue) | NilFallback(name: string)

  function Perform(target: Target, fallback: Option<(Cmd, string) -> ExitValue>, cmd: Cmd): Outcome
  {
    match target
    case InvokeHandler(h) => Exit(h(cmd))
    case InvokeFallback(name) =>
      if fallback.Some? then Exit(fallback.value(cmd, name)) else NilFallback(name)
  }

  /** The name returned by `Before`, or "" when there is no hook: without a
      hook there is never an override. */
  function BeforeAnswer(before: Option<(Cmd, string) -> string>, cmd: Cmd, name: string): string
  {
    if before.Some? then before.value(cmd, name) else ""
  }

  /** Invoking what is selected by `name`: its handler when it has one, else
      `Fallback` with that name; the nil-`Fallback` failure happens exactly
      when neither exists. */
  lemma SelectedOutcome(registry: Option<map<string, Command>>, name: string,
                        fallback: Option<(Cmd, string) -> ExitValue>, cmd: Cmd)
    ensures var handler := LookupCommand(registry, name).handler;
            var r := Perform(SelectByName(registry, name), fallback, cmd);
            && (handler.Some? ==> r == Exit(handler.value(cmd)))
            && (handler.None? && fallback.Some? ==> r == Exit(fallback.value(cmd, name)))
            && (r.NilFallback? <==> handler.None? && fallback.None?)
  {
  }
}
