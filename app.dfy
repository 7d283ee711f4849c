/** The application object of `cli/app.go`: a registry of commands and a
    registry of global flags, the configuration fields a client sets
    directly, and `Run`, which resolves a command from the raw arguments,
    extracts the global and then the command's flags, lets the `Before` hook
    redirect, and invokes the handler or `Fallback`. */
module Cli {
  import opened CliTypes
  import opened ArgsModel
  import opened Selection

  /** Every stored command sits under its own name. */
  ghost predicate KeyedByName(m: map<string, Command>)
  {
    forall n :: n in m ==> m[n].name == n
  }

  /** The flags a command carries; a nil flag map reads as empty. */
  function FlagEntries(c: Command): map<string, Flag>
    reads c.flags
  {
    if c.flags == null then map[] else c.flags.entries
  }

  class App {
    var defaultCommandName: string
    var version: string
    var commands: Option<map<string, Command>>
    var fallback: Option<(Cmd, string) -> ExitValue>
    var before: Option<(Cmd, string) -> string>
    var flags: Option<map<string, Flag>>

    ghost predicate Valid()
      reads this
    {
      KeyedByName(Entries(commands)) && KeyedByLong(Entries(flags))
    }

    /** `&App{}`: every field at its zero value, both registries nil. */
    constructor ()
      ensures Valid()
      ensures commands == None && flags == None
      ensures fallback == None && before == None
      ensures defaultCommandName == "" && version == ""
    {
      defaultCommandName, version := "", "";
      commands, flags := None, None;
      fallback, before := None, None;
    }

    /** All registered commands, each under its own name. */
    function Commands(): (m: Option<map<string, Command>>)
      requires Valid()
      reads this
      ensures forall n :: n in Entries(m) ==> Entries(m)[n].name == n
    {
      commands
    }

    /** All application-wide flags, each under its own long name. */
    function Flags(): (m: Option<map<string, Flag>>)
      requires Valid()
      reads this
      ensures forall k :: k in Entries(m) ==> Entries(m)[k].long == k
    {
      flags
    }

    /** Store `c` under its name, creating the registry on first use. A
        later registration of the same name replaces the earlier one; every
        other name keeps its entry, and nothing else in the App changes. */
    method RegisterCommand(c: Command)
      requires Valid()
      modifies this
      ensures Valid()
      ensures commands == Some(Entries(old(commands))[c.name := c])
      ensures LookupCommand(commands, c.name) == c
      ensures forall n :: n != c.name ==> LookupCommand(commands, n) == LookupCommand(old(commands), n)
      ensures old(commands).None? ==> Entries(commands).Keys == {c.name}
      ensures flags == old(flags) && fallback == old(fallback) && before == old(before)
      ensures defaultCommandName == old(defaultCommandName) && version == old(version)
    {
      if commands.None? {
        commands := Some(map[]);
      }
      commands := Some(commands.value[c.name := c]);
    }

    /** Store `f` as a global flag under its long name, creating the registry
        on first use; the command registry is not touched, so global and
        command flags are separate namespaces. */
    method RegisterFlag(f: Flag)
      requires Valid()
      modifies this
      ensures Valid()
      ensures flags == Some(Entries(old(flags))[f.long := f])
      ensures f.long in Entries(flags) && Entries(flags)[f.long] == f
      ensures forall k :: k != f.long ==> (k in Entries(flags) <==> k in Entries(old(flags)))
      ensures forall k :: k != f.long && k in Entries(flags) ==> Entries(flags)[k] == Entries(old(flags))[k]
      ensures old(flags).None? ==> Entries(flags).Keys == {f.long}
      ensures commands == old(commands) && fallback == old(fallback) && before == old(before)
      ensures defaultCommandName == old(defaultCommandName) && version == old(version)
    {
      if flags.None? {
        flags := Some(map[]);
      }
      flags := Some(flags.value[f.long := f]);
    }

    /** The command `Run` resolves from the raw arguments, before any flag is
        extracted and before `Before` is asked. */
    function ResolvedCommand(arguments: seq<string>): Command
      reads this
    {
      LookupCommand(commands, CommandName(arguments, defaultCommandName))
    }

    /** `App.Run`. The callbacks are the values stored in the App and in its
        commands; `extract` stands for `Args.Extract`. Besides the outcome,
        the ghost results say in which order the two `range` loops visited the
        global flags and the resolved command's flags, and which `Cmd` the
        callbacks received. */
    method Run(arguments: seq<string>, extract: Extractor)
      returns (r: Outcome, ghost cmd: Cmd, ghost globalOrder: seq<string>, ghost commandOrder: seq<string>)
      // each global flag is extracted once, then each flag of the command
      // resolved from the raw arguments; an unregistered name has none
      ensures IsEnumeration(globalOrder, Entries(flags).Keys)
      ensures IsEnumeration(commandOrder, FlagEntries(ResolvedCommand(arguments)).Keys)
      ensures CommandName(arguments, defaultCommandName) !in Entries(commands) ==> commandOrder == []
      ensures |cmd.parameters| == |Entries(flags)| + |FlagEntries(ResolvedCommand(arguments))|
      ensures (cmd.parameters, cmd.args)
           == ExtractAll(extract, NewArgs(arguments),
                         FlagsAt(Entries(flags), globalOrder) + FlagsAt(FlagEntries(ResolvedCommand(arguments)), commandOrder))
      // the fatal call of a nil Fallback: only without a Fallback, and surely
      // when neither a handler nor a Before hook can supply one
      ensures r.NilFallback? ==> fallback.None?
      ensures fallback.None? && before.None? && ResolvedCommand(arguments).handler.None?
              ==> r == NilFallback(CommandName(arguments, defaultCommandName))
      // the invocation follows the selection rule, with Before's answer
      ensures var answer := BeforeAnswer(before, cmd, CommandName(arguments, defaultCommandName));
              r == Perform(Dispatch(arguments, defaultCommandName, commands, answer), fallback, cmd)
      // Fallback runs, with the final name, exactly when no handler was selected
      ensures var answer := BeforeAnswer(before, cmd, CommandName(arguments, defaultCommandName));
              var final := FinalName(arguments, defaultCommandName, answer);
              && (LookupCommand(commands, final).handler.Some? ==>
                    r == Exit(LookupCommand(commands, final).handler.value(cmd)))
              && (LookupCommand(commands, final).handler.None? && fallback.Some? ==>
                    r == Exit(fallback.value(cmd, final)))
              && (r.NilFallback? <==> LookupCommand(commands, final).handler.None? && fallback.None?)
    {
      var args := NewArgs(arguments);
      var cmdName := Peek(args, 0);
      if cmdName == "" {
        cmdName := defaultCommandName;
      }
      var command := LookupCommand(commands, cmdName);
      var cmdFunc := command.handler;
      var globalParameters, commandParameters;
      globalParameters, args, globalOrder := ExtractEach(extract, args, Entries(flags));
      commandParameters, args, commandOrder := ExtractEach(extract, args, FlagEntries(command));
      ExtractAllAppend(extract, NewArgs(arguments), FlagsAt(Entries(flags), globalOrder),
                       FlagsAt(FlagEntries(command), commandOrder));
      var c := Cmd(args, globalParameters + commandParameters);
      cmd := c;
      if before.Some? {
        var res := before.value(c, cmdName);
        if res != "" {
          cmdName := res;
          cmdFunc := LookupCommand(commands, cmdName).handler;
        }
      }
      ghost var answer := BeforeAnswer(before, c, CommandName(arguments, defaultCommandName));
      assert cmdName == FinalName(arguments, defaultCommandName, answer);
      assert cmdFunc == LookupCommand(commands, cmdName).handler;
      DispatchByFinalName(arguments, defaultCommandName, commands, answer);
      SelectedOutcome(commands, cmdName, fallback, c);
      if cmdFunc.Some? {
        r := Exit(cmdFunc.value(c));
      } else if fallback.None? {
        r := NilFallback(cmdName);
      } else {
        r := Exit(fallback.value(c, cmdName));
      }
    }
  }
}
