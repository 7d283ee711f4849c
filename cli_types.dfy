/** The values the command-line scaffold works with: flags, parameters, the
    argument view, the object handed to handlers, and a command. A Go `map`
    that is shared between copies of a struct is modelled by the class
    FlagMap, so that copying a Command keeps Go's aliasing of its flag map. */
module CliTypes {

  datatype Option<+T> = None | Some(value: T)

  /** The value a handler or the fallback returns; its encoding belongs to
      the process entry point, so it is carried as an uninterpreted string. */
  type ExitValue = string

  /** A recognised switch. Only `long` (the registry key) is used by the
      dispatcher; the other fields are handed on to the extraction step. */
  datatype Flag = Flag(long: string, short: string, takesValue: bool)

  /** What one extraction step reports about one flag. */
  datatype Parameter = Parameter(name: string, present: bool, value: string)

  /** The remaining unparsed tokens. */
  type Args = seq<string>

  /** The parameter bag, in the order the parameters were added. */
  type Parameters = seq<Parameter>

  /** The object passed to handlers, to `Before` and to `Fallback`. */
  datatype Cmd = Cmd(args: Args, parameters: Parameters)

  /** A command handler (`func(*Cmd) ExitValue`). */
  type Handler = Cmd -> ExitValue

  /** Every stored flag sits under its own long name. */
  ghost predicate KeyedByLong(m: map<string, Flag>)
  {
    forall k :: k in m ==> m[k].long == k
  }

  /** A Go `map[string]*Flag` after `make`: a heap object that every copy of
      the struct holding it refers to. */
  class FlagMap {
    var entries: map<string, Flag>

    ghost predicate Valid()
      reads this
    {
      KeyedByLong(entries)
    }

    constructor ()
      ensures Valid() && entries == map[]
    {
      entries := map[];
    }

    /** `m[f.Long] = &f`: insert, overwriting an earlier flag of that name. */
    method Put(f: Flag)
      requires Valid()
      modifies this
      ensures Valid()
      ensures entries == old(entries)[f.long := f]
    {
      entries := entries[f.long := f];
    }
  }

  /** One subcommand. `flags == null` is the nil map of a fresh Command. */
  datatype Command = Command(name: string, help: string, handler: Option<Handler>, flags: FlagMap?) {

    ghost predicate Valid()
      reads flags
    {
      flags != null ==> flags.Valid()
    }

    /** The flags registered for this command; nil until the first one. */
    function Flags(): (m: Option<map<string, Flag>>)
      requires Valid()
      reads flags
      ensures m.None? <==> flags == null
      ensures m.Some? ==> KeyedByLong(m.value)
    {
      if flags == null then None else Some(flags.entries)
    }

    /** `(*Command).RegisterFlag` applied to a variable holding this value:
        `updated` is the variable's new value. A nil map is replaced by a fresh
        one; an existing map is updated in place, so every copy of the command
        that shares it (for example the one in an App's registry) sees the flag. */
    method RegisterFlag(f: Flag) returns (updated: Command)
      requires Valid()
      modifies flags
      ensures updated.Valid()
      ensures updated.name == name && updated.help == help && updated.handler == handler
      ensures updated.flags != null
      ensures flags == null ==> fresh(updated.flags) && updated.flags.entries == map[f.long := f]
      ensures flags != null ==> updated.flags == flags && flags.entries == old(flags.entries)[f.long := f]
    {
      if flags == null {
        var m := new FlagMap();
        m.Put(f);
        updated := this.(flags := m);
      } else {
        flags.Put(f);
        updated := this;
      }
    }
  }

  /** The zero `Command{}`: what looking up an unregistered name yields. It
      has no handler to run and no flag map, so no flag to extract. */
  const ZeroCommand := Command("", "", None, null)
}
