/** Clients of the App that use nothing but its contracts: typical set-ups
    and what `Run` is then known to do, whatever the extraction step does. */
module Scenarios {
  import opened CliTypes
  import opened ArgsModel
  import opened Selection
  import opened Cli

  /** A "build" command and a global boolean flag: `build --verbose` runs the
      build handler after one extraction step for the one global flag. */
  method BuildWithGlobalFlag(extract: Extractor)
  {
    var app := new App();
    var build := Command("build", "", Some((c: Cmd) => "ok"), null);
    app.RegisterCommand(build);
    app.RegisterFlag(Flag("verbose", "v", false));
    var r, cmd, globalOrder, commandOrder := app.Run(["build", "--verbose"], extract);
    assert r == Exit("ok");
    assert globalOrder == ["verbose"];
    assert |cmd.parameters| == 1;
  }

  /** With no arguments the default name is resolved; nothing is registered
      under it, so `Fallback` runs and receives that name. */
  method DefaultNameReachesFallback(extract: Extractor)
  {
    var app := new App();
    app.defaultCommandName := "help";
    app.fallback := Some((c: Cmd, name: string) => if name == "help" then "fallback-ran" else "other");
    var r, cmd, globalOrder, commandOrder := app.Run([], extract);
    assert r == Exit("fallback-ran");
    assert cmd.parameters == [];
  }

  /** An unknown first token is not replaced by the default, even when the
      default is registered: with no `Fallback` set that is the fatal case. */
  method UnknownTokenWithoutFallback(extract: Extractor)
  {
    var app := new App();
    app.defaultCommandName := "help";
    app.RegisterCommand(Command("help", "", Some((c: Cmd) => "help"), null));
    var r, cmd, globalOrder, commandOrder := app.Run(["nosuch"], extract);
    assert r == NilFallback("nosuch");
  }

  /** `Before` redirects "build" to "deploy": deploy's handler runs although
      build has a handler of its own. */
  method BeforeRedirects(extract: Extractor)
  {
    var app := new App();
    app.RegisterCommand(Command("build", "", Some((c: Cmd) => "built"), null));
    app.RegisterCommand(Command("deploy", "", Some((c: Cmd) => "deployed"), null));
    app.before := Some((c: Cmd, name: string) => if name == "build" then "deploy" else "");
    var r, cmd, globalOrder, commandOrder := app.Run(["build"], extract);
    assert r == Exit("deployed");
  }

  /** The name is taken from the raw tokens before any flag is extracted, so
      a leading flag token is the command name: `--verbose build` does not run
      build, and `Fallback` receives "--verbose". */
  method LeadingFlagTokenIsTheName(extract: Extractor)
  {
    var app := new App();
    app.RegisterCommand(Command("build", "", Some((c: Cmd) => "built"), null));
    app.RegisterFlag(Flag("verbose", "v", false));
    app.fallback := Some((c: Cmd, name: string) => name);
    var r, cmd, globalOrder, commandOrder := app.Run(["--verbose", "build"], extract);
    assert r == Exit("--verbose");
    assert commandOrder == [];
  }

  /** Registering a name twice keeps the last command only. */
  method LastRegistrationWins()
  {
    var app := new App();
    var first := Command("build", "old", None, null);
    var second := Command("build", "new", None, null);
    app.RegisterCommand(first);
    app.RegisterCommand(second);
    assert LookupCommand(app.Commands(), "build") == second;
    assert Entries(app.Commands()).Keys == {"build"};
  }

  /** A Command is copied into the registry, but its flag map is shared by
      the copies once it exists: a flag added to the caller's copy afterwards
      is seen through the registry; added while the map is still nil, it is not. */
  method FlagMapSharing()
  {
    var app := new App();
    var shared := Command("serve", "", None, null);
    shared := shared.RegisterFlag(Flag("port", "p", true));
    app.RegisterCommand(shared);
    shared := shared.RegisterFlag(Flag("host", "", true));
    assert "host" in FlagEntries(LookupCommand(app.commands, "serve"));

    var app2 := new App();
    var separate := Command("serve", "", None, null);
    app2.RegisterCommand(separate);
    separate := separate.RegisterFlag(Flag("host", "", true));
    assert FlagEntries(LookupCommand(app2.commands, "serve")) == map[];
  }
}
