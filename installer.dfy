/** The installer workflow `Waph::Installer` of lib/waph/installer.rb.

    Child processes, the terminal and the machine are oracles held in a
    `Host`; what the installer does to the world is the list of `Event`s it
    leaves behind, and what it reads is a sequence of input lines. */
module WaphInstaller {
  import opened Wrappers
  import opened Text
  import opened EnvVarNames
  import opened Waph
  import opened InstallerModel

  /** What `PlatformInfo::Depcheck` reports for a dependency: `dep.check`'s pair. */
  datatype DepResult = DepResult(found: bool, message: Option<string>)

  /** The machine the installer runs on. */
  datatype Host = Host(
    fs: set<string>,                            // paths that exist
    system: string -> CmdStatus,                // how each shell command ends
    depcheck: string -> Option<DepResult>,      // `Depcheck.find(name)&.check`; `None` when unknown
    groups: map<int, string>,                   // `Etc.getgrgid(gid).name`
    rakeCommand: Option<string>,                // `PlatformInfo.rake_command`
    environmentMentionsRails: bool,             // `config/environment.rb =~ /rails/i`
    ruby: RubyHost,                             // what `locate_ruby_command` sees
    whoami: string)                             // the output of `whoami`

  /** What `run` raises when the resolver has not been set up. */
  const NotSetUp := Crash("You must first call Waph.setup!")

  /** The `NoMethodError` of calling `rack_env` on the resolver. */
  const RackEnvUndefined := Crash("undefined method `rack_env' for Waph::Core")

  /** What `migrate_database` passes to rake: the target and its arguments. */
  const MigrateTask := " db:migrate SCHEMA=/dev/null --trace"

  /** The six steps of `run_steps`, in order. */
  datatype Step = CheckDependenciesStep | PromptForDesiredUsernameStep | CreateDefaultConfigFilesStep
                | InstallGemsStep | MigrateDatabaseStep | RestartWebAppStep

  const AllSteps: seq<Step> := [CheckDependenciesStep, PromptForDesiredUsernameStep, CreateDefaultConfigFilesStep,
                                InstallGemsStep, MigrateDatabaseStep, RestartWebAppStep]

  /** How `run` ends: it returns a boolean, or an exception leaves it. */
  datatype RunResult = Returned(ok: bool) | Propagated(exc: Exc)

  /** `run`'s rescue clauses: `Abort` (and `CommandError`) and `Interrupt` become false. */
  function RunResultOf(exc: Option<Exc>): (r: RunResult)
    ensures r == Returned(true) <==> exc.None?
    ensures r == Returned(false) <==> exc.Some? && (exc.value.Abort? || exc.value == Interrupt)
    ensures r.Propagated? ==> exc == Some(r.exc) && (r.exc.Exit? || r.exc.Failure? || r.exc.Crash?)
  {
    match exc
    case None => Returned(true)
    case Some(e) => if e.Abort? || e == Interrupt then Returned(false) else Propagated(e)
  }

  /** The environment `before_install` settles on: `@rack_env`, else `RACK_ENV`, else `RAILS_ENV`, else production. */
  function InstallEnv(rackEnv: Option<string>, env: map<string, string>): string {
    if rackEnv.Some? then rackEnv.value
    else if "RACK_ENV" in env then env["RACK_ENV"]
    else if "RAILS_ENV" in env then env["RAILS_ENV"]
    else "production"
  }

  /** `before_install` writes both variables, so the resolver then sees the
      installer's environment: their production default wins over the
      resolver's own development default. */
  lemma BeforeInstallSettlesEnvironment(rackEnv: Option<string>, env: map<string, string>)
    ensures var e := InstallEnv(rackEnv, env);
      DeploymentEnv(env["RAILS_ENV" := e]["RACK_ENV" := e]) == e
    ensures rackEnv.None? && "RACK_ENV" !in env && "RAILS_ENV" !in env ==>
      InstallEnv(rackEnv, env) == "production" && DeploymentEnv(env) == "development"
  {
  }

  /** `dependencies`: Bundler, when the application has a Gemfile. */
  function Dependencies(sourceRoot: string, fs: set<string>): seq<string> {
    if sourceRoot + "/Gemfile" in fs then ["bundler >= 1.0.10"] else []
  }

  /** The installer bug a dependency without a depcheck entry reveals. */
  function UnknownDependency(n: string): Exc {
    Crash(UnknownDependencyHead + n + UnknownDependencyTail)
  }

  const UnknownDependencyHead := "Installer bug: dependency '"
  const UnknownDependencyTail := "' not found. Please ensure that the corresponding platform_info/depcheck file is loaded."

  /** The dependencies whose check fails, in order; a dependency that
      `Depcheck` does not know is an installer bug. */
  function MissingDependencies(names: seq<string>, depcheck: string -> Option<DepResult>): Result<seq<string>, Exc>
    decreases |names|
  {
    if names == [] then Ok([])
    else
      var n := names[|names| - 1];
      match MissingDependencies(names[..|names| - 1], depcheck)
      case Err(e) => Err(e)
      case Ok(missing) =>
        match depcheck(n)
        case None => Err(UnknownDependency(n))
        case Some(result) => Ok(if result.found then missing else missing + [n])
  }

  /** The missing list holds exactly the dependencies whose check fails, and
      it can be built exactly when every dependency is known. */
  lemma {:induction false} MissingDependenciesExactly(names: seq<string>, depcheck: string -> Option<DepResult>)
    ensures var r := MissingDependencies(names, depcheck);
      && (r.Ok? ==> forall n :: n in r.value <==> n in names && depcheck(n).Some? && !depcheck(n).value.found)
      && (r.Ok? <==> forall k :: 0 <= k < |names| ==> depcheck(names[k]).Some?)
    decreases |names|
  {
    if names != [] {
      var init, n := names[..|names| - 1], names[|names| - 1];
      MissingDependenciesExactly(init, depcheck);
      assert forall k :: 0 <= k < |init| ==> init[k] == names[k];
      assert forall m :: m in names <==> m in init || m == n;
    }
  }

  /** With a Gemfile, the installer aborts unless Bundler is found. */
  lemma BundlerRequiredWithGemfile(sourceRoot: string, fs: set<string>, depcheck: string -> Option<DepResult>)
    requires sourceRoot + "/Gemfile" in fs
    ensures MissingDependencies(Dependencies(sourceRoot, fs), depcheck) == Ok([]) <==>
      depcheck("bundler >= 1.0.10").Some? && depcheck("bundler >= 1.0.10").value.found
  {
    MissingDependenciesExactly(Dependencies(sourceRoot, fs), depcheck);
    assert Dependencies(sourceRoot, fs) == ["bundler >= 1.0.10"];
    assert Dependencies(sourceRoot, fs)[..0] == [];
  }

  /** The first dependency `Depcheck` does not know is the error. */
  lemma MissingDependenciesUnknown(names: seq<string>, depcheck: string -> Option<DepResult>, i: nat)
    requires i < |names| && MissingDependencies(names[..i], depcheck).Ok? && depcheck(names[i]).None?
    ensures MissingDependencies(names[..i + 1], depcheck) == Err(UnknownDependency(names[i]))
  {
    assert names[..i + 1][..i] == names[..i];
  }

  /** A dependency `Depcheck` does not know ends the checks. */
  lemma {:induction false} MissingDependenciesStopsAtError(names: seq<string>, depcheck: string -> Option<DepResult>, k: nat)
    requires k <= |names| && MissingDependencies(names[..k], depcheck).Err?
    ensures MissingDependencies(names, depcheck) == MissingDependencies(names[..k], depcheck)
    decreases |names| - k
  {
    if k < |names| {
      assert names[..k + 1][..k] == names[..k];
      MissingDependenciesStopsAtError(names, depcheck, k + 1);
    } else {
      assert names[..k] == names;
    }
  }

  /** A shell command built from an owner or group and a path. */
  function OwnerCommand(verb: string, who: string, path: string): string {
    verb + " " + who + " " + path
  }

  /** `bundle install` pointed at the proxy Gemfile, with the application's source root in the environment. */
  function BundleInstallCommand(bundle: string, sourceRoot: string, bundlePath: string, configPath: string): string {
    "env SOURCE_ROOT=" + sourceRoot + " " + bundle + " install --path " + bundlePath + " --gemfile=" + configPath + "/Gemfile"
  }

  /** The install steps of `install_gems_into_home`: the proxy Gemfile, the
      lock file removed before and again after `bundle install`, then the
      ownership fix-up; `group` is the `chgrp` step, which cannot be built
      when the user's group is unknown. */
  function HomeInstallPlan(bundle: string, sourceRoot: string, bundlePath: string, bundlePathRoot: string,
                           configPath: string, user: string, group: Action): seq<Action>
  {
    [ Run("mkdir -p " + configPath),
      Write(configPath + "/Gemfile"),
      Unlink(configPath + "/Gemfile.lock"),
      Run(BundleInstallCommand(bundle, sourceRoot, bundlePath, configPath)),
      Unlink(configPath + "/Gemfile.lock"),
      Run(OwnerCommand("chown -R", user, bundlePathRoot)),
      group ]
  }

  /** Bundler never sees a stale lock file, and the lock file it writes is
      removed again exactly when `bundle install` ran and succeeded. */
  lemma LockFileRemovedAroundInstall(bundle: string, sourceRoot: string, bundlePath: string, bundlePathRoot: string,
                                     configPath: string, user: string, group: Action, system: string -> CmdStatus)
    ensures var plan := HomeInstallPlan(bundle, sourceRoot, bundlePath, bundlePathRoot, configPath, user, group);
      var install := BundleInstallCommand(bundle, sourceRoot, bundlePath, configPath);
      var r := ExecActions(plan, system, true);
      && plan[2] == Unlink(configPath + "/Gemfile.lock") && plan[3] == Run(install) && plan[4] == plan[2]
      && (r.count > 4 <==> r.count >= 4 && system(install) == Exited(0))
  {
    var plan := HomeInstallPlan(bundle, sourceRoot, bundlePath, bundlePathRoot, configPath, user, group);
    var install := BundleInstallCommand(bundle, sourceRoot, bundlePath, configPath);
    var r := ExecActions(plan, system, true);
    ExecActionsShape(plan, system, true);
    if r.count > 4 {
      assert ActionFailure(plan[3], system, true).None?;
    }
    if r.count == 4 {
      assert ActionFailure(plan[3], system, true).Some?;
    }
  }

  /** `after` extends `before` with reports only: no command run, no file written or unlinked. */
  predicate OnlyReportsAdded(before: seq<Event>, after: seq<Event>) {
    && |before| <= |after| && after[..|before|] == before
    && forall k :: |before| <= k < |after| ==> after[k].Reported?
  }

  /** `Waph::Installer`. Its resolver is its own copy of the application's. */
  class Installer {
    /** `@core`, a `dup` of the application's resolver. */
    const core: Core
    const host: Host
    /** `@auto` (`--auto`): never prompt. */
    const auto: bool
    /** `@rack_env` (`--dev` sets development). */
    const rackEnv: Option<string>
    /** `@desired_username` (`--username`, or the answer to the prompt). */
    var desiredUsername: Option<string>
    /** `@stdout`: where `puts` writes. */
    var stdout: Stream
    /** The process environment `ENV`. */
    var env: map<string, string>
    /** The lines standard input has left to give. */
    var input: seq<Input>
    /** What the installer has done so far. */
    var events: seq<Event>
    /** How many steps of `AllSteps` `run_steps` has begun, in order, and how many of them ended normally. */
    ghost var begun: nat
    ghost var completed: nat

    ghost predicate Valid()
      reads core
    {
      core.Valid()
    }

    /** `Installer.new(options)`. */
    constructor (instance: Core, host: Host, env: map<string, string>, input: seq<Input>,
                 auto: bool, desiredUsername: Option<string>, rackEnv: Option<string>)
      requires instance.Valid()
      ensures Valid() && fresh(core)
      ensures core.appId == instance.appId && core.appName == instance.appName && core.appVersion == instance.appVersion
      ensures core.sourceRoot == instance.sourceRoot && core.appIdGiven == instance.appIdGiven
      ensures core.installer == instance.installer && core.configFiles == instance.configFiles
      ensures core.username == instance.username && core.users == instance.users
      ensures core.rubyEngine == instance.rubyEngine && core.rubyMajorMinor == instance.rubyMajorMinor
      ensures core.uidCache == instance.uidCache && core.gidCache == instance.gidCache
      ensures core.homeDirCache == instance.homeDirCache
      ensures this.host == host && this.env == env && this.input == input
      ensures this.auto == auto && this.desiredUsername == desiredUsername && this.rackEnv == rackEnv
      ensures stdout == Stdout && events == [] && begun == 0 && completed == 0
    {
      var c := instance.Dup();
      core := c;
      this.host := host;
      this.env := env;
      this.input := input;
      this.auto := auto;
      this.desiredUsername := desiredUsername;
      this.rackEnv := rackEnv;
      stdout := Stdout;
      events := [];
      begun := 0;
      completed := 0;
    }

    /** `current_username`: the stripped output of `whoami`. */
    function CurrentUsername(): string {
      Strip(host.whoami)
    }

    /** The name `@desired_username` interpolates to. */
    function DesiredName(): string
      reads this`desiredUsername
    {
      desiredUsername.GetOr("")
    }

    /** `group_for(username)`: the name of the user's primary group; `Etc` raises for an unknown user or group. */
    function GroupFor(username: string): (r: Result<string, Exc>)
      ensures r.Ok? <==> username in core.users && core.users[username].gid in host.groups
      ensures r.Ok? ==> r.value == host.groups[core.users[username].gid]
    {
      if username !in core.users then Err(Crash("can't find user for " + username))
      else if core.users[username].gid !in host.groups then Err(Crash("can't find group"))
      else Ok(host.groups[core.users[username].gid])
    }

    /** A `chgrp` command on `path` for the desired user's group. */
    function GroupAction(verb: string, path: string): Action
      reads this`desiredUsername
    {
      match GroupFor(DesiredName())
      case Ok(g) => Run(OwnerCommand(verb, g, path))
      case Err(e) => Fail(e)
    }

    // ---- Primitives -------------------------------------------------------------

    /** `sh(command)`. */
    method Sh(command: string) returns (r: Outcome<bool>)
      modifies this`events
      ensures events == old(events) + [Ran(command)]
      ensures r == ShOutcome(host.system(command))
    {
      events := events + [Ran(command)];
      var status := host.system(command);
      if status == Exited(0) {
        r := Normal(true);
      } else if status.Signaled? && status.signal == SIGINT {
        r := Raised(Interrupt);
      } else {
        r := Normal(false);
      }
    }

    /** `sh!(command)`: a failed command is a `CommandError`. */
    method ShBang(command: string) returns (exc: Option<Exc>)
      modifies this`events
      ensures events == old(events) + [Ran(command)]
      ensures exc == ShBangOutcome(host.system(command))
    {
      var r := Sh(command);
      match r {
        case Raised(e) => exc := Some(e);
        case Normal(ok) => exc := if ok then None else Some(Abort(true));
      }
    }

    /** A line written with `puts` to the current output. */
    method Report(text: string)
      modifies this`events
      ensures events == old(events) + [Reported(stdout, text)]
    {
      events := events + [Reported(stdout, text)];
    }

    /** Carries out one action. */
    method RunAction(a: Action, strict: bool) returns (failure: Option<Exc>)
      modifies this`events
      ensures events == old(events) + EventOf(a)
      ensures failure == ActionFailure(a, host.system, strict)
    {
      match a {
        case Run(c) =>
          if strict {
            failure := ShBang(c);
          } else {
            var r := Sh(c);
            failure := if r.Raised? then Some(r.exc) else None;
          }
        case Write(p) =>
          events := events + [Wrote(p)];
          failure := None;
        case Unlink(p) =>
          events := events + [Unlinked(p)];
          failure := None;
        case Fail(e) =>
          failure := Some(e);
      }
    }

    /** Carries out `actions` in order, through `sh!` when `strict` and
        through `sh` otherwise, until one fails. */
    method RunActions(actions: seq<Action>, strict: bool) returns (failure: Option<Exc>)
      modifies this`events
      ensures events == old(events) + ExecActions(actions, host.system, strict).events
      ensures failure == ExecActions(actions, host.system, strict).failure
    {
      var i := 0;
      while i < |actions|
        invariant 0 <= i <= |actions|
        invariant ExecActions(actions[..i], host.system, strict).failure.None?
        invariant events == old(events) + ExecActions(actions[..i], host.system, strict).events
      {
        ExecActionsStep(actions, host.system, strict, i);
        failure := RunAction(actions[i], strict);
        if failure.Some? {
          ExecStopsAtFailure(actions, host.system, strict, i + 1);
          return;
        }
        i := i + 1;
      }
      assert actions[..i] == actions;
      failure := None;
    }

    /** `prompt(message, default_value, &block)`: the loop over `done`. */
    method Prompt(default: Option<string>, valid: Validator) returns (r: Outcome<string>)
      modifies this`input
      ensures var p := PromptSpec(!auto, default, valid, old(input));
        r == p.outcome && input == old(input)[p.consumed..]
    {
      ghost var p := PromptSpec(!auto, default, valid, input);
      ghost var n: nat := 0;
      var done := false;
      var result: string := "";
      while !done
        invariant n <= |old(input)| && input == old(input)[n..]
        invariant !done ==> !(auto && default.Some?) || n == 0
        invariant !done && !(auto && default.Some?) ==>
          var q := ReadUntilAccepted(default, valid, input); q.outcome == p.outcome && n + q.consumed == p.consumed
        invariant done ==> p.outcome == Normal(result) && n == p.consumed
        decreases !done, |input|
      {
        if auto && default.Some? {
          return Normal(default.value);
        }
        ReadUntilAcceptedEdges(default, valid, input);
        if input == [] {
          return Raised(Exit(2));
        }
        var line := input[0];
        if line.Line? {
          ReadUntilAcceptedStep(default, valid, input);
        }
        input := input[1..];
        n := n + 1;
        assert input == old(input)[n..];
        if line.CtrlC? {
          return Raised(Interrupt);
        }
        result := Strip(line.text);
        if result == [] {
          if default.Some? {
            result := default.value;
            done := true;
          } else {
            done := false;
          }
        } else {
          done := Validates(valid, result);
        }
      }
      r := Normal(result);
    }

    /** `prompt_confirmation(message)`. */
    method PromptConfirmation() returns (r: Outcome<bool>)
      modifies this`input
      ensures var c := ConfirmSpec(!auto, old(input));
        r == c.outcome && input == old(input)[c.consumed..]
    {
      var answer := Prompt(None, YesOrNo);
      match answer {
        case Normal(v) => r := Normal(Downcase(v) == "y");
        case Raised(e) => r := Raised(e);
      }
    }

    /** `wait`: with a terminal, read one line; Ctrl-C becomes `Abort`, end of file raises. */
    method Wait() returns (exc: Option<Exc>)
      modifies this`input
      ensures auto ==> exc.None? && input == old(input)
      ensures !auto && old(input) == [] ==> exc == Some(EndOfFile) && input == old(input)
      ensures !auto && old(input) != [] ==>
        input == old(input)[1..] && exc == (if old(input)[0].CtrlC? then Some(Abort(false)) else None)
    {
      if !auto {
        if input == [] {
          return Some(EndOfFile);
        }
        var line := input[0];
        input := input[1..];
        if line.CtrlC? {
          return Some(Abort(false));
        }
      }
      exc := None;
    }

    /** `while !prompt_confirmation("Are you done editing ...?") do wait end`. */
    method EditGate() returns (exc: Option<Exc>)
      requires !auto
      modifies this`input
      ensures var g := EditGateSpec(old(input));
        && input == old(input)[g.consumed..]
        && exc == (if g.outcome.Normal? then None else Some(g.outcome.exc))
    {
      ghost var g := EditGateSpec(input);
      ghost var n: nat := 0;
      while true
        invariant n <= |old(input)| && input == old(input)[n..]
        invariant EditGateSpec(input).outcome == g.outcome && n + EditGateSpec(input).consumed == g.consumed
        decreases |input|
      {
        var done: bool;
        ghost var m: nat;
        done, exc, m := EditGateOnce();
        if done {
          return;
        }
        n := n + m;
      }
    }

    /** One pass of the edit gate: the confirmation, and `wait` after a no.
        It either ends the gate or leaves it to start again `m` reads later. */
    method EditGateOnce() returns (done: bool, exc: Option<Exc>, ghost m: nat)
      requires !auto
      modifies this`input
      ensures m <= |old(input)| && input == old(input)[m..]
      ensures done ==> var g := EditGateSpec(old(input));
        m == g.consumed && exc == (if g.outcome.Normal? then None else Some(g.outcome.exc))
      ensures !done ==> 0 < m && var g, g' := EditGateSpec(old(input)), EditGateSpec(input);
        g.outcome == g'.outcome && g.consumed == m + g'.consumed
    {
      ghost var k := ConfirmSpec(true, input).consumed;
      EditGateFirstAnswer(input);
      var c := PromptConfirmation();
      m := k;
      if c.Raised? {
        return true, Some(c.exc), m;
      }
      if c.value {
        return true, None, m;
      }
      ghost var waited := input != [];
      var w := Wait();
      if w.Some? {
        return true, w, if waited then k + 1 else k;
      }
      EditGateRound(old(input));
      m := k + 1;
      assert input == old(input)[m..];
      done, exc := false, None;
    }

    /** `locate_ruby_command(name)`: the interpreter's own bindir, then
        RubyGems' bindir, then a `PATH` entry whose shebang names this Ruby. */
    method LocateRubyCommand(name: string) returns (r: Option<string>)
      ensures r == LocateSpec(host.ruby, name)
    {
      var h := host.ruby;
      var filename: Option<string>;
      if h.darwin && IsFrameworkRuby(h.ruby) {
        filename := Some("/usr/bin/" + name);
      } else {
        filename := Some(Dirname(h.ruby) + "/" + name);
      }
      if filename.value !in h.executables {
        if h.gemBindir.Some? {
          filename := Some(h.gemBindir.value + "/" + name);
        } else {
          filename := None;
        }
      }
      assert filename == GemCandidate(h, name);
      if (filename.None? || filename.value !in h.executables) && h.pathDirs != [] {
        filename := SearchPath(name);
      }
      r := filename;
    }
  
    /** The `PATH` loop of `locate_ruby_command`: the first entry holding an
        executable `name` whose shebang names this Ruby. */
    method SearchPath(name: string) returns (r: Option<string>)
      ensures r == PathSearch(host.ruby, host.ruby.pathDirs, name)
    {
      var h := host.ruby;
      r := None;
      var i := 0;
      while i < |h.pathDirs| && r.None?
        invariant 0 <= i <= |h.pathDirs|
        invariant r.None? ==> PathSearch(h, h.pathDirs, name) == PathSearch(h, h.pathDirs[i..], name)
        invariant r.Some? ==> r == PathSearch(h, h.pathDirs, name)
      {
        assert h.pathDirs[i..][1..] == h.pathDirs[i + 1..];
        var filename := h.pathDirs[i] + "/" + name;
        if filename in h.executables && h.shebang(filename) == "#!" + h.ruby {
          r := Some(filename);
        }
        i := i + 1;
      }
    }

    // ---- Steps ----------------------------------------------------------------

    /** `before_install`: both `RAILS_ENV` and `RACK_ENV` become the installer's environment. */
    method BeforeInstall()
      modifies this`env
      ensures var e := InstallEnv(rackEnv, old(env)); env == old(env)["RAILS_ENV" := e]["RACK_ENV" := e]
    {
      var e := InstallEnv(rackEnv, env);
      env := env["RAILS_ENV" := e]["RACK_ENV" := e];
    }

    /** The loop of `check_dependencies`: the missing dependencies, in order,
        or the error for the first one `depcheck` does not know. */
    method FindMissingDependencies(deps: seq<string>) returns (r: Result<seq<string>, Exc>)
      ensures r == MissingDependencies(deps, host.depcheck)
    {
      var missing: seq<string> := [];
      var i := 0;
      while i < |deps|
        invariant 0 <= i <= |deps|
        invariant MissingDependencies(deps[..i], host.depcheck) == Ok(missing)
      {
        assert deps[..i + 1][..i] == deps[..i];
        var dep := host.depcheck(deps[i]);
        if dep.None? {
          r := Err(UnknownDependency(deps[i]));
          MissingDependenciesUnknown(deps, host.depcheck, i);
          MissingDependenciesStopsAtError(deps, host.depcheck, i + 1);
          return;
        }
        if !dep.value.found {
          missing := missing + [deps[i]];
        }
        i := i + 1;
      }
      assert deps[..i] == deps;
      r := Ok(missing);
    }

    /** `check_dependencies`: checks each dependency in turn and aborts when
        any is missing, after waiting for Enter on a terminal. */
    method CheckDependencies() returns (exc: Option<Exc>)
      modifies this`input, this`stdout
      ensures stdout == old(stdout)
      ensures var m := MissingDependencies(Dependencies(core.sourceRoot, host.fs), host.depcheck);
        && (exc.None? <==> m == Ok([]))
        && (m.Err? ==> exc == Some(m.error) && input == old(input))
        && (m.Ok? && m.value != [] && auto ==> exc == Some(Abort(false)) && input == old(input))
        && (m.Ok? && m.value != [] && !auto ==>
              exc.Some? && (exc == Some(Abort(false)) || (old(input) == [] && exc == Some(EndOfFile))))
    {
      var m := FindMissingDependencies(Dependencies(core.sourceRoot, host.fs));
      if m.Err? {
        return Some(m.error);
      }
      if m.value != [] {
        var saved := stdout;
        stdout := Stderr;
        exc := Wait();
        stdout := saved;
        if exc.Some? {
          return;
        }
        return Some(Abort(false));
      }
      exc := None;
    }

    /** The username `prompt_for_desired_username` settles on, before anything is stored. */
    method ChooseUsername(rootAllowed: bool) returns (r: Outcome<string>)
      modifies this`input
      ensures var u := UsernameChoice(old(desiredUsername), !auto, rootAllowed, CurrentUsername(), core.users, old(input));
        r == u.outcome && input == old(input)[u.consumed..]
    {
      var current := CurrentUsername();
      ghost var u := UsernameChoice(desiredUsername, !auto, rootAllowed, current, core.users, input);
      assert input[0..] == input;
      var username: string;
      ghost var consumed: nat;
      if desiredUsername.Some? {
        if desiredUsername.value !in core.users || (!rootAllowed && desiredUsername.value == "root") {
          assert u == PromptRun(Raised(Abort(false)), 0);
          return Raised(Abort(false));
        }
        username := desiredUsername.value;
        consumed := 0;
      } else if auto {
        assert u == PromptRun(Raised(Abort(false)), 0);
        return Raised(Abort(false));
      } else {
        var default := if rootAllowed || current != "root" then Some(current) else None;
        ghost var p := PromptSpec(true, default, ExistingUser(core.users, rootAllowed), input);
        var answer := Prompt(default, ExistingUser(core.users, rootAllowed));
        if answer.Raised? {
          assert u == p;
          return answer;
        }
        username := answer.value;
        consumed := p.consumed;
        assert p == PromptRun(Normal(username), consumed);
      }
      assert input == old(input)[consumed..];
      assert u == (if current != "root" && current != username then PromptRun(Raised(Abort(false)), consumed)
                   else PromptRun(Normal(username), consumed));
      if current != "root" && current != username {
        return Raised(Abort(false));
      }
      r := Normal(username);
    }

    /** `prompt_for_desired_username(root_allowed)`: on success the choice
        becomes both `@desired_username` and the resolver's user. */
    method PromptForDesiredUsername(rootAllowed: bool) returns (exc: Option<Exc>)
      requires Valid()
      modifies this`input, this`desiredUsername, core`username, core`uidCache, core`gidCache, core`homeDirCache
      ensures Valid()
      ensures exc.None? ==> desiredUsername.Some? && core.username == desiredUsername.value
      ensures var u := UsernameChoice(old(desiredUsername), !auto, rootAllowed, CurrentUsername(), core.users, old(input));
        && input == old(input)[u.consumed..]
        && (u.outcome.Normal? ==>
              exc == None && desiredUsername == Some(u.outcome.value) && core.username == u.outcome.value && core.CachesEmpty())
        && (u.outcome.Raised? ==>
              && exc == Some(u.outcome.exc) && desiredUsername == old(desiredUsername)
              && core.username == old(core.username) && core.uidCache == old(core.uidCache)
              && core.gidCache == old(core.gidCache) && core.homeDirCache == old(core.homeDirCache))
    {
      var choice := ChooseUsername(rootAllowed);
      if choice.Raised? {
        return Some(choice.exc);
      }
      desiredUsername := Some(choice.value);
      core.SetUsername(desiredUsername.value);
      exc := None;
    }
  
    // ---- create_default_config_files --------------------------------------------

    /** No terminal, and configuration files are missing: the configuration
        step can only report them and abort. */
    predicate MustReportMissing()
      reads this`env, core
    {
      auto && MissingConfigs(core.configFiles.ids).Ok? && MissingConfigs(core.configFiles.ids).value != []
    }

    /** The identifiers, in order, whose non-required lookup finds no file. */
    function MissingConfigs(ids: seq<string>): Result<seq<string>, Exc>
      reads this`env, core
      decreases |ids|
    {
      if ids == [] then Ok([])
      else
        var id := ids[|ids| - 1];
        match MissingConfigs(ids[..|ids| - 1])
        case Err(e) => Err(e)
        case Ok(m) =>
          match core.ConfigFilename(id, false, env, host.fs)
          case Err(e) => Err(Failure(e))
          case Ok(f) => Ok(if f.None? then m + [id] else m)
    }

    /** The missing list is exactly the identifiers whose non-required lookup answers nil. */
    lemma {:induction false} MissingConfigsExactly(ids: seq<string>)
      ensures MissingConfigs(ids).Ok? ==>
        forall id :: id in MissingConfigs(ids).value <==> id in ids && core.ConfigFilename(id, false, env, host.fs) == Ok(None)
      decreases |ids|
    {
      if ids != [] {
        var init := ids[..|ids| - 1];
        MissingConfigsExactly(init);
        assert forall id :: id in ids <==> id in init || id == ids[|ids| - 1];
      }
    }

    /** The preferred paths of `ids`, as the non-interactive report lists them. */
    function PreferredPaths(ids: seq<string>): Result<seq<string>, Exc>
      reads core
      decreases |ids|
    {
      if ids == [] then Ok([])
      else
        match PreferredPaths(ids[..|ids| - 1])
        case Err(e) => Err(e)
        case Ok(ps) =>
          match core.PreferredConfigFilename(ids[|ids| - 1])
          case Err(e) => Err(Failure(e))
          case Ok(p) => Ok(ps + [p])
    }

    /** `mkdir -p`, `chown` and `chgrp` of the preferred config directory. */
    function DirPlan(): seq<Action>
      reads this`desiredUsername, core
    {
      match core.PreferredConfigDir()
      case Err(e) => [Fail(Failure(e))]
      case Ok(d) => [Run("mkdir -p " + d), Run(OwnerCommand("chown", DesiredName(), d)), GroupAction("chgrp", d)]
    }

    /** Copying the example of one config file into place, then `chown` and `chgrp`. */
    function FilePlan(id: string): seq<Action>
      reads this`desiredUsername, core
    {
      var basename := if id in core.configFiles.basenames then core.configFiles.basenames[id] else "";
      match core.PreferredConfigFilename(id)
      case Err(e) => [Fail(Failure(e))]
      case Ok(f) =>
        [Run("cp " + core.sourceRoot + "/config/" + basename + ".example " + f),
         Run(OwnerCommand("chown", DesiredName(), f)),
         GroupAction("chgrp", f)]
    }

    function FilesPlan(ids: seq<string>): seq<Action>
      reads this`desiredUsername, core
      decreases |ids|
    {
      if ids == [] then [] else FilesPlan(ids[..|ids| - 1]) + FilePlan(ids[|ids| - 1])
    }

    /** What the interactive branch runs: the directory only when something is missing, then each missing file. */
    function CreationPlan(missing: seq<string>): seq<Action>
      reads this`desiredUsername, core
    {
      (if missing == [] then [] else DirPlan()) + FilesPlan(missing)
    }

    /** Only the missing files are copied, each of them is, and with nothing
        missing nothing runs. */
    lemma {:induction false} CreationPlanCoversMissing(missing: seq<string>, a: Action)
      ensures CreationPlan([]) == []
      ensures a in FilesPlan(missing) <==> exists id :: id in missing && a in FilePlan(id)
      decreases |missing|
    {
      if missing != [] {
        var init, last := missing[..|missing| - 1], missing[|missing| - 1];
        CreationPlanCoversMissing(init, a);
        assert forall id :: id in missing <==> id in init || id == last;
        if a in FilePlan(last) {
          assert last in missing;
        }
      }
    }

    /** Finds the missing config files, as the `each_pair` loop does. */
    method FindMissingConfigs() returns (r: Result<seq<string>, Exc>)
      ensures r == MissingConfigs(core.configFiles.ids)
    {
      var ids := core.configFiles.ids;
      var missing: seq<string> := [];
      var i := 0;
      while i < |ids|
        invariant 0 <= i <= |ids|
        invariant MissingConfigs(ids[..i]) == Ok(missing)
      {
        assert ids[..i + 1][..i] == ids[..i];
        var filename := core.ConfigFilename(ids[i], false, env, host.fs);
        if filename.Err? {
          MissingConfigsStopsAtError(ids, i + 1);
          return Err(Failure(filename.error));
        }
        if filename.value.None? {
          missing := missing + [ids[i]];
        }
        i := i + 1;
      }
      assert ids[..i] == ids;
      r := Ok(missing);
    }

    lemma {:induction false} MissingConfigsStopsAtError(ids: seq<string>, k: nat)
      requires k <= |ids| && MissingConfigs(ids[..k]).Err?
      ensures MissingConfigs(ids) == MissingConfigs(ids[..k])
      decreases |ids| - k
    {
      if k < |ids| {
        assert ids[..k + 1][..k] == ids[..k];
        MissingConfigsStopsAtError(ids, k + 1);
      } else {
        assert ids[..k] == ids;
      }
    }

    lemma {:induction false} PreferredPathsStopsAtError(ids: seq<string>, k: nat)
      requires k <= |ids| && PreferredPaths(ids[..k]).Err?
      ensures PreferredPaths(ids) == PreferredPaths(ids[..k])
      decreases |ids| - k
    {
      if k < |ids| {
        assert ids[..k + 1][..k] == ids[..k];
        PreferredPathsStopsAtError(ids, k + 1);
      } else {
        assert ids[..k] == ids;
      }
    }

    /** One report on standard error per line. */
    function StderrReports(lines: seq<string>): seq<Event> {
      seq(|lines|, k requires 0 <= k < |lines| => Reported(Stderr, lines[k]))
    }

    /** Without a terminal: list where each missing file belongs, on standard error, and abort. */
    method ReportMissing(missing: seq<string>) returns (exc: Option<Exc>)
      modifies this`events, this`stdout
      ensures stdout == old(stdout)
      ensures |old(events)| <= |events| && events[..|old(events)|] == old(events)
      ensures forall k :: |old(events)| <= k < |events| ==> events[k].Reported? && events[k].stream == Stderr
      ensures PreferredPaths(missing).Err? ==> exc == Some(PreferredPaths(missing).error)
      ensures PreferredPaths(missing).Ok? ==>
        && exc == Some(Abort(false))
        && events == old(events) + StderrReports(PreferredPaths(missing).value)
    {
      var saved := stdout;
      stdout := Stderr;
      var paths: seq<string> := [];
      var i := 0;
      while i < |missing|
        invariant 0 <= i <= |missing| && stdout == Stderr
        invariant PreferredPaths(missing[..i]) == Ok(paths)
        invariant events == old(events) + StderrReports(paths)
      {
        assert missing[..i + 1][..i] == missing[..i];
        var filename := core.PreferredConfigFilename(missing[i]);
        if filename.Err? {
          stdout := saved;
          PreferredPathsStopsAtError(missing, i + 1);
          return Some(Failure(filename.error));
        }
        Report(filename.value);
        paths := paths + [filename.value];
        i := i + 1;
      }
      assert missing[..i] == missing;
      stdout := saved;
      exc := Some(Abort(false));
    }

    /** With a terminal: create the examples; a failed command becomes a plain `Abort`. */
    method CreateExampleConfigs(missing: seq<string>) returns (exc: Option<Exc>)
      modifies this`events, this`stdout
      ensures stdout == old(stdout)
      ensures var run := ExecActions(CreationPlan(missing), host.system, true);
        && events == old(events) + run.events
        && exc == (if run.failure == Some(Abort(true)) then Some(Abort(false)) else run.failure)
    {
      var failure := RunActions(CreationPlan(missing), true);
      if failure == Some(Abort(true)) {
        // `use_stderr { puts ... }` swaps stdout for stderr around the messages, which are not modelled.
        var saved := stdout;
        stdout := Stderr;
        stdout := saved;
        return Some(Abort(false));
      }
      exc := failure;
    }

    /** After creating the examples: wait for Enter, then pass the edit gate of each created file. */
    method ConfirmEdits(created: seq<string>) returns (exc: Option<Exc>)
      requires !auto
      modifies this`input
      ensures var c := ConfirmEditsSpec(|created|, old(input));
        input == old(input)[c.consumed..] && exc == (if c.outcome.Normal? then None else Some(c.outcome.exc))
    {
      if created == [] {
        return None;
      }
      exc := Wait();
      if exc.Some? {
        return;
      }
      exc := PassEditGates(created);
    }

    /** `missing.each { |basename| while !prompt_confirmation(...) ... }`:
        the edit gate of each created file in turn. */
    method PassEditGates(created: seq<string>) returns (exc: Option<Exc>)
      requires !auto
      modifies this`input
      ensures var e := EditGates(|created|, old(input));
        input == old(input)[e.consumed..] && exc == (if e.outcome.Normal? then None else Some(e.outcome.exc))
    {
      ghost var n: nat := 0;
      ghost var left: nat := |created|;
      var i := 0;
      exc := None;
      while i < |created| && exc.None?
        invariant 0 <= i <= |created| && left == |created| - i
        invariant n <= |old(input)| && input == old(input)[n..]
        invariant exc.None? ==> EditGates(|created|, old(input)) == Shifted(EditGates(left, old(input)[n..]), n)
        invariant exc.Some? ==> EditGates(|created|, old(input)) == PromptRun(Raised(exc.value), n)
      {
        ghost var m: nat;
        exc, m := PassEditGate(left, old(input), n);
        n, left := n + m, left - 1;
        i := i + 1;
      }
    }

    /** The first of `k` edit gates, on the input from offset `n` of `orig`:
        it ends them all with an exception, or passes after `m` reads and
        leaves `k - 1` gates on the rest of the input. */
    method PassEditGate(ghost k: nat, ghost orig: seq<Input>, ghost n: nat) returns (exc: Option<Exc>, ghost m: nat)
      requires !auto && 0 < k
      requires n <= |orig| && input == orig[n..]
      modifies this`input
      ensures n + m <= |orig| && input == orig[n + m..]
      ensures exc.Some? ==> EditGates(k, orig[n..]) == PromptRun(Raised(exc.value), m)
      ensures exc.None? ==> EditGates(k, orig[n..]) == Shifted(EditGates(k - 1, orig[n + m..]), m)
    {
      ghost var g := EditGateSpec(input);
      EditGatesStep(k, input);
      exc := EditGate();
      m := g.consumed;
      DropDrop(orig, n, m);
    }

    /** `create_default_config_files`. */
    method CreateDefaultConfigFiles() returns (exc: Option<Exc>)
      modifies this`events, this`stdout, this`input
      ensures stdout == old(stdout)
      ensures var m := MissingConfigs(core.configFiles.ids);
        && (m.Err? ==> exc == Some(m.error) && events == old(events) && input == old(input))
        && (m == Ok([]) ==> exc == None && events == old(events) && input == old(input))
        && (m.Ok? && m.value != [] && auto ==>
              && input == old(input)
              && |old(events)| <= |events| && events[..|old(events)|] == old(events)
              && (forall k :: |old(events)| <= k < |events| ==> events[k].Reported? && events[k].stream == Stderr)
              && var p := PreferredPaths(m.value);
                 && (p.Err? ==> exc == Some(p.error))
                 && (p.Ok? ==> exc == Some(Abort(false)) && events == old(events) + StderrReports(p.value)))
        && (m.Ok? && !auto ==>
              var run := ExecActions(CreationPlan(m.value), host.system, true);
              && events == old(events) + run.events
              && (run.failure.Some? ==>
                    exc == Some(if run.failure == Some(Abort(true)) then Abort(false) else run.failure.value)
                    && input == old(input))
              && (run.failure.None? ==>
                    var c := ConfirmEditsSpec(|m.value|, old(input));
                    input == old(input)[c.consumed..] && exc == (if c.outcome.Normal? then None else Some(c.outcome.exc))))
    {
      var m := FindMissingConfigs();
      if m.Err? {
        return Some(m.error);
      }
      var missing := m.value;
      if auto {
        exc := ReportAnyMissing(missing);
      } else {
        assert missing == [] ==> CreationPlan(missing) == [];
        exc := CreateAndConfirm(missing);
      }
    }

    /** Without a terminal: nothing to do when nothing is missing, else the report and the abort. */
    method ReportAnyMissing(missing: seq<string>) returns (exc: Option<Exc>)
      modifies this`events, this`stdout
      ensures stdout == old(stdout)
      ensures missing == [] ==> exc == None && events == old(events)
      ensures missing != [] ==>
        && |old(events)| <= |events| && events[..|old(events)|] == old(events)
        && (forall k :: |old(events)| <= k < |events| ==> events[k].Reported? && events[k].stream == Stderr)
        && var p := PreferredPaths(missing);
           && (p.Err? ==> exc == Some(p.error))
           && (p.Ok? ==> exc == Some(Abort(false)) && events == old(events) + StderrReports(p.value))
    {
      if missing == [] {
        return None;
      }
      exc := ReportMissing(missing);
    }

    /** With a terminal: create the examples, then have each one confirmed. */
    method CreateAndConfirm(missing: seq<string>) returns (exc: Option<Exc>)
      requires !auto
      modifies this`events, this`stdout, this`input
      ensures stdout == old(stdout)
      ensures var run := ExecActions(CreationPlan(missing), host.system, true);
        && events == old(events) + run.events
        && (run.failure.Some? ==>
              exc == Some(if run.failure == Some(Abort(true)) then Abort(false) else run.failure.value)
              && input == old(input))
        && (run.failure.None? ==>
              var c := ConfirmEditsSpec(|missing|, old(input));
              input == old(input)[c.consumed..] && exc == (if c.outcome.Normal? then None else Some(c.outcome.exc)))
    {
      exc := CreateExampleConfigs(missing);
      if exc.Some? {
        return;
      }
      exc := ConfirmEdits(missing);
    }

    // ---- install_gems -------------------------------------------------------------

    /** The environment `ENV` names once `before_install` has run: `RACK_ENV`. */
    predicate IsDevelopment()
      reads this`env
    {
      "RACK_ENV" in env && env["RACK_ENV"] == "development"
    }

    /** `install_gems_into_home`: the three bundle paths are computed first
        (any of them fails when the user has no home directory), then the
        home installation plan runs with a recursive `chgrp` of the root. */
    function HomeGemsPlan(bundle: string): seq<Action>
      reads this`desiredUsername, core
    {
      match core.PreferredGemBundlePath()
      case Err(e) => [Fail(Failure(e))]
      case Ok(bundlePath) =>
        match core.PreferredGemBundlePathRoot()
        case Err(e) => [Fail(Failure(e))]
        case Ok(root) =>
          match core.PreferredGemBundleConfigPath()
          case Err(e) => [Fail(Failure(e))]
          case Ok(configPath) =>
            HomeInstallPlan(bundle, core.sourceRoot, bundlePath, root, configPath, DesiredName(), GroupAction("chgrp -R", root))
    }

    /** Either the bundle paths are unknown and nothing runs, or the proxy
        Gemfile lives in the config path, inside the bundle path, inside the
        root that the chosen user is given recursively. */
    lemma HomeGemsPlanOwnsBundle(bundle: string)
      ensures var plan := HomeGemsPlan(bundle);
        || (|plan| == 1 && plan[0].Fail? && plan[0].exc.Failure?)
        || (&& core.PreferredGemBundlePathRoot().Ok?
            && var root := core.PreferredGemBundlePathRoot().value;
               var bundlePath := core.PreferredGemBundlePath().value;
               var configPath := core.PreferredGemBundleConfigPath().value;
            && bundlePath == root + "/bundle/" + core.RuntimeTag()
            && configPath == bundlePath + "/config-" + core.appVersion
            && plan[1] == Write(configPath + "/Gemfile")
            && plan[5] == Run(OwnerCommand("chown -R", DesiredName(), root)))
    {
      core.BundlePathsNest();
    }

    /** `install_gems`, with the environment read from `ENV['RACK_ENV']`
        (see the findings: the source asks the resolver for a method it
        does not have). */
    method InstallGems() returns (exc: Option<Exc>)
      modifies this`events, this`stdout
      ensures stdout == old(stdout)
      ensures core.sourceRoot + "/Gemfile" !in host.fs ==> exc.None? && events == old(events)
      ensures core.sourceRoot + "/Gemfile" in host.fs ==>
        var bundle := LocateSpec(host.ruby, "bundle");
        && (bundle.None? ==> exc == Some(Abort(false)) && events == old(events))
        && (bundle.Some? && IsDevelopment() ==>
              && events == old(events) + [Ran(bundle.value + " update")]
              && exc == ShBangOutcome(host.system(bundle.value + " update")))
        && (bundle.Some? && !IsDevelopment() ==>
              var run := ExecActions(HomeGemsPlan(bundle.value), host.system, true);
              && events == old(events) + run.events
              && exc == (if run.failure == Some(Abort(true)) then Some(Abort(false)) else run.failure))
    {
      if core.sourceRoot + "/Gemfile" !in host.fs {
        return None;
      }
      var bundle := LocateRubyCommand("bundle");
      if bundle.None? {
        return Some(Abort(false));
      }
      if IsDevelopment() {
        exc := ShBang(bundle.value + " update");
      } else {
        exc := InstallGemsIntoHome(bundle.value);
      }
    }

    /** `install_gems_into_home`: the home plan, with a failed command turned into a plain `Abort`. */
    method InstallGemsIntoHome(bundle: string) returns (exc: Option<Exc>)
      modifies this`events, this`stdout
      ensures stdout == old(stdout)
      ensures var run := ExecActions(HomeGemsPlan(bundle), host.system, true);
        && events == old(events) + run.events
        && exc == (if run.failure == Some(Abort(true)) then Some(Abort(false)) else run.failure)
    {
      exc := RunActions(HomeGemsPlan(bundle), true);
      if exc == Some(Abort(true)) {
        // `use_stderr { puts ... }` swaps stdout for stderr around the messages, which are not modelled.
        var saved := stdout;
        stdout := Stderr;
        stdout := saved;
        exc := Some(Abort(false));
      }
    }

    // ---- migrate_database ---------------------------------------------------------

    /** `is_rails_app?`: `config/environment.rb` exists and mentions Rails. */
    predicate IsRailsApp()
      reads core
    {
      core.sourceRoot + "/config/environment.rb" in host.fs && host.environmentMentionsRails
    }

    /** The log variable `rake_command` points at `/dev/null`: `{APP_ID}_LOG_FILE`. */
    function MigrationLogVariable(): string
      reads core
    {
      EnvVarName(core.appId, "log_file")
    }

    /** `rake!('db:migrate SCHEMA=/dev/null --trace')` through `rake_command`. */
    function MigrateCommand(rake: string): string
      reads this`desiredUsername, core
    {
      rake + " WAPH_USER=" + DesiredName() + " " + MigrationLogVariable() + "=/dev/null"
        + MigrateTask
    }

    /** The migration's log variable is the one the log resolver reads, so
        the application code that the migration loads logs to `/dev/null`
        and touches no file. */
    lemma MigrationLogsNowhere(env: map<string, string>, fs: set<string>, attempt: FsOp -> OpResult)
      ensures core.LogFilenameSpec(env[MigrationLogVariable() := "/dev/null"], fs, attempt)
        == LogOutcome(Ok("/dev/null"), fs, [])
    {
    }

    /** `migrate_database`. */
    method MigrateDatabase() returns (exc: Option<Exc>)
      requires Valid()
      modifies this`events
      ensures !IsRailsApp() ==> exc.None? && events == old(events)
      ensures IsRailsApp() && host.rakeCommand.None? ==> exc == Some(Abort(false)) && events == old(events)
      ensures IsRailsApp() && host.rakeCommand.Some? ==>
        var command := MigrateCommand(host.rakeCommand.value);
        events == old(events) + [Ran(command)] && exc == ShBangOutcome(host.system(command))
    {
      if !IsRailsApp() {
        return None;
      }
      if host.rakeCommand.None? {
        return Some(Abort(false));
      }
      var logVariable := core.EnvVarNameForIdentifier("log_file");
      var command := host.rakeCommand.value + " WAPH_USER=" + DesiredName() + " " + logVariable + "=/dev/null"
        + MigrateTask;
      exc := ShBang(command);
    }

    // ---- restart_web_app ----------------------------------------------------------

    /** The six `sh` calls of `restart_web_app`; the restart directory is looked up for each. */
    function RestartPlan(): seq<Action>
      reads this`desiredUsername, core
    {
      match core.RestartDir()
      case Err(e) => [Fail(Failure(e))]
      case Ok(d) =>
        [ Run("mkdir -p " + d),
          Run("touch " + d + "/restart.txt"),
          Run(OwnerCommand("chown", DesiredName(), d)),
          Run(OwnerCommand("chown", DesiredName(), d + "/restart.txt")),
          GroupAction("chgrp", d),
          GroupAction("chgrp", d + "/restart.txt") ]
    }

    /** Failed restart commands are ignored: when the restart directory and
        the user's group are known and no command is interrupted, all six
        run, the `restart.txt` that the application server watches is
        touched, and the step ends normally. */
    lemma RestartRunsToTheEnd(system: string -> CmdStatus)
      requires core.RestartDir().Ok? && GroupFor(DesiredName()).Ok?
      requires forall c :: system(c) != Signaled(SIGINT)
      ensures var plan := RestartPlan();
        && ExecActions(plan, system, false) == ActionsRun(None, 6, EventsOf(plan))
        && plan[1] == Run("touch " + core.RestartDir().value + "/restart.txt")
    {
      var plan := RestartPlan();
      assert forall i :: 0 <= i < |plan| ==> plan[i].Run?;
      LenientStopsOnlyOnRaise(plan, system);
    }

    /** `restart_web_app`. */
    method RestartWebApp() returns (exc: Option<Exc>)
      modifies this`events
      ensures events == old(events) + ExecActions(RestartPlan(), host.system, false).events
      ensures exc == ExecActions(RestartPlan(), host.system, false).failure
    {
      exc := RunActions(RestartPlan(), false);
    }

    // ---- run ------------------------------------------------------------------------

    /** `run_steps`: the six steps in order, stopping at the first that raises. */
    method RunSteps() returns (exc: Option<Exc>)
      requires Valid()
      modifies this`events, this`stdout, this`input, this`desiredUsername, this`begun, this`completed
      modifies core`username, core`uidCache, core`gidCache, core`homeDirCache
      ensures Valid() && stdout == old(stdout)
      ensures begun <= |AllSteps|
      ensures begun == completed + (if exc.Some? then 1 else 0)
      ensures exc.None? ==> completed == |AllSteps|
      // Once the username step has passed, the resolver answers for the chosen user.
      ensures completed >= 2 ==> desiredUsername.Some? && core.username == desiredUsername.value
      // Without a terminal, missing configuration files stop the run before any command.
      ensures MustReportMissing() ==> exc.Some? && completed <= 2 && OnlyReportsAdded(old(events), events)
    {
      assert |AllSteps| == 6;
      begun, completed := 1, 0;
      exc := CheckDependencies();
      if exc.Some? { return; }
      exc := RunFromUsernameStep();
    }

    /** The username step and the steps after it. */
    method RunFromUsernameStep() returns (exc: Option<Exc>)
      requires Valid() && begun == 1 && completed == 0
      modifies this`events, this`stdout, this`input, this`desiredUsername, this`begun, this`completed
      modifies core`username, core`uidCache, core`gidCache, core`homeDirCache
      ensures Valid() && stdout == old(stdout)
      ensures begun <= |AllSteps|
      ensures begun == completed + (if exc.Some? then 1 else 0)
      ensures exc.None? ==> completed == |AllSteps|
      ensures completed >= 2 ==> desiredUsername.Some? && core.username == desiredUsername.value
      // Without a terminal, missing configuration files stop the run before any command.
      ensures MustReportMissing() ==> exc.Some? && completed <= 2 && OnlyReportsAdded(old(events), events)
    {
      assert |AllSteps| == 6;
      begun, completed := 2, 1;
      exc := UsernameStep();
      if exc.Some? { return; }
      begun, completed := 3, 2;
      assert desiredUsername.Some? && core.username == desiredUsername.value;
      exc := RunLaterSteps();
    }

    /** The username step as `run_steps` calls it, without root. */
    method UsernameStep() returns (exc: Option<Exc>)
      requires Valid()
      modifies this`input, this`desiredUsername, core`username, core`uidCache, core`gidCache, core`homeDirCache
      ensures Valid()
      ensures exc.None? ==> desiredUsername.Some? && core.username == desiredUsername.value
    {
      exc := PromptForDesiredUsername(false);
    }

    /** The four steps after the username is known; none of them changes it. */
    method RunLaterSteps() returns (exc: Option<Exc>)
      requires Valid() && begun == 3 && completed == 2
      modifies this`events, this`stdout, this`input, this`begun, this`completed
      ensures Valid() && stdout == old(stdout)
      ensures begun <= |AllSteps|
      ensures begun == completed + (if exc.Some? then 1 else 0)
      ensures exc.None? ==> completed == |AllSteps|
      ensures completed >= 2
      // Without a terminal, missing configuration files stop the run before any command.
      ensures MustReportMissing() ==> exc.Some? && completed <= 2 && OnlyReportsAdded(old(events), events)
    {
      assert |AllSteps| == 6;
      exc := ConfigStep();
      if exc.Some? { return; }
      begun, completed := 4, 3;
      exc := RunInstallSteps();
    }

    /** The gem, migration and restart steps, once the configuration files exist. */
    method RunInstallSteps() returns (exc: Option<Exc>)
      requires Valid() && begun == 4 && completed == 3
      modifies this`events, this`stdout, this`begun, this`completed
      ensures Valid() && stdout == old(stdout)
      ensures begun <= |AllSteps|
      ensures begun == completed + (if exc.Some? then 1 else 0)
      ensures exc.None? ==> completed == |AllSteps|
      ensures completed >= 3
    {
      assert |AllSteps| == 6;
      exc := InstallGems();
      if exc.Some? { return; }
      begun, completed := 5, 4;
      exc := MigrateDatabase();
      if exc.Some? { return; }
      begun, completed := 6, 5;
      exc := RestartWebApp();
      if exc.Some? { return; }
      completed := 6;
    }

    /** The configuration step as `run_steps` sees it. */
    method ConfigStep() returns (exc: Option<Exc>)
      modifies this`events, this`stdout, this`input
      ensures stdout == old(stdout)
      ensures MustReportMissing() ==> exc.Some? && OnlyReportsAdded(old(events), events)
    {
      exc := CreateDefaultConfigFiles();
    }

    /** `run`: refuses an unconfigured resolver, settles the environment,
        runs the steps, and always ends with `after_install`. */
    method RunInstallation() returns (r: RunResult)
      requires Valid()
      modifies this`events, this`stdout, this`input, this`desiredUsername, this`begun, this`completed, this`env
      modifies core`username, core`uidCache, core`gidCache, core`homeDirCache
      ensures Valid() && stdout == old(stdout)
      ensures |events| > 0 && events[|events| - 1] == AfterInstall
      ensures !core.appIdGiven ==>
        r == Propagated(NotSetUp) && events == old(events) + [AfterInstall]
      ensures core.appIdGiven ==>
        && (var e := InstallEnv(rackEnv, old(env)); env == old(env)["RAILS_ENV" := e]["RACK_ENV" := e])
        && (r == Returned(true) <==> completed == |AllSteps|)
        && (r.Propagated? ==> r.exc.Exit? || r.exc.Failure? || r.exc.Crash?)
        && (MustReportMissing() ==> r != Returned(true) && OnlyReportsAdded(old(events), events[..|events| - 1]))
    {
      if !core.appIdGiven {
        events := events + [AfterInstall];
        return Propagated(NotSetUp);
      }
      BeforeInstall();
      var exc := RunSteps();
      r := RunResultOf(exc);
      ghost var stepEvents := events;
      events := events + [AfterInstall];
      assert events[..|events| - 1] == stepEvents;
    }
  }

  // ---- as written: install_gems asks the resolver for `rack_env` ------------------

  /** `install_gems` as the source has it: once the Gemfile exists and
      Bundler is found it calls `@core.rack_env`, which `Waph::Core` does not
      define, so a `NoMethodError` leaves the step. */
  function InstallGemsAsWritten(sourceRoot: string, fs: set<string>, bundle: Option<string>): (r: Option<Exc>)
    ensures sourceRoot + "/Gemfile" !in fs ==> r.None?
    ensures sourceRoot + "/Gemfile" in fs && bundle.None? ==> r == Some(Abort(false))
  {
    if sourceRoot + "/Gemfile" !in fs then None
    else if bundle.None? then Some(Abort(false))
    else Some(RackEnvUndefined)
  }

  /** The discrepancy: as written, every installation that has gems to
      install escapes `run` with an exception before any gem is installed;
      the corrected step runs `bundle` instead. */
  lemma AsWrittenNeverInstallsGems(installer: Installer)
    requires installer.core.sourceRoot + "/Gemfile" in installer.host.fs
    requires LocateSpec(installer.host.ruby, "bundle").Some?
    ensures var asWritten := InstallGemsAsWritten(installer.core.sourceRoot, installer.host.fs,
                                                  LocateSpec(installer.host.ruby, "bundle"));
      && RunResultOf(asWritten).Propagated? && RunResultOf(asWritten).exc.Crash?
    ensures var plan := installer.HomeGemsPlan(LocateSpec(installer.host.ruby, "bundle").value);
      |plan| == 1 || plan[3] == Run(BundleInstallCommand(LocateSpec(installer.host.ruby, "bundle").value,
                                                         installer.core.sourceRoot,
                                                         installer.core.PreferredGemBundlePath().value,
                                                         installer.core.PreferredGemBundleConfigPath().value))
  {
  }
}
