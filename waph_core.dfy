/** The resource-location resolver `Waph::Core` of lib/waph.rb.

    The operating system is abstract: the user database is a map from user
    name to (uid, gid, home directory), the filesystem is the set of paths
    that exist, and every filesystem call the log lookup makes is answered
    by an oracle. */
module Waph {
  import opened Wrappers
  import opened Text
  import opened EnvVarNames

  /** One entry of the user database (`Etc.getpwnam`). */
  datatype UserEntry = UserEntry(uid: int, gid: int, home: string)

  /** What `@installer` holds: `nil`, a String naming the installer, or any
      other truthy value (the `{}` that `setup` substitutes for a missing one). */
  datatype InstallerSpec = NoInstaller | InstallerName(name: string) | InstallerPresent

  /** The `config_files` Hash: identifiers in insertion order and their basenames. */
  datatype ConfigFileMap = ConfigFileMap(ids: seq<string>, basenames: map<string, string>) {
    ghost predicate Wellformed() {
      && (forall i, j :: 0 <= i < j < |ids| ==> ids[i] != ids[j])
      && (forall id :: id in basenames <==> id in ids)
    }
  }

  /** The options Hash passed to `setup`. `installer` is `NoInstaller` for `nil` or `false`. */
  datatype SetupOptions = SetupOptions(
    appId: Option<string>,
    appName: Option<string>,
    appVersion: Option<string>,
    sourceRoot: Option<string>,
    installer: InstallerSpec,
    configFiles: Option<ConfigFileMap>,
    username: Option<string>)

  /** A filesystem call made while choosing the log file. */
  datatype FsOp = Mkdir(path: string) | MkdirP(path: string) | Chown(path: string) | AppendProbe(path: string)

  /** How a filesystem call ended: fine, `Errno::EACCES`, or any other error. */
  datatype OpResult = Succeeded | PermissionDenied | Failed(errno: string)

  /** The exceptions the resolver raises. */
  datatype CoreError =
    | MissingOption(option: string)
    | UnknownIdentifier
    | ConfigNotFound(message: string)
    | NoSuchUser(username: string)
    | IoError(op: FsOp, errno: string)
    | BundleNotFound(message: string)
    | GemsNotInstalled(message: string)

  /** The log lookup's answer, the paths that exist afterwards, and the calls it made. */
  datatype LogOutcome = LogOutcome(result: Result<string, CoreError>, fs: set<string>, ops: seq<FsOp>)

  /** Where the log lookup stands after a phase: go on, the location is not
      writable (an `EACCES` was rescued), or an error propagates. */
  datatype LogPhase =
    | Proceed(fs: set<string>, ops: seq<FsOp>)
    | Denied(fs: set<string>, ops: seq<FsOp>)
    | Halted(error: CoreError, fs: set<string>, ops: seq<FsOp>)

  /** The environment after `prepare_for_bundler!`, and the error it raised, if any. */
  datatype BundlerSetup = BundlerSetup(env: map<string, string>, error: Option<CoreError>)

  const EmptyConfigFiles := ConfigFileMap([], map[])

  // The fixed parts of the messages `config_filename` raises.
  const NotFoundHead := "The configuration file '"
  const NotFoundAfterName := "' cannot be found. "
  const NotInstalledAdvice := " is probably not installed properly. "
  const RerunWithCommand := "Please (re)run the installer: "
  const Rerun := "Please (re)run the installer."
  const CreateIt := "Please create it."

  // The fixed parts of the messages `prepare_for_bundler!` raises.
  const BundleMissingHead := "Cannot find the "
  const BundleMissingMiddle := " gem bundle directory. This probably means "
  const BundleMissingTail := " isn't properly installed yet, or that its installation somehow become corrupted. "
  const RerunAppInstaller := "Please (re-)run the "
  const AppInstallerWithCommand := " installer: "
  const AppInstallerEnd := " installer."
  const GemsMissingHead := "Not all "
  const GemsMissingTail := " gem dependencies are installed. Please run 'bundle install'."

  /** The first of the four required options that is missing, checked in
      the order `setup` raises them. */
  function SetupError(options: SetupOptions): (r: Option<CoreError>)
    ensures options.appId.None? ==> r == Some(MissingOption("app_id"))
    ensures options.appId.Some? && options.appName.None? ==> r == Some(MissingOption("app_name"))
    ensures options.appId.Some? && options.appName.Some? && options.appVersion.None? ==>
      r == Some(MissingOption("app_version"))
    ensures options.appId.Some? && options.appName.Some? && options.appVersion.Some? && options.sourceRoot.None? ==>
      r == Some(MissingOption("source_root"))
    ensures r.None? <==>
      options.appId.Some? && options.appName.Some? && options.appVersion.Some? && options.sourceRoot.Some?
  {
    if options.appId.None? then Some(MissingOption("app_id"))
    else if options.appName.None? then Some(MissingOption("app_name"))
    else if options.appVersion.None? then Some(MissingOption("app_version"))
    else if options.sourceRoot.None? then Some(MissingOption("source_root"))
    else None
  }

  /** The value `setup` gives `@username`: the option, else `WAPH_USER`, else `whoami`. */
  function ChosenUsername(options: SetupOptions, env: map<string, string>, whoami: string): string {
    if options.username.Some? then options.username.value
    else if "WAPH_USER" in env then env["WAPH_USER"]
    else Strip(whoami)
  }

  /** The deployment environment the log lookup uses: `RACK_ENV`, else `RAILS_ENV`, else development. */
  function DeploymentEnv(env: map<string, string>): string {
    if "RACK_ENV" in env then env["RACK_ENV"]
    else if "RAILS_ENV" in env then env["RAILS_ENV"]
    else "development"
  }

  /** The first candidate that names an existing path. */
  function FirstExisting(candidates: seq<Option<string>>, fs: set<string>): Option<string> {
    if candidates == [] then None
    else if candidates[0].Some? && candidates[0].value in fs then candidates[0]
    else FirstExisting(candidates[1..], fs)
  }

  predicate Exists(candidate: Option<string>, fs: set<string>) {
    candidate.Some? && candidate.value in fs
  }

  /** The first existing candidate wins, whatever exists after it. */
  lemma {:induction false} FirstExistingIsEarliest(candidates: seq<Option<string>>, fs: set<string>, i: nat)
    requires i < |candidates| && Exists(candidates[i], fs)
    requires forall j :: 0 <= j < i ==> !Exists(candidates[j], fs)
    ensures FirstExisting(candidates, fs) == candidates[i]
    decreases i
  {
    if i > 0 {
      assert !Exists(candidates[0], fs);
      FirstExistingIsEarliest(candidates[1..], fs, i - 1);
    }
  }

  /** Nothing is found exactly when no candidate exists. */
  lemma {:induction false} FirstExistingNone(candidates: seq<Option<string>>, fs: set<string>)
    ensures FirstExisting(candidates, fs) == None <==> forall j :: 0 <= j < |candidates| ==> !Exists(candidates[j], fs)
    ensures FirstExisting(candidates, fs).Some? ==> FirstExisting(candidates, fs).value in fs
    decreases |candidates|
  {
    if candidates != [] {
      FirstExistingNone(candidates[1..], fs);
      if !Exists(candidates[0], fs) {
        assert forall j :: 1 <= j < |candidates| ==> candidates[j] == candidates[1..][j - 1];
      }
    }
  }

  class Core {
    var appId: string
    var appName: string
    var appVersion: string
    var sourceRoot: string
    /** `!!@app_id`, what `set_up?` answers. */
    var appIdGiven: bool
    var installer: InstallerSpec
    var configFiles: ConfigFileMap
    var username: string
    /** The memoised `@uid`, `@gid` and `@home_dir`. */
    var uidCache: Option<int>
    var gidCache: Option<int>
    var homeDirCache: Option<string>
    /** The user database, and the runtime tag parts `ruby_engine` and `ruby_major_minor_version`. */
    const users: map<string, UserEntry>
    const rubyEngine: string
    const rubyMajorMinor: string

    /** The caches are never stale: each filled cache holds the current user's
        entry. A resolver without an installer has never been set up, so it
        knows no configuration file. */
    ghost predicate Valid()
      reads this
    {
      && configFiles.Wellformed()
      && (installer == NoInstaller ==> configFiles.basenames == map[])
      && (uidCache.Some? ==> username in users && uidCache.value == users[username].uid)
      && (gidCache.Some? ==> username in users && gidCache.value == users[username].gid)
      && (homeDirCache.Some? ==> username in users && homeDirCache.value == users[username].home)
    }

    ghost predicate CachesEmpty()
      reads this
    {
      uidCache.None? && gidCache.None? && homeDirCache.None?
    }

    /** `Core.new`: every instance variable is `nil` (an interpolated `nil` is the empty string). */
    constructor (users: map<string, UserEntry>, rubyEngine: string, rubyMajorMinor: string)
      ensures Valid() && CachesEmpty()
      ensures !appIdGiven && installer == NoInstaller && configFiles == EmptyConfigFiles
      ensures appId == "" && appName == "" && appVersion == "" && sourceRoot == "" && username == ""
      ensures this.users == users && this.rubyEngine == rubyEngine && this.rubyMajorMinor == rubyMajorMinor
    {
      appId, appName, appVersion, sourceRoot := "", "", "", "";
      appIdGiven := false;
      installer := NoInstaller;
      configFiles := EmptyConfigFiles;
      username := "";
      uidCache, gidCache, homeDirCache := None, None, None;
      this.users := users;
      this.rubyEngine := rubyEngine;
      this.rubyMajorMinor := rubyMajorMinor;
    }

    /** `setup`: the four identity fields are assigned before they are
        checked, so a failed setup leaves them (and `set_up?`) as given; the
        installer, the config map and the user name are assigned only once
        the checks pass. The caches are not cleared (they are outside the
        frame). */
    method Setup(options: SetupOptions, env: map<string, string>, whoami: string) returns (err: Option<CoreError>)
      requires Valid()
      requires options.configFiles.Some? ==> options.configFiles.value.Wellformed()
      modifies this`appId, this`appName, this`appVersion, this`sourceRoot, this`appIdGiven
      modifies this`installer, this`configFiles, this`username
      ensures appId == options.appId.GetOr("") && appName == options.appName.GetOr("")
      ensures appVersion == options.appVersion.GetOr("") && sourceRoot == options.sourceRoot.GetOr("")
      ensures appIdGiven == options.appId.Some?
      ensures err == SetupError(options)
      ensures err.None? ==>
        && installer == (if options.installer == NoInstaller then InstallerPresent else options.installer)
        && configFiles == options.configFiles.GetOr(EmptyConfigFiles)
        && username == ChosenUsername(options, env, whoami)
      ensures err.Some? ==> installer == old(installer) && configFiles == old(configFiles) && username == old(username)
      ensures old(CachesEmpty()) || username == old(username) ==> Valid()
    {
      AssignIdentity(options);
      err := SetupError(options);
      if err.None? {
        CompleteSetup(options, env, whoami);
      }
    }

    /** The four assignments `setup` makes before any check. */
    method AssignIdentity(options: SetupOptions)
      requires Valid()
      modifies this`appId, this`appName, this`appVersion, this`sourceRoot, this`appIdGiven
      ensures Valid()
      ensures appId == options.appId.GetOr("") && appName == options.appName.GetOr("")
      ensures appVersion == options.appVersion.GetOr("") && sourceRoot == options.sourceRoot.GetOr("")
      ensures appIdGiven == options.appId.Some?
    {
      appId, appName := options.appId.GetOr(""), options.appName.GetOr("");
      appVersion, sourceRoot := options.appVersion.GetOr(""), options.sourceRoot.GetOr("");
      appIdGiven := options.appId.Some?;
    }

    /** The assignments `setup` makes once the required options are present. */
    method CompleteSetup(options: SetupOptions, env: map<string, string>, whoami: string)
      requires Valid()
      requires options.configFiles.Some? ==> options.configFiles.value.Wellformed()
      modifies this`installer, this`configFiles, this`username
      ensures installer == (if options.installer == NoInstaller then InstallerPresent else options.installer)
      ensures configFiles == options.configFiles.GetOr(EmptyConfigFiles)
      ensures username == ChosenUsername(options, env, whoami)
      ensures old(CachesEmpty()) || username == old(username) ==> Valid()
    {
      installer := if options.installer == NoInstaller then InstallerPresent else options.installer;
      configFiles, username := options.configFiles.GetOr(EmptyConfigFiles), ChosenUsername(options, env, whoami);
    }

    /** `username=`: the new user, with every derived field forgotten. */
    method SetUsername(value: string)
      requires Valid()
      modifies this`username, this`uidCache, this`gidCache, this`homeDirCache
      ensures username == value && CachesEmpty() && Valid()
    {
      username := value;
      uidCache, gidCache, homeDirCache := None, None, None;
    }

    /** The current user's database entry, or the error `getpwnam` raises. */
    function UserEntryOf(): Result<UserEntry, CoreError>
      reads this`username
    {
      if username in users then Ok(users[username]) else Err(NoSuchUser(username))
    }

    /** What the memoised `home_dir` answers, stated on the user database. */
    function HomeDirOf(): (r: Result<string, CoreError>)
      reads this`username
      ensures r.Ok? <==> username in users
      ensures r.Ok? ==> r.value == users[username].home
    {
      match UserEntryOf()
      case Ok(e) => Ok(e.home)
      case Err(err) => Err(err)
    }

    /** `uid`: `@uid ||= getpwnam(@username).uid`. */
    method Uid() returns (r: Result<int, CoreError>)
      requires Valid()
      modifies this`uidCache
      ensures Valid()
      ensures r == (if username in users then Ok(users[username].uid) else Err(NoSuchUser(username)))
      ensures uidCache == (if r.Ok? then Some(r.value) else old(uidCache))
    {
      if uidCache.Some? {
        r := Ok(uidCache.value);
      } else if username in users {
        uidCache := Some(users[username].uid);
        r := Ok(users[username].uid);
      } else {
        r := Err(NoSuchUser(username));
      }
    }

    /** `gid`: `@gid ||= getpwnam(@username).gid`. */
    method Gid() returns (r: Result<int, CoreError>)
      requires Valid()
      modifies this`gidCache
      ensures Valid()
      ensures r == (if username in users then Ok(users[username].gid) else Err(NoSuchUser(username)))
      ensures gidCache == (if r.Ok? then Some(r.value) else old(gidCache))
    {
      if gidCache.Some? {
        r := Ok(gidCache.value);
      } else if username in users {
        gidCache := Some(users[username].gid);
        r := Ok(users[username].gid);
      } else {
        r := Err(NoSuchUser(username));
      }
    }

    /** `home_dir`: `@home_dir ||= getpwnam(@username).dir`. */
    method HomeDir() returns (r: Result<string, CoreError>)
      requires Valid()
      modifies this`homeDirCache
      ensures Valid()
      ensures r == HomeDirOf()
      ensures homeDirCache == (if r.Ok? then Some(r.value) else old(homeDirCache))
    {
      if homeDirCache.Some? {
        r := Ok(homeDirCache.value);
      } else if username in users {
        homeDirCache := Some(users[username].home);
        r := Ok(users[username].home);
      } else {
        r := Err(NoSuchUser(username));
      }
    }

    /** `dup`: a shallow copy with the same fields, caches included. */
    method Dup() returns (c: Core)
      requires Valid()
      ensures fresh(c) && c.Valid()
      ensures c.appId == appId && c.appName == appName && c.appVersion == appVersion
      ensures c.sourceRoot == sourceRoot && c.appIdGiven == appIdGiven && c.installer == installer
      ensures c.configFiles == configFiles && c.username == username
      ensures c.uidCache == uidCache && c.gidCache == gidCache && c.homeDirCache == homeDirCache
      ensures c.users == users && c.rubyEngine == rubyEngine && c.rubyMajorMinor == rubyMajorMinor
    {
      c := new Core.Copy(this);
    }

    /** A new resolver whose every field is `from`'s. */
    constructor Copy(from: Core)
      requires from.Valid()
      ensures Valid()
      ensures appId == from.appId && appName == from.appName && appVersion == from.appVersion
      ensures sourceRoot == from.sourceRoot && appIdGiven == from.appIdGiven && installer == from.installer
      ensures configFiles == from.configFiles && username == from.username
      ensures uidCache == from.uidCache && gidCache == from.gidCache && homeDirCache == from.homeDirCache
      ensures users == from.users && rubyEngine == from.rubyEngine && rubyMajorMinor == from.rubyMajorMinor
    {
      appId, appName, appVersion, sourceRoot := from.appId, from.appName, from.appVersion, from.sourceRoot;
      appIdGiven, installer, configFiles, username := from.appIdGiven, from.installer, from.configFiles, from.username;
      uidCache, gidCache, homeDirCache := from.uidCache, from.gidCache, from.homeDirCache;
      users, rubyEngine, rubyMajorMinor := from.users, from.rubyEngine, from.rubyMajorMinor;
    }

    /** `env_var_name_for_identifier`, rewriting the string in place as the
        source does: upcase, then the two substitutions, each a left-to-right pass. */
    method EnvVarNameForIdentifier(identifier: string) returns (r: string)
      ensures r == EnvVarName(appId, identifier)
    {
      var s := Upcase(appId + "_" + identifier);
      var out := [];
      var i := 0;
      while i < |s|
        invariant 0 <= i <= |s|
        invariant out == ReplaceSeparatorRuns(s[..i])
      {
        assert s[..i + 1][..i] == s[..i];
        if IsSeparator(s[i]) {
          if !(i > 0 && IsSeparator(s[i - 1])) { out := out + ['_']; }
        } else {
          out := out + [s[i]];
        }
        i := i + 1;
      }
      assert s[..i] == s;
      s := out;
      out := [];
      i := 0;
      while i < |s|
        invariant 0 <= i <= |s|
        invariant out == SqueezeUnderscores(s[..i])
      {
        assert s[..i + 1][..i] == s[..i];
        if !(s[i] == '_' && i > 0 && s[i - 1] == '_') {
          out := out + [s[i]];
        }
        i := i + 1;
      }
      assert s[..i] == s;
      r := out;
    }

    // ---- Misc ---------------------------------------------------------------

    /** `installer_command`: a String installer, run from `{source_root}/bin`
        unless it holds a `/`, always followed by ` -u {username}`. */
    function InstallerCommand(): (r: Option<string>)
      reads this
      ensures r.Some? <==> installer.InstallerName?
      ensures r.Some? ==> HasSuffix(r.value, " -u " + username)
      ensures r.Some? && '/' in installer.name ==> r.value[..|r.value| - |" -u " + username|] == installer.name
      ensures r.Some? && '/' !in installer.name ==>
        r.value[..|r.value| - |" -u " + username|] == sourceRoot + "/bin/" + installer.name
    {
      match installer
      case InstallerName(name) =>
        var command := if '/' in name then name else sourceRoot + "/bin/" + name;
        Some(command + " -u " + username)
      case _ => None
    }

    /** `restart_dir`: `/tmp/{app_id}` for root, else `{home}/.{app_id}/tmp`. */
    function RestartDir(): (r: Result<string, CoreError>)
      reads this
      ensures username == "root" ==> r == Ok("/tmp/" + appId)
      ensures username != "root" ==> r.Ok? == (username in users)
      ensures username != "root" && r.Ok? ==> r.value == users[username].home + "/." + appId + "/tmp"
    {
      if username == "root" then Ok("/tmp/" + appId)
      else match HomeDirOf()
        case Ok(home) => Ok(home + "/." + appId + "/tmp")
        case Err(e) => Err(e)
    }

    // ---- Configuration file management -----------------------------------

    /** The file named by the identifier's environment variable, if that is set. */
    function EnvOverride(identifier: string, env: map<string, string>): Option<string>
      reads this
    {
      var name := EnvVarName(appId, identifier);
      if name in env then Some(env[name]) else None
    }

    /** The four places `config_filename` looks, in order. */
    function ConfigCandidates(basename: string, identifier: string, env: map<string, string>, home: string): seq<Option<string>>
      reads this
    {
      [ EnvOverride(identifier, env),
        Some(sourceRoot + "/config/" + basename),
        Some(home + "/." + appId + "/" + basename),
        Some("/etc/" + appId + "/" + basename) ]
    }

    /** The message of the error raised for a missing required file. */
    function NotFoundMessage(basename: string): (r: string)
      reads this
      ensures HasPrefix(r, NotFoundHead + basename + NotFoundAfterName)
      ensures installer == NoInstaller ==> HasSuffix(r, CreateIt)
      ensures installer != NoInstaller ==>
        HasPrefix(r[|NotFoundHead + basename + NotFoundAfterName|..], appName + NotInstalledAdvice)
      ensures InstallerCommand().Some? ==> HasSuffix(r, RerunWithCommand + InstallerCommand().value)
      ensures installer == InstallerPresent ==> HasSuffix(r, Rerun)
    {
      var head := NotFoundHead + basename + NotFoundAfterName;
      if installer != NoInstaller then
        var advice := appName + NotInstalledAdvice;
        var cmd := InstallerCommand();
        var tail := if cmd.Some? then RerunWithCommand + cmd.value else Rerun;
        assert (head + (advice + tail))[|head|..] == advice + tail;
        head + (advice + tail)
      else
        head + CreateIt
    }

    /** `config_filename`: the first existing candidate, or `nil` or an error
        when none exists. The home directory is looked up only when the first
        two candidates are missing. */
    function ConfigFilename(identifier: string, required: bool, env: map<string, string>, fs: set<string>): (r: Result<Option<string>, CoreError>)
      reads this
      ensures identifier !in configFiles.basenames ==> r == Err(UnknownIdentifier)
      ensures r.Ok? && r.value.Some? ==> r.value.value in fs
      ensures r.Ok? && r.value.None? ==> !required
      ensures !required ==> !(r.Err? && r.error.ConfigNotFound?)
      ensures r.Err? && r.error.NoSuchUser? ==> username !in users
      ensures required && r.Err? && r.error.ConfigNotFound? ==>
        r.error.message == NotFoundMessage(configFiles.basenames[identifier])
    {
      if identifier !in configFiles.basenames then Err(UnknownIdentifier)
      else
        var basename := configFiles.basenames[identifier];
        var fromEnv := EnvOverride(identifier, env);
        var inSource := sourceRoot + "/config/" + basename;
        if fromEnv.Some? && fromEnv.value in fs then Ok(fromEnv)
        else if inSource in fs then Ok(Some(inSource))
        else match HomeDirOf()
          case Err(e) => Err(e)
          case Ok(home) =>
            var inHome := home + "/." + appId + "/" + basename;
            var inEtc := "/etc/" + appId + "/" + basename;
            if inHome in fs then Ok(Some(inHome))
            else if inEtc in fs then Ok(Some(inEtc))
            else if required then Err(ConfigNotFound(NotFoundMessage(basename)))
            else Ok(None)
    }

    /** For a known identifier and an existing user, `config_filename` is the
        first existing of the four candidates, in strict order. */
    lemma ConfigFilenameIsFirstExisting(identifier: string, required: bool, env: map<string, string>, fs: set<string>)
      requires identifier in configFiles.basenames && username in users
      ensures var basename := configFiles.basenames[identifier];
        var found := FirstExisting(ConfigCandidates(basename, identifier, env, users[username].home), fs);
        ConfigFilename(identifier, required, env, fs) ==
          if found.Some? then Ok(found)
          else if required then Err(ConfigNotFound(NotFoundMessage(basename)))
          else Ok(None)
    {
      var basename := configFiles.basenames[identifier];
      var c := ConfigCandidates(basename, identifier, env, users[username].home);
      var c1, c2, c3 := c[1..], c[1..][1..], c[1..][1..][1..];
      assert c3[1..] == [];
      assert FirstExisting(c3, fs) == if Exists(c3[0], fs) then c3[0] else None;
      assert FirstExisting(c2, fs) == if Exists(c2[0], fs) then c2[0] else FirstExisting(c3, fs);
      assert FirstExisting(c1, fs) == if Exists(c1[0], fs) then c1[0] else FirstExisting(c2, fs);
    }

    /** `setup` puts `{}` in place of a missing installer, so the error for a
        missing required file always says the application is not installed
        properly: the "Please create it." advice is never given. */
    lemma MissingFileAdvisesInstaller(identifier: string, env: map<string, string>, fs: set<string>)
      requires Valid()
      ensures var r := ConfigFilename(identifier, true, env, fs);
        r.Err? && r.error.ConfigNotFound? ==>
          && installer != NoInstaller
          && HasPrefix(r.error.message, NotFoundHead + configFiles.basenames[identifier] + NotFoundAfterName)
          && HasPrefix(r.error.message[|NotFoundHead + configFiles.basenames[identifier] + NotFoundAfterName|..],
                       appName + NotInstalledAdvice)
    {
      var r := ConfigFilename(identifier, true, env, fs);
      if r.Err? && r.error.ConfigNotFound? {
        assert identifier in configFiles.basenames;
      }
    }

    /** `preferred_config_dir`: `/etc/{app_id}` for root, else `{home}/.{app_id}`. */
    function PreferredConfigDir(): (r: Result<string, CoreError>)
      reads this
      ensures username == "root" ==> r == Ok("/etc/" + appId)
      ensures username != "root" ==> r.Ok? == (username in users)
      ensures username != "root" && r.Ok? ==> r.value == users[username].home + "/." + appId
    {
      if username == "root" then Ok("/etc/" + appId)
      else match HomeDirOf()
        case Ok(home) => Ok(home + "/." + appId)
        case Err(e) => Err(e)
    }

    /** `preferred_config_filename`: the preferred directory and the basename;
        an unknown identifier raises before the directory is worked out. */
    function PreferredConfigFilename(identifier: string): (r: Result<string, CoreError>)
      reads this
      ensures identifier !in configFiles.basenames ==> r == Err(UnknownIdentifier)
      ensures identifier in configFiles.basenames ==> r.Ok? == PreferredConfigDir().Ok?
      ensures r.Ok? ==> r.value == PreferredConfigDir().value + "/" + configFiles.basenames[identifier]
    {
      if identifier !in configFiles.basenames then Err(UnknownIdentifier)
      else match PreferredConfigDir()
        case Ok(dir) => Ok(dir + "/" + configFiles.basenames[identifier])
        case Err(e) => Err(e)
    }

    // ---- Bundler and Gemfile management ----------------------------------

    /** `{ruby_engine}-{ruby_major_minor_version}`. */
    function RuntimeTag(): string
      reads this
    {
      rubyEngine + "-" + rubyMajorMinor
    }

    /** `preferred_gem_bundle_path_root`. */
    function PreferredGemBundlePathRoot(): Result<string, CoreError>
      reads this
    {
      if username == "root" then Ok("/usr/lib/" + appId)
      else match HomeDirOf()
        case Ok(home) => Ok(home + "/." + appId)
        case Err(e) => Err(e)
    }

    /** `preferred_gem_bundle_path`, written out in full as the source does. */
    function PreferredGemBundlePath(): Result<string, CoreError>
      reads this
    {
      if username == "root" then Ok("/usr/lib/" + appId + "/bundle/" + rubyEngine + "-" + rubyMajorMinor)
      else match HomeDirOf()
        case Ok(home) => Ok(home + "/." + appId + "/bundle/" + rubyEngine + "-" + rubyMajorMinor)
        case Err(e) => Err(e)
    }

    /** `preferred_gem_bundle_config_path`, written out in full as the source does. */
    function PreferredGemBundleConfigPath(): Result<string, CoreError>
      reads this
    {
      if username == "root" then
        Ok("/usr/lib/" + appId + "/bundle/" + rubyEngine + "-" + rubyMajorMinor + "/config-" + appVersion)
      else match HomeDirOf()
        case Ok(home) => Ok(home + "/." + appId + "/bundle/" + rubyEngine + "-" + rubyMajorMinor + "/config-" + appVersion)
        case Err(e) => Err(e)
    }

    /** The three bundle paths nest, for root and for any other user: the
        bundle path is the root plus `/bundle/{tag}`, the config path is the
        bundle path plus `/config-{app_version}`; root's live under
        `/usr/lib/{app_id}`, everyone else's under `{home}/.{app_id}`. */
    lemma BundlePathsNest()
      ensures PreferredGemBundlePathRoot().Ok? == PreferredGemBundlePath().Ok? == PreferredGemBundleConfigPath().Ok?
      ensures PreferredGemBundlePathRoot().Ok? ==>
        && PreferredGemBundlePath().value == PreferredGemBundlePathRoot().value + "/bundle/" + RuntimeTag()
        && PreferredGemBundleConfigPath().value == PreferredGemBundlePath().value + "/config-" + appVersion
      ensures PreferredGemBundlePathRoot() ==
        if username == "root" then Ok("/usr/lib/" + appId)
        else if username in users then Ok(users[username].home + "/." + appId)
        else Err(NoSuchUser(username))
    {
      var tag := RuntimeTag();
      if username == "root" {
        assert "/usr/lib/" + appId + "/bundle/" + rubyEngine + "-" + rubyMajorMinor
          == "/usr/lib/" + appId + "/bundle/" + tag;
      } else if username in users {
        var home := users[username].home;
        assert home + "/." + appId + "/bundle/" + rubyEngine + "-" + rubyMajorMinor
          == home + "/." + appId + "/bundle/" + tag;
      }
    }

    /** `gemfile_path`: the source tree's Gemfile when `{source_root}/.bundle`
        exists, else the proxy Gemfile of the bundle config path if it
        exists, else the source tree's Gemfile if it exists, else `nil`. */
    function GemfilePath(fs: set<string>): (r: Result<Option<string>, CoreError>)
      reads this
      ensures sourceRoot + "/.bundle" in fs ==> r == Ok(Some(sourceRoot + "/Gemfile"))
      ensures r.Ok? && r.value.Some? && sourceRoot + "/.bundle" !in fs ==> r.value.value in fs
      ensures r == Ok(None) ==> sourceRoot + "/.bundle" !in fs && sourceRoot + "/Gemfile" !in fs
      ensures r.Err? ==> PreferredGemBundleConfigPath() == Err(r.error) && sourceRoot + "/.bundle" !in fs
      ensures (&& sourceRoot + "/.bundle" !in fs && PreferredGemBundleConfigPath().Ok?
               && PreferredGemBundleConfigPath().value + "/Gemfile" in fs) ==>
        r == Ok(Some(PreferredGemBundleConfigPath().value + "/Gemfile"))
      ensures (&& sourceRoot + "/.bundle" !in fs && PreferredGemBundleConfigPath().Ok?
               && PreferredGemBundleConfigPath().value + "/Gemfile" !in fs) ==>
        r == if sourceRoot + "/Gemfile" in fs then Ok(Some(sourceRoot + "/Gemfile")) else Ok(None)
    {
      if sourceRoot + "/.bundle" in fs then Ok(Some(sourceRoot + "/Gemfile"))
      else match PreferredGemBundleConfigPath()
        case Err(e) => Err(e)
        case Ok(configPath) =>
          if configPath + "/Gemfile" in fs then Ok(Some(configPath + "/Gemfile"))
          else if sourceRoot + "/Gemfile" in fs then Ok(Some(sourceRoot + "/Gemfile"))
          else Ok(None)
    }

    /** The decision part of `prepare_for_bundler!`: `SOURCE_ROOT` is always
        set first; then `BUNDLE_GEMFILE` is set to the Gemfile path, or an
        error is raised whose kind depends on whether an installer exists. */
    function PrepareForBundler(env: map<string, string>, fs: set<string>): (r: BundlerSetup)
      reads this
      ensures "SOURCE_ROOT" in r.env && r.env["SOURCE_ROOT"] == sourceRoot
      ensures forall k :: k in env && k != "SOURCE_ROOT" && k != "BUNDLE_GEMFILE" ==> k in r.env && r.env[k] == env[k]
      ensures r.error.None? <==> GemfilePath(fs).Ok? && GemfilePath(fs).value.Some?
      ensures r.error.None? ==> "BUNDLE_GEMFILE" in r.env && r.env["BUNDLE_GEMFILE"] == GemfilePath(fs).value.value
      ensures r.error.Some? ==> r.env == env["SOURCE_ROOT" := sourceRoot]
      ensures GemfilePath(fs) == Ok(None) ==>
        if installer != NoInstaller then r.error.Some? && r.error.value.BundleNotFound?
        else r.error.Some? && r.error.value.GemsNotInstalled?
    {
      var env1 := env["SOURCE_ROOT" := sourceRoot];
      match GemfilePath(fs)
      case Err(e) => BundlerSetup(env1, Some(e))
      case Ok(Some(path)) => BundlerSetup(env1["BUNDLE_GEMFILE" := path], None)
      case Ok(None) =>
        if installer != NoInstaller then
          var message := BundleMissingHead + appName + BundleMissingMiddle + appName + BundleMissingTail;
          var cmd := InstallerCommand();
          var tail := if cmd.Some? then RerunAppInstaller + appName + AppInstallerWithCommand + cmd.value
            else RerunAppInstaller + appName + AppInstallerEnd;
          BundlerSetup(env1, Some(BundleNotFound(message + tail)))
        else
          BundlerSetup(env1, Some(GemsNotInstalled(GemsMissingHead + appName + GemsMissingTail)))
    }

    // ---- Log file management ----------------------------------------------

    /** The log location the lookup starts from: `{source_root}/log/{env}.log`. */
    function SourceLogFilename(envName: string): string
      reads this`sourceRoot
    {
      sourceRoot + "/log/" + envName + ".log"
    }

    /** Where the log goes when the source tree's log is not writable. */
    function FallbackLogFilename(envName: string): (r: Result<string, CoreError>)
      reads this`username, this`appId
      ensures username == "root" ==> r == Ok("/var/log/" + appId + "/" + envName + ".log")
      ensures username != "root" ==> r.Ok? == (username in users)
      ensures username != "root" && r.Ok? ==> r.value == users[username].home + "/." + appId + "/" + envName + ".log"
    {
      if username == "root" then Ok("/var/log/" + appId + "/" + envName + ".log")
      else match HomeDirOf()
        case Ok(home) => Ok(home + "/." + appId + "/" + envName + ".log")
        case Err(e) => Err(e)
    }

    /** In development only, create a missing `{source_root}/log` and give it
        to the user; an `EACCES` on the way makes the location unwritable. */
    function DevLogDirPhase(envName: string, fs: set<string>, attempt: FsOp -> OpResult): (r: LogPhase)
      reads this`sourceRoot, this`username
      ensures envName != "development" || sourceRoot + "/log" in fs ==> r == Proceed(fs, [])
      ensures fs <= r.fs
      ensures forall op :: op in r.ops ==> op == Mkdir(sourceRoot + "/log") || op == Chown(sourceRoot + "/log")
    {
      var logDir := sourceRoot + "/log";
      if envName == "development" && logDir !in fs then
        match attempt(Mkdir(logDir))
        case PermissionDenied => Denied(fs, [Mkdir(logDir)])
        case Failed(errno) => Halted(IoError(Mkdir(logDir), errno), fs, [Mkdir(logDir)])
        case Succeeded =>
          var fs1 := fs + {logDir};
          if username !in users then Halted(NoSuchUser(username), fs1, [Mkdir(logDir)])
          else match attempt(Chown(logDir))
            case Succeeded => Proceed(fs1, [Mkdir(logDir), Chown(logDir)])
            case PermissionDenied => Denied(fs1, [Mkdir(logDir), Chown(logDir)])
            case Failed(errno) => Halted(IoError(Chown(logDir), errno), fs1, [Mkdir(logDir), Chown(logDir)])
      else Proceed(fs, [])
    }

    /** The errno `File.open` raises when the file's directory does not exist. */
    static const NoSuchEntry := "ENOENT"

    /** A filesystem whose `File.open(path, "a")` raises `ENOENT` whenever the
        directory of `path` does not exist. */
    ghost predicate OpenNeedsDirectory(fs: set<string>, attempt: FsOp -> OpResult) {
      forall p :: Dirname(p) !in fs ==> attempt(AppendProbe(p)) == Failed(NoSuchEntry)
    }

    /** `File.open(filename, "a").close`: opening for append creates the file.
        `EACCES` makes the location unwritable, and so does `ENOENT`, the
        answer when the directory is missing: a missing log directory means
        the probe fails, so the fallback is used (lib/waph.rb:126-131). */
    function ProbePhase(filename: string, before: LogPhase, attempt: FsOp -> OpResult): (r: LogPhase)
      ensures before.fs <= r.fs
      ensures r.ops == before.ops || r.ops == before.ops + [AppendProbe(filename)]
      ensures !before.Proceed? ==> r == before
      ensures before.Proceed? && attempt(AppendProbe(filename)).Succeeded? ==>
        r == Proceed(before.fs + {filename}, before.ops + [AppendProbe(filename)])
      ensures before.Proceed? && (attempt(AppendProbe(filename)).PermissionDenied? || attempt(AppendProbe(filename)) == Failed(NoSuchEntry)) ==>
        r == Denied(before.fs, before.ops + [AppendProbe(filename)])
      ensures before.Proceed? && attempt(AppendProbe(filename)).Failed? && attempt(AppendProbe(filename)).errno != NoSuchEntry ==>
        r == Halted(IoError(AppendProbe(filename), attempt(AppendProbe(filename)).errno), before.fs, before.ops + [AppendProbe(filename)])
    {
      match before
      case Proceed(fs, ops) =>
        (match attempt(AppendProbe(filename))
         case Succeeded => Proceed(fs + {filename}, ops + [AppendProbe(filename)])
         case PermissionDenied => Denied(fs, ops + [AppendProbe(filename)])
         case Failed(errno) =>
           if errno == NoSuchEntry then Denied(fs, ops + [AppendProbe(filename)])
           else Halted(IoError(AppendProbe(filename), errno), fs, ops + [AppendProbe(filename)]))
      case _ => before
    }

    /** The probe as lib/waph.rb:140-148 has it: only `Errno::EACCES` is
        rescued, so any other error, `ENOENT` included, leaves `log_filename`. */
    function ProbePhaseAsWritten(filename: string, before: LogPhase, attempt: FsOp -> OpResult): (r: LogPhase)
      ensures attempt(AppendProbe(filename)) != Failed(NoSuchEntry) ==> r == ProbePhase(filename, before, attempt)
      ensures before.Proceed? && attempt(AppendProbe(filename)).Failed? ==>
        r == Halted(IoError(AppendProbe(filename), attempt(AppendProbe(filename)).errno), before.fs, before.ops + [AppendProbe(filename)])
    {
      match before
      case Proceed(fs, ops) =>
        (match attempt(AppendProbe(filename))
         case Succeeded => Proceed(fs + {filename}, ops + [AppendProbe(filename)])
         case PermissionDenied => Denied(fs, ops + [AppendProbe(filename)])
         case Failed(errno) => Halted(IoError(AppendProbe(filename), errno), fs, ops + [AppendProbe(filename)]))
      case _ => before
    }

    /** The fallback location, whose directory is created (and given to the
        user) only when it does not exist; errors here are not rescued. */
    function FallbackPhase(envName: string, fs: set<string>, ops: seq<FsOp>, attempt: FsOp -> OpResult): (r: LogOutcome)
      reads this`username, this`appId
      ensures fs <= r.fs
      ensures |ops| <= |r.ops| && r.ops[..|ops|] == ops
      ensures forall op :: op in r.ops[|ops|..] ==> (op.MkdirP? && op.path !in fs) || op.Chown?
      ensures r.result.Ok? ==> r.result == FallbackLogFilename(envName) && Dirname(r.result.value) in r.fs
      // An unknown user's home directory error propagates.
      ensures FallbackLogFilename(envName).Err? ==> r == LogOutcome(FallbackLogFilename(envName), fs, ops)
      // An existing directory: the fallback file, with nothing done.
      ensures FallbackLogFilename(envName).Ok? && Dirname(FallbackLogFilename(envName).value) in fs ==>
        r == LogOutcome(FallbackLogFilename(envName), fs, ops)
      // A missing directory that is created and given to the user: the fallback file.
      ensures FallbackLogFilename(envName).Ok? ==>
        var dir := Dirname(FallbackLogFilename(envName).value);
        dir !in fs && attempt(MkdirP(dir)).Succeeded? && username in users && attempt(Chown(dir)).Succeeded? ==>
          r == LogOutcome(FallbackLogFilename(envName), fs + {dir}, ops + [MkdirP(dir), Chown(dir)])
    {
      match FallbackLogFilename(envName)
      case Err(e) => LogOutcome(Err(e), fs, ops)
      case Ok(filename) =>
        var dir := Dirname(filename);
        if dir in fs then LogOutcome(Ok(filename), fs, ops)
        else match attempt(MkdirP(dir))
          case PermissionDenied => LogOutcome(Err(IoError(MkdirP(dir), "EACCES")), fs, ops + [MkdirP(dir)])
          case Failed(errno) => LogOutcome(Err(IoError(MkdirP(dir), errno)), fs, ops + [MkdirP(dir)])
          case Succeeded =>
            var fs1 := fs + {dir};
            if username !in users then LogOutcome(Err(NoSuchUser(username)), fs1, ops + [MkdirP(dir)])
            else match attempt(Chown(dir))
              case Succeeded => LogOutcome(Ok(filename), fs1, ops + [MkdirP(dir), Chown(dir)])
              case PermissionDenied => LogOutcome(Err(IoError(Chown(dir), "EACCES")), fs1, ops + [MkdirP(dir), Chown(dir)])
              case Failed(errno) => LogOutcome(Err(IoError(Chown(dir), errno)), fs1, ops + [MkdirP(dir), Chown(dir)])
    }

    /** The fallback file lies directly in the application's log directory:
        `/var/log/{app_id}` for root, `{home}/.{app_id}` for anyone else. */
    lemma FallbackLogDirectory(envName: string)
      requires '/' !in envName && '/' !in appId && appId != ""
      requires FallbackLogFilename(envName).Ok?
      ensures Dirname(FallbackLogFilename(envName).value) ==
        if username == "root" then "/var/log/" + appId else users[username].home + "/." + appId
    {
      var dir := if username == "root" then "/var/log/" + appId else users[username].home + "/." + appId;
      assert dir[|dir| - 1] == appId[|appId| - 1];
      assert FallbackLogFilename(envName).value == dir + "/" + (envName + ".log");
      DirnameOfChild(dir, envName + ".log");
    }

    /** What `log_filename` answers, which paths exist afterwards and which
        filesystem calls it made. */
    function LogFilenameSpec(env: map<string, string>, fs: set<string>, attempt: FsOp -> OpResult): (r: LogOutcome)
      reads this`appId, this`sourceRoot, this`username
      // A set log variable is used verbatim and nothing is touched.
      ensures EnvVarName(appId, "log_file") in env ==>
        r == LogOutcome(Ok(env[EnvVarName(appId, "log_file")]), fs, [])
      // Nothing that existed disappears.
      ensures fs <= r.fs
    {
      var name := EnvVarName(appId, "log_file");
      if name in env then LogOutcome(Ok(env[name]), fs, [])
      else LogLookup(DeploymentEnv(env), fs, attempt)
    }

    /** The lookup once no log variable is set: the source tree's log if the
        probe succeeds, else the fallback location. */
    function LogLookup(envName: string, fs: set<string>, attempt: FsOp -> OpResult): (r: LogOutcome)
      reads this`appId, this`sourceRoot, this`username
      ensures fs <= r.fs
    {
      var filename := SourceLogFilename(envName);
      match ProbePhase(filename, DevLogDirPhase(envName, fs, attempt), attempt)
      case Proceed(fs1, ops1) => LogOutcome(Ok(filename), fs1, ops1)
      case Halted(err, fs1, ops1) => LogOutcome(Err(err), fs1, ops1)
      case Denied(fs1, ops1) => FallbackPhase(envName, fs1, ops1, attempt)
    }

    /** The lookup past the log variable as lib/waph.rb:139-167 has it, with
        only `EACCES` rescued around the probe. */
    function LogLookupAsWritten(envName: string, fs: set<string>, attempt: FsOp -> OpResult): (r: LogOutcome)
      reads this`appId, this`sourceRoot, this`username
      ensures fs <= r.fs
    {
      var filename := SourceLogFilename(envName);
      match ProbePhaseAsWritten(filename, DevLogDirPhase(envName, fs, attempt), attempt)
      case Proceed(fs1, ops1) => LogOutcome(Ok(filename), fs1, ops1)
      case Halted(err, fs1, ops1) => LogOutcome(Err(err), fs1, ops1)
      case Denied(fs1, ops1) => FallbackPhase(envName, fs1, ops1, attempt)
    }

    /** Outside development, with no `{source_root}/log`, the code as written
        raises `ENOENT` from `log_filename` instead of falling back; the
        corrected lookup goes to the fallback location. */
    lemma AsWrittenMissingLogDirRaises(envName: string, fs: set<string>, attempt: FsOp -> OpResult)
      requires envName != "development" && '/' !in envName
      requires sourceRoot + "/log" !in fs
      requires OpenNeedsDirectory(fs, attempt)
      ensures var f := SourceLogFilename(envName);
        && LogLookupAsWritten(envName, fs, attempt) == LogOutcome(Err(IoError(AppendProbe(f), NoSuchEntry)), fs, [AppendProbe(f)])
        && LogLookup(envName, fs, attempt) == FallbackPhase(envName, fs, [AppendProbe(f)], attempt)
    {
      var f := SourceLogFilename(envName);
      assert f == (sourceRoot + "/log") + "/" + (envName + ".log");
      DirnameOfChild(sourceRoot + "/log", envName + ".log");
      assert attempt(AppendProbe(f)) == Failed(NoSuchEntry);
      assert DevLogDirPhase(envName, fs, attempt) == Proceed(fs, []);
    }

    /** `{source_root}/log` is created only in development, and only when it
        is missing; the fallback directory is created only when it is missing. */
    lemma LogDirsCreatedOnlyWhenMissing(env: map<string, string>, fs: set<string>, attempt: FsOp -> OpResult)
      ensures var r := LogFilenameSpec(env, fs, attempt);
        && (Mkdir(sourceRoot + "/log") in r.ops ==> DeploymentEnv(env) == "development" && sourceRoot + "/log" !in fs)
        && (forall op :: op in r.ops && op.MkdirP? ==> op.path !in fs)
    {
      var r := LogFilenameSpec(env, fs, attempt);
      var name := EnvVarName(appId, "log_file");
      if name !in env {
        var e := DeploymentEnv(env);
        var p1 := DevLogDirPhase(e, fs, attempt);
        var p2 := ProbePhase(SourceLogFilename(e), p1, attempt);
        assert forall op :: op in p2.ops ==> op in p1.ops || op.AppendProbe?;
        if e != "development" || sourceRoot + "/log" in fs {
          assert p1.ops == [];
        }
        if p2.Denied? {
          var f := FallbackPhase(e, p2.fs, p2.ops, attempt);
          assert f == r;
          forall op | op in r.ops
            ensures op in p2.ops || (op.MkdirP? && op.path !in p2.fs) || op.Chown?
          {
            var k :| 0 <= k < |r.ops| && r.ops[k] == op;
            if k < |p2.ops| {
              assert op == r.ops[..|p2.ops|][k];
            } else {
              assert op == r.ops[|p2.ops|..][k - |p2.ops|];
            }
          }
        }
      }
    }

    /** When the source tree's log is reached (no variable, no directory to
        create), the append probe alone decides: success answers that file,
        `EACCES` or `ENOENT` falls back, any other error propagates. */
    lemma SourceLogProbeDecides(env: map<string, string>, fs: set<string>, attempt: FsOp -> OpResult)
      requires EnvVarName(appId, "log_file") !in env
      requires DeploymentEnv(env) != "development" || sourceRoot + "/log" in fs
      ensures var f := SourceLogFilename(DeploymentEnv(env));
        var r := LogFilenameSpec(env, fs, attempt);
        && (attempt(AppendProbe(f)).Succeeded? ==> r == LogOutcome(Ok(f), fs + {f}, [AppendProbe(f)]))
        && (attempt(AppendProbe(f)).Failed? && attempt(AppendProbe(f)).errno != NoSuchEntry ==>
              r.result == Err(IoError(AppendProbe(f), attempt(AppendProbe(f)).errno)))
        && (attempt(AppendProbe(f)).PermissionDenied? || attempt(AppendProbe(f)) == Failed(NoSuchEntry) ==>
              && r == FallbackPhase(DeploymentEnv(env), fs, [AppendProbe(f)], attempt)
              && (FallbackLogFilename(DeploymentEnv(env)).Ok? && Dirname(FallbackLogFilename(DeploymentEnv(env)).value) in fs ==>
                    r.result == FallbackLogFilename(DeploymentEnv(env))))
    {
      var e := DeploymentEnv(env);
      var f := SourceLogFilename(e);
      assert DevLogDirPhase(e, fs, attempt) == Proceed(fs, []);
      assert LogFilenameSpec(env, fs, attempt) == LogLookup(e, fs, attempt);
      match attempt(AppendProbe(f))
      case Succeeded =>
        assert ProbePhase(f, Proceed(fs, []), attempt) == Proceed(fs + {f}, [AppendProbe(f)]);
      case PermissionDenied =>
        assert ProbePhase(f, Proceed(fs, []), attempt) == Denied(fs, [AppendProbe(f)]);
      case Failed(errno) =>
        if errno == NoSuchEntry {
          assert ProbePhase(f, Proceed(fs, []), attempt) == Denied(fs, [AppendProbe(f)]);
        } else {
          assert ProbePhase(f, Proceed(fs, []), attempt) == Halted(IoError(AppendProbe(f), errno), fs, [AppendProbe(f)]);
        }
    }

    /** `log_filename`, step by step: it fills the uid/gid/home caches as it
        goes and returns the new set of existing paths with the calls made. */
    method LogFilename(env: map<string, string>, fs: set<string>, attempt: FsOp -> OpResult) returns (out: LogOutcome)
      requires Valid()
      modifies this`uidCache, this`gidCache, this`homeDirCache
      ensures Valid()
      ensures out == LogFilenameSpec(env, fs, attempt)
    {
      var name := EnvVarNameForIdentifier("log_file");
      if name in env {
        return LogOutcome(Ok(env[name]), fs, []);
      }
      out := LogLookupStep(DeploymentEnv(env), fs, attempt);
    }

    /** The lookup past the log variable, one phase after the other. */
    method LogLookupStep(envName: string, fs: set<string>, attempt: FsOp -> OpResult) returns (out: LogOutcome)
      requires Valid()
      modifies this`uidCache, this`gidCache, this`homeDirCache
      ensures Valid()
      ensures out == LogLookup(envName, fs, attempt)
    {
      var filename := SourceLogFilename(envName);
      var phase := DevLogDirStep(envName, fs, attempt);
      phase := ProbeStep(filename, phase, attempt);
      match phase {
        case Proceed(fs1, ops1) => out := LogOutcome(Ok(filename), fs1, ops1);
        case Halted(err, fs1, ops1) => out := LogOutcome(Err(err), fs1, ops1);
        case Denied(fs1, ops1) => out := FallbackStep(envName, fs1, ops1, attempt);
      }
    }

    /** The writability probe of `log_filename`, made only when nothing failed before it. */
    method ProbeStep(filename: string, before: LogPhase, attempt: FsOp -> OpResult) returns (r: LogPhase)
      ensures r == ProbePhase(filename, before, attempt)
    {
      r := before;
      if before.Proceed? {
        var ops := before.ops + [AppendProbe(filename)];
        match attempt(AppendProbe(filename)) {
          case Succeeded => r := Proceed(before.fs + {filename}, ops);
          case PermissionDenied => r := Denied(before.fs, ops);
          case Failed(errno) =>
            if errno == NoSuchEntry {
              r := Denied(before.fs, ops);
            } else {
              r := Halted(IoError(AppendProbe(filename), errno), before.fs, ops);
            }
        }
      }
    }

    /** The development log directory step of `log_filename`. */
    method DevLogDirStep(envName: string, fs: set<string>, attempt: FsOp -> OpResult) returns (r: LogPhase)
      requires Valid()
      modifies this`uidCache, this`gidCache, this`homeDirCache
      ensures Valid()
      ensures r == DevLogDirPhase(envName, fs, attempt)
    {
      var logDir := sourceRoot + "/log";
      if envName != "development" || logDir in fs {
        return Proceed(fs, []);
      }
      match attempt(Mkdir(logDir)) {
        case PermissionDenied => return Denied(fs, [Mkdir(logDir)]);
        case Failed(errno) => return Halted(IoError(Mkdir(logDir), errno), fs, [Mkdir(logDir)]);
        case Succeeded =>
      }
      var uid := Uid();
      if uid.Err? { return Halted(uid.error, fs + {logDir}, [Mkdir(logDir)]); }
      var gid := Gid();
      match attempt(Chown(logDir)) {
        case Succeeded => r := Proceed(fs + {logDir}, [Mkdir(logDir), Chown(logDir)]);
        case PermissionDenied => r := Denied(fs + {logDir}, [Mkdir(logDir), Chown(logDir)]);
        case Failed(errno) => r := Halted(IoError(Chown(logDir), errno), fs + {logDir}, [Mkdir(logDir), Chown(logDir)]);
      }
    }

    /** The fallback step of `log_filename`. */
    method FallbackStep(envName: string, fs: set<string>, ops: seq<FsOp>, attempt: FsOp -> OpResult) returns (r: LogOutcome)
      requires Valid()
      modifies this`uidCache, this`gidCache, this`homeDirCache
      ensures Valid()
      ensures r == FallbackPhase(envName, fs, ops, attempt)
    {
      var filename: string;
      if username == "root" {
        filename := "/var/log/" + appId + "/" + envName + ".log";
      } else {
        var home := HomeDir();
        if home.Err? { return LogOutcome(Err(home.error), fs, ops); }
        filename := home.value + "/." + appId + "/" + envName + ".log";
      }
      var dir := Dirname(filename);
      if dir in fs {
        return LogOutcome(Ok(filename), fs, ops);
      }
      match attempt(MkdirP(dir)) {
        case PermissionDenied => return LogOutcome(Err(IoError(MkdirP(dir), "EACCES")), fs, ops + [MkdirP(dir)]);
        case Failed(errno) => return LogOutcome(Err(IoError(MkdirP(dir), errno)), fs, ops + [MkdirP(dir)]);
        case Succeeded =>
      }
      var uid := Uid();
      if uid.Err? { return LogOutcome(Err(uid.error), fs + {dir}, ops + [MkdirP(dir)]); }
      var gid := Gid();
      match attempt(Chown(dir)) {
        case Succeeded => r := LogOutcome(Ok(filename), fs + {dir}, ops + [MkdirP(dir), Chown(dir)]);
        case PermissionDenied => r := LogOutcome(Err(IoError(Chown(dir), "EACCES")), fs + {dir}, ops + [MkdirP(dir), Chown(dir)]);
        case Failed(errno) => r := LogOutcome(Err(IoError(Chown(dir), errno)), fs + {dir}, ops + [MkdirP(dir), Chown(dir)]);
      }
    }
  }
}
