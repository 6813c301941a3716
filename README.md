# waph — Web Application Packaging Helper, modelled in Dafny

waph helps a packaged Ruby web application find its own files. It has three parts.

- **The resolver `Waph::Core`** answers where things live for the application and the user it runs as: configuration files, the log file, the gem bundle directories and the restart directory. It checks a fixed list of candidates in order, lets environment variables override them, and chooses between a root install and a per-user install.
- **The installer `Waph::Installer`** is a six-step workflow: check dependencies, choose the user, create example configuration files, install gems, migrate the database, restart the application. Any step can abort the run. The installer also runs shell commands, prompts on a terminal, and looks up Ruby commands.
- **`Waph::GemfileHelper`** is an extension of Bundler's Gemfile DSL. It declares one database gem per group of `database.yml`.

## How the model is organised

| file | module | what is in it |
|---|---|---|
| `wrappers.dfy` | `Wrappers` | `Option` (Ruby's `nil`) and `Result` (a value or the exception raised). |
| `text.dfy` | `Text` | The Ruby string operations the code relies on, over ASCII: `upcase`, `downcase`, `strip`, `File.dirname`. |
| `env_var_names.dfy` | `EnvVarNames` | `env_var_name_for_identifier` as a function, which is proved equal to a one-pass reference normaliser. |
| `waph_core.dfy` | `Waph` | The class `Core`, holding the fields that `setup` and `username=` assign and the memoised `uid`, `gid` and `home_dir`. The lookups are functions of those fields. `log_filename` and the memoising readers are methods, each proved equal to the function that defines it. |
| `installer_model.dfy` | `InstallerModel` | The installer's building blocks as values: its exceptions, `sh`/`sh!`, command sequences, the `prompt` loop over a sequence of input lines, `prompt_confirmation`, the edit-confirmation gate, username selection and the `PATH` search of `locate_ruby_command`. |
| `installer.dfy` | `WaphInstaller` | The class `Installer`, with `@core`, `@desired_username`, `@stdout`, `ENV`, the unread input and the list of events produced. Each step is a method, proved against the functions of `InstallerModel`. |
| `gemfile_helper.dfy` | `GemfileHelper` | Gem selection as functions, and the DSL object as a class that collects `gem` declarations. |

The operating system is abstract:

- The filesystem is the set of paths that exist.
- The user database is a map from user name to uid, gid and home directory.
- `log_filename` asks an oracle how each `mkdir`, `chown` and append probe ends: success, `EACCES`, or another error.
- The installer's `Host` holds further oracles:
  - how each shell command ends (an exit code or a signal);
  - what `Depcheck` reports;
  - the group database;
  - `rake_command`;
  - what `locate_ruby_command` can see: the Ruby path, `Gem.bindir`, `PATH`, the executables and their shebang lines;
  - the output of `whoami`.
- Standard input is a sequence of lines and Ctrl-C presses. Running out of it is end of file.
- What the installer does to the world is an ordered list of events: commands run, files written or unlinked, lines reported, and the final `after_install`.

## Model

| member | source | states |
|---|---|---|
| `EnvVarNames.TwoPassesAreJoinRuns` | lib/waph.rb:53-54 | Running the two `gsub!` passes one after the other equals one pass that turns every maximal run of space, hyphen, dot or underscore into a single `_`. |
| `EnvVarNames.EnvVarNameIsJoinRuns` | lib/waph.rb:50-56 | The variable name is that one-pass normalisation of the upcased `"{app_id}_{identifier}"`. |
| `EnvVarNames.EnvVarNameShape` | lib/waph.rb:50-56 | The name never contains `__`, a space, a hyphen, a dot or a lower-case ASCII letter. |
| `EnvVarNames.SpellingInsensitive` | lib/waph.rb:50-56 | Two identifiers that agree character by character, once joiners are treated as alike and letters are upcased, name the same variable. |
| `EnvVarNames.LogFileSpellings` | lib/waph.rb:50-56 | `log-file`, `log file` and `log.file` name the same variable as `log_file`. |
| `EnvVarNames.JoinRunsCanonical` | lib/waph.rb:53-54 | The normalisation depends only on where the joiner runs are and on the other characters. |
| `EnvVarNames.JoinRunsShape` | lib/waph.rb:53-54 | The normalised string has no `__` and no space, hyphen or dot. |
| `EnvVarNames.JoinRunsFixpoint` | lib/waph.rb:53-54 | A string already free of `__` and separators is unchanged by the normalisation. |
| `EnvVarNames.JoinRunsIdempotent` | lib/waph.rb:53-54 | Normalising twice is the same as normalising once. |
| `EnvVarNames.LogFileVariable` | lib/waph.rb:115 | For an application id without joiners, the log variable is `{APPID}_LOG_FILE`. |
| `Waph.SetupError` | lib/waph.rb:13-16 | The first of `app_id`, `app_name`, `app_version`, `source_root` that is missing, in that order, and none exactly when all four are given. |
| `Waph.FirstExistingIsEarliest` | lib/waph.rb:64-68 | In an `a \|\| b \|\| …` chain of `check_file_existance`, the first existing candidate wins whatever exists after it. |
| `Waph.FirstExistingNone` | lib/waph.rb:262-268 | The chain finds nothing exactly when no candidate exists, and whatever it finds exists. |
| `Waph.Core.constructor` | lib/waph.rb:309 | `Core.new` leaves the resolver not set up, with no installer, no configuration files, empty strings and empty caches. |
| `Waph.Core.Setup` | lib/waph.rb:8-23 | The four identity fields and `set_up?` always take the given options. The error is the first missing option. Only on success do the installer (`{}` when missing), the config map and the user (option, else `WAPH_USER`, else stripped `whoami`) change. The caches stay valid when they were empty or the user is unchanged. |
| `Waph.Core.AssignIdentity` | lib/waph.rb:9-12 | The four identity fields and `set_up?` take the given options (empty when missing), and nothing else changes. |
| `Waph.Core.CompleteSetup` | lib/waph.rb:18-22 | A missing installer becomes `{}`, missing config files become an empty map, and the user is the option, else `WAPH_USER`, else stripped `whoami`. |
| `Waph.Core.SetUsername` | lib/waph.rb:29-34 | The new user is stored and the uid, gid and home caches are all empty. |
| `Waph.Core.Uid` | lib/waph.rb:36-41 | The current user's uid, or `NoSuchUser`. The cache is filled with it and never holds another user's value. |
| `Waph.Core.Gid` | lib/waph.rb:43-48 | The current user's gid, or `NoSuchUser`, with the same caching guarantee. |
| `Waph.Core.HomeDir` | lib/waph.rb:284-286 | The current user's home directory, or `NoSuchUser`, with the same caching guarantee. |
| `Waph.Core.HomeDirOf` | lib/waph.rb:284-286 | Succeeds exactly for a user in the database, and gives that user's home. |
| `Waph.Core.Dup` | lib/waph/installer.rb:21 | A fresh resolver with every field, caches included, equal to this one's. |
| `Waph.Core.Copy` | lib/waph/installer.rb:21 | A new resolver whose every field, caches included, is the original's. |
| `Waph.Core.EnvVarNameForIdentifier` | lib/waph.rb:50-56 | The in-place `upcase!` and two `gsub!` loops produce exactly `EnvVarName(app_id, identifier)`. |
| `Waph.Core.InstallerCommand` | lib/waph.rb:239-251 | Present exactly for a String installer. It always ends in ` -u {username}`. Before that suffix it is the installer itself when it holds a `/`, else `{source_root}/bin/{installer}`. |
| `Waph.Core.RestartDir` | lib/waph.rb:253-259 | `/tmp/{app_id}` for root. For anyone else, `{home}/.{app_id}/tmp`, failing exactly when the user is unknown. |
| `Waph.Core.NotFoundMessage` | lib/waph.rb:69-81 | Starts by naming the basename. With an installer it goes on with "{app_name} is probably not installed properly" and ends with the installer command when there is one, else with the plain re-run advice. Without an installer it ends with "Please create it.". |
| `Waph.Core.MissingFileAdvisesInstaller` | lib/waph.rb:69-81 | On any resolver reachable through `Core.new` and `setup`, a missing required file always gets the "not installed properly" advice, because `setup` puts `{}` for a missing installer (lib/waph.rb:18). |
| `Waph.Core.ConfigFilename` | lib/waph.rb:61-85 | An unknown identifier raises whatever `required` is and whatever exists. A returned file exists. `nil` only when not required. `ConfigNotFound` only when required, with the basename's message. `NoSuchUser` only for an unknown user. |
| `Waph.Core.ConfigFilenameIsFirstExisting` | lib/waph.rb:64-68 | For a known identifier and user, the result is the first existing of the env-variable path, `{source_root}/config/{basename}`, `{home}/.{app_id}/{basename}` and `/etc/{app_id}/{basename}`. Otherwise it is the missing-file error or `nil`. |
| `Waph.Core.PreferredConfigDir` | lib/waph.rb:97-103 | `/etc/{app_id}` exactly for root, else `{home}/.{app_id}`, failing only for an unknown user. |
| `Waph.Core.PreferredConfigFilename` | lib/waph.rb:105-109 | An unknown identifier raises before the directory is looked up. Otherwise the result is the preferred directory, `/` and the basename. |
| `Waph.Core.BundlePathsNest` | lib/waph.rb:212-234 | The three bundle paths succeed or fail together. The bundle path is the root plus `/bundle/{engine}-{major.minor}`, and the config path is the bundle path plus `/config-{app_version}`. The root is `/usr/lib/{app_id}` for root and `{home}/.{app_id}` otherwise. |
| `Waph.Core.GemfilePath` | lib/waph.rb:197-210 | The source Gemfile whenever `{source_root}/.bundle` exists. Otherwise the proxy Gemfile `{bundle config path}/Gemfile` when it exists; failing that the source Gemfile when it exists, and `nil` when neither does. A resolver error from the bundle config path propagates only when there is no `.bundle`. |
| `Waph.Core.PrepareForBundler` | lib/waph.rb:174-195 | `SOURCE_ROOT` is always set and other variables are kept. `BUNDLE_GEMFILE` is set exactly when a Gemfile path is found. With no Gemfile, the error is "bundle not found" when there is an installer and "gems not installed" otherwise. |
| `Waph.Core.FallbackLogFilename` | lib/waph.rb:155-159 | `/var/log/{app_id}/{env}.log` for root, else `{home}/.{app_id}/{env}.log`. |
| `Waph.Core.DevLogDirPhase` | lib/waph.rb:141-144 | When not in development, or when `{source_root}/log` exists, nothing is done. Otherwise only that directory's `mkdir` and `chown` are attempted, and no path disappears. |
| `Waph.Core.ProbePhase` | lib/waph.rb:126-150 | The phase adds at most the append probe and removes no path. After a phase that went on, success creates the file; `EACCES`, and `ENOENT` from a missing directory, mark the location unwritable; any other error propagates. This is the corrected probe (see Findings). |
| `Waph.Core.FallbackPhase` | lib/waph.rb:155-166 | The calls made extend the earlier ones, adding only a `mkdir -p` of a missing directory and `chown`s. An unknown user's home error propagates with nothing done. When the directory exists, the fallback file is answered with nothing done. When it is missing and `mkdir -p` and `chown` succeed, the fallback file is answered with the directory created. Any successful answer is the fallback file, and its directory then exists. |
| `Waph.Core.LogFilenameSpec` | lib/waph.rb:114-169 | A set log variable is returned verbatim and nothing is touched. No existing path ever disappears. |
| `Waph.Core.LogLookup` | lib/waph.rb:119-167 | The lookup without the log variable never removes a path. |
| `Waph.Core.LogDirsCreatedOnlyWhenMissing` | lib/waph.rb:141-165 | `{source_root}/log` is created only in development and only when missing. Every `mkdir -p` is of a missing directory. |
| `Waph.Core.SourceLogProbeDecides` | lib/waph.rb:139-166 | When no directory must be created, the probe alone decides. Success answers `{source_root}/log/{env}.log`, creating only that file. `EACCES` or `ENOENT` gives exactly the fallback phase, which answers the fallback file when its directory exists. Any other error propagates. |
| `Waph.Core.FallbackLogDirectory` | lib/waph.rb:155-160 | The fallback file lies directly in `/var/log/{app_id}` for root and in `{home}/.{app_id}` for anyone else. |
| `Waph.Core.ProbePhaseAsWritten` | lib/waph.rb:140-148 | Only `EACCES` is rescued: it agrees with `ProbePhase` except on `ENOENT`, and every error other than `EACCES`, `ENOENT` included, halts the lookup. |
| `Waph.Core.LogLookupAsWritten` | lib/waph.rb:139-167 | The lookup with the probe as written never removes a path. |
| `Waph.Core.AsWrittenMissingLogDirRaises` | lib/waph.rb:140-148 | Outside development, with no `{source_root}/log` and a filesystem where appending needs the directory, the code as written raises `ENOENT` after the one probe, while the corrected lookup goes on to the fallback phase. |
| `Waph.Core.LogFilename` | lib/waph.rb:114-169 | The stepwise `log_filename` equals `LogFilenameSpec` and keeps the caches valid. |
| `Waph.Core.LogLookupStep` | lib/waph.rb:119-167 | The phases run in order and equal `LogLookup`. |
| `Waph.Core.ProbeStep` | lib/waph.rb:146-150 | Equals `ProbePhase`. |
| `Waph.Core.DevLogDirStep` | lib/waph.rb:141-144 | Equals `DevLogDirPhase`, looking up uid and gid through the caches. |
| `Waph.Core.FallbackStep` | lib/waph.rb:155-166 | Equals `FallbackPhase`, looking up home, uid and gid through the caches. |
| `Text.StripTrims` | lib/waph/installer.rb:560 | `strip` keeps one contiguous part of the line that neither starts nor ends with whitespace, and drops only whitespace around it. |
| `Text.StripEmptyIff` | lib/waph/installer.rb:560-561 | A line strips to nothing exactly when it is whitespace throughout. |
| `Text.LastIndexOf` | lib/waph.rb:160 | The index of the last occurrence of the character, or -1 when there is none. |
| `Text.TrimTrailingSlashes` | lib/waph.rb:160 | A prefix of the path with no trailing `/`, where everything removed is `/`. |
| `Text.Dirname` | lib/waph.rb:160 | `.` for a path without `/`. Otherwise the part before the last `/` with its trailing slashes removed: a proper prefix of the path not ending in `/`, or `/` exactly when that part is all slashes. |
| `Text.DirnameOfChild` | lib/waph.rb:160 | The directory of `{dir}/{name}` is `dir` when `dir` does not end in `/` and `name` holds no `/`. |
| `InstallerModel.ShOutcome` | lib/waph/installer.rb:607-617 | True exactly for exit status 0. `Interrupt` exactly when the child died of SIGINT. Otherwise false. |
| `InstallerModel.ShBangOutcome` | lib/waph/installer.rb:619-624 | `CommandError` exactly when `sh` answers false. Nothing exactly when it answers true. `Interrupt` passes through. |
| `InstallerModel.ExecActions` | lib/waph/installer.rb:607-624 | A command sequence reports how many actions it carried out, at most all of them. |
| `InstallerModel.ExecActionsShape` | lib/waph/installer.rb:607-624 | The actions carried out are a prefix ending at the first failure, the events are exactly those of that prefix, and with no failure every action ran and succeeded. |
| `InstallerModel.ExecActionsStep` | lib/waph/installer.rb:607-624 | After a prefix that did not fail, one more action adds its own failure and events. |
| `InstallerModel.ExecStopsAtFailure` | lib/waph/installer.rb:619-624 | Once a prefix fails, no later action is carried out. |
| `InstallerModel.LenientStopsOnlyOnRaise` | lib/waph/installer.rb:607-617 | Through `sh`, a sequence with no interrupted child and no failing part runs to the end without failure. |
| `InstallerModel.ReadUntilAccepted` | lib/waph/installer.rb:555-570 | The prompt loop reads no more than the input. An answer uses at least one read. End of file (exit 2) comes only after the whole input. The only other outcome is `Interrupt`. |
| `InstallerModel.ReadUntilAcceptedAnswers` | lib/waph/installer.rb:555-572 | An answer comes from the last line read. That line ends the prompt, and the answer is the line stripped, or the default for an empty line. |
| `InstallerModel.ReadUntilAcceptedStep` | lib/waph/installer.rb:555-570 | A line ends the prompt exactly when it is empty and there is a default, or non-empty and accepted by the block. Such a line answers. Any other line leaves the rest of the input to decide. |
| `InstallerModel.ReadUntilAcceptedEdges` | lib/waph/installer.rb:555-559 | End of input exits with status 2. Ctrl-C while reading is an `Interrupt`. |
| `InstallerModel.AnswerIsDefaultOrValid` | lib/waph/installer.rb:560-572 | A prompt answers with its default or with a value its block accepts. |
| `InstallerModel.ReadUntilAcceptedRejectsEarlier` | lib/waph/installer.rb:547-571 | Every line read before the last was a line the prompt asked again after. |
| `InstallerModel.RejectedBefore` | lib/waph/installer.rb:547-571 | The same, for one position before the last line read. |
| `InstallerModel.PromptSpec` | lib/waph/installer.rb:545-573 | Without a terminal and with a default, the answer is the default and nothing is read. Otherwise the read loop decides. |
| `InstallerModel.PromptExitsOnlyAtEndOfInput` | lib/waph/installer.rb:555-559 | The prompt exits with status 2 exactly when every line of the input is asked again. |
| `InstallerModel.ConfirmSpec` | lib/waph/installer.rb:575-585 | A confirmation never reads past the input, and an answer uses at least one read. |
| `InstallerModel.ConfirmAnswers` | lib/waph/installer.rb:575-585 | A confirmation ends at the first line that strips to y or n in either case, and answers true exactly when it is a y. Every line before it was something else. |
| `InstallerModel.EditGateSpec` | lib/waph/installer.rb:342-346 | The edit gate never reads past the input, and passing uses at least one read. |
| `InstallerModel.EditGatePassesOnYes` | lib/waph/installer.rb:342-346 | The edit gate lets the installer go on only right after a y line. |
| `InstallerModel.EditGateFirstAnswer` | lib/waph/installer.rb:342-346 | An exception in the confirmation ends the gate, and a y passes it. After a no, end of input raises at `wait` and Ctrl-C aborts. |
| `InstallerModel.EditGateRound` | lib/waph/installer.rb:342-346 | A no followed by a line read by `wait` starts the gate again further along the input. |
| `InstallerModel.Repeat` | lib/waph/installer.rb:338-348 | Running gates one after another never reads past the input. |
| `InstallerModel.EditGates` | lib/waph/installer.rb:338-348 | The edit gates of all created files together never read past the input. |
| `InstallerModel.EditGatesStep` | lib/waph/installer.rb:338-348 | The first gate either raises and ends them all, or passes and leaves the remaining gates on the rest of the input. |
| `InstallerModel.ConfirmEditsSpec` | lib/waph/installer.rb:313-348 | The Enter wait and the edit gates never read past the input. |
| `InstallerModel.RepeatCountsYes` | lib/waph/installer.rb:338-348 | If each gate passes only after a y, then `n` gates pass only after `n` y's. |
| `InstallerModel.EditGatesConfirmEach` | lib/waph/installer.rb:338-348 | The edit gates let the installer go on only once each created file has had its own y. |
| `InstallerModel.ConfirmEditsNeedsEachYes` | lib/waph/installer.rb:313-348 | Once example files have been created, the installer goes on only after one y per created file. |
| `InstallerModel.UsernameChoice` | lib/waph/installer.rb:168-224 | Choosing the username never reads past the input. |
| `InstallerModel.UsernamePick` | lib/waph/installer.rb:173-209 | Picking the candidate username never reads past the input. |
| `InstallerModel.CrossUserCheck` | lib/waph/installer.rb:211-224 | The cross-user rule reads nothing more, and passes a choice through unchanged when it allows it. |
| `InstallerModel.CommandLineUsername` | lib/waph/installer.rb:173-183 | A command-line user is taken exactly when it exists, is not a forbidden root, and is the current user unless the current user is root. Nothing is read, and a refusal is an `Abort`. |
| `InstallerModel.NonInteractiveNeedsUsername` | lib/waph/installer.rb:184-186 | Without a terminal and without `--username`, the step aborts without reading. |
| `InstallerModel.CrossUserRule` | lib/waph/installer.rb:211-221 | Only root may go on with a username other than its own. |
| `InstallerModel.PromptedUsernameAllowed` | lib/waph/installer.rb:188-208 | A prompted username is an existing user that is not a forbidden root, or the offered default, which is the current user and never a forbidden root. |
| `InstallerModel.PathSearch` | lib/waph/installer.rb:737-751 | A command found on `PATH` is executable and has this Ruby's shebang. Nothing is found exactly when no `PATH` entry has such a command. |
| `InstallerModel.LocatedCommandIsExecutable` | lib/waph/installer.rb:733-754 | With a non-empty `PATH`, a located command is executable. One that is not the bindir guess has this Ruby's shebang. |
| `InstallerModel.LocatePrefersRubyBindir` | lib/waph/installer.rb:711-721 | An executable in Ruby's own bindir (or `/usr/bin` for the OS X system Ruby) is preferred to every other place. |
| `WaphInstaller.RunResultOf` | lib/waph/installer.rb:34-39 | `run` answers true exactly when no exception left the steps. It answers false exactly for `Abort`, `CommandError` and `Interrupt`. Any other exception escapes. |
| `WaphInstaller.BeforeInstallSettlesEnvironment` | lib/waph/installer.rb:90-93 | Once both variables are written, the resolver's environment is the installer's. With nothing set, the two defaults differ: production against development. |
| `WaphInstaller.MissingDependenciesExactly` | lib/waph/installer.rb:115-139 | The missing list holds exactly the dependencies whose check fails. It can be built exactly when `Depcheck` knows every dependency. |
| `WaphInstaller.BundlerRequiredWithGemfile` | lib/waph/installer.rb:76-83 | With a Gemfile, nothing is missing exactly when Bundler is known and found. |
| `WaphInstaller.MissingDependenciesUnknown` | lib/waph/installer.rb:117-121 | A dependency `Depcheck` does not know raises the installer-bug error. |
| `WaphInstaller.MissingDependenciesStopsAtError` | lib/waph/installer.rb:117-121 | That error ends the checks. |
| `WaphInstaller.LockFileRemovedAroundInstall` | lib/waph/installer.rb:474-477 | `Gemfile.lock` is unlinked right before and again right after `bundle install`. The second unlink is reached exactly when the install ran and succeeded. |
| `WaphInstaller.InstallGemsAsWritten` | lib/waph/installer.rb:353-369 | Without a Gemfile nothing happens. With a Gemfile and no Bundler, the step aborts. |
| `WaphInstaller.AsWrittenNeverInstallsGems` | lib/waph/installer.rb:365 | As written, an application with a Gemfile and a Bundler makes `run` end with an escaping exception. The corrected home plan, whenever the bundle paths are known, runs `bundle install`. |
| `WaphInstaller.Installer.constructor` | lib/waph/installer.rb:20-26 | The installer's resolver is a fresh object equal field by field to the application's (identity, configuration files, user, user database, Ruby version and caches). The options become fields, output goes to standard output, and nothing has happened yet. |
| `WaphInstaller.Installer.GroupFor` | lib/waph/installer.rb:649-651 | The name of the user's primary group, known exactly when both the user and the group exist. |
| `WaphInstaller.Installer.Sh` | lib/waph/installer.rb:607-617 | Runs the command, recording it, and answers as `ShOutcome` classifies the child's end. |
| `WaphInstaller.Installer.ShBang` | lib/waph/installer.rb:619-624 | Runs the command, recording it, and raises as `ShBangOutcome` says. |
| `WaphInstaller.Installer.Report` | lib/waph/installer.rb:515-522 | `puts`: the line is reported on the current output stream (`@stdout`). |
| `WaphInstaller.Installer.RunAction` | lib/waph/installer.rb:607-624 | One action adds its events and fails as `ActionFailure` says. |
| `WaphInstaller.Installer.RunActions` | lib/waph/installer.rb:607-624 | A sequence of `sh`/`sh!` calls adds exactly the events of `ExecActions` and fails with its failure. |
| `WaphInstaller.Installer.Prompt` | lib/waph/installer.rb:545-573 | The `while !done` loop answers as `PromptSpec` does, and consumes exactly its reads. |
| `WaphInstaller.Installer.PromptConfirmation` | lib/waph/installer.rb:575-585 | Answers as `ConfirmSpec` does, consuming exactly its reads. |
| `WaphInstaller.Installer.Wait` | lib/waph/installer.rb:587-604 | Without a terminal it reads nothing. With one it reads one line. Ctrl-C becomes `Abort`, and end of input raises `EOFError`. |
| `WaphInstaller.Installer.EditGate` | lib/waph/installer.rb:342-346 | The confirmation loop ends as `EditGateSpec` does, consuming exactly its reads. |
| `WaphInstaller.Installer.EditGateOnce` | lib/waph/installer.rb:342-345 | One pass either ends the gate as `EditGateSpec` says, or leaves the same gate to decide on the rest of the input after at least one read. |
| `WaphInstaller.Installer.LocateRubyCommand` | lib/waph/installer.rb:710-755 | The bindir, RubyGems and `PATH` search answers as `LocateSpec`. |
| `WaphInstaller.Installer.SearchPath` | lib/waph/installer.rb:737-751 | The `PATH` loop answers as `PathSearch`. |
| `WaphInstaller.Installer.BeforeInstall` | lib/waph/installer.rb:90-93 | `RAILS_ENV` and `RACK_ENV` both become `--dev`, else `RACK_ENV`, else `RAILS_ENV`, else production. |
| `WaphInstaller.Installer.FindMissingDependencies` | lib/waph/installer.rb:115-139 | The loop builds exactly `MissingDependencies` of the dependency list. |
| `WaphInstaller.Installer.CheckDependencies` | lib/waph/installer.rb:107-166 | The step passes exactly when nothing is missing. An unknown dependency raises its error. Anything missing aborts: at once without a terminal, and after the wait for Enter with one. The output stream is restored. |
| `WaphInstaller.Installer.ChooseUsername` | lib/waph/installer.rb:168-221 | Answers as `UsernameChoice` does, consuming exactly its reads. |
| `WaphInstaller.Installer.PromptForDesiredUsername` | lib/waph/installer.rb:168-226 | On success the choice becomes both `@desired_username` and the resolver's user, with the resolver's caches cleared. On an exception neither changes. |
| `WaphInstaller.Installer.MissingConfigsExactly` | lib/waph/installer.rb:236-245 | The missing list holds exactly the identifiers whose non-required lookup answers `nil`. |
| `WaphInstaller.Installer.CreationPlanCoversMissing` | lib/waph/installer.rb:266-283 | With nothing missing, no command runs. Every copy command belongs to a missing file, and every missing file has its commands. |
| `WaphInstaller.Installer.FindMissingConfigs` | lib/waph/installer.rb:236-245 | The `each_pair` loop builds exactly `MissingConfigs`, in map order. |
| `WaphInstaller.Installer.MissingConfigsStopsAtError` | lib/waph/installer.rb:236-245 | A lookup that raises ends the walk with that error. |
| `WaphInstaller.Installer.PreferredPathsStopsAtError` | lib/waph/installer.rb:257-260 | A preferred path that raises ends the report with that error. |
| `WaphInstaller.Installer.ReportMissing` | lib/waph/installer.rb:249-262 | Only lines on standard error are added: exactly the preferred paths of the missing files, in order. Then the step aborts. The output stream is restored. |
| `WaphInstaller.Installer.CreateExampleConfigs` | lib/waph/installer.rb:265-311 | The creation plan's events are added. A `CommandError` becomes an `Abort`, and other exceptions pass through. |
| `WaphInstaller.Installer.ConfirmEdits` | lib/waph/installer.rb:313-348 | The wait for Enter and the edit gates consume and raise exactly as `ConfirmEditsSpec` says. |
| `WaphInstaller.Installer.PassEditGates` | lib/waph/installer.rb:338-348 | The gate of each created file is run in turn, exactly as `EditGates` says. |
| `WaphInstaller.Installer.PassEditGate` | lib/waph/installer.rb:342-346 | One file's gate either ends all the gates with its exception, or passes and leaves the remaining ones on the rest of the input. |
| `WaphInstaller.Installer.CreateDefaultConfigFiles` | lib/waph/installer.rb:228-351 | A failed lookup raises, and with nothing missing nothing happens. Without a terminal, the preferred paths are reported on standard error and the step aborts before any command runs. With a terminal, the creation plan runs: a failure aborts and reads nothing, and otherwise the confirmations decide. |
| `WaphInstaller.Installer.CreateAndConfirm` | lib/waph/installer.rb:264-349 | The examples are created, then confirmed, with the events and reads of the plan and the confirmations. |
| `WaphInstaller.Installer.HomeGemsPlanOwnsBundle` | lib/waph/installer.rb:443-482 | Either the bundle paths cannot be computed and nothing runs, or the proxy Gemfile is written in the config path. That path lies inside the bundle path, which lies inside the root that is recursively given to the chosen user. |
| `WaphInstaller.Installer.InstallGems` | lib/waph/installer.rb:353-371 | Without a Gemfile nothing happens. Without Bundler the step aborts. In development `bundle update` runs through `sh!`. Otherwise the home installation runs, with a `CommandError` turned into `Abort`. |
| `WaphInstaller.Installer.InstallGemsIntoHome` | lib/waph/installer.rb:443-499 | The home plan's events are added. A `CommandError` becomes an `Abort`, and any other exception passes through. |
| `WaphInstaller.Installer.MigrationLogsNowhere` | lib/waph/installer.rb:764 | The log variable set for the migration is the one `log_filename` reads, so the migrated application logs to `/dev/null` and touches no file. |
| `WaphInstaller.Installer.MigrateDatabase` | lib/waph/installer.rb:373-381 | Nothing happens for an application that is not a Rails app. Without rake the step aborts. Otherwise the one migration command runs through `sh!`. |
| `WaphInstaller.Installer.RestartRunsToTheEnd` | lib/waph/installer.rb:383-393 | With the restart directory and group known and no interrupt, all six commands run, `restart.txt` is touched, and failures are ignored. |
| `WaphInstaller.Installer.RestartWebApp` | lib/waph/installer.rb:383-393 | The six `sh` calls add exactly the events of the restart plan and fail exactly as it does. |
| `WaphInstaller.Installer.RunSteps` | lib/waph/installer.rb:98-105 | The steps begin in order, stopping at the first that raises. All six complete when none does. After the username step, the resolver answers for the chosen user. With no terminal (`auto`) and a configuration file missing, the run aborts at the configuration step at the latest, and the only events added are reported lines: no command runs and no file is written. |
| `WaphInstaller.Installer.RunFromUsernameStep` | lib/waph/installer.rb:100-105 | The same, from the username step on, including the promise for a non-interactive run with a missing configuration file. |
| `WaphInstaller.Installer.UsernameStep` | lib/waph/installer.rb:100 | On success the desired user is the resolver's user. |
| `WaphInstaller.Installer.RunLaterSteps` | lib/waph/installer.rb:101-105 | The last four steps in order, fail-fast, leaving the username alone. With no terminal (`auto`) and a configuration file missing, the run aborts at the configuration step at the latest, and the only events added are reported lines: no command runs and no file is written. |
| `WaphInstaller.Installer.ConfigStep` | lib/waph/installer.rb:101 | Standard output is restored. With no terminal and a configuration file missing, the step raises and adds only reported lines. |
| `WaphInstaller.Installer.RunInstallSteps` | lib/waph/installer.rb:102-104 | The gem, migration and restart steps begin in order and stop at the first that raises; all three complete when none does. |
| `WaphInstaller.Installer.RunInstallation` | lib/waph/installer.rb:28-42 | `after_install` is always the last event. An unconfigured resolver raises. Otherwise the environment is settled, and true is answered exactly when all six steps completed. Only exit, resolver failures and other crashes escape. With no terminal and a configuration file missing, true is never answered and the steps add only reported lines before `after_install`. |
| `GemfileHelper.GemNameFor` | lib/waph/gemfile_helper.rb:20-33 | An explicit `gem` entry wins, even when `nil` or `false`. Without one, no adapter gives `nil`. Exactly the two renamed adapters change their name: `postgresql` gives `pg` and `sqlite3` gives `sqlite3-ruby`; any other adapter is its own gem. |
| `GemfileHelper.GroupDecls` | lib/waph/gemfile_helper.rb:14-37 | No configuration, an absent group or a falsy one declares nothing. A Hash group declares exactly the gem `GemNameFor` picks, in that group, when it is truthy, and nothing otherwise. An error exactly when the group's value is truthy but not a Hash. |
| `GemfileHelper.AllDeclsExactly` | lib/waph/gemfile_helper.rb:7-12 | The declarations are exactly those the visited groups ask for. |
| `GemfileHelper.AllDeclsStopsAtError` | lib/waph/gemfile_helper.rb:9-11 | A group that raises ends the walk with its error. |
| `GemfileHelper.AtMostOneGemPerGroup` | lib/waph/gemfile_helper.rb:19-36 | Distinct groups never give two declarations to one group. |
| `GemfileHelper.DatabaseGemsOnePerGroup` | lib/waph/gemfile_helper.rb:7-12 | For a configuration with distinct group names, `declare_database_gems` never declares two gems for one group. |
| `GemfileHelper.FalsyGemSuppresses` | lib/waph/gemfile_helper.rb:20-22 | A `nil` or `false` gem entry declares nothing, even with a known adapter. |
| `GemfileHelper.GemfileDsl.constructor` | lib/waph/gemfile_helper.rb:40-42 | The extended DSL object starts with no declarations and the `@database_config` memo unset. |
| `GemfileHelper.GemfileDsl.DatabaseConfigOf` | lib/waph/gemfile_helper.rb:40-42 | `database_config` answers the loaded configuration and memoises it. |
| `GemfileHelper.GemfileDsl.DeclareDatabaseGemsForGroup` | lib/waph/gemfile_helper.rb:14-37 | Appends exactly the group's declarations, or raises its error and appends nothing. |
| `GemfileHelper.GemfileDsl.DeclareDatabaseGems` | lib/waph/gemfile_helper.rb:7-12 | Visits every top-level group once, in order, appending exactly `DatabaseDecls`. On a raise, answers the first raising group's error, and the gems of the groups before it stay declared. |

## Left out

- Terminal output is not modelled: banners, messages, colour tags, `new_screen`, `line`, and the welcome and completion texts. The one exception is the list of missing configuration paths reported on standard error. `puts_error` texts, `Depcheck`'s messages and installation instructions are printed only, so they are not modelled either.
- `use_stderr` is modelled as the save and restore of `@stdout` around the blocks that use it.
- Real I/O and OS calls are oracles or input sequences: `system`, `whoami`, `Etc.getpwnam`/`getgrgid`, `STDIN.readline`, `File`, `Dir`, `FileUtils` and `PlatformInfo`.
- Commands the installer runs do not change its view of the filesystem: `host.fs` is fixed for the whole run. Writing the proxy Gemfile always succeeds.
- `FileUtils.mkdir_p` adds only the requested directory to the existing paths, not its parents.
- `String#upcase`, `downcase` and `strip` are over ASCII. `strip` removes NUL on both sides.
- `dependencies.uniq` is not modelled. `dependencies` returns at most one name, so `uniq` leaves it unchanged.
- The `timeout` argument of `wait` is not modelled: none of the modelled code passes one.
- The `created_default_config_file` hook is not modelled: it is empty, and exists for subclasses.
- The messages of the `rescue CommandError` blocks in `create_default_config_files` and `install_gems_into_home` are not modelled. The blocks are modelled as the conversion of `CommandError` to `Abort`.
- `load_yaml_config` and YAML parsing are left out. `GemfileHelper.GemfileDsl` is given the parsed configuration, or `nil`, as `loaded`. Group names are strings, so `to_s` on a symbol key is not modelled.
- In `locate_ruby_command`:
  - `File.file? && File.executable?` is one set of executables.
  - The shebang is an oracle, so reading an empty file is not modelled.
  - `\Z` in the OS X Ruby pattern is treated as the end of the string, so a path ending in a newline is not accepted.
  - `ENV['PATH']` is always set and already split.
- `is_rails_app?`'s `/rails/i` match of `config/environment.rb` is a boolean of the host.
- Interrupts are modelled only while reading input and in child processes, not at arbitrary other points.
- The `log_filename` of lib/waph.rb:115 takes the variable name from the `Waph` singleton. The model uses the resolver's own `app_id`, which is the singleton's own value when the resolver is the singleton.
- Several parts are not part of this model:
  - `lib/waph/rails.rb`, the singleton forwarding methods of lib/waph.rb:319-327, and `GemfileHelper.install`;
  - `extend_options_parser`, and the `instance_variable_set` loop of `Installer#initialize` (its options are the constructor's parameters);
  - `load_yaml_config`, `show_welcome_message`, `show_completion_message`, `render_template` and `substitute_color_tags`.
- `WaphInstaller.Installer.RunInstallation`: the contract does not list the events of the steps. It states only that `after_install` comes last, how the result follows from the steps, and the counts of steps begun and completed. Each step's own contract states its events.
- `WaphInstaller.Installer.RunSteps`: the contract states the order and fail-fast behaviour through the counts of steps begun and completed, not the composed events and reads.
- `WaphInstaller.Installer.CheckDependencies`: for a terminal with something missing, the contract states only that the step aborts, or raises end of file on an empty input. It does not state how much input was read.
- `Waph.Core.Setup`: the caches are not cleared by `setup` (as in the source), so `Valid()` is promised only when the caches were empty or the user is unchanged.
- `InstallerModel.ConfirmSpec`, `InstallerModel.EditGateSpec`, `InstallerModel.EditGates` and `InstallerModel.Repeat`: their own contracts bound only the reads. What they answer is stated by `ConfirmAnswers`, `EditGatePassesOnYes`, `EditGatesConfirmEach` and `RepeatCountsYes`.
- `WaphInstaller.Installer.RunFromUsernameStep`, `WaphInstaller.Installer.RunLaterSteps` and `WaphInstaller.Installer.RunInstallSteps`: the contracts state order and fail-fast behaviour through the counts of steps begun and completed. Beyond the promise for a non-interactive run with a missing configuration file, they do not state the composed events.
- `Waph.Core.constructor` starts `configFiles` as an empty map. The source leaves `@config_files` `nil` until `setup`, so a lookup before `setup` raises `NoMethodError`; that case is not modelled.
- `Waph.Core.AsWrittenMissingLogDirRaises`: the probe oracle is constrained only by `OpenNeedsDirectory` (appending to a file whose directory is missing raises `ENOENT`); other filesystem behaviour stays free.

Two behaviours of the code are worth stating next to the model:
- lib/waph.rb:69-81 has a "Please create it." branch for a missing required file when no installer is known. Once `setup` has run an installer is always known, so that branch is unreachable (see `Waph.Core.MissingFileAdvisesInstaller`).
- `install_gems` chooses its gem strategy through a resolver method that does not exist; see Findings.

## Findings

| source | as written | input that shows it | evidently intended | confidence | as-written member | corrected member |
|---|---|---|---|---|---|---|
| lib/waph/installer.rb:365 | `install_gems` calls `@core.rack_env`. `Waph::Core` defines no `rack_env`, so it raises `NoMethodError`. `run` does not rescue it. | Any application with `{source_root}/Gemfile` where `locate_ruby_command('bundle')` finds Bundler: the step raises instead of installing gems, and the exception escapes `run`. | Choose `bundle update` in development and the home installation otherwise, reading the environment that `before_install` wrote to `ENV['RACK_ENV']`. | not executed | `WaphInstaller.AsWrittenNeverInstallsGems` | `WaphInstaller.Installer.InstallGems` |
| lib/waph.rb:146-148 | Only `Errno::EACCES` is rescued around the append probe `File.open(filename, "a")`. | No log variable, a non-development environment such as production, and no `{source_root}/log`: opening the file raises `ENOENT`, which escapes `log_filename`. | Treat a missing log directory as unwritable and use the fallback location, as the comment at lib/waph.rb:126-131 says. | not executed | `Waph.Core.AsWrittenMissingLogDirRaises` | `Waph.Core.ProbePhase` |
