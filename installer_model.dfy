/** The building blocks of `Waph::Installer` (lib/waph/installer.rb) stated
    as values: the exceptions it raises, the commands it runs, and the
    answers its prompts accept from a sequence of input lines. */
module InstallerModel {
  import opened Wrappers
  import opened Text
  import opened Waph

  /** The exceptions that leave an installer step. */
  datatype Exc =
    | Abort(commandError: bool)  // `Installer::Abort`, or its subclass `CommandError`
    | Interrupt                  // Ctrl-C, or a child killed by SIGINT
    | Exit(status: int)          // `exit` (a `SystemExit`)
    | Failure(error: CoreError)  // raised by the resolver
    | Crash(message: string)     // any other exception

  datatype Outcome<+T> = Normal(value: T) | Raised(exc: Exc)

  /** The `EOFError` of reading past the end of standard input. */
  const EndOfFile := Crash("end of file reached")

  /** One read of `STDIN.readline`: a line, or Ctrl-C while waiting. An
      exhausted input sequence is end of file. */
  datatype Input = Line(text: string) | CtrlC

  datatype Stream = Stdout | Stderr

  /** What an installer run leaves behind, in order. */
  datatype Event =
    | Ran(command: string)
    | Wrote(path: string)
    | Unlinked(path: string)
    | Reported(stream: Stream, text: string)
    | AfterInstall

  /** How a child process ended, as `$?` reports it; `system` is true for exit status 0. */
  datatype CmdStatus = Exited(code: int) | Signaled(signal: int)

  /** `Signal.list["INT"]`. */
  const SIGINT := 2

  // ---- sh / sh! --------------------------------------------------------------

  /** `sh`: true on success, `Interrupt` when the child died of SIGINT, false otherwise. */
  function ShOutcome(status: CmdStatus): (r: Outcome<bool>)
    ensures r == Normal(true) <==> status == Exited(0)
    ensures r == Raised(Interrupt) <==> status == Signaled(SIGINT)
    ensures r.Normal? || r == Raised(Interrupt)
  {
    if status == Exited(0) then Normal(true)
    else if status.Signaled? && status.signal == SIGINT then Raised(Interrupt)
    else Normal(false)
  }

  /** `sh!`: as `sh`, with a false answer turned into `CommandError`. */
  function ShBangOutcome(status: CmdStatus): (r: Option<Exc>)
    ensures r == Some(Abort(true)) <==> ShOutcome(status) == Normal(false)
    ensures r == None <==> ShOutcome(status) == Normal(true)
    ensures r.Some? && r != Some(Abort(true)) ==> r == Some(ShOutcome(status).exc)
  {
    match ShOutcome(status)
    case Normal(ok) => if ok then None else Some(Abort(true))
    case Raised(e) => Some(e)
  }

  /** A step of a command sequence. `Fail` is a command whose text cannot be
      built because computing one of its parts raises. */
  datatype Action = Run(command: string) | Write(path: string) | Unlink(path: string) | Fail(exc: Exc)

  function EventOf(a: Action): seq<Event> {
    match a
    case Run(c) => [Ran(c)]
    case Write(p) => [Wrote(p)]
    case Unlink(p) => [Unlinked(p)]
    case Fail(_) => []
  }

  function EventsOf(actions: seq<Action>): seq<Event>
    decreases |actions|
  {
    if actions == [] then [] else EventsOf(actions[..|actions| - 1]) + EventOf(actions[|actions| - 1])
  }

  /** What stops a sequence at this action: commands through `sh!` when
      `strict`, through `sh` (whose false is ignored) otherwise. Writing
      succeeds and `File.unlink(...) rescue nil` never raises. */
  function ActionFailure(a: Action, system: string -> CmdStatus, strict: bool): Option<Exc> {
    match a
    case Run(c) => if strict then ShBangOutcome(system(c)) else (if ShOutcome(system(c)).Raised? then Some(ShOutcome(system(c)).exc) else None)
    case Write(_) => None
    case Unlink(_) => None
    case Fail(e) => Some(e)
  }

  /** The result of carrying out a sequence of actions. */
  datatype ActionsRun = ActionsRun(failure: Option<Exc>, count: nat, events: seq<Event>)

  /** Carries the actions out in order, up to and including the first that fails. */
  function ExecActions(actions: seq<Action>, system: string -> CmdStatus, strict: bool): (r: ActionsRun)
    ensures r.count <= |actions|
    decreases |actions|
  {
    if actions == [] then ActionsRun(None, 0, [])
    else
      var init := actions[..|actions| - 1];
      var p := ExecActions(init, system, strict);
      if p.failure.Some? then p
      else
        var a := actions[|actions| - 1];
        ActionsRun(ActionFailure(a, system, strict), |actions|, p.events + EventOf(a))
  }

  /** The actions carried out are a prefix of the sequence that ends at the
      first failure, and the events are exactly theirs. */
  lemma {:induction false} ExecActionsShape(actions: seq<Action>, system: string -> CmdStatus, strict: bool)
    ensures var r := ExecActions(actions, system, strict);
      && r.events == EventsOf(actions[..r.count])
      && (r.failure.None? ==>
            r.count == |actions| && forall i :: 0 <= i < |actions| ==> ActionFailure(actions[i], system, strict).None?)
      && (r.failure.Some? ==>
            && 0 < r.count
            && ActionFailure(actions[r.count - 1], system, strict) == r.failure
            && forall i :: 0 <= i < r.count - 1 ==> ActionFailure(actions[i], system, strict).None?)
    decreases |actions|
  {
    if actions != [] {
      var init := actions[..|actions| - 1];
      ExecActionsShape(init, system, strict);
      var p := ExecActions(init, system, strict);
      assert forall i :: 0 <= i < |init| ==> init[i] == actions[i];
      if p.failure.Some? {
        assert actions[..p.count] == init[..p.count];
      } else {
        assert actions[..|actions|] == actions;
        assert init[..|init|] == init;
      }
    }
  }

  /** Carrying out one more action after a prefix that did not fail. */
  lemma ExecActionsStep(actions: seq<Action>, system: string -> CmdStatus, strict: bool, i: nat)
    requires i < |actions| && ExecActions(actions[..i], system, strict).failure.None?
    ensures ExecActions(actions[..i + 1], system, strict) ==
      ActionsRun(ActionFailure(actions[i], system, strict), i + 1,
                 ExecActions(actions[..i], system, strict).events + EventOf(actions[i]))
  {
    assert actions[..i + 1][..i] == actions[..i];
    assert actions[..i + 1][i] == actions[i];
  }

  /** Once a prefix of the actions fails, the rest are never carried out. */
  lemma {:induction false} ExecStopsAtFailure(actions: seq<Action>, system: string -> CmdStatus, strict: bool, k: nat)
    requires k <= |actions| && ExecActions(actions[..k], system, strict).failure.Some?
    ensures ExecActions(actions, system, strict) == ExecActions(actions[..k], system, strict)
    decreases |actions| - k
  {
    if k < |actions| {
      assert actions[..k + 1][..k] == actions[..k];
      ExecStopsAtFailure(actions, system, strict, k + 1);
    } else {
      assert actions[..k] == actions;
    }
  }

  /** Without `sh!`, only an interrupt or a part that cannot be computed stops the sequence. */
  lemma LenientStopsOnlyOnRaise(actions: seq<Action>, system: string -> CmdStatus)
    requires forall i :: 0 <= i < |actions| ==> !actions[i].Fail?
    requires forall i :: 0 <= i < |actions| && actions[i].Run? ==> system(actions[i].command) != Signaled(SIGINT)
    ensures ExecActions(actions, system, false) == ActionsRun(None, |actions|, EventsOf(actions))
  {
    ExecActionsShape(actions, system, false);
    assert actions[..|actions|] == actions;
  }

  // ---- prompt ----------------------------------------------------------------

  /** The outcome of a prompt and how many input reads it used. */
  datatype PromptRun<+T> = PromptRun(outcome: Outcome<T>, consumed: nat)

  /** The blocks the installer passes to `prompt`. */
  datatype Validator =
    | NoBlock                                                  // `prompt` called without a block
    | ExistingUser(users: map<string, UserEntry>, rootAllowed: bool)  // the username prompt
    | YesOrNo                                                  // `prompt_confirmation`

  /** A y or an n, in either case. */
  predicate IsYesNo(v: string) {
    Downcase(v) == "y" || Downcase(v) == "n"
  }

  /** A line answering y to a confirmation. */
  predicate IsYesLine(i: Input) {
    i.Line? && Downcase(Strip(i.text)) == "y"
  }

  /** What the block answers for a non-empty stripped line. */
  predicate Validates(valid: Validator, v: string) {
    match valid
    case NoBlock => true
    case ExistingUser(users, rootAllowed) => v in users && (rootAllowed || v != "root")
    case YesOrNo => IsYesNo(v)
  }

  /** A stripped line the prompt takes: non-empty and accepted by the block. */
  predicate Accepts(valid: Validator, line: string) {
    Strip(line) != [] && Validates(valid, Strip(line))
  }

  /** A line that ends the prompt: accepted, or empty when there is a default. */
  predicate Ends(default: Option<string>, valid: Validator, line: string) {
    Accepts(valid, line) || (Strip(line) == [] && default.Some?)
  }

  /** A line the prompt asks again after. */
  predicate Rejected(default: Option<string>, valid: Validator, i: Input) {
    i.Line? && !Ends(default, valid, i.text)
  }

  /** The answer a line that ends the prompt gives: the line, or the default for an empty one. */
  function Answer(default: Option<string>, line: string): string
    requires default.Some? || Strip(line) != []
  {
    if Strip(line) == [] then default.value else Strip(line)
  }

  /** The interactive loop of `prompt`: read, strip, and stop at the first
      accepted line or, with a default, at the first empty one; end of file
      exits with status 2 and Ctrl-C is an `Interrupt`. */
  function ReadUntilAccepted(default: Option<string>, valid: Validator, input: seq<Input>): (r: PromptRun<string>)
    ensures r.consumed <= |input|
    ensures r.outcome.Normal? ==> 0 < r.consumed
    ensures r.outcome == Raised(Exit(2)) ==> r.consumed == |input|
    ensures r.outcome.Normal? || r.outcome == Raised(Exit(2)) || r.outcome == Raised(Interrupt)
    decreases |input|
  {
    if input == [] then PromptRun(Raised(Exit(2)), 0)
    else match input[0]
      case CtrlC => PromptRun(Raised(Interrupt), 1)
      case Line(t) =>
        if Ends(default, valid, t) then PromptRun(Normal(Answer(default, t)), 1)
        else
          var rest := ReadUntilAccepted(default, valid, input[1..]);
          PromptRun(rest.outcome, rest.consumed + 1)
  }

  /** A prompt that answers does so at the last line it read, which ends the
      prompt, and answers with that line stripped or with the default. */
  lemma {:induction false} ReadUntilAcceptedAnswers(default: Option<string>, valid: Validator, input: seq<Input>)
    ensures var r := ReadUntilAccepted(default, valid, input);
      r.outcome.Normal? ==>
        && input[r.consumed - 1].Line?
        && Ends(default, valid, input[r.consumed - 1].text)
        && r.outcome.value == Answer(default, input[r.consumed - 1].text)
    decreases |input|
  {
    ReadUntilAcceptedEdges(default, valid, input);
    if input != [] && input[0].Line? {
      ReadUntilAcceptedStep(default, valid, input);
      if !Ends(default, valid, input[0].text) {
        ReadUntilAcceptedAnswers(default, valid, input[1..]);
        var rest := ReadUntilAccepted(default, valid, input[1..]);
        if rest.outcome.Normal? {
          assert input[rest.consumed] == input[1..][rest.consumed - 1];
        }
      }
    }
  }

  /** One read of the prompt loop: a line that ends the prompt answers,
      any other line leaves the rest of the input to decide. */
  lemma ReadUntilAcceptedStep(default: Option<string>, valid: Validator, input: seq<Input>)
    requires input != [] && input[0].Line?
    ensures var t := input[0].text;
      Ends(default, valid, t) <==> (Strip(t) == [] && default.Some?) || (Strip(t) != [] && Validates(valid, Strip(t)))
    ensures Ends(default, valid, input[0].text) ==>
      ReadUntilAccepted(default, valid, input) == PromptRun(Normal(Answer(default, input[0].text)), 1)
    ensures !Ends(default, valid, input[0].text) ==>
      var rest := ReadUntilAccepted(default, valid, input[1..]);
      ReadUntilAccepted(default, valid, input) == PromptRun(rest.outcome, rest.consumed + 1)
  {
    var t := input[0].text;
    if !Ends(default, valid, t) {
      var rest := ReadUntilAccepted(default, valid, input[1..]);
      assert ReadUntilAccepted(default, valid, input) == PromptRun(rest.outcome, rest.consumed + 1);
    }
  }

  /** A prompt answers with its default or with a line its block accepts. */
  lemma AnswerIsDefaultOrValid(default: Option<string>, valid: Validator, input: seq<Input>)
    ensures var r := ReadUntilAccepted(default, valid, input);
      r.outcome.Normal? ==> (default.Some? && r.outcome.value == default.value) || Validates(valid, r.outcome.value)
  {
    var r := ReadUntilAccepted(default, valid, input);
    ReadUntilAcceptedAnswers(default, valid, input);
    if r.outcome.Normal? {
      var t := input[r.consumed - 1].text;
      if Strip(t) != [] {
        assert Accepts(valid, t);
      }
    }
  }

  /** The reads that end the prompt loop whatever the block says: end of file and Ctrl-C. */
  lemma ReadUntilAcceptedEdges(default: Option<string>, valid: Validator, input: seq<Input>)
    ensures input == [] ==> ReadUntilAccepted(default, valid, input) == PromptRun(Raised(Exit(2)), 0)
    ensures input != [] && input[0].CtrlC? ==> ReadUntilAccepted(default, valid, input) == PromptRun(Raised(Interrupt), 1)
  {
  }

  /** Every line read before the last one was asked again. */
  lemma ReadUntilAcceptedRejectsEarlier(default: Option<string>, valid: Validator, input: seq<Input>)
    ensures var r := ReadUntilAccepted(default, valid, input);
      forall k :: 0 <= k < r.consumed - 1 ==> Rejected(default, valid, input[k])
  {
    forall k | 0 <= k < ReadUntilAccepted(default, valid, input).consumed - 1
      ensures Rejected(default, valid, input[k])
    {
      RejectedBefore(default, valid, input, k);
    }
  }

  /** The line at `k` was asked again, for any `k` before the last line read. */
  lemma {:induction false} RejectedBefore(default: Option<string>, valid: Validator, input: seq<Input>, k: nat)
    requires k < ReadUntilAccepted(default, valid, input).consumed - 1
    ensures Rejected(default, valid, input[k])
    decreases k
  {
    ReadUntilAcceptedEdges(default, valid, input);
    assert input[0].Line?;
    ReadUntilAcceptedStep(default, valid, input);
    if k > 0 {
      RejectedBefore(default, valid, input[1..], k - 1);
      assert input[1..][k - 1] == input[k];
    }
  }

  /** `prompt(message, default)`: without a terminal and with a default, the
      default is the answer and nothing is read. */
  function PromptSpec(interactive: bool, default: Option<string>, valid: Validator, input: seq<Input>): (r: PromptRun<string>)
    ensures !interactive && default.Some? ==> r == PromptRun(Normal(default.value), 0)
    ensures interactive || default.None? ==> r == ReadUntilAccepted(default, valid, input)
  {
    if !interactive && default.Some? then PromptRun(Normal(default.value), 0)
    else ReadUntilAccepted(default, valid, input)
  }

  /** A prompt ends at end of file exactly when every line is asked again. */
  lemma {:induction false} PromptExitsOnlyAtEndOfInput(default: Option<string>, valid: Validator, input: seq<Input>)
    ensures ReadUntilAccepted(default, valid, input).outcome == Raised(Exit(2)) <==>
      forall k :: 0 <= k < |input| ==> Rejected(default, valid, input[k])
    decreases |input|
  {
    if input != [] {
      PromptExitsOnlyAtEndOfInput(default, valid, input[1..]);
      if forall k :: 0 <= k < |input| ==> Rejected(default, valid, input[k]) {
        forall k | 0 <= k < |input[1..]| ensures Rejected(default, valid, input[1..][k]) {
          assert input[1..][k] == input[k + 1];
        }
      }
      if ReadUntilAccepted(default, valid, input).outcome == Raised(Exit(2)) {
        forall k | 0 <= k < |input| ensures Rejected(default, valid, input[k]) {
          if k > 0 { assert input[k] == input[1..][k - 1]; }
        }
      }
    }
  }

  /** `prompt_confirmation`: asks until the answer is y or n in any case, and
      answers whether it was y. */
  function ConfirmSpec(interactive: bool, input: seq<Input>): (r: PromptRun<bool>)
    ensures r.consumed <= |input|
    ensures r.outcome.Normal? ==> 0 < r.consumed
  {
    var p := PromptSpec(interactive, None, YesOrNo, input);
    ConfirmFacts(interactive, input);
    match p.outcome
    case Normal(v) => PromptRun(Normal(Downcase(v) == "y"), p.consumed)
    case Raised(e) => PromptRun(Raised(e), p.consumed)
  }

  /** A confirmation ends at the first y or n line and answers true exactly
      for a y; every line before it was neither. */
  lemma ConfirmAnswers(interactive: bool, input: seq<Input>)
    ensures var r := ConfirmSpec(interactive, input);
      && (r.outcome.Normal? ==>
            && input[r.consumed - 1].Line?
            && IsYesNo(Strip(input[r.consumed - 1].text))
            && (r.outcome.value <==> IsYesLine(input[r.consumed - 1])))
      && (forall k :: 0 <= k < r.consumed - 1 ==> input[k].Line? && !IsYesNo(Strip(input[k].text)))
  {
    ConfirmFacts(interactive, input);
  }

  lemma ConfirmFacts(interactive: bool, input: seq<Input>)
    ensures var p := PromptSpec(interactive, None, YesOrNo, input);
      && (p.outcome.Normal? ==>
            input[p.consumed - 1].Line? && p.outcome.value == Strip(input[p.consumed - 1].text) && IsYesNo(p.outcome.value))
      && (forall k :: 0 <= k < p.consumed - 1 ==> input[k].Line? && !IsYesNo(Strip(input[k].text)))
  {
    var p := PromptSpec(interactive, None, YesOrNo, input);
    ReadUntilAcceptedAnswers(None, YesOrNo, input);
    ReadUntilAcceptedRejectsEarlier(None, YesOrNo, input);
    forall k | 0 <= k < p.consumed - 1 ensures input[k].Line? && !IsYesNo(Strip(input[k].text)) {
      RejectedIsNotYesNo(input[k]);
    }
  }

  lemma RejectedIsNotYesNo(i: Input)
    requires Rejected(None, YesOrNo, i)
    ensures i.Line? && !IsYesNo(Strip(i.text))
  {
    if Strip(i.text) == [] {
      assert Downcase([]) == [];
    }
  }

  /** `while !prompt_confirmation(...) do wait end`, the edit gate: it lets
      the installer go on only right after a y. */
  function EditGateSpec(input: seq<Input>): (r: PromptRun<bool>)
    ensures r.consumed <= |input|
    ensures r.outcome.Normal? ==> 0 < r.consumed
    decreases |input|
  {
    var c := ConfirmSpec(true, input);
    match c.outcome
    case Raised(e) => PromptRun(Raised(e), c.consumed)
    case Normal(yes) =>
      if yes then PromptRun(Normal(true), c.consumed)
      else if c.consumed == |input| then PromptRun(Raised(EndOfFile), c.consumed)
      else match input[c.consumed]
        case CtrlC => PromptRun(Raised(Abort(false)), c.consumed + 1)
        case Line(_) =>
          var rest := input[c.consumed + 1..];
          var r' := EditGateSpec(rest);
          PromptRun(r'.outcome, r'.consumed + c.consumed + 1)
  }

  /** The edit gate lets the installer go on only right after a y. */
  lemma {:induction false} EditGatePassesOnYes(input: seq<Input>)
    ensures var r := EditGateSpec(input);
      r.outcome.Normal? ==> IsYesLine(input[r.consumed - 1])
    decreases |input|
  {
    var c := ConfirmSpec(true, input);
    ConfirmAnswers(true, input);
    if c.outcome == Normal(false) && c.consumed < |input| && input[c.consumed].Line? {
      var rest := input[c.consumed + 1..];
      EditGatePassesOnYes(rest);
      var r' := EditGateSpec(rest);
      if r'.outcome.Normal? {
        assert input[r'.consumed + c.consumed] == rest[r'.consumed - 1];
      }
    }
  }

  /** The edit gate ends at the first answer that is a y, or at an exception. */
  lemma EditGateFirstAnswer(input: seq<Input>)
    ensures var c := ConfirmSpec(true, input);
      && (c.outcome.Raised? ==> EditGateSpec(input) == PromptRun(Raised(c.outcome.exc), c.consumed))
      && (c.outcome == Normal(true) ==> EditGateSpec(input) == PromptRun(Normal(true), c.consumed))
      && (c.outcome == Normal(false) && c.consumed == |input| ==>
            EditGateSpec(input) == PromptRun(Raised(EndOfFile), c.consumed))
      && (c.outcome == Normal(false) && c.consumed < |input| && input[c.consumed].CtrlC? ==>
            EditGateSpec(input) == PromptRun(Raised(Abort(false)), c.consumed + 1))
  {
  }

  /** One round of the edit gate: a "no" and a line read by `wait` leave
      the gate where it started, further along the input. */
  lemma EditGateRound(input: seq<Input>)
    requires var c := ConfirmSpec(true, input);
      c.outcome == Normal(false) && c.consumed < |input| && input[c.consumed].Line?
    ensures var c := ConfirmSpec(true, input);
      var rest := EditGateSpec(input[c.consumed + 1..]);
      EditGateSpec(input) == PromptRun(rest.outcome, rest.consumed + c.consumed + 1)
  {
    var c := ConfirmSpec(true, input);
    assert c.outcome.Normal? && !c.outcome.value;
    assert input[c.consumed].Line?;
  }

  /** `n` runs of `gate`, each on the input the previous one left, stopping
      at the first exception. */
  function Repeat(gate: seq<Input> -> PromptRun<bool>, n: nat, input: seq<Input>): (r: PromptRun<bool>)
    requires forall s :: gate(s).consumed <= |s|
    ensures r.consumed <= |input|
    decreases n
  {
    if n == 0 then PromptRun(Normal(true), 0)
    else
      var g := gate(input);
      if g.outcome.Raised? then g
      else
        var rest := Repeat(gate, n - 1, input[g.consumed..]);
        PromptRun(rest.outcome, g.consumed + rest.consumed)
  }

  /** One edit gate per created file, one after the other. */
  function EditGates(n: nat, input: seq<Input>): (r: PromptRun<bool>)
    ensures r.consumed <= |input|
  {
    Repeat(EditGateSpec, n, input)
  }

  /** `r` with `n` more reads counted before it. */
  function Shifted<T>(r: PromptRun<T>, n: nat): PromptRun<T> {
    PromptRun(r.outcome, n + r.consumed)
  }

  /** The first of `k` edit gates either raises, ending them all, or passes
      and leaves `k - 1` of them on the rest of the input. */
  lemma EditGatesStep(k: nat, input: seq<Input>)
    requires 0 < k
    ensures var g := EditGateSpec(input);
      && (g.outcome.Raised? ==> EditGates(k, input) == g)
      && (g.outcome.Normal? ==>
            var rest := EditGates(k - 1, input[g.consumed..]);
            EditGates(k, input) == PromptRun(rest.outcome, g.consumed + rest.consumed))
  {
  }

  lemma DropDrop<T>(s: seq<T>, a: nat, b: nat)
    requires a + b <= |s|
    ensures s[a..][b..] == s[a + b..]
  {
  }

  /** After the examples are created: `wait` for Enter, then the edit gates.
      Nothing is read when no file was created. */
  function ConfirmEditsSpec(n: nat, input: seq<Input>): (r: PromptRun<bool>)
    ensures r.consumed <= |input|
  {
    if n == 0 then PromptRun(Normal(true), 0)
    else if input == [] then PromptRun(Raised(EndOfFile), 0)
    else if input[0].CtrlC? then PromptRun(Raised(Abort(false)), 1)
    else
      var r := EditGates(n, input[1..]);
      PromptRun(r.outcome, r.consumed + 1)
  }

  /** How many of the first `hi` reads answered y. */
  function YesCount(s: seq<Input>, hi: nat): nat
    requires hi <= |s|
    decreases hi
  {
    if hi == 0 then 0 else YesCount(s, hi - 1) + (if IsYesLine(s[hi - 1]) then 1 else 0)
  }

  /** Counting the first `a + b` reads is counting the first `a` and then `b` more. */
  lemma {:induction false} YesCountSplit(s: seq<Input>, a: nat, b: nat)
    requires a + b <= |s|
    ensures YesCount(s, a + b) == YesCount(s, a) + YesCount(s[a..], b)
    decreases b
  {
    if b > 0 {
      YesCountSplit(s, a, b - 1);
      assert s[a..][b - 1] == s[a + b - 1];
    }
  }

  /** Gates that each need a y let `n` of them pass only after `n` y's. */
  lemma {:induction false} RepeatCountsYes(gate: seq<Input> -> PromptRun<bool>, n: nat, input: seq<Input>)
    requires forall s :: gate(s).consumed <= |s|
    requires forall s :: gate(s).outcome.Normal? ==> YesCount(s, gate(s).consumed) >= 1
    ensures var r := Repeat(gate, n, input);
      r.outcome.Normal? ==> YesCount(input, r.consumed) >= n
    decreases n
  {
    var r := Repeat(gate, n, input);
    if n > 0 && r.outcome.Normal? {
      var g := gate(input);
      var tail := input[g.consumed..];
      var rest := Repeat(gate, n - 1, tail);
      assert g.outcome.Normal? && r.consumed == g.consumed + rest.consumed;
      RepeatCountsYes(gate, n - 1, tail);
      YesCountAdds(input, g.consumed, rest.consumed, n);
    }
  }

  /** The edit gates let the installer go on only once each file has had its own y. */
  lemma EditGatesConfirmEach(n: nat, input: seq<Input>)
    ensures EditGates(n, input).outcome.Normal? ==> YesCount(input, EditGates(n, input).consumed) >= n
  {
    forall s ensures EditGateSpec(s).outcome.Normal? ==> YesCount(s, EditGateSpec(s).consumed) >= 1 {
      EditGateCountsYes(s);
    }
    RepeatCountsYes(EditGateSpec, n, input);
  }

  lemma EditGateCountsYes(input: seq<Input>)
    ensures var g := EditGateSpec(input);
      g.outcome.Normal? ==> YesCount(input, g.consumed) >= 1
  {
    EditGatePassesOnYes(input);
  }

  lemma YesCountAdds(s: seq<Input>, a: nat, b: nat, n: nat)
    requires a + b <= |s| && 0 < n && YesCount(s, a) >= 1 && YesCount(s[a..], b) >= n - 1
    ensures YesCount(s, a + b) >= n
  {
    YesCountSplit(s, a, b);
  }

  /** Creating example files is followed by one y per created file before
      the installer goes on. */
  lemma ConfirmEditsNeedsEachYes(n: nat, input: seq<Input>)
    ensures var r := ConfirmEditsSpec(n, input);
      r.outcome.Normal? ==> YesCount(input, r.consumed) >= n
  {
    var r := ConfirmEditsSpec(n, input);
    if n > 0 && r.outcome.Normal? {
      var g := EditGates(n, input[1..]);
      assert r.consumed == 1 + g.consumed;
      EditGatesConfirmEach(n, input[1..]);
      YesCountSplit(input, 1, g.consumed);
    }
  }

  // ---- Username selection ------------------------------------------------------

  /** `prompt_for_desired_username(root_allowed)`: a command-line user must
      exist and be allowed; otherwise a terminal is needed for the prompt,
      whose default is the current user unless that is a forbidden root.
      Whatever is chosen must be the current user, unless the current user
      is root. */
  function UsernameChoice(desired: Option<string>, interactive: bool, rootAllowed: bool, current: string,
                          users: map<string, UserEntry>, input: seq<Input>): (r: PromptRun<string>)
    ensures r.consumed <= |input|
  {
    CrossUserCheck(current, UsernamePick(desired, interactive, rootAllowed, current, users, input))
  }

  /** The username chosen before the cross-user rule applies. */
  function UsernamePick(desired: Option<string>, interactive: bool, rootAllowed: bool, current: string,
                        users: map<string, UserEntry>, input: seq<Input>): (r: PromptRun<string>)
    ensures r.consumed <= |input|
  {
    if desired.Some? then
      if desired.value !in users || (!rootAllowed && desired.value == "root") then PromptRun(Raised(Abort(false)), 0)
      else PromptRun(Normal(desired.value), 0)
    else if !interactive then PromptRun(Raised(Abort(false)), 0)
    else PromptSpec(true, if rootAllowed || current != "root" then Some(current) else None,
                    ExistingUser(users, rootAllowed), input)
  }

  /** Only root may go on with a username other than its own. */
  function CrossUserCheck(current: string, picked: PromptRun<string>): (r: PromptRun<string>)
    ensures r.consumed == picked.consumed
    ensures r.outcome.Normal? ==> r == picked
  {
    match picked.outcome
    case Normal(u) => if current != "root" && current != u then PromptRun(Raised(Abort(false)), picked.consumed) else picked
    case Raised(_) => picked
  }

  /** A user given on the command line is taken exactly when it exists, is
      allowed, and passes the cross-user rule; nothing is read. */
  lemma CommandLineUsername(d: string, interactive: bool, rootAllowed: bool, current: string,
                            users: map<string, UserEntry>, input: seq<Input>)
    ensures var r := UsernameChoice(Some(d), interactive, rootAllowed, current, users, input);
      && r.consumed == 0
      && (r.outcome.Normal? <==> d in users && (rootAllowed || d != "root") && (current == "root" || current == d))
      && (r.outcome.Normal? ==> r.outcome.value == d)
      && (r.outcome.Raised? ==> r.outcome.exc == Abort(false))
  {
  }

  /** Without a terminal, a username must be given. */
  lemma NonInteractiveNeedsUsername(rootAllowed: bool, current: string, users: map<string, UserEntry>, input: seq<Input>)
    ensures UsernameChoice(None, false, rootAllowed, current, users, input) == PromptRun(Raised(Abort(false)), 0)
  {
  }

  /** The cross-user rule: only root may install for someone else. */
  lemma CrossUserRule(desired: Option<string>, interactive: bool, rootAllowed: bool, current: string,
                      users: map<string, UserEntry>, input: seq<Input>)
    ensures var r := UsernameChoice(desired, interactive, rootAllowed, current, users, input);
      r.outcome.Normal? && current != "root" ==> r.outcome.value == current
  {
  }

  /** A prompted username is an existing, allowed user, or the offered
      default (the current user, never a forbidden root). */
  lemma PromptedUsernameAllowed(rootAllowed: bool, current: string, users: map<string, UserEntry>, input: seq<Input>)
    ensures var r := UsernameChoice(None, true, rootAllowed, current, users, input);
      r.outcome.Normal? ==>
        || (r.outcome.value in users && (rootAllowed || r.outcome.value != "root"))
        || (r.outcome.value == current && (rootAllowed || current != "root"))
  {
    var default := if rootAllowed || current != "root" then Some(current) else None;
    var valid := ExistingUser(users, rootAllowed);
    AnswerIsDefaultOrValid(default, valid, input);
  }

  // ---- locate_ruby_command -------------------------------------------------------

  /** What `locate_ruby_command` can see of the host. */
  datatype RubyHost = RubyHost(
    ruby: string,                 // the interpreter's path
    darwin: bool,                 // `RUBY_PLATFORM =~ /darwin/`
    gemBindir: Option<string>,    // `Gem.bindir`, or `None` when RubyGems fails to load
    pathDirs: seq<string>,        // `ENV['PATH'].split(':')`
    executables: set<string>,     // paths that are executable regular files
    shebang: string -> string)    // the stripped first line of a file

  const FrameworkPrefix := "/System/Library/Frameworks/Ruby.framework/Versions/"

  /** `ruby =~ %r(\A/System/Library/Frameworks/Ruby.framework/Versions/.*?/usr/bin/ruby\Z)`. */
  predicate IsFrameworkRuby(ruby: string) {
    && |ruby| >= |FrameworkPrefix| + |"/usr/bin/ruby"|
    && ruby[..|FrameworkPrefix|] == FrameworkPrefix
    && ruby[|ruby| - |"/usr/bin/ruby"|..] == "/usr/bin/ruby"
    && '\n' !in ruby[|FrameworkPrefix|..|ruby| - |"/usr/bin/ruby"|]
  }

  /** The first guess: `/usr/bin` for the OS X system Ruby, else Ruby's own bindir. */
  function BindirCandidate(h: RubyHost, name: string): string {
    if h.darwin && IsFrameworkRuby(h.ruby) then "/usr/bin/" + name else Dirname(h.ruby) + "/" + name
  }

  /** The candidate once RubyGems' bindir has been tried. */
  function GemCandidate(h: RubyHost, name: string): Option<string> {
    var first := BindirCandidate(h, name);
    if first in h.executables then Some(first)
    else if h.gemBindir.Some? then Some(h.gemBindir.value + "/" + name)
    else None
  }

  /** The `PATH` search over `dirs`: the first executable whose shebang names this Ruby. */
  function PathSearch(h: RubyHost, dirs: seq<string>, name: string): (r: Option<string>)
    ensures r.Some? ==> r.value in h.executables && h.shebang(r.value) == "#!" + h.ruby
    ensures r.None? <==> forall k :: 0 <= k < |dirs| ==>
      (dirs[k] + "/" + name) !in h.executables || h.shebang(dirs[k] + "/" + name) != "#!" + h.ruby
    decreases |dirs|
  {
    if dirs == [] then None
    else
      var f := dirs[0] + "/" + name;
      if f in h.executables && h.shebang(f) == "#!" + h.ruby then Some(f)
      else
        var rest := PathSearch(h, dirs[1..], name);
        assert forall k :: 1 <= k < |dirs| ==> dirs[k] == dirs[1..][k - 1];
        rest
  }

  /** What `locate_ruby_command` answers. The `PATH` loop resets its
      variable only inside the loop, so an empty `PATH` leaves the last
      guess in place, executable or not. */
  function LocateSpec(h: RubyHost, name: string): Option<string> {
    var c := GemCandidate(h, name);
    if c.Some? && c.value in h.executables then c
    else if h.pathDirs == [] then c
    else PathSearch(h, h.pathDirs, name)
  }

  /** With a non-empty `PATH`, any command found is an executable, and one
      found on `PATH` starts with this Ruby's shebang. */
  lemma LocatedCommandIsExecutable(h: RubyHost, name: string)
    requires h.pathDirs != []
    ensures LocateSpec(h, name).Some? ==> LocateSpec(h, name).value in h.executables
    ensures LocateSpec(h, name).Some? && LocateSpec(h, name) != GemCandidate(h, name) ==>
      h.shebang(LocateSpec(h, name).value) == "#!" + h.ruby
  {
  }

  /** The earlier guesses are preferred to `PATH`. */
  lemma LocatePrefersRubyBindir(h: RubyHost, name: string)
    requires BindirCandidate(h, name) in h.executables
    ensures LocateSpec(h, name) == Some(BindirCandidate(h, name))
  {
  }
}
