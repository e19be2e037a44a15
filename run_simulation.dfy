/** The command-line front end of the simulation: the settings object, the
    whitelist of command identifiers, the validator that reports the first
    unknown identifier, and the parser that turns `-name=value` arguments into
    settings. Printing the help text and exiting are I/O; here asking for help
    is an outcome of its own. */
module RunSimulation {
  import opened Results
  import opened PyStrings

  datatype RaceType = ASC | FSGP

  /** The two members of SimulationReturnType that the parser can select. */
  datatype ReturnType = TimeTaken | DistanceTravelled

  /** The default granularity is the integer 1; `-granularity` stores its raw text. */
  datatype Granularity = GranularityCount(count: int) | GranularityText(text: string)

  /** The value of a SimulationSettings object. */
  datatype Settings = Settings(
    raceType: RaceType,
    golang: bool,
    returnType: ReturnType,
    optimizationIterations: int,
    routeVisualization: bool,
    verbose: bool,
    granularity: Granularity)

  /** The keyword defaults of SimulationSettings. */
  const DefaultSettings: Settings := Settings(ASC, true, TimeTaken, 5, false, false, GranularityCount(1))

  class SimulationSettings {
    var raceType: RaceType
    var optimizationIterations: int
    var golang: bool
    var returnType: ReturnType
    var routeVisualization: bool
    var verbose: bool
    var granularity: Granularity

    constructor (raceType: RaceType, golang: bool, returnType: ReturnType, optimizationIterations: int,
                 routeVisualization: bool, verbose: bool, granularity: Granularity)
      ensures Value() == Settings(raceType, golang, returnType, optimizationIterations,
                                  routeVisualization, verbose, granularity)
    {
      this.raceType := raceType;
      this.optimizationIterations := optimizationIterations;
      this.golang := golang;
      this.returnType := returnType;
      this.routeVisualization := routeVisualization;
      this.verbose := verbose;
      this.granularity := granularity;
    }

    function Value(): Settings
      reads this
    {
      Settings(raceType, golang, returnType, optimizationIterations, routeVisualization, verbose, granularity)
    }
  }

  const ValidCommands: seq<string> :=
    ["-help", "-race_type", "-golang", "-optimize", "-iter", "-verbose", "-route_visualization", "-granularity"]

  /** An argument is a command when it starts with a dash. */
  predicate IsCommand(arg: string)
  {
    |arg| > 0 && arg[0] == '-'
  }

  /** The identifier of a command: the text before the first '='. */
  function Identifier(arg: string): string
  {
    Split(arg, '=')[0]
  }

  /** The value of a command: the text between the first and the second '=',
      absent when there is no '='. */
  function ArgumentValue(arg: string): Option<string>
  {
    var parts := Split(arg, '=');
    if |parts| >= 2 then Some(parts[1]) else None
  }

  /** The identifier is a prefix of the argument that is either all of it or
      followed by the first '='. */
  lemma IdentifierIsPrefix(arg: string)
    ensures var id := Identifier(arg);
            '=' !in id && |id| <= |arg| && arg[..|id|] == id && (|id| < |arg| ==> arg[|id|] == '=')
  {
    var parts := Split(arg, '=');
    JoinSplit(arg, '=');
    if |parts| > 1 {
      assert arg == parts[0] + ['='] + Join(parts[1..], '=');
    }
  }

  /** `id=v` and `id=v=tail` both have identifier `id` and value `v`. */
  lemma ValueIsSecondSegment(id: string, v: string, tail: string)
    requires '=' !in id && '=' !in v
    ensures Identifier(id + "=" + v) == id && ArgumentValue(id + "=" + v) == Some(v)
    ensures Identifier(id + "=" + v + "=" + tail) == id && ArgumentValue(id + "=" + v + "=" + tail) == Some(v)
  {
    SplitAtFirstSeparator(id, '=', v);
    SplitWithoutSeparator(v, '=');
    assert id + "=" + v + "=" + tail == id + ['='] + (v + ['='] + tail);
    SplitAtFirstSeparator(id, '=', v + ['='] + tail);
    SplitAtFirstSeparator(v, '=', tail);
  }

  /** A command without '=' is all identifier and has no value. */
  lemma NoValueWithoutSeparator(arg: string)
    requires '=' !in arg
    ensures Identifier(arg) == arg && ArgumentValue(arg) == None
  {
    SplitWithoutSeparator(arg, '=');
  }

  // ----- identify_invalid_commands -----

  /** What the validator reports: nothing wrong, the first unknown identifier,
      or an empty argument (whose first character cannot be read). */
  datatype Validation = AllValid | InvalidCommand(identifier: string) | EmptyCommand

  /** An argument the validator lets through. */
  predicate PassesValidation(arg: string)
  {
    |arg| > 0 && (arg[0] != '-' || Identifier(arg) in ValidCommands)
  }

  /** The validator's verdict, argument by argument from the front. */
  function FirstInvalid(cmds: seq<string>): Validation
    decreases |cmds|
  {
    if |cmds| == 0 then AllValid
    else if |cmds[0]| == 0 then EmptyCommand
    else if cmds[0][0] == '-' && Identifier(cmds[0]) !in ValidCommands then InvalidCommand(Identifier(cmds[0]))
    else FirstInvalid(cmds[1..])
  }

  /** The whitelist alone decides whether a command is reported, whatever
      value follows its '='. */
  lemma WhitelistDecides(id: string, v: string)
    requires |id| > 0 && id[0] == '-' && '=' !in id
    ensures var verdict := if id in ValidCommands then AllValid else InvalidCommand(id);
            FirstInvalid([id]) == verdict && FirstInvalid([id + "=" + v]) == verdict
  {
    NoValueWithoutSeparator(id);
    SplitAtFirstSeparator(id, '=', v);
    assert id + "=" + v == id + ['='] + v;
    assert [id][1..] == [] && [id + "=" + v][1..] == [];
  }

  /** Nothing is reported exactly when every argument passes. */
  lemma {:induction false} AllValidIffEveryArgumentPasses(cmds: seq<string>)
    ensures FirstInvalid(cmds) == AllValid <==> forall k :: 0 <= k < |cmds| ==> PassesValidation(cmds[k])
    decreases |cmds|
  {
    if |cmds| > 0 {
      AllValidIffEveryArgumentPasses(cmds[1..]);
      assert forall k :: 1 <= k < |cmds| ==> cmds[k] == cmds[1..][k - 1];
    }
  }

  /** Otherwise the report is about the first argument that does not pass:
      its identifier when it is a command, or the empty argument. */
  lemma {:induction false} FirstInvalidAt(cmds: seq<string>, k: int)
    requires 0 <= k < |cmds|
    requires forall j :: 0 <= j < k ==> PassesValidation(cmds[j])
    requires !PassesValidation(cmds[k])
    ensures FirstInvalid(cmds) == if |cmds[k]| == 0 then EmptyCommand else InvalidCommand(Identifier(cmds[k]))
    decreases k
  {
    if k > 0 {
      assert PassesValidation(cmds[0]);
      FirstInvalidAt(cmds[1..], k - 1);
    }
  }

  /** identify_invalid_commands: skips arguments that do not start with '-',
      returns the identifier of the first command not in the whitelist. */
  method IdentifyInvalidCommands(cmds: seq<string>) returns (r: Validation)
    ensures r == FirstInvalid(cmds)
  {
    for i := 0 to |cmds|
      invariant FirstInvalid(cmds) == FirstInvalid(cmds[i..])
    {
      assert cmds[i..][1..] == cmds[i + 1..];
      var cmd := cmds[i];
      if |cmd| == 0 {
        return EmptyCommand;
      }
      if cmd[0] != '-' {
        continue;
      }
      var splitCmd := Split(cmd, '=');
      if splitCmd[0] !in ValidCommands {
        return InvalidCommand(splitCmd[0]);
      }
    }
    return AllValid;
  }

  // ----- parse_commands -----

  /** The exceptions parse_commands raises. */
  datatype ParseError =
    | EmptyArgument                   // IndexError on the first character of ""
    | CommandNotFound(identifier: string)
    | MissingValue(identifier: string) // IndexError: a value-taking command without '='
    | UnknownOptimizeTarget(value: string)
    | InvalidIterationCount(value: string) // ValueError from int()
    | InvalidRaceType(value: string)

  datatype ParseOutcome = ShowHelp | Parsed(settings: Settings) | Failed(error: ParseError)

  /** The effect of one command, given its identifier and value, on the settings. */
  function ApplyCommand(s: Settings, id: string, value: Option<string>): (r: Result<Settings, ParseError>)
    ensures id !in ValidCommands || id == "-help" ==> r == Success(s)
    ensures id in ValidCommands && id != "-help" && value.None? ==> r == Failure(MissingValue(id))
    ensures r.Failure? ==> r.error.MissingValue? || r.error.UnknownOptimizeTarget? ||
                           r.error.InvalidIterationCount? || r.error.InvalidRaceType?
  {
    if id == "-golang" then
      if value.None? then Failure(MissingValue(id)) else Success(s.(golang := value.value == "True"))
    else if id == "-optimize" then
      if value.None? then Failure(MissingValue(id))
      else if value.value == "distance" || value.value == "distance_travelled" then
        Success(s.(returnType := DistanceTravelled))
      else if value.value == "time_taken" || value.value == "time" then
        Success(s.(returnType := TimeTaken))
      else Failure(UnknownOptimizeTarget(value.value))
    else if id == "-iter" then
      if value.None? then Failure(MissingValue(id))
      else
        match ParseInt(value.value)
        case None => Failure(InvalidIterationCount(value.value))
        case Some(n) => Success(s.(optimizationIterations := n))
    else if id == "-verbose" then
      if value.None? then Failure(MissingValue(id)) else Success(s.(verbose := value.value == "True"))
    else if id == "-route_visualization" then
      if value.None? then Failure(MissingValue(id)) else Success(s.(routeVisualization := value.value == "True"))
    else if id == "-race_type" then
      if value.None? then Failure(MissingValue(id))
      else if value.value == "ASC" then Success(s.(raceType := ASC))
      else if value.value == "FSGP" then Success(s.(raceType := FSGP))
      else Failure(InvalidRaceType(value.value))
    else if id == "-granularity" then
      if value.None? then Failure(MissingValue(id)) else Success(s.(granularity := GranularityText(value.value)))
    else Success(s)
  }

  /** The effect of one argument of the parsing loop: arguments that are not
      commands are skipped, an empty one cannot be inspected. */
  function ApplyArgument(s: Settings, arg: string): Result<Settings, ParseError>
  {
    if |arg| == 0 then Failure(EmptyArgument)
    else if arg[0] != '-' then Success(s)
    else ApplyCommand(s, Identifier(arg), ArgumentValue(arg))
  }

  /** The parsing loop over a prefix of the arguments; the first error stops it. */
  function ApplyArguments(s: Settings, args: seq<string>): Result<Settings, ParseError>
    decreases |args|
  {
    if |args| == 0 then Success(s)
    else
      match ApplyArguments(s, args[..|args| - 1])
      case Failure(e) => Failure(e)
      case Success(t) => ApplyArgument(t, args[|args| - 1])
  }

  /** parse_commands as a function of the argument list. */
  function CommandOutcome(cmds: seq<string>): ParseOutcome
  {
    if "-help" in cmds then ShowHelp
    else
      match FirstInvalid(cmds)
      case EmptyCommand => Failed(EmptyArgument)
      case InvalidCommand(id) => Failed(CommandNotFound(id))
      case AllValid =>
        match ApplyArguments(DefaultSettings, cmds)
        case Success(s) => Parsed(s)
        case Failure(e) => Failed(e)
  }

  /** Once the loop has failed on a prefix, the whole loop fails with that error. */
  lemma {:induction false} FailurePersists(s: Settings, args: seq<string>, n: int)
    requires 0 <= n <= |args|
    requires ApplyArguments(s, args[..n]).Failure?
    ensures ApplyArguments(s, args) == ApplyArguments(s, args[..n])
    decreases |args| - n
  {
    if n < |args| {
      assert args[..n + 1][..n] == args[..n];
      FailurePersists(s, args, n + 1);
    } else {
      assert args[..n] == args;
    }
  }

  /** parse_commands: the defaults, the help check, the validation of every
      identifier before any setting is applied, then one pass over the
      commands that assigns the settings object field by field. */
  method ParseCommands(cmds: seq<string>) returns (outcome: ParseOutcome, settings: SimulationSettings)
    ensures fresh(settings)
    ensures outcome == CommandOutcome(cmds)
    ensures outcome.Parsed? ==> settings.Value() == outcome.settings
  {
    settings := new SimulationSettings(ASC, true, TimeTaken, 5, false, false, GranularityCount(1));
    if "-help" in cmds {
      return ShowHelp, settings;
    }
    var invalid := IdentifyInvalidCommands(cmds);
    match invalid {
      case EmptyCommand =>
        return Failed(EmptyArgument), settings;
      case InvalidCommand(id) =>
        return Failed(CommandNotFound(id)), settings;
      case AllValid =>
    }
    AllValidIffEveryArgumentPasses(cmds);
    for i := 0 to |cmds|
      invariant ApplyArguments(DefaultSettings, cmds[..i]) == Success(settings.Value())
    {
      assert cmds[..i + 1][..i] == cmds[..i];
      assert PassesValidation(cmds[i]);
      var cmd := cmds[i];
      ghost var step := ApplyArgument(settings.Value(), cmd);
      assert ApplyArguments(DefaultSettings, cmds[..i + 1]) == step;
      if cmd[0] != '-' {
        continue;
      }
      var splitCmd := Split(cmd, '=');
      assert step == ApplyCommand(settings.Value(), splitCmd[0], if |splitCmd| >= 2 then Some(splitCmd[1]) else None);
      if step.Failure? {
        FailurePersists(DefaultSettings, cmds, i + 1);
      }
      if splitCmd[0] == "-golang" {
        if |splitCmd| < 2 {
          return Failed(MissingValue(splitCmd[0])), settings;
        }
        settings.golang := splitCmd[1] == "True";
      } else if splitCmd[0] == "-optimize" {
        if |splitCmd| < 2 {
          return Failed(MissingValue(splitCmd[0])), settings;
        }
        if splitCmd[1] == "distance" || splitCmd[1] == "distance_travelled" {
          settings.returnType := DistanceTravelled;
        } else if splitCmd[1] == "time_taken" || splitCmd[1] == "time" {
          settings.returnType := TimeTaken;
        } else {
          return Failed(UnknownOptimizeTarget(splitCmd[1])), settings;
        }
      } else if splitCmd[0] == "-iter" {
        if |splitCmd| < 2 {
          return Failed(MissingValue(splitCmd[0])), settings;
        }
        var n := ParseInt(splitCmd[1]);
        if n.None? {
          return Failed(InvalidIterationCount(splitCmd[1])), settings;
        }
        settings.optimizationIterations := n.value;
      } else if splitCmd[0] == "-verbose" {
        if |splitCmd| < 2 {
          return Failed(MissingValue(splitCmd[0])), settings;
        }
        settings.verbose := splitCmd[1] == "True";
      } else if splitCmd[0] == "-route_visualization" {
        if |splitCmd| < 2 {
          return Failed(MissingValue(splitCmd[0])), settings;
        }
        settings.routeVisualization := splitCmd[1] == "True";
      } else if splitCmd[0] == "-race_type" {
        if |splitCmd| < 2 {
          return Failed(MissingValue(splitCmd[0])), settings;
        }
        if splitCmd[1] == "ASC" {
          settings.raceType := ASC;
        } else if splitCmd[1] == "FSGP" {
          settings.raceType := FSGP;
        } else {
          return Failed(InvalidRaceType(splitCmd[1])), settings;
        }
      } else if splitCmd[0] == "-granularity" {
        if |splitCmd| < 2 {
          return Failed(MissingValue(splitCmd[0])), settings;
        }
        settings.granularity := GranularityText(splitCmd[1]);
      }
    }
    assert cmds[..|cmds|] == cmds;
    return Parsed(settings.Value()), settings;
  }

  // ----- Properties of the parser -----

  /** Arguments that are not commands leave the settings alone. */
  lemma {:induction false} NonCommandsKeepSettings(s: Settings, args: seq<string>)
    requires forall k :: 0 <= k < |args| ==> |args[k]| > 0 && args[k][0] != '-'
    ensures ApplyArguments(s, args) == Success(s)
    decreases |args|
  {
    if |args| > 0 {
      NonCommandsKeepSettings(s, args[..|args| - 1]);
    }
  }

  /** Without a single command the result is the defaults. */
  lemma NoCommandsGiveDefaults(cmds: seq<string>)
    requires forall k :: 0 <= k < |cmds| ==> |cmds[k]| > 0 && cmds[k][0] != '-'
    ensures CommandOutcome(cmds) == Parsed(DefaultSettings)
  {
    assert "-help"[0] == '-';
    AllValidIffEveryArgumentPasses(cmds);
    NonCommandsKeepSettings(DefaultSettings, cmds);
  }

  /** An unknown identifier is reported before any value is looked at: even a
      bad value earlier in the list does not change the error. */
  lemma UnknownCommandReportedFirst(cmds: seq<string>, k: int)
    requires "-help" !in cmds
    requires 0 <= k < |cmds|
    requires forall j :: 0 <= j < k ==> PassesValidation(cmds[j])
    requires IsCommand(cmds[k]) && Identifier(cmds[k]) !in ValidCommands
    ensures CommandOutcome(cmds) == Failed(CommandNotFound(Identifier(cmds[k])))
  {
    FirstInvalidAt(cmds, k);
  }

  /** The argument `id=v` is the command `id` with value `v`. */
  lemma CommandText(s: Settings, id: string, v: string)
    requires |id| > 0 && id[0] == '-' && '=' !in id && '=' !in v
    ensures ApplyArgument(s, id + "=" + v) == ApplyCommand(s, id, Some(v))
  {
    ValueIsSecondSegment(id, v, "");
    assert id + "=" + v == id + "=" + v + "";
  }

  /** `-golang`, `-verbose` and `-route_visualization` are true exactly when
      the value is the text True. */
  lemma BooleanFlags(s: Settings, v: string)
    requires '=' !in v
    ensures ApplyArgument(s, "-golang=" + v) == Success(s.(golang := v == "True"))
    ensures ApplyArgument(s, "-verbose=" + v) == Success(s.(verbose := v == "True"))
    ensures ApplyArgument(s, "-route_visualization=" + v) == Success(s.(routeVisualization := v == "True"))
  {
    assert "-golang=" + v == "-golang" + "=" + v;
    CommandText(s, "-golang", v);
    assert "-verbose=" + v == "-verbose" + "=" + v;
    CommandText(s, "-verbose", v);
    assert "-route_visualization=" + v == "-route_visualization" + "=" + v;
    CommandText(s, "-route_visualization", v);
  }

  /** `-optimize` knows two spellings for each target and refuses the rest. */
  lemma OptimizeTargets(s: Settings, v: string)
    requires '=' !in v
    ensures ApplyArgument(s, "-optimize=" + v) ==
      if v == "distance" || v == "distance_travelled" then Success(s.(returnType := DistanceTravelled))
      else if v == "time_taken" || v == "time" then Success(s.(returnType := TimeTaken))
      else Failure(UnknownOptimizeTarget(v))
  {
    assert "-optimize=" + v == "-optimize" + "=" + v;
    CommandText(s, "-optimize", v);
  }

  /** `-race_type` accepts ASC and FSGP only. */
  lemma RaceTypes(s: Settings, v: string)
    requires '=' !in v
    ensures ApplyArgument(s, "-race_type=" + v) ==
      if v == "ASC" then Success(s.(raceType := ASC))
      else if v == "FSGP" then Success(s.(raceType := FSGP))
      else Failure(InvalidRaceType(v))
  {
    assert "-race_type=" + v == "-race_type" + "=" + v;
    CommandText(s, "-race_type", v);
  }

  /** `-granularity` keeps the value's text; a third '=' segment is ignored. */
  lemma GranularityKeepsText(s: Settings, v: string, tail: string)
    requires '=' !in v
    ensures ApplyArgument(s, "-granularity=" + v) == Success(s.(granularity := GranularityText(v)))
    ensures ApplyArgument(s, "-granularity=" + v + "=" + tail) == Success(s.(granularity := GranularityText(v)))
  {
    assert "-granularity=" + v == "-granularity" + "=" + v;
    CommandText(s, "-granularity", v);
    assert ("-granularity=" + v + "=" + tail)[0] == '-';
    assert "-granularity=" + v + "=" + tail == "-granularity" + "=" + v + "=" + tail;
    ValueIsSecondSegment("-granularity", v, tail);
  }

  /** `-iter` stores what `int()` makes of its value, and a value `int()`
      refuses raises. */
  lemma IterationValues(s: Settings, v: string)
    requires '=' !in v
    ensures ApplyArgument(s, "-iter=" + v) ==
      match ParseInt(v)
      case None => Failure(InvalidIterationCount(v))
      case Some(n) => Success(s.(optimizationIterations := n))
  {
    assert "-iter=" + v == "-iter" + "=" + v;
    CommandText(s, "-iter", v);
  }

  /** `-iter` reads back any integer written in decimal. */
  lemma IterationCount(s: Settings, n: int)
    ensures ApplyArgument(s, "-iter=" + IntToString(n)) == Success(s.(optimizationIterations := n))
  {
    var text := IntToString(n);
    assert '=' !in text by {
      if n < 0 {
        assert text == "-" + NatToString(-n);
      }
    }
    assert "-iter=" + text == "-iter" + "=" + text;
    CommandText(s, "-iter", text);
    ParseIntOfIntToString(n);
  }

  /** No whitelisted identifier contains '='. */
  lemma ValidCommandsHaveNoSeparator(id: string)
    requires id in ValidCommands
    ensures '=' !in id
  {
  }

  /** A value-taking command written without '=' fails for want of its value. */
  lemma CommandWithoutValueFails(s: Settings, id: string)
    requires id in ValidCommands && id != "-help"
    ensures ApplyArgument(s, id) == Failure(MissingValue(id))
  {
    ValidCommandsHaveNoSeparator(id);
    NoValueWithoutSeparator(id);
  }

  /** The setting a command controls, read off a settings value. */
  datatype FieldValue =
    | RaceField(raceType: RaceType)
    | FlagField(flag: bool)
    | ReturnField(returnType: ReturnType)
    | CountField(count: int)
    | GranularityField(granularity: Granularity)
    | NoField

  function FieldOf(s: Settings, id: string): FieldValue
  {
    if id == "-race_type" then RaceField(s.raceType)
    else if id == "-golang" then FlagField(s.golang)
    else if id == "-optimize" then ReturnField(s.returnType)
    else if id == "-iter" then CountField(s.optimizationIterations)
    else if id == "-verbose" then FlagField(s.verbose)
    else if id == "-route_visualization" then FlagField(s.routeVisualization)
    else if id == "-granularity" then GranularityField(s.granularity)
    else NoField
  }

  /** Whether a command succeeds depends on its identifier and value alone. */
  lemma ApplyCommandOutcomeIndependent(s: Settings, t: Settings, cid: string, value: Option<string>)
    ensures ApplyCommand(s, cid, value).Success? == ApplyCommand(t, cid, value).Success?
  {
  }

  /** `r` agrees with `s` on every setting that the command `cid` does not control. */
  predicate SameExcept(s: Settings, r: Settings, cid: string)
  {
    (cid != "-race_type" ==> r.raceType == s.raceType) &&
    (cid != "-golang" ==> r.golang == s.golang) &&
    (cid != "-optimize" ==> r.returnType == s.returnType) &&
    (cid != "-iter" ==> r.optimizationIterations == s.optimizationIterations) &&
    (cid != "-verbose" ==> r.verbose == s.verbose) &&
    (cid != "-route_visualization" ==> r.routeVisualization == s.routeVisualization) &&
    (cid != "-granularity" ==> r.granularity == s.granularity)
  }

  lemma FieldOfSameExcept(s: Settings, r: Settings, cid: string, id: string)
    requires SameExcept(s, r, cid) && cid != id
    ensures FieldOf(r, id) == FieldOf(s, id)
  {
  }

  lemma ApplyCommandSameExcept(s: Settings, cid: string, value: Option<string>)
    requires ApplyCommand(s, cid, value).Success?
    ensures SameExcept(s, ApplyCommand(s, cid, value).value, cid)
  {
  }

  /** A command leaves every setting but its own alone. */
  lemma ApplyCommandKeepsOthers(s: Settings, cid: string, value: Option<string>, id: string)
    requires cid != id
    requires ApplyCommand(s, cid, value).Success?
    ensures FieldOf(ApplyCommand(s, cid, value).value, id) == FieldOf(s, id)
  {
    ApplyCommandSameExcept(s, cid, value);
    FieldOfSameExcept(s, ApplyCommand(s, cid, value).value, cid, id);
  }

  /** `r` and `q` agree on the setting that the command `cid` controls. */
  predicate SameOwn(r: Settings, q: Settings, cid: string)
  {
    (cid == "-race_type" ==> r.raceType == q.raceType) &&
    (cid == "-golang" ==> r.golang == q.golang) &&
    (cid == "-optimize" ==> r.returnType == q.returnType) &&
    (cid == "-iter" ==> r.optimizationIterations == q.optimizationIterations) &&
    (cid == "-verbose" ==> r.verbose == q.verbose) &&
    (cid == "-route_visualization" ==> r.routeVisualization == q.routeVisualization) &&
    (cid == "-granularity" ==> r.granularity == q.granularity)
  }

  lemma FieldOfSameOwn(r: Settings, q: Settings, cid: string)
    requires SameOwn(r, q, cid)
    ensures FieldOf(r, cid) == FieldOf(q, cid)
  {
  }

  lemma ApplyCommandSameOwn(s: Settings, t: Settings, cid: string, value: Option<string>)
    requires ApplyCommand(s, cid, value).Success? && ApplyCommand(t, cid, value).Success?
    ensures SameOwn(ApplyCommand(s, cid, value).value, ApplyCommand(t, cid, value).value, cid)
  {
    if cid == "-race_type" {
      OwnSettingRaceType(s, t, value);
    } else if cid == "-golang" {
      OwnSettingGolang(s, t, value);
    } else if cid == "-optimize" {
      OwnSettingOptimize(s, t, value);
    } else if cid == "-iter" {
      OwnSettingIter(s, t, value);
    } else if cid == "-verbose" {
      OwnSettingVerbose(s, t, value);
    } else if cid == "-route_visualization" {
      OwnSettingRouteVisualization(s, t, value);
    } else if cid == "-granularity" {
      OwnSettingGranularity(s, t, value);
    }
  }

  // One lemma per setting command: with the identifier fixed, the value alone
  // decides the setting. Each is small on its own; left to a single proof
  // (an empty ApplyCommandSetsFromValue, or one case split here with empty
  // branches) the same fact costs the solver between one and two million
  // resource units, at the limit on some seeds.
  lemma OwnSettingRaceType(s: Settings, t: Settings, value: Option<string>)
    requires ApplyCommand(s, "-race_type", value).Success?
    requires ApplyCommand(t, "-race_type", value).Success?
    ensures ApplyCommand(s, "-race_type", value).value.raceType
         == ApplyCommand(t, "-race_type", value).value.raceType
  {
  }

  lemma OwnSettingGolang(s: Settings, t: Settings, value: Option<string>)
    requires ApplyCommand(s, "-golang", value).Success?
    requires ApplyCommand(t, "-golang", value).Success?
    ensures ApplyCommand(s, "-golang", value).value.golang
         == ApplyCommand(t, "-golang", value).value.golang
  {
  }

  lemma OwnSettingOptimize(s: Settings, t: Settings, value: Option<string>)
    requires ApplyCommand(s, "-optimize", value).Success?
    requires ApplyCommand(t, "-optimize", value).Success?
    ensures ApplyCommand(s, "-optimize", value).value.returnType
         == ApplyCommand(t, "-optimize", value).value.returnType
  {
  }

  lemma OwnSettingIter(s: Settings, t: Settings, value: Option<string>)
    requires ApplyCommand(s, "-iter", value).Success?
    requires ApplyCommand(t, "-iter", value).Success?
    ensures ApplyCommand(s, "-iter", value).value.optimizationIterations
         == ApplyCommand(t, "-iter", value).value.optimizationIterations
  {
  }

  lemma OwnSettingVerbose(s: Settings, t: Settings, value: Option<string>)
    requires ApplyCommand(s, "-verbose", value).Success?
    requires ApplyCommand(t, "-verbose", value).Success?
    ensures ApplyCommand(s, "-verbose", value).value.verbose
         == ApplyCommand(t, "-verbose", value).value.verbose
  {
  }

  lemma OwnSettingRouteVisualization(s: Settings, t: Settings, value: Option<string>)
    requires ApplyCommand(s, "-route_visualization", value).Success?
    requires ApplyCommand(t, "-route_visualization", value).Success?
    ensures ApplyCommand(s, "-route_visualization", value).value.routeVisualization
         == ApplyCommand(t, "-route_visualization", value).value.routeVisualization
  {
  }

  lemma OwnSettingGranularity(s: Settings, t: Settings, value: Option<string>)
    requires ApplyCommand(s, "-granularity", value).Success?
    requires ApplyCommand(t, "-granularity", value).Success?
    ensures ApplyCommand(s, "-granularity", value).value.granularity
         == ApplyCommand(t, "-granularity", value).value.granularity
  {
  }

  /** A command sets its own setting from its value alone. */
  lemma ApplyCommandSetsFromValue(s: Settings, t: Settings, cid: string, value: Option<string>)
    requires ApplyCommand(s, cid, value).Success?
    ensures ApplyCommand(t, cid, value).Success?
    ensures FieldOf(ApplyCommand(s, cid, value).value, cid) == FieldOf(ApplyCommand(t, cid, value).value, cid)
  {
    ApplyCommandOutcomeIndependent(s, t, cid, value);
    ApplyCommandSameOwn(s, t, cid, value);
    FieldOfSameOwn(ApplyCommand(s, cid, value).value, ApplyCommand(t, cid, value).value, cid);
  }

  /** The same for one argument of the loop. */
  lemma ApplyArgumentFrame(s: Settings, t: Settings, arg: string, id: string)
    ensures ApplyArgument(s, arg).Success? == ApplyArgument(t, arg).Success?
    ensures ApplyArgument(s, arg).Success? && !(IsCommand(arg) && Identifier(arg) == id) ==>
      FieldOf(ApplyArgument(s, arg).value, id) == FieldOf(s, id)
    ensures ApplyArgument(s, arg).Success? && IsCommand(arg) ==>
      FieldOf(ApplyArgument(s, arg).value, Identifier(arg)) == FieldOf(ApplyArgument(t, arg).value, Identifier(arg))
  {
    if IsCommand(arg) {
      var cid, value := Identifier(arg), ArgumentValue(arg);
      ApplyCommandOutcomeIndependent(s, t, cid, value);
      if ApplyCommand(s, cid, value).Success? {
        if cid != id {
          ApplyCommandKeepsOthers(s, cid, value, id);
        }
        ApplyCommandSetsFromValue(s, t, cid, value);
      }
    }
  }

  /** The loop succeeds on a list only when it succeeds on every prefix. */
  lemma {:induction false} PrefixSucceeds(s: Settings, args: seq<string>)
    requires |args| > 0
    requires ApplyArguments(s, args).Success?
    ensures ApplyArguments(s, args[..|args| - 1]).Success?
  {
  }

  /** A setting that no command mentions keeps its value. */
  lemma {:induction false} UntouchedSettingKept(s: Settings, args: seq<string>, id: string)
    requires ApplyArguments(s, args).Success?
    requires forall j :: 0 <= j < |args| ==> !(IsCommand(args[j]) && Identifier(args[j]) == id)
    ensures FieldOf(ApplyArguments(s, args).value, id) == FieldOf(s, id)
    decreases |args|
  {
    if |args| > 0 {
      var init := args[..|args| - 1];
      PrefixSucceeds(s, args);
      UntouchedSettingKept(s, init, id);
      var t := ApplyArguments(s, init).value;
      ApplyArgumentFrame(t, t, args[|args| - 1], id);
    }
  }

  /** When a command is repeated, its last occurrence decides the setting. */
  lemma {:induction false} LastOccurrenceWins(s: Settings, args: seq<string>, k: int)
    requires 0 <= k < |args| && IsCommand(args[k])
    requires forall j :: k < j < |args| ==> !(IsCommand(args[j]) && Identifier(args[j]) == Identifier(args[k]))
    requires ApplyArguments(s, args).Success?
    ensures ApplyArgument(DefaultSettings, args[k]).Success?
    ensures FieldOf(ApplyArguments(s, args).value, Identifier(args[k]))
         == FieldOf(ApplyArgument(DefaultSettings, args[k]).value, Identifier(args[k]))
    decreases |args|
  {
    var id := Identifier(args[k]);
    var init := args[..|args| - 1];
    PrefixSucceeds(s, args);
    var t := ApplyArguments(s, init).value;
    if k == |args| - 1 {
      ApplyArgumentFrame(t, DefaultSettings, args[k], id);
    } else {
      assert init[k] == args[k];
      LastOccurrenceWins(s, init, k);
      ApplyArgumentFrame(t, t, args[|args| - 1], id);
    }
  }

  /** The arguments of a command line of the usage line's shape
      (`run_simulation.py -golang=False -optimize=time_taken -iter=3`). */
  function UsageLine(program: string, flag: string, target: string, n: int): seq<string>
  {
    [program, "-golang=" + flag, "-optimize=" + target, "-iter=" + IntToString(n)]
  }

  /** Every argument of such a line passes validation, and none asks for help. */
  lemma UsageLineValid(program: string, flag: string, target: string, n: int)
    requires |program| > 0 && program[0] != '-'
    requires '=' !in flag && '=' !in target
    ensures "-help" !in UsageLine(program, flag, target, n)
    ensures FirstInvalid(UsageLine(program, flag, target, n)) == AllValid
  {
    var cmds := UsageLine(program, flag, target, n);
    var text := IntToString(n);
    assert '=' !in text by {
      if n < 0 {
        assert text == "-" + NatToString(-n);
      }
    }
    assert cmds[1] == "-golang" + "=" + flag && cmds[1][1] == 'g';
    assert cmds[2] == "-optimize" + "=" + target && cmds[2][1] == 'o';
    assert cmds[3] == "-iter" + "=" + text && cmds[3][1] == 'i';
    assert "-help" !in cmds by {
      assert "-help"[1] == 'h';
    }
    ValueIsSecondSegment("-golang", flag, "");
    ValueIsSecondSegment("-optimize", target, "");
    ValueIsSecondSegment("-iter", text, "");
    assert PassesValidation(cmds[1]) && PassesValidation(cmds[2]) && PassesValidation(cmds[3]);
    AllValidIffEveryArgumentPasses(cmds);
  }

  /** The target `-optimize` selects for a value does not depend on the
      settings it is applied to. */
  lemma OptimizeSelects(s: Settings, target: string, rt: ReturnType)
    requires '=' !in target
    requires ApplyCommand(DefaultSettings, "-optimize", Some(target)) == Success(DefaultSettings.(returnType := rt))
    ensures ApplyArgument(s, "-optimize=" + target) == Success(s.(returnType := rt))
  {
    OptimizeTargets(s, target);
  }

  /** The loop over such a line replaces exactly the three settings it names. */
  lemma UsageLineApplied(program: string, flag: string, target: string, rt: ReturnType, n: int)
    requires |program| > 0 && program[0] != '-'
    requires '=' !in flag && '=' !in target
    requires ApplyCommand(DefaultSettings, "-optimize", Some(target)) == Success(DefaultSettings.(returnType := rt))
    ensures ApplyArguments(DefaultSettings, UsageLine(program, flag, target, n))
         == Success(DefaultSettings.(golang := flag == "True", returnType := rt,
                                     optimizationIterations := n))
  {
    var cmds := UsageLine(program, flag, target, n);
    var s1 := DefaultSettings.(golang := flag == "True");
    var s2 := s1.(returnType := rt);
    var s3 := s2.(optimizationIterations := n);
    BooleanFlags(DefaultSettings, flag);
    OptimizeSelects(s1, target, rt);
    IterationCount(s2, n);
    assert ApplyArguments(DefaultSettings, cmds[..1]) == Success(DefaultSettings) by {
      assert cmds[..1][..0] == [];
    }
    assert ApplyArguments(DefaultSettings, cmds[..2]) == Success(s1) by {
      assert cmds[..2][..1] == cmds[..1];
    }
    assert ApplyArguments(DefaultSettings, cmds[..3]) == Success(s2) by {
      assert cmds[..3][..2] == cmds[..2];
    }
    assert cmds[..4][..3] == cmds[..3] && cmds[..4] == cmds;
  }

  /** A command line of the usage line's shape parses to the defaults with
      exactly those three settings replaced; the target is whatever
      `-optimize` selects for the value given. */
  lemma UsageExample(program: string, flag: string, target: string, rt: ReturnType, n: int)
    requires |program| > 0 && program[0] != '-'
    requires '=' !in flag && '=' !in target
    requires ApplyCommand(DefaultSettings, "-optimize", Some(target)) == Success(DefaultSettings.(returnType := rt))
    ensures CommandOutcome(UsageLine(program, flag, target, n))
         == Parsed(DefaultSettings.(golang := flag == "True", returnType := rt,
                                    optimizationIterations := n))
  {
    UsageLineValid(program, flag, target, n);
    UsageLineApplied(program, flag, target, rt, n);
  }
}
