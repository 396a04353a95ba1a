/**
 * The command-line option parser of `named.js`.
 *
 * The script keeps ten option variables, starts them at fixed defaults and
 * walks `process.argv` from index 2.  Every token either updates one option
 * (`+dnssec` updates two: edns and dnssec), takes the next token as the value
 * of its option, ends the program with the version banner, or throws
 * "Unexpected argument".
 *
 * `Parse` is the specification (one `StepOn` per pass of the loop body);
 * `ParseArgv` is the loop itself, over local variables, proved equal to it.
 */
module ArgvParser {
  import opened Wrappers

  /** A port number, as `util.parseU16` returns it. */
  type U16 = x: int | 0 <= x < 0x1_0000

  /**
   * `util.parseU16`, whose body is not part of this model: it is given the
   * token after `-p` (`None` when `argv[i + 1]` is past the end, i.e.
   * `undefined`) and yields a port, or `None` when it throws.
   */
  type PortParser = Option<string> -> Option<U16>

  /** The ten option variables of the script. */
  datatype Options = Options(
    host: string,
    port: U16,
    confFile: Option<string>,
    hostsFile: Option<string>,
    recursive: bool,
    hintsFile: Option<string>,
    inet6: Option<bool>,
    edns: Option<bool>,
    dnssec: Option<bool>,
    debug: bool)

  /** The values the option variables start with. */
  function Defaults(): Options {
    Options("127.0.0.1", 53, None, None, false, None, None, None, None, false)
  }

  /** Why parsing throws. */
  datatype Failure =
    | UnexpectedArgument(arg: string)   // an empty or unrecognised token
    | BadPort(operand: Option<string>)  // `util.parseU16` rejected the operand of `-p`

  /** How parsing ends: with options to start a server from, with the version banner, or with an error. */
  datatype Outcome = Run(opts: Options) | Exit | Fail(failure: Failure)

  /** What a single token means to the `switch`. */
  datatype Flag =
    | UseIPv4 | UseIPv6          // -4, -6
    | PortOpt                    // -p <port>
    | ConfOpt | HostsOpt         // --conf <file>, --hosts <file>
    | RecursiveOpt               // -r, --recursive
    | HintsOpt                   // --hints <file>
    | VersionOpt                 // -h, --help, -?, -v
    | EdnsOn | EdnsOff           // +edns, +noedns
    | DnssecOn | DnssecOff       // +dnssec, +nodnssec
    | DebugOn | DebugOff         // +debug, +nodebug
    | HostAt(name: string)       // @<host>
    | Unknown                    // anything else, and the empty token

  /** The tokens the `switch` names a case for. */
  function Keywords(): set<string> {
    {"-4", "-6", "-p", "--conf", "--hosts", "-r", "--recursive", "--hints",
     "-h", "--help", "-?", "-v", "+edns", "+noedns", "+dnssec", "+nodnssec",
     "+debug", "+nodebug"}
  }

  /** The flags that take the following token as their value. */
  predicate TakesOperand(f: Flag) {
    f == PortOpt || f == ConfOpt || f == HostsOpt || f == HintsOpt
  }

  /** The flags that change one option (`+dnssec` changes two: edns and dnssec) and let parsing go on with the next token. */
  predicate IsSwitch(f: Flag) {
    !TakesOperand(f) && f != VersionOpt && f != Unknown
  }

  /** The empty-token check followed by the `switch` of the loop body. */
  function Classify(arg: string): Flag {
    if |arg| == 0 then Unknown
    else match arg
      case "-4" => UseIPv4
      case "-6" => UseIPv6
      case "-p" => PortOpt
      case "--conf" => ConfOpt
      case "--hosts" => HostsOpt
      case "-r" => RecursiveOpt
      case "--recursive" => RecursiveOpt
      case "--hints" => HintsOpt
      case "-h" => VersionOpt
      case "--help" => VersionOpt
      case "-?" => VersionOpt
      case "-v" => VersionOpt
      case "+edns" => EdnsOn
      case "+noedns" => EdnsOff
      case "+dnssec" => DnssecOn
      case "+nodnssec" => DnssecOff
      case "+debug" => DebugOn
      case "+nodebug" => DebugOff
      case _ => if arg[0] == '@' then HostAt(arg[1..]) else Unknown
  }

  /**
   * What `Classify` recognises: a host exactly for an `@`-token, a rejection
   * exactly for the empty token and the unlabelled tokens without `@`, and
   * the help/version and value-taking labels exactly.
   */
  lemma ClassifyMeaning(arg: string)
    ensures Classify(arg).HostAt? <==> |arg| > 0 && arg[0] == '@'
    ensures Classify(arg).HostAt? ==> Classify(arg).name == arg[1..]
    ensures Classify(arg) == Unknown <==> arg !in Keywords() && (arg == "" || arg[0] != '@')
    ensures Classify(arg) == VersionOpt <==> arg in {"-h", "--help", "-?", "-v"}
    ensures TakesOperand(Classify(arg)) <==> arg in {"-p", "--conf", "--hosts", "--hints"}
  {
  }

  /** The effect of a switch on the options. */
  function Apply(f: Flag, o: Options): (r: Options)
    requires IsSwitch(f)
    ensures r.port == o.port && r.confFile == o.confFile && r.hostsFile == o.hostsFile && r.hintsFile == o.hintsFile
    ensures f.HostAt? ==> r == o.(host := f.name)
    ensures !f.HostAt? ==> r.host == o.host
  {
    match f
    case UseIPv4 => o.(inet6 := Some(false))
    case UseIPv6 => o.(inet6 := Some(true))
    case RecursiveOpt => o.(recursive := true)
    case EdnsOn => o.(edns := Some(true))
    case EdnsOff => o.(edns := Some(false))
    case DnssecOn => o.(edns := Some(true), dnssec := Some(true))
    case DnssecOff => o.(dnssec := Some(false))
    case DebugOn => o.(debug := true)
    case DebugOff => o.(debug := false)
    case HostAt(name) => o.(host := name)
  }

  /** `argv[i + 1]`: `undefined` (`None`) when it is past the end. */
  function OperandAt(argv: seq<string>, i: nat): Option<string> {
    if i + 1 < |argv| then Some(argv[i + 1]) else None
  }

  /** What one pass of the loop body does: go on `width` tokens further with new options, or stop. */
  datatype Step = Next(opts: Options, width: nat) | Stop(outcome: Outcome)

  /**
   * One pass of the loop body on the token `arg`, where `operand` is
   * `argv[i + 1]` (`None` when that is past the end).
   */
  function StepOn(arg: string, operand: Option<string>, o: Options, parseU16: PortParser): (s: Step)
    ensures s.Next? ==> s.width == if TakesOperand(Classify(arg)) then 2 else 1
    ensures s.Stop? <==>
      Classify(arg) == VersionOpt || Classify(arg) == Unknown ||
      (Classify(arg) == PortOpt && parseU16(operand).None?)
  {
    match Classify(arg)
    case Unknown => Stop(Fail(UnexpectedArgument(arg)))
    case VersionOpt => Stop(Exit)
    case PortOpt =>
      (match parseU16(operand)
       case None => Stop(Fail(BadPort(operand)))
       case Some(p) => Next(o.(port := p), 2))
    case ConfOpt => Next(o.(confFile := operand), 2)
    case HostsOpt => Next(o.(hostsFile := operand), 2)
    case HintsOpt => Next(o.(hintsFile := operand), 2)
    case f => Next(Apply(f, o), 1)
  }

  /** Only a value-taking flag reads `argv[i + 1]`: for every other token the operand makes no difference. */
  lemma OperandReadOnlyByValueFlags(arg: string, operand: Option<string>, o: Options, parseU16: PortParser)
    requires !TakesOperand(Classify(arg))
    ensures StepOn(arg, operand, o, parseU16) == StepOn(arg, None, o, parseU16)
  {
  }

  /** The rest of the loop, from index `i` with options `o`. */
  function ParseFrom(argv: seq<string>, i: nat, o: Options, parseU16: PortParser): Outcome
    decreases |argv| - i
  {
    if i >= |argv| then Run(o)
    else match StepOn(argv[i], OperandAt(argv, i), o, parseU16)
      case Stop(r) => r
      case Next(o', w) => ParseFrom(argv, i + w, o', parseU16)
  }

  /** The whole loop: from index 2 with the defaults. */
  function Parse(argv: seq<string>, parseU16: PortParser): Outcome {
    ParseFrom(argv, 2, Defaults(), parseU16)
  }

  /** The parsing loop of `named.js`, over the script's option variables. */
  method ParseArgv(argv: seq<string>, parseU16: PortParser) returns (outcome: Outcome)
    ensures outcome == Parse(argv, parseU16)
  {
    var host := "127.0.0.1";
    var port: U16 := 53;
    var confFile: Option<string> := None;
    var hostsFile: Option<string> := None;
    var recursive := false;
    var hintsFile: Option<string> := None;
    var inet6: Option<bool> := None;
    var edns: Option<bool> := None;
    var dnssec: Option<bool> := None;
    var debug := false;

    var i: nat := 2;
    while i < |argv|
      invariant ParseFrom(argv, i, Options(host, port, confFile, hostsFile, recursive,
                                           hintsFile, inet6, edns, dnssec, debug), parseU16)
                == Parse(argv, parseU16)
      decreases |argv| - i
    {
      var arg := argv[i];
      if |arg| == 0 {
        return Fail(UnexpectedArgument(arg));
      }
      // The `switch`: `Classify` maps each case label (and the `default` test for
      // `@`) to its flag; each case below is the body the script runs for it.
      // `o` is the options before this pass, for the `StepOn` it matches.
      ghost var o := Options(host, port, confFile, hostsFile, recursive, hintsFile, inet6, edns, dnssec, debug);
      ghost var operand := OperandAt(argv, i);
      match Classify(arg) {
        case UseIPv4 =>
          assert StepOn(arg, operand, o, parseU16) == Next(o.(inet6 := Some(false)), 1);
          inet6 := Some(false);
        case UseIPv6 =>
          assert StepOn(arg, operand, o, parseU16) == Next(o.(inet6 := Some(true)), 1);
          inet6 := Some(true);
        case PortOpt =>
          var parsed := parseU16(OperandAt(argv, i));
          if parsed.None? {
            return Fail(BadPort(OperandAt(argv, i)));
          }
          port := parsed.value;
          i := i + 1;
        case ConfOpt =>
          assert StepOn(arg, operand, o, parseU16) == Next(o.(confFile := operand), 2);
          confFile := OperandAt(argv, i);
          i := i + 1;
        case HostsOpt =>
          assert StepOn(arg, operand, o, parseU16) == Next(o.(hostsFile := operand), 2);
          hostsFile := OperandAt(argv, i);
          i := i + 1;
        case RecursiveOpt =>
          assert StepOn(arg, operand, o, parseU16) == Next(o.(recursive := true), 1);
          recursive := true;
        case HintsOpt =>
          assert StepOn(arg, operand, o, parseU16) == Next(o.(hintsFile := operand), 2);
          hintsFile := OperandAt(argv, i);
          i := i + 1;
        case VersionOpt => return Exit;
        case EdnsOn =>
          assert StepOn(arg, operand, o, parseU16) == Next(o.(edns := Some(true)), 1);
          edns := Some(true);
        case EdnsOff =>
          assert StepOn(arg, operand, o, parseU16) == Next(o.(edns := Some(false)), 1);
          edns := Some(false);
        case DnssecOn =>
          assert StepOn(arg, operand, o, parseU16) == Next(o.(edns := Some(true), dnssec := Some(true)), 1);
          edns := Some(true);
          dnssec := Some(true);
        case DnssecOff =>
          assert StepOn(arg, operand, o, parseU16) == Next(o.(dnssec := Some(false)), 1);
          dnssec := Some(false);
        case DebugOn =>
          assert StepOn(arg, operand, o, parseU16) == Next(o.(debug := true), 1);
          debug := true;
        case DebugOff =>
          assert StepOn(arg, operand, o, parseU16) == Next(o.(debug := false), 1);
          debug := false;
        case HostAt(name) =>
          assert StepOn(arg, operand, o, parseU16) == Next(o.(host := name), 1);
          host := name;
        case Unknown => return Fail(UnexpectedArgument(arg));
      }
      i := i + 1;
    }
    return Run(Options(host, port, confFile, hostsFile, recursive,
                       hintsFile, inet6, edns, dnssec, debug));
  }
}
