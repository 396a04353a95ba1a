/**
 * What the option parser of `named.js` promises, stated over `Parse`:
 * the defaults, the entries it never reads, what each token does, the order
 * in which repeated options win, and which token read by the loop produced
 * each stop and each option that differs from its default.
 */
module ArgvProperties {
  import opened Wrappers
  import opened ArgvParser

  // ---------------------------------------------------------------------------
  // Defaults and the first two entries
  // ---------------------------------------------------------------------------

  /** With nothing after the interpreter and the script, the options are the defaults. */
  lemma NoArgumentsGivesDefaults(argv: seq<string>, parseU16: PortParser)
    requires |argv| <= 2
    ensures Parse(argv, parseU16) == Run(Defaults())
    ensures Defaults().host == "127.0.0.1" && Defaults().port == 53
    ensures !Defaults().recursive && !Defaults().debug
    ensures Defaults().confFile == None && Defaults().hostsFile == None && Defaults().hintsFile == None
    ensures Defaults().inet6 == None && Defaults().edns == None && Defaults().dnssec == None
  {
  }

  /** The loop from index `i` reads no entry before `i`. */
  lemma {:induction false} ParseFromReadsOnlyFrom(a: seq<string>, b: seq<string>, i: nat, o: Options, parseU16: PortParser)
    requires |a| == |b|
    requires forall k :: i <= k < |a| ==> a[k] == b[k]
    ensures ParseFrom(a, i, o, parseU16) == ParseFrom(b, i, o, parseU16)
    decreases |a| - i
  {
    if i < |a| {
      assert a[i] == b[i];
      assert OperandAt(a, i) == OperandAt(b, i);
      var s := StepOn(a[i], OperandAt(a, i), o, parseU16);
      assert StepOn(b[i], OperandAt(b, i), o, parseU16) == s;
      if s.Next? {
        ParseFromReadsOnlyFrom(a, b, i + s.width, s.opts, parseU16);
      }
    }
  }

  /** The first two entries of argv (interpreter and script) never affect the outcome. */
  lemma LeadingEntriesIgnored(a: seq<string>, b: seq<string>, parseU16: PortParser)
    requires |a| >= 2 && |b| >= 2 && a[2..] == b[2..]
    ensures Parse(a, parseU16) == Parse(b, parseU16)
  {
    forall k | 2 <= k < |a| ensures a[k] == b[k] {
      assert a[k] == a[2..][k - 2];
    }
    ParseFromReadsOnlyFrom(a, b, 2, Defaults(), parseU16);
  }

  // ---------------------------------------------------------------------------
  // One token at a time
  // ---------------------------------------------------------------------------

  /** An empty token, or an unrecognised one not starting with `@`, throws "Unexpected argument". */
  lemma UnexpectedTokenFails(argv: seq<string>, i: nat, o: Options, parseU16: PortParser)
    requires i < |argv|
    requires argv[i] !in Keywords() && (argv[i] == "" || argv[i][0] != '@')
    ensures ParseFrom(argv, i, o, parseU16) == Fail(UnexpectedArgument(argv[i]))
  {
  }

  /** An `@`-token sets the host to the text after the `@`; parsing goes on with the next token. */
  lemma AtTokenSetsHost(argv: seq<string>, i: nat, o: Options, parseU16: PortParser)
    requires i < |argv| && |argv[i]| > 0 && argv[i][0] == '@'
    ensures ParseFrom(argv, i, o, parseU16) == ParseFrom(argv, i + 1, o.(host := argv[i][1..]), parseU16)
  {
  }

  /** A help or version token ends parsing, whatever follows it. */
  lemma VersionTokenExits(argv: seq<string>, i: nat, o: Options, parseU16: PortParser)
    requires i < |argv| && argv[i] in {"-h", "--help", "-?", "-v"}
    ensures ParseFrom(argv, i, o, parseU16) == Exit
  {
  }

  /**
   * `--conf`, `--hosts` and `--hints` take the next token as their value,
   * whatever it looks like, and parsing resumes two tokens further on; at the
   * end of argv the value is `undefined`.
   */
  lemma FileOptionTakesOperand(argv: seq<string>, i: nat, o: Options, parseU16: PortParser)
    requires i < |argv| && argv[i] in {"--conf", "--hosts", "--hints"}
    ensures var v := if i + 1 < |argv| then Some(argv[i + 1]) else None;
            ParseFrom(argv, i, o, parseU16) == ParseFrom(argv, i + 2,
              if argv[i] == "--conf" then o.(confFile := v)
              else if argv[i] == "--hosts" then o.(hostsFile := v)
              else o.(hintsFile := v), parseU16)
  {
  }

  /** `-p` takes the next token as the port, through `util.parseU16`, and fails when that rejects it. */
  lemma PortOptionTakesOperand(argv: seq<string>, i: nat, o: Options, parseU16: PortParser)
    requires i < |argv| && argv[i] == "-p"
    ensures var v := if i + 1 < |argv| then Some(argv[i + 1]) else None;
            ParseFrom(argv, i, o, parseU16) ==
              match parseU16(v)
              case None => Fail(BadPort(v))
              case Some(p) => ParseFrom(argv, i + 2, o.(port := p), parseU16)
  {
  }

  /** The switch labels of the `switch`: each assigns fixed values and takes no operand. */
  function SwitchLabels(): set<string> {
    {"-4", "-6", "-r", "--recursive", "+edns", "+noedns", "+dnssec", "+nodnssec", "+debug", "+nodebug"}
  }

  /** The switch labels are exactly the tokens `Classify` takes for a switch other than `@host`. */
  lemma SwitchLabelsAreSwitches(arg: string)
    ensures arg in SwitchLabels() <==> IsSwitch(Classify(arg)) && !Classify(arg).HostAt?
  {
  }

  /** The value each switch label assigns, and parsing goes on with the next token. */
  lemma SwitchTokenApplies(argv: seq<string>, i: nat, o: Options, parseU16: PortParser)
    requires i < |argv| && argv[i] in SwitchLabels()
    ensures ParseFrom(argv, i, o, parseU16) == ParseFrom(argv, i + 1,
              if argv[i] == "-4" then o.(inet6 := Some(false))
              else if argv[i] == "-6" then o.(inet6 := Some(true))
              else if argv[i] == "-r" || argv[i] == "--recursive" then o.(recursive := true)
              else if argv[i] == "+edns" then o.(edns := Some(true))
              else if argv[i] == "+noedns" then o.(edns := Some(false))
              else if argv[i] == "+dnssec" then o.(edns := Some(true), dnssec := Some(true))
              else if argv[i] == "+nodnssec" then o.(dnssec := Some(false))
              else if argv[i] == "+debug" then o.(debug := true)
              else o.(debug := false), parseU16)
  {
    var t := argv[i];
    if t == "-4" { assert Classify(t) == UseIPv4; }
    else if t == "-6" { assert Classify(t) == UseIPv6; }
    else if t == "-r" || t == "--recursive" { assert Classify(t) == RecursiveOpt; }
    else if t == "+edns" { assert Classify(t) == EdnsOn; }
    else if t == "+noedns" { assert Classify(t) == EdnsOff; }
    else if t == "+dnssec" { assert Classify(t) == DnssecOn; }
    else if t == "+nodnssec" { assert Classify(t) == DnssecOff; }
    else if t == "+debug" { assert Classify(t) == DebugOn; }
    else { assert t == "+nodebug" && Classify(t) == DebugOff; }
  }

  // ---------------------------------------------------------------------------
  // The options each switch touches
  // ---------------------------------------------------------------------------

  /** The option variables, as names. */
  datatype OptionName = HostName | Inet6Name | RecursiveName | EdnsName | DnssecName | DebugName

  /** The options a switch assigns. */
  function Touches(f: Flag): set<OptionName>
    requires IsSwitch(f)
  {
    match f
    case UseIPv4 => {Inet6Name}
    case UseIPv6 => {Inet6Name}
    case RecursiveOpt => {RecursiveName}
    case EdnsOn => {EdnsName}
    case EdnsOff => {EdnsName}
    case DnssecOn => {EdnsName, DnssecName}
    case DnssecOff => {DnssecName}
    case DebugOn => {DebugName}
    case DebugOff => {DebugName}
    case HostAt(_) => {HostName}
  }

  /** `+dnssec` turns on both EDNS and DNSSEC; `+nodnssec` turns off DNSSEC and leaves EDNS alone. */
  lemma DnssecSwitches(o: Options)
    ensures Apply(DnssecOn, o) == o.(edns := Some(true), dnssec := Some(true))
    ensures Apply(DnssecOff, o).edns == o.edns && Apply(DnssecOff, o).dnssec == Some(false)
  {
  }

  /** Each switch leaves every option it does not touch as it was. */
  lemma SwitchFrame(f: Flag, o: Options)
    requires IsSwitch(f)
    ensures HostName !in Touches(f) ==> Apply(f, o).host == o.host
    ensures Inet6Name !in Touches(f) ==> Apply(f, o).inet6 == o.inet6
    ensures RecursiveName !in Touches(f) ==> Apply(f, o).recursive == o.recursive
    ensures EdnsName !in Touches(f) ==> Apply(f, o).edns == o.edns
    ensures DnssecName !in Touches(f) ==> Apply(f, o).dnssec == o.dnssec
    ensures DebugName !in Touches(f) ==> Apply(f, o).debug == o.debug
    ensures Apply(f, o).port == o.port && Apply(f, o).confFile == o.confFile
    ensures Apply(f, o).hostsFile == o.hostsFile && Apply(f, o).hintsFile == o.hintsFile
  {
  }

  /** The later of two switches wins over every option the earlier one touched. */
  lemma LaterSwitchWins(f: Flag, g: Flag, o: Options)
    requires IsSwitch(f) && IsSwitch(g) && Touches(f) <= Touches(g)
    ensures Apply(g, Apply(f, o)) == Apply(g, o)
  {
  }

  /** Switches that touch different options may come in either order. */
  lemma IndependentSwitchesCommute(f: Flag, g: Flag, o: Options)
    requires IsSwitch(f) && IsSwitch(g) && Touches(f) !! Touches(g)
    ensures Apply(g, Apply(f, o)) == Apply(f, Apply(g, o))
  {
  }

  // ---------------------------------------------------------------------------
  // Prefixes of argv
  // ---------------------------------------------------------------------------

  /**
   * The options reached when the loop, started at `i`, stops exactly at the
   * end of `argv` without ending parsing; `None` when it ends parsing or a
   * value-taking flag is the last token.
   */
  function Settle(argv: seq<string>, i: nat, o: Options, parseU16: PortParser): Option<Options>
    decreases |argv| - i
  {
    if i >= |argv| then (if i == |argv| then Some(o) else None)
    else match StepOn(argv[i], OperandAt(argv, i), o, parseU16)
      case Stop(_) => None
      case Next(o', w) => Settle(argv, i + w, o', parseU16)
  }

  /** Whatever follows a prefix that settles does not change how the prefix was read. */
  lemma {:induction false} ParseFromAppend(a: seq<string>, b: seq<string>, i: nat, o: Options, parseU16: PortParser)
    requires Settle(a, i, o, parseU16).Some?
    ensures ParseFrom(a + b, i, o, parseU16) == ParseFrom(a + b, |a|, Settle(a, i, o, parseU16).value, parseU16)
    decreases |a| - i
  {
    if i < |a| {
      var ab := a + b;
      var s := StepOn(a[i], OperandAt(a, i), o, parseU16);
      assert s.Next?;
      var o', w := s.opts, s.width;
      assert Settle(a, i, o, parseU16) == Settle(a, i + w, o', parseU16);
      assert i + w <= |a|;
      assert ab[i] == a[i];
      assert StepOn(ab[i], OperandAt(ab, i), o, parseU16) == s by {
        if TakesOperand(Classify(a[i])) {
          assert ab[i + 1] == a[i + 1];
        } else {
          OperandReadOnlyByValueFlags(a[i], OperandAt(a, i), o, parseU16);
          OperandReadOnlyByValueFlags(a[i], OperandAt(ab, i), o, parseU16);
        }
      }
      assert ParseFrom(ab, i, o, parseU16) == ParseFrom(ab, i + w, o', parseU16);
      ParseFromAppend(a, b, i + w, o', parseU16);
    }
  }

  /** A run of switches and file options that settles is the full parse of its argv. */
  lemma SettledPrefixRuns(argv: seq<string>, parseU16: PortParser)
    requires Settle(argv, 2, Defaults(), parseU16).Some?
    ensures Parse(argv, parseU16) == Run(Settle(argv, 2, Defaults(), parseU16).value)
  {
    ParseFromAppend(argv, [], 2, Defaults(), parseU16);
    assert argv + [] == argv;
  }

  /** A switch appended to a settled prefix applies to the prefix's options, so the last occurrence wins. */
  lemma AppendedSwitchApplies(a: seq<string>, t: string, parseU16: PortParser)
    requires Settle(a, 2, Defaults(), parseU16).Some? && IsSwitch(Classify(t))
    ensures Parse(a + [t], parseU16) == Run(Apply(Classify(t), Settle(a, 2, Defaults(), parseU16).value))
  {
    ParseFromAppend(a, [t], 2, Defaults(), parseU16);
  }

  /** After a settled prefix, a help or version token exits and nothing after it is examined. */
  lemma VersionIgnoresRest(a: seq<string>, v: string, rest: seq<string>, parseU16: PortParser)
    requires Settle(a, 2, Defaults(), parseU16).Some? && v in {"-h", "--help", "-?", "-v"}
    ensures Parse(a + [v] + rest, parseU16) == Exit
  {
    ParseFromAppend(a, [v] + rest, 2, Defaults(), parseU16);
    assert a + [v] + rest == a + ([v] + rest);
    assert (a + ([v] + rest))[|a|] == v;
  }

  /** After a settled prefix, a bad token fails, whatever follows it. */
  lemma BadTokenFailsAfterPrefix(a: seq<string>, t: string, rest: seq<string>, parseU16: PortParser)
    requires Settle(a, 2, Defaults(), parseU16).Some?
    requires t !in Keywords() && (t == "" || t[0] != '@')
    ensures Parse(a + [t] + rest, parseU16) == Fail(UnexpectedArgument(t))
  {
    ParseFromAppend(a, [t] + rest, 2, Defaults(), parseU16);
    assert a + [t] + rest == a + ([t] + rest);
    assert (a + ([t] + rest))[|a|] == t;
  }

  // ---------------------------------------------------------------------------
  // Where each outcome comes from
  // ---------------------------------------------------------------------------

  /**
   * Whether the loop, started at `i` with options `o`, reads `argv[k]` as a
   * token: reached before parsing stops, and not consumed as an operand.
   */
  predicate ReadsAsToken(argv: seq<string>, i: nat, o: Options, parseU16: PortParser, k: nat)
    decreases |argv| - i
  {
    i < |argv| &&
    (k == i ||
     match StepOn(argv[i], OperandAt(argv, i), o, parseU16)
     case Stop(_) => false
     case Next(o', w) => ReadsAsToken(argv, i + w, o', parseU16, k))
  }

  /** A position read as a token lies between the start index and the end of argv. */
  lemma {:induction false} ReadsAsTokenBounds(argv: seq<string>, i: nat, o: Options, parseU16: PortParser, k: nat)
    requires ReadsAsToken(argv, i, o, parseU16, k)
    ensures i <= k < |argv|
    decreases |argv| - i
  {
    if k != i {
      match StepOn(argv[i], OperandAt(argv, i), o, parseU16)
      case Next(o', w) => ReadsAsTokenBounds(argv, i + w, o', parseU16, k);
    }
  }

  /** An "Unexpected argument" failure names a bad token that the loop read. */
  lemma {:induction false} UnexpectedNamesBadToken(argv: seq<string>, i: nat, o: Options, parseU16: PortParser)
    requires ParseFrom(argv, i, o, parseU16).Fail? && ParseFrom(argv, i, o, parseU16).failure.UnexpectedArgument?
    ensures exists k :: i <= k < |argv| && ReadsAsToken(argv, i, o, parseU16, k) &&
                        argv[k] == ParseFrom(argv, i, o, parseU16).failure.arg && Classify(argv[k]) == Unknown
    decreases |argv| - i
  {
    assert ReadsAsToken(argv, i, o, parseU16, i);
    match StepOn(argv[i], OperandAt(argv, i), o, parseU16)
    case Stop(_) => assert Classify(argv[i]) == Unknown;
    case Next(o', w) => UnexpectedNamesBadToken(argv, i + w, o', parseU16);
  }

  /** Parsing exits only on a help or version token that the loop read. */
  lemma {:induction false} ExitNeedsVersionToken(argv: seq<string>, i: nat, o: Options, parseU16: PortParser)
    requires ParseFrom(argv, i, o, parseU16) == Exit
    ensures exists k :: i <= k < |argv| && ReadsAsToken(argv, i, o, parseU16, k) &&
                        argv[k] in {"-h", "--help", "-?", "-v"}
    decreases |argv| - i
  {
    assert ReadsAsToken(argv, i, o, parseU16, i);
    match StepOn(argv[i], OperandAt(argv, i), o, parseU16)
    case Stop(_) => assert Classify(argv[i]) == VersionOpt;
    case Next(o', w) => ExitNeedsVersionToken(argv, i + w, o', parseU16);
  }

  /** A port failure comes from a `-p`, read as a token, whose operand `util.parseU16` rejected. */
  lemma {:induction false} BadPortNeedsPortFlag(argv: seq<string>, i: nat, o: Options, parseU16: PortParser)
    requires ParseFrom(argv, i, o, parseU16).Fail? && ParseFrom(argv, i, o, parseU16).failure.BadPort?
    ensures var v := ParseFrom(argv, i, o, parseU16).failure.operand;
            parseU16(v).None? &&
            exists k :: i <= k < |argv| && ReadsAsToken(argv, i, o, parseU16, k) &&
                        argv[k] == "-p" && OperandAt(argv, k) == v
    decreases |argv| - i
  {
    assert ReadsAsToken(argv, i, o, parseU16, i);
    match StepOn(argv[i], OperandAt(argv, i), o, parseU16)
    case Stop(_) => assert argv[i] == "-p";
    case Next(o', w) => BadPortNeedsPortFlag(argv, i + w, o', parseU16);
  }

  /** The host is the starting one or the text after the `@` of a token the loop read as a host. */
  lemma {:induction false} HostComesFromAtToken(argv: seq<string>, i: nat, o: Options, parseU16: PortParser)
    requires ParseFrom(argv, i, o, parseU16).Run?
    ensures var h := ParseFrom(argv, i, o, parseU16).opts.host;
            h == o.host ||
            exists k :: i <= k < |argv| && ReadsAsToken(argv, i, o, parseU16, k) &&
                        |argv[k]| > 0 && argv[k][0] == '@' && argv[k][1..] == h
    decreases |argv| - i
  {
    if i < |argv| {
      assert ReadsAsToken(argv, i, o, parseU16, i);
      match StepOn(argv[i], OperandAt(argv, i), o, parseU16)
      case Next(o', w) => HostComesFromAtToken(argv, i + w, o', parseU16);
    }
  }

  /** The port is the starting one or one that `util.parseU16` produced for the operand of a `-p` read as a token. */
  lemma {:induction false} PortComesFromPortFlag(argv: seq<string>, i: nat, o: Options, parseU16: PortParser)
    requires ParseFrom(argv, i, o, parseU16).Run?
    ensures var p := ParseFrom(argv, i, o, parseU16).opts.port;
            p == o.port ||
            exists k :: i <= k < |argv| && ReadsAsToken(argv, i, o, parseU16, k) &&
                        argv[k] == "-p" && parseU16(OperandAt(argv, k)) == Some(p)
    decreases |argv| - i
  {
    if i < |argv| {
      assert ReadsAsToken(argv, i, o, parseU16, i);
      match StepOn(argv[i], OperandAt(argv, i), o, parseU16)
      case Next(o', w) => PortComesFromPortFlag(argv, i + w, o', parseU16);
    }
  }

  /** Recursive mode is only ever switched on by a `-r` or `--recursive` that the loop read as a token. */
  lemma {:induction false} RecursiveNeedsFlag(argv: seq<string>, i: nat, o: Options, parseU16: PortParser)
    requires ParseFrom(argv, i, o, parseU16).Run? && !o.recursive
    requires ParseFrom(argv, i, o, parseU16).opts.recursive
    ensures exists k :: i <= k < |argv| && ReadsAsToken(argv, i, o, parseU16, k) && argv[k] in {"-r", "--recursive"}
    decreases |argv| - i
  {
    assert ReadsAsToken(argv, i, o, parseU16, i);
    match StepOn(argv[i], OperandAt(argv, i), o, parseU16)
    case Next(o', w) =>
      if o'.recursive {
        assert Classify(argv[i]) == RecursiveOpt;
      } else {
        RecursiveNeedsFlag(argv, i + w, o', parseU16);
      }
  }

  /**
   * Each file option is the starting one or the operand (possibly
   * `undefined`) of its own flag, read as a token.
   */
  lemma {:induction false} FileOptionsComeFromFlags(argv: seq<string>, i: nat, o: Options, parseU16: PortParser)
    requires ParseFrom(argv, i, o, parseU16).Run?
    ensures var r := ParseFrom(argv, i, o, parseU16).opts;
            r.confFile == o.confFile ||
            exists k :: i <= k < |argv| && ReadsAsToken(argv, i, o, parseU16, k) &&
                        argv[k] == "--conf" && OperandAt(argv, k) == r.confFile
    ensures var r := ParseFrom(argv, i, o, parseU16).opts;
            r.hostsFile == o.hostsFile ||
            exists k :: i <= k < |argv| && ReadsAsToken(argv, i, o, parseU16, k) &&
                        argv[k] == "--hosts" && OperandAt(argv, k) == r.hostsFile
    ensures var r := ParseFrom(argv, i, o, parseU16).opts;
            r.hintsFile == o.hintsFile ||
            exists k :: i <= k < |argv| && ReadsAsToken(argv, i, o, parseU16, k) &&
                        argv[k] == "--hints" && OperandAt(argv, k) == r.hintsFile
    decreases |argv| - i
  {
    if i < |argv| {
      assert ReadsAsToken(argv, i, o, parseU16, i);
      match StepOn(argv[i], OperandAt(argv, i), o, parseU16)
      case Next(o', w) => FileOptionsComeFromFlags(argv, i + w, o', parseU16);
    }
  }

  /** inet6 is the starting value, or false after a `-4` and true after a `-6` that the loop read as a token. */
  lemma {:induction false} Inet6ComesFromSwitch(argv: seq<string>, i: nat, o: Options, parseU16: PortParser)
    requires ParseFrom(argv, i, o, parseU16).Run?
    ensures var r := ParseFrom(argv, i, o, parseU16).opts;
            r.inet6 == o.inet6 ||
            exists k :: i <= k < |argv| && ReadsAsToken(argv, i, o, parseU16, k) &&
                        ((argv[k] == "-4" && r.inet6 == Some(false)) || (argv[k] == "-6" && r.inet6 == Some(true)))
    decreases |argv| - i
  {
    if i < |argv| {
      assert ReadsAsToken(argv, i, o, parseU16, i);
      match StepOn(argv[i], OperandAt(argv, i), o, parseU16)
      case Next(o', w) => Inet6ComesFromSwitch(argv, i + w, o', parseU16);
    }
  }

  /** edns is the starting value, or true after a `+edns` or `+dnssec` and false after a `+noedns` that the loop read as a token. */
  lemma {:induction false} EdnsComesFromSwitch(argv: seq<string>, i: nat, o: Options, parseU16: PortParser)
    requires ParseFrom(argv, i, o, parseU16).Run?
    ensures var r := ParseFrom(argv, i, o, parseU16).opts;
            r.edns == o.edns ||
            exists k :: i <= k < |argv| && ReadsAsToken(argv, i, o, parseU16, k) &&
                        ((argv[k] in {"+edns", "+dnssec"} && r.edns == Some(true)) ||
                         (argv[k] == "+noedns" && r.edns == Some(false)))
    decreases |argv| - i
  {
    if i < |argv| {
      assert ReadsAsToken(argv, i, o, parseU16, i);
      match StepOn(argv[i], OperandAt(argv, i), o, parseU16)
      case Next(o', w) => EdnsComesFromSwitch(argv, i + w, o', parseU16);
    }
  }

  /** dnssec is the starting value, or true after a `+dnssec` and false after a `+nodnssec` that the loop read as a token. */
  lemma {:induction false} DnssecComesFromSwitch(argv: seq<string>, i: nat, o: Options, parseU16: PortParser)
    requires ParseFrom(argv, i, o, parseU16).Run?
    ensures var r := ParseFrom(argv, i, o, parseU16).opts;
            r.dnssec == o.dnssec ||
            exists k :: i <= k < |argv| && ReadsAsToken(argv, i, o, parseU16, k) &&
                        ((argv[k] == "+dnssec" && r.dnssec == Some(true)) ||
                         (argv[k] == "+nodnssec" && r.dnssec == Some(false)))
    decreases |argv| - i
  {
    if i < |argv| {
      assert ReadsAsToken(argv, i, o, parseU16, i);
      match StepOn(argv[i], OperandAt(argv, i), o, parseU16)
      case Next(o', w) => DnssecComesFromSwitch(argv, i + w, o', parseU16);
    }
  }

  /** debug is the starting value, or true after a `+debug` and false after a `+nodebug` that the loop read as a token. */
  lemma {:induction false} DebugComesFromSwitch(argv: seq<string>, i: nat, o: Options, parseU16: PortParser)
    requires ParseFrom(argv, i, o, parseU16).Run?
    ensures var r := ParseFrom(argv, i, o, parseU16).opts;
            r.debug == o.debug ||
            exists k :: i <= k < |argv| && ReadsAsToken(argv, i, o, parseU16, k) &&
                        ((argv[k] == "+debug" && r.debug) || (argv[k] == "+nodebug" && !r.debug))
    decreases |argv| - i
  {
    if i < |argv| {
      assert ReadsAsToken(argv, i, o, parseU16, i);
      match StepOn(argv[i], OperandAt(argv, i), o, parseU16)
      case Next(o', w) => DebugComesFromSwitch(argv, i + w, o', parseU16);
    }
  }

  // ---------------------------------------------------------------------------
  // Which occurrence of a switch wins
  // ---------------------------------------------------------------------------

  /** The token `arg` is a switch that assigns the option `n`. */
  predicate SetsOption(arg: string, n: OptionName) {
    IsSwitch(Classify(arg)) && n in Touches(Classify(arg))
  }

  /** `a` and `b` hold the same value for the option `n`. */
  predicate SameOn(a: Options, b: Options, n: OptionName) {
    match n
    case HostName => a.host == b.host
    case Inet6Name => a.inet6 == b.inet6
    case RecursiveName => a.recursive == b.recursive
    case EdnsName => a.edns == b.edns
    case DnssecName => a.dnssec == b.dnssec
    case DebugName => a.debug == b.debug
  }

  /** A switch assigns a fixed value to every option it touches, whatever the options were before. */
  lemma SwitchSetsFixedValue(f: Flag, a: Options, b: Options, n: OptionName)
    requires IsSwitch(f) && n in Touches(f)
    ensures SameOn(Apply(f, a), Apply(f, b), n)
  {
  }

  /** An option that no token read from `i` on assigns keeps the value it had at `i`. */
  lemma {:induction false} UnsetOptionKept(argv: seq<string>, i: nat, o: Options, parseU16: PortParser, n: OptionName)
    requires ParseFrom(argv, i, o, parseU16).Run?
    requires forall j :: i <= j < |argv| && ReadsAsToken(argv, i, o, parseU16, j) ==> !SetsOption(argv[j], n)
    ensures SameOn(ParseFrom(argv, i, o, parseU16).opts, o, n)
    decreases |argv| - i
  {
    if i < |argv| {
      assert ReadsAsToken(argv, i, o, parseU16, i);
      match StepOn(argv[i], OperandAt(argv, i), o, parseU16)
      case Next(o', w) =>
        assert SameOn(o', o, n) by {
          if IsSwitch(Classify(argv[i])) { SwitchFrame(Classify(argv[i]), o); }
        }
        forall j | i + w <= j < |argv| && ReadsAsToken(argv, i + w, o', parseU16, j)
          ensures !SetsOption(argv[j], n)
        {
          assert ReadsAsToken(argv, i, o, parseU16, j);
        }
        UnsetOptionKept(argv, i + w, o', parseU16, n);
    }
  }

  /**
   * Of the tokens read from `i` on that assign the option `n`, the last one
   * decides its final value: the value that switch assigns.
   */
  lemma {:induction false} LastSettingSwitchWins(argv: seq<string>, i: nat, o: Options, parseU16: PortParser,
                                                 n: OptionName, k: nat)
    requires ParseFrom(argv, i, o, parseU16).Run?
    requires k < |argv| && ReadsAsToken(argv, i, o, parseU16, k) && SetsOption(argv[k], n)
    requires forall j :: k < j < |argv| && ReadsAsToken(argv, i, o, parseU16, j) ==> !SetsOption(argv[j], n)
    ensures SameOn(ParseFrom(argv, i, o, parseU16).opts, Apply(Classify(argv[k]), o), n)
    decreases |argv| - i
  {
    ReadsAsTokenBounds(argv, i, o, parseU16, k);
    match StepOn(argv[i], OperandAt(argv, i), o, parseU16)
    case Next(o', w) =>
      forall j | i + w <= j < |argv| && ReadsAsToken(argv, i + w, o', parseU16, j)
        ensures ReadsAsToken(argv, i, o, parseU16, j)
      {
      }
      if k == i {
        UnsetOptionKept(argv, i + 1, o', parseU16, n);
      } else {
        LastSettingSwitchWins(argv, i + w, o', parseU16, n, k);
        SwitchSetsFixedValue(Classify(argv[k]), o', o, n);
      }
  }

  /** The labels that assign each option. */
  lemma SettingLabels(arg: string)
    ensures SetsOption(arg, Inet6Name) <==> arg == "-4" || arg == "-6"
    ensures SetsOption(arg, EdnsName) <==> arg == "+edns" || arg == "+noedns" || arg == "+dnssec"
    ensures SetsOption(arg, DnssecName) <==> arg == "+dnssec" || arg == "+nodnssec"
    ensures SetsOption(arg, DebugName) <==> arg == "+debug" || arg == "+nodebug"
    ensures SetsOption(arg, HostName) <==> |arg| > 0 && arg[0] == '@'
  {
  }

  /** Of the `-4` and `-6` tokens read from `i` on, the last decides inet6: false after `-4`, true after `-6`. */
  lemma LastAddressFamilySwitchWins(argv: seq<string>, i: nat, o: Options, parseU16: PortParser, k: nat)
    requires ParseFrom(argv, i, o, parseU16).Run?
    requires k < |argv| && ReadsAsToken(argv, i, o, parseU16, k) && argv[k] in {"-4", "-6"}
    requires forall j :: k < j < |argv| && ReadsAsToken(argv, i, o, parseU16, j) ==> argv[j] !in {"-4", "-6"}
    ensures ParseFrom(argv, i, o, parseU16).opts.inet6 == if argv[k] == "-4" then Some(false) else Some(true)
  {
    SettingLabels(argv[k]);
    forall j | k < j < |argv| && ReadsAsToken(argv, i, o, parseU16, j)
      ensures !SetsOption(argv[j], Inet6Name)
    {
      SettingLabels(argv[j]);
    }
    LastSettingSwitchWins(argv, i, o, parseU16, Inet6Name, k);
    if argv[k] == "-4" { assert Classify(argv[k]) == UseIPv4; } else { assert Classify(argv[k]) == UseIPv6; }
  }

  /** Of the `+edns`, `+noedns` and `+dnssec` tokens read from `i` on, the last decides edns: false only after `+noedns`. */
  lemma LastEdnsSwitchWins(argv: seq<string>, i: nat, o: Options, parseU16: PortParser, k: nat)
    requires ParseFrom(argv, i, o, parseU16).Run?
    requires k < |argv| && ReadsAsToken(argv, i, o, parseU16, k) && argv[k] in {"+edns", "+noedns", "+dnssec"}
    requires forall j :: k < j < |argv| && ReadsAsToken(argv, i, o, parseU16, j) ==> argv[j] !in {"+edns", "+noedns", "+dnssec"}
    ensures ParseFrom(argv, i, o, parseU16).opts.edns == if argv[k] == "+noedns" then Some(false) else Some(true)
  {
    SettingLabels(argv[k]);
    forall j | k < j < |argv| && ReadsAsToken(argv, i, o, parseU16, j)
      ensures !SetsOption(argv[j], EdnsName)
    {
      SettingLabels(argv[j]);
    }
    LastSettingSwitchWins(argv, i, o, parseU16, EdnsName, k);
    if argv[k] == "+edns" { assert Classify(argv[k]) == EdnsOn; }
    else if argv[k] == "+noedns" { assert Classify(argv[k]) == EdnsOff; }
    else { assert Classify(argv[k]) == DnssecOn; }
  }

  /** Of the `+dnssec` and `+nodnssec` tokens read from `i` on, the last decides dnssec. */
  lemma LastDnssecSwitchWins(argv: seq<string>, i: nat, o: Options, parseU16: PortParser, k: nat)
    requires ParseFrom(argv, i, o, parseU16).Run?
    requires k < |argv| && ReadsAsToken(argv, i, o, parseU16, k) && argv[k] in {"+dnssec", "+nodnssec"}
    requires forall j :: k < j < |argv| && ReadsAsToken(argv, i, o, parseU16, j) ==> argv[j] !in {"+dnssec", "+nodnssec"}
    ensures ParseFrom(argv, i, o, parseU16).opts.dnssec == if argv[k] == "+nodnssec" then Some(false) else Some(true)
  {
    SettingLabels(argv[k]);
    forall j | k < j < |argv| && ReadsAsToken(argv, i, o, parseU16, j)
      ensures !SetsOption(argv[j], DnssecName)
    {
      SettingLabels(argv[j]);
    }
    LastSettingSwitchWins(argv, i, o, parseU16, DnssecName, k);
    if argv[k] == "+dnssec" { assert Classify(argv[k]) == DnssecOn; } else { assert Classify(argv[k]) == DnssecOff; }
  }

  /** Of the `+debug` and `+nodebug` tokens read from `i` on, the last decides debug. */
  lemma LastDebugSwitchWins(argv: seq<string>, i: nat, o: Options, parseU16: PortParser, k: nat)
    requires ParseFrom(argv, i, o, parseU16).Run?
    requires k < |argv| && ReadsAsToken(argv, i, o, parseU16, k) && argv[k] in {"+debug", "+nodebug"}
    requires forall j :: k < j < |argv| && ReadsAsToken(argv, i, o, parseU16, j) ==> argv[j] !in {"+debug", "+nodebug"}
    ensures ParseFrom(argv, i, o, parseU16).opts.debug == (argv[k] == "+debug")
  {
    SettingLabels(argv[k]);
    forall j | k < j < |argv| && ReadsAsToken(argv, i, o, parseU16, j)
      ensures !SetsOption(argv[j], DebugName)
    {
      SettingLabels(argv[j]);
    }
    LastSettingSwitchWins(argv, i, o, parseU16, DebugName, k);
    if argv[k] == "+debug" { assert Classify(argv[k]) == DebugOn; } else { assert Classify(argv[k]) == DebugOff; }
  }

  /** Of the `@`-tokens read from `i` on, the last decides the host: the text after its `@`. */
  lemma LastAtTokenWins(argv: seq<string>, i: nat, o: Options, parseU16: PortParser, k: nat)
    requires ParseFrom(argv, i, o, parseU16).Run?
    requires k < |argv| && ReadsAsToken(argv, i, o, parseU16, k) && |argv[k]| > 0 && argv[k][0] == '@'
    requires forall j :: k < j < |argv| && ReadsAsToken(argv, i, o, parseU16, j) ==> argv[j] == "" || argv[j][0] != '@'
    ensures ParseFrom(argv, i, o, parseU16).opts.host == argv[k][1..]
  {
    SettingLabels(argv[k]);
    forall j | k < j < |argv| && ReadsAsToken(argv, i, o, parseU16, j)
      ensures !SetsOption(argv[j], HostName)
    {
      SettingLabels(argv[j]);
    }
    LastSettingSwitchWins(argv, i, o, parseU16, HostName, k);
    ClassifyMeaning(argv[k]);
  }

  // ---------------------------------------------------------------------------
  // Which occurrence of a value-taking flag wins
  // ---------------------------------------------------------------------------

  /** The options a value-taking flag sets from the token after it. */
  datatype OperandOption = PortValue | ConfValue | HostsValue | HintsValue

  /** The flag that sets each of them. */
  function FlagFor(v: OperandOption): (f: Flag)
    ensures TakesOperand(f)
  {
    match v
    case PortValue => PortOpt
    case ConfValue => ConfOpt
    case HostsValue => HostsOpt
    case HintsValue => HintsOpt
  }

  /** `a` and `b` hold the same value for the option `v`. */
  predicate SameValue(a: Options, b: Options, v: OperandOption) {
    match v
    case PortValue => a.port == b.port
    case ConfValue => a.confFile == b.confFile
    case HostsValue => a.hostsFile == b.hostsFile
    case HintsValue => a.hintsFile == b.hintsFile
  }

  /** `r` holds for the option `v` what its flag makes of `operand`: the port `util.parseU16` returns, or the operand itself. */
  predicate ValueFrom(r: Options, v: OperandOption, operand: Option<string>, parseU16: PortParser) {
    match v
    case PortValue => parseU16(operand) == Some(r.port)
    case ConfValue => r.confFile == operand
    case HostsValue => r.hostsFile == operand
    case HintsValue => r.hintsFile == operand
  }

  /** A pass of the loop body on a token other than its flag leaves the option `v` as it was. */
  lemma StepKeepsOtherValues(arg: string, operand: Option<string>, o: Options, parseU16: PortParser, v: OperandOption)
    requires StepOn(arg, operand, o, parseU16).Next? && Classify(arg) != FlagFor(v)
    ensures SameValue(StepOn(arg, operand, o, parseU16).opts, o, v)
  {
    if IsSwitch(Classify(arg)) {
      SwitchFrame(Classify(arg), o);
    }
  }

  /** An option whose flag is not read as a token from `i` on keeps the value it had at `i`. */
  lemma {:induction false} OperandOptionKept(argv: seq<string>, i: nat, o: Options, parseU16: PortParser, v: OperandOption)
    requires ParseFrom(argv, i, o, parseU16).Run?
    requires forall j :: i <= j < |argv| && ReadsAsToken(argv, i, o, parseU16, j) ==> Classify(argv[j]) != FlagFor(v)
    ensures SameValue(ParseFrom(argv, i, o, parseU16).opts, o, v)
    decreases |argv| - i
  {
    if i < |argv| {
      assert ReadsAsToken(argv, i, o, parseU16, i);
      match StepOn(argv[i], OperandAt(argv, i), o, parseU16)
      case Next(o', w) =>
        StepKeepsOtherValues(argv[i], OperandAt(argv, i), o, parseU16, v);
        forall j | i + w <= j < |argv| && ReadsAsToken(argv, i + w, o', parseU16, j)
          ensures Classify(argv[j]) != FlagFor(v)
        {
          assert ReadsAsToken(argv, i, o, parseU16, j);
        }
        OperandOptionKept(argv, i + w, o', parseU16, v);
    }
  }

  /**
   * Of the positions read as tokens that hold the flag of the option `v`, the
   * last one decides its final value: what the flag makes of the token after it.
   */
  lemma {:induction false} LastOperandFlagWins(argv: seq<string>, i: nat, o: Options, parseU16: PortParser,
                                               v: OperandOption, k: nat)
    requires ParseFrom(argv, i, o, parseU16).Run?
    requires k < |argv| && ReadsAsToken(argv, i, o, parseU16, k) && Classify(argv[k]) == FlagFor(v)
    requires forall j :: k < j < |argv| && ReadsAsToken(argv, i, o, parseU16, j) ==> Classify(argv[j]) != FlagFor(v)
    ensures ValueFrom(ParseFrom(argv, i, o, parseU16).opts, v, OperandAt(argv, k), parseU16)
    decreases |argv| - i
  {
    ReadsAsTokenBounds(argv, i, o, parseU16, k);
    match StepOn(argv[i], OperandAt(argv, i), o, parseU16)
    case Next(o', w) =>
      forall j | i + w <= j < |argv| && ReadsAsToken(argv, i + w, o', parseU16, j)
        ensures ReadsAsToken(argv, i, o, parseU16, j)
      {
      }
      if k == i {
        assert ValueFrom(o', v, OperandAt(argv, k), parseU16);
        OperandOptionKept(argv, i + 2, o', parseU16, v);
      } else {
        LastOperandFlagWins(argv, i + w, o', parseU16, v, k);
      }
  }

  /** The label of each value-taking flag. */
  lemma OperandFlagLabels(arg: string)
    ensures Classify(arg) == PortOpt <==> arg == "-p"
    ensures Classify(arg) == ConfOpt <==> arg == "--conf"
    ensures Classify(arg) == HostsOpt <==> arg == "--hosts"
    ensures Classify(arg) == HintsOpt <==> arg == "--hints"
  {
  }

  /** Of the `-p` tokens read from `i` on, the last decides the port: what `util.parseU16` returns for the token after it. */
  lemma LastPortFlagWins(argv: seq<string>, i: nat, o: Options, parseU16: PortParser, k: nat)
    requires ParseFrom(argv, i, o, parseU16).Run?
    requires k < |argv| && ReadsAsToken(argv, i, o, parseU16, k) && argv[k] == "-p"
    requires forall j :: k < j < |argv| && ReadsAsToken(argv, i, o, parseU16, j) ==> argv[j] != "-p"
    ensures parseU16(OperandAt(argv, k)) == Some(ParseFrom(argv, i, o, parseU16).opts.port)
  {
    OperandFlagLabels(argv[k]);
    forall j | k < j < |argv| && ReadsAsToken(argv, i, o, parseU16, j)
      ensures Classify(argv[j]) != FlagFor(PortValue)
    {
      OperandFlagLabels(argv[j]);
    }
    LastOperandFlagWins(argv, i, o, parseU16, PortValue, k);
  }

  /** Of the `--conf` tokens read from `i` on, the last decides the configuration file: the token after it. */
  lemma LastConfFlagWins(argv: seq<string>, i: nat, o: Options, parseU16: PortParser, k: nat)
    requires ParseFrom(argv, i, o, parseU16).Run?
    requires k < |argv| && ReadsAsToken(argv, i, o, parseU16, k) && argv[k] == "--conf"
    requires forall j :: k < j < |argv| && ReadsAsToken(argv, i, o, parseU16, j) ==> argv[j] != "--conf"
    ensures ParseFrom(argv, i, o, parseU16).opts.confFile == OperandAt(argv, k)
  {
    OperandFlagLabels(argv[k]);
    forall j | k < j < |argv| && ReadsAsToken(argv, i, o, parseU16, j)
      ensures Classify(argv[j]) != FlagFor(ConfValue)
    {
      OperandFlagLabels(argv[j]);
    }
    LastOperandFlagWins(argv, i, o, parseU16, ConfValue, k);
  }

  /** Of the `--hosts` tokens read from `i` on, the last decides the hosts file: the token after it. */
  lemma LastHostsFlagWins(argv: seq<string>, i: nat, o: Options, parseU16: PortParser, k: nat)
    requires ParseFrom(argv, i, o, parseU16).Run?
    requires k < |argv| && ReadsAsToken(argv, i, o, parseU16, k) && argv[k] == "--hosts"
    requires forall j :: k < j < |argv| && ReadsAsToken(argv, i, o, parseU16, j) ==> argv[j] != "--hosts"
    ensures ParseFrom(argv, i, o, parseU16).opts.hostsFile == OperandAt(argv, k)
  {
    OperandFlagLabels(argv[k]);
    forall j | k < j < |argv| && ReadsAsToken(argv, i, o, parseU16, j)
      ensures Classify(argv[j]) != FlagFor(HostsValue)
    {
      OperandFlagLabels(argv[j]);
    }
    LastOperandFlagWins(argv, i, o, parseU16, HostsValue, k);
  }

  /** Of the `--hints` tokens read from `i` on, the last decides the root hints file: the token after it. */
  lemma LastHintsFlagWins(argv: seq<string>, i: nat, o: Options, parseU16: PortParser, k: nat)
    requires ParseFrom(argv, i, o, parseU16).Run?
    requires k < |argv| && ReadsAsToken(argv, i, o, parseU16, k) && argv[k] == "--hints"
    requires forall j :: k < j < |argv| && ReadsAsToken(argv, i, o, parseU16, j) ==> argv[j] != "--hints"
    ensures ParseFrom(argv, i, o, parseU16).opts.hintsFile == OperandAt(argv, k)
  {
    OperandFlagLabels(argv[k]);
    forall j | k < j < |argv| && ReadsAsToken(argv, i, o, parseU16, j)
      ensures Classify(argv[j]) != FlagFor(HintsValue)
    {
      OperandFlagLabels(argv[j]);
    }
    LastOperandFlagWins(argv, i, o, parseU16, HintsValue, k);
  }

  // ---------------------------------------------------------------------------
  // Examples
  // ---------------------------------------------------------------------------

  /** `--conf -r`: the `-r` is the configuration file's name, so recursive stays off. */
  lemma ConfOperandIsNotAFlag(node: string, script: string, parseU16: PortParser)
    ensures Parse([node, script, "--conf", "-r"], parseU16) == Run(Defaults().(confFile := Some("-r")))
  {
    var argv := [node, script, "--conf", "-r"];
    FileOptionTakesOperand(argv, 2, Defaults(), parseU16);
  }

  /** `-6 -4`: the later address-family flag wins. */
  lemma LastAddressFamilyWins(node: string, script: string, parseU16: PortParser)
    ensures Parse([node, script, "-6", "-4"], parseU16) == Run(Defaults().(inet6 := Some(false)))
  {
    var argv := [node, script, "-6", "-4"];
    SwitchTokenApplies(argv, 2, Defaults(), parseU16);
    SwitchTokenApplies(argv, 3, Defaults().(inet6 := Some(true)), parseU16);
  }

  /** `--conf @x @x`: the first `@x` is the operand of `--conf`, not a token; the second one is. */
  lemma OperandNotReadAsToken(node: string, script: string, parseU16: PortParser)
    ensures !ReadsAsToken([node, script, "--conf", "@x", "@x"], 2, Defaults(), parseU16, 3)
    ensures ReadsAsToken([node, script, "--conf", "@x", "@x"], 2, Defaults(), parseU16, 4)
  {
    var argv := [node, script, "--conf", "@x", "@x"];
    var o := Defaults().(confFile := Some("@x"));
    assert Classify(argv[2]) == ConfOpt;
    assert StepOn(argv[2], OperandAt(argv, 2), Defaults(), parseU16) == Next(o, 2);
    assert ReadsAsToken(argv, 4, o, parseU16, 4);
    assert Classify(argv[4]) == HostAt("x");
    assert StepOn(argv[4], OperandAt(argv, 4), o, parseU16) == Next(o.(host := "x"), 1);
    assert !ReadsAsToken(argv, 5, o.(host := "x"), parseU16, 3);
    assert !ReadsAsToken(argv, 4, o, parseU16, 3);
  }

  /** `-h ""`: the empty token after `-h` is never examined, so there is no error. */
  lemma HelpBeforeEmptyToken(node: string, script: string, parseU16: PortParser)
    ensures Parse([node, script, "-h", ""], parseU16) == Exit
  {
    var argv := [node, script, "-h", ""];
    assert Classify(argv[2]) == VersionOpt;
  }
}
