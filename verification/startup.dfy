/**
 * What `named.js` does with the parsed options before it opens the server:
 * which server class it builds, which loaders it calls for root hints,
 * resolver configuration and hosts, whether it subscribes to the debug
 * events, and where it listens.
 */
module Startup {
  import opened Wrappers
  import opened ArgvParser
  import opened ArgvProperties

  /** The server class chosen from the options. */
  datatype ServerKind = RecursiveServer | StubServer

  /** A data loader: `fromFile(path)`, or the built-in source (`fromRoot` for hints, `fromSystem` otherwise). */
  datatype Loader = FromFile(path: string) | FromRoot | FromSystem

  /**
   * Everything the script decides before opening the server.  A loader that
   * is `None` is never called.
   */
  datatype Plan = Plan(
    kind: ServerKind,
    inet6: Option<bool>,
    edns: Option<bool>,
    dnssec: Option<bool>,
    hints: Option<Loader>,
    conf: Option<Loader>,
    hosts: Option<Loader>,
    logEvents: bool,
    port: U16,
    host: string)

  /** JavaScript truthiness of a file option: `null`, `undefined` and `""` are false. */
  predicate Truthy(file: Option<string>) {
    file.Some? && file.value != ""
  }

  /** `if (file) x.fromFile(file) else x.<fallback>()`. */
  function Pick(file: Option<string>, fallback: Loader): (l: Loader)
    requires !fallback.FromFile?
    ensures l.FromFile? <==> Truthy(file)
    ensures l.FromFile? ==> file == Some(l.path)
    ensures !l.FromFile? ==> l == fallback
  {
    if Truthy(file) then FromFile(file.value) else fallback
  }

  /** The decisions of `named.js` between parsing and `server.open`. */
  function PlanFor(o: Options): (p: Plan)
    ensures p.kind == RecursiveServer <==> o.recursive
    ensures o.recursive ==> p.hints == Some(Pick(o.hintsFile, FromRoot)) && p.conf == None && p.hosts == None
    ensures !o.recursive ==> p.hints == None &&
                             p.conf == Some(Pick(o.confFile, FromSystem)) &&
                             p.hosts == Some(Pick(o.hostsFile, FromSystem))
    ensures p.inet6 == o.inet6 && p.edns == o.edns && p.dnssec == o.dnssec
    ensures p.logEvents == o.debug && p.port == o.port && p.host == o.host
  {
    var kind := if o.recursive then RecursiveServer else StubServer;
    if o.recursive then
      Plan(kind, o.inet6, o.edns, o.dnssec, Some(Pick(o.hintsFile, FromRoot)), None, None, o.debug, o.port, o.host)
    else
      Plan(kind, o.inet6, o.edns, o.dnssec, None,
           Some(Pick(o.confFile, FromSystem)), Some(Pick(o.hostsFile, FromSystem)), o.debug, o.port, o.host)
  }

  /** A recursive server loads root hints only; a stub server loads configuration and hosts only. */
  lemma PlanLoadsForItsKindOnly(o: Options)
    ensures var p := PlanFor(o);
            (p.kind == RecursiveServer ==> p.hints.Some? && p.conf.None? && p.hosts.None?) &&
            (p.kind == StubServer ==> p.hints.None? && p.conf.Some? && p.hosts.Some?)
  {
  }

  /** Every file the plan reads is the value of its own file option, and is not empty. */
  lemma PlanReadsOnlyGivenFiles(o: Options)
    ensures var p := PlanFor(o);
            (p.hints.Some? && p.hints.value.FromFile? ==>
               o.hintsFile == Some(p.hints.value.path) && p.hints.value.path != "") &&
            (p.conf.Some? && p.conf.value.FromFile? ==>
               o.confFile == Some(p.conf.value.path) && p.conf.value.path != "") &&
            (p.hosts.Some? && p.hosts.value.FromFile? ==>
               o.hostsFile == Some(p.hosts.value.path) && p.hosts.value.path != "")
  {
  }

  /** A file option left out, left without a value or given as `""` falls back to the built-in source, option by option. */
  lemma MissingFileUsesBuiltin(o: Options)
    ensures o.recursive && !Truthy(o.hintsFile) ==> PlanFor(o).hints == Some(FromRoot)
    ensures !o.recursive && !Truthy(o.confFile) ==> PlanFor(o).conf == Some(FromSystem)
    ensures !o.recursive && !Truthy(o.hostsFile) ==> PlanFor(o).hosts == Some(FromSystem)
  {
  }

  /** `argv[k]` is `flag`, read as a token, and `path` is the token right after it. */
  predicate NamedAfterFlag(argv: seq<string>, parseU16: PortParser, flag: string, path: string) {
    exists k :: 2 <= k && k + 1 < |argv| && ReadsAsToken(argv, 2, Defaults(), parseU16, k) &&
                argv[k] == flag && argv[k + 1] == path
  }

  /**
   * Every file the plan reads was named on the command line: it is the token
   * right after its own flag, and the loop read that flag as a token.
   */
  lemma PlanFilesNamedOnCommandLine(argv: seq<string>, parseU16: PortParser)
    requires Parse(argv, parseU16).Run?
    ensures var p := PlanFor(Parse(argv, parseU16).opts);
            p.hints.Some? && p.hints.value.FromFile? ==> NamedAfterFlag(argv, parseU16, "--hints", p.hints.value.path)
    ensures var p := PlanFor(Parse(argv, parseU16).opts);
            p.conf.Some? && p.conf.value.FromFile? ==> NamedAfterFlag(argv, parseU16, "--conf", p.conf.value.path)
    ensures var p := PlanFor(Parse(argv, parseU16).opts);
            p.hosts.Some? && p.hosts.value.FromFile? ==> NamedAfterFlag(argv, parseU16, "--hosts", p.hosts.value.path)
  {
    var o := Parse(argv, parseU16).opts;
    var p := PlanFor(o);
    FileOptionsComeFromFlags(argv, 2, Defaults(), parseU16);
    PlanReadsOnlyGivenFiles(o);
    if p.hints.Some? && p.hints.value.FromFile? {
      var k :| 2 <= k < |argv| && ReadsAsToken(argv, 2, Defaults(), parseU16, k) &&
               argv[k] == "--hints" && OperandAt(argv, k) == o.hintsFile;
      assert k + 1 < |argv| && argv[k + 1] == p.hints.value.path;
    }
    if p.conf.Some? && p.conf.value.FromFile? {
      var k :| 2 <= k < |argv| && ReadsAsToken(argv, 2, Defaults(), parseU16, k) &&
               argv[k] == "--conf" && OperandAt(argv, k) == o.confFile;
      assert k + 1 < |argv| && argv[k + 1] == p.conf.value.path;
    }
    if p.hosts.Some? && p.hosts.value.FromFile? {
      var k :| 2 <= k < |argv| && ReadsAsToken(argv, 2, Defaults(), parseU16, k) &&
               argv[k] == "--hosts" && OperandAt(argv, k) == o.hostsFile;
      assert k + 1 < |argv| && argv[k + 1] == p.hosts.value.path;
    }
  }

  /** Without arguments: a stub server on 127.0.0.1:53 with the system configuration and hosts. */
  lemma DefaultPlan(node: string, script: string, parseU16: PortParser)
    ensures Parse([node, script], parseU16).Run?
    ensures PlanFor(Parse([node, script], parseU16).opts) ==
              Plan(StubServer, None, None, None, None, Some(FromSystem), Some(FromSystem), false, 53, "127.0.0.1")
  {
  }

  /** `--conf -r`: a stub server whose configuration comes from the file `-r`. */
  lemma ConfNamedLikeFlag(node: string, script: string, parseU16: PortParser)
    ensures Parse([node, script, "--conf", "-r"], parseU16).Run?
    ensures var p := PlanFor(Parse([node, script, "--conf", "-r"], parseU16).opts);
            p.kind == StubServer && p.conf == Some(FromFile("-r")) && p.hosts == Some(FromSystem)
  {
    var argv := [node, script, "--conf", "-r"];
    assert Classify(argv[2]) == ConfOpt;
    assert ParseFrom(argv, 2, Defaults(), parseU16) == ParseFrom(argv, 4, Defaults().(confFile := Some("-r")), parseU16);
  }

  /** `-r --hints ""`: the empty hints file name is falsy, so the bundled root hints are used. */
  lemma EmptyHintsUsesRoot(node: string, script: string, parseU16: PortParser)
    ensures Parse([node, script, "-r", "--hints", ""], parseU16).Run?
    ensures var p := PlanFor(Parse([node, script, "-r", "--hints", ""], parseU16).opts);
            p.kind == RecursiveServer && p.hints == Some(FromRoot) && p.conf == None
  {
    var argv := [node, script, "-r", "--hints", ""];
    var o := Defaults().(recursive := true);
    assert Classify(argv[2]) == RecursiveOpt;
    assert Classify(argv[3]) == HintsOpt;
    assert ParseFrom(argv, 2, Defaults(), parseU16) == ParseFrom(argv, 3, o, parseU16);
    assert ParseFrom(argv, 3, o, parseU16) == ParseFrom(argv, 5, o.(hintsFile := Some("")), parseU16);
  }
}
