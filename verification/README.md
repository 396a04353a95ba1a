# named.js start-up, modelled in Dafny

This project models the command-line front end of the `named.js` DNS server
in `bin/named.js`.

The script keeps ten option variables: `host`, `port`, `confFile`,
`hostsFile`, `recursive`, `hintsFile`, `inet6`, `edns`, `dnssec` and `debug`.
It starts them at fixed defaults and walks `process.argv` from index 2.
Each token does one of four things:

- it updates one option (`-4`, `-6`, `-r`, `--recursive`, `+edns`, `+noedns`,
  `+dnssec`, `+nodnssec`, `+debug`, `+nodebug`, `@host`); `+dnssec` updates
  two, edns and dnssec;
- it takes the following token as its option's value (`-p`, `--conf`,
  `--hosts`, `--hints`);
- it ends the program with the version banner (`-h`, `--help`, `-?`, `-v`);
- it throws `Unexpected argument` (the empty token, or any other token that
  does not start with `@`).

From the options, the script then picks a recursive or a stub server. A
recursive server loads root hints from a file or from the bundled root. A stub
server loads its resolver configuration and its hosts table, each from a file
or from the system.

Files and modules:

- `wrappers.dfy` (`Wrappers`): `Option`. `None` stands for JavaScript `null`
  and `undefined` alike.
- `argv_parser.dfy` (`ArgvParser`): the options record, the token
  classification (`Classify`, whose case labels are those of the
  `switch`), one pass of the loop body (`StepOn`), the
  specification of the whole loop (`ParseFrom`, `Parse`), and the imperative
  loop `ParseArgv`. `ParseArgv` works over local option variables and is
  proved equal to `Parse`.
- `argv_properties.dfy` (`ArgvProperties`): lemmas about `Parse`. They cover
  the defaults, the two leading entries that are never read, the effect of
  each token, and override order: for each of the ten options, the last
  switch or value-taking flag read that assigns it decides its value. They also cover provenance: each stop, and each option
  that differs from its default, comes from a token the loop read as a token,
  not as the operand of a value-taking flag (`ReadsAsToken`).
- `startup.dfy` (`Startup`): the start-up plan (`PlanFor`). It records the
  server kind, the loaders that are called, the server options, whether the
  debug handlers are attached, and the listen address.

`util.parseU16` is not part of this model. `ParseArgv` and `Parse` take it as
a parameter: a total function from the token after `-p` (`None` when that
token is past the end of argv) to a port, or to `None` when it throws.

Two behaviours of the source show up in the model:

- A value-taking flag in last position reads `argv[i + 1]`, which is
  `undefined`. The model records `None` for it and does not fail, except for
  `-p`, where the outcome depends on `util.parseU16`.
- Later, the chosen loader tests the file option for truthiness. So a missing
  value and an empty file name both fall back to the built-in source.

## Model

| member | source | states |
|---|---|---|
| `ArgvParser.ClassifyMeaning` | bin/named.js:24-86 | A token means a host exactly when it starts with `@`, and the host is the text after the `@`. It is rejected exactly when it is not one of the eighteen case labels and is empty or does not start with `@`. The help/version tokens and the four value-taking flags are recognised exactly. |
| `ArgvParser.Apply` | bin/named.js:28-84 | A switch never changes the port or any file option. Only an `@`-token changes the host, and it sets the host to its text after the `@` and nothing else. |
| `ArgvParser.OperandReadOnlyByValueFlags` | bin/named.js:22-87 | Only `-p`, `--conf`, `--hosts` and `--hints` read `argv[i + 1]`. For every other token, the pass of the loop body is the same whatever follows the token. |
| `ArgvParser.StepOn` | bin/named.js:22-87 | One pass of the loop body, given the token and the entry after it, moves on by 2 after a value-taking flag and by 1 otherwise. It stops exactly on a help/version token, a rejected token, or a `-p` whose operand `util.parseU16` rejects. |
| `ArgvParser.ParseArgv` | bin/named.js:10-88 | The loop over the option variables, from index 2 with the defaults, returns exactly `Parse(argv)`. This covers its early exits for help/version and for errors. Each case of its `switch` does what the source's case body does, and `Classify` maps the case labels to those cases. |
| `ArgvProperties.NoArgumentsGivesDefaults` | bin/named.js:10-21 | With no entry after index 1, the result is the defaults: host `127.0.0.1`, port 53, not recursive, no debug, no conf/hosts/hints file, and inet6/edns/dnssec unset. |
| `ArgvProperties.ParseFromReadsOnlyFrom` | bin/named.js:21-22 | The loop started at index `i` reads no entry of argv before `i`. |
| `ArgvProperties.LeadingEntriesIgnored` | bin/named.js:21 | Two argv that differ only in their first two entries parse alike. |
| `ArgvProperties.UnexpectedTokenFails` | bin/named.js:24-86 | An empty token, or an unrecognised one not starting with `@`, fails with `UnexpectedArgument` naming that token. |
| `ArgvProperties.AtTokenSetsHost` | bin/named.js:80-84 | An `@`-token sets only the host, to the text after the `@`, and parsing goes on at the next token. |
| `ArgvProperties.VersionTokenExits` | bin/named.js:54-60 | `-h`, `--help`, `-?` and `-v` end parsing with `Exit`, whatever follows. |
| `ArgvProperties.FileOptionTakesOperand` | bin/named.js:38-53 | `--conf`, `--hosts` and `--hints` store the next token, or `undefined` at the end, in their own option. Parsing resumes two tokens on, so that token is never read as a flag. |
| `ArgvProperties.PortOptionTakesOperand` | bin/named.js:34-37 | `-p` passes the next token to `util.parseU16`. It fails with `BadPort` when that rejects the token; otherwise it sets the port and resumes two tokens on. |
| `ArgvProperties.SwitchLabelsAreSwitches` | bin/named.js:27-84 | The ten switch labels are exactly the tokens the `switch` treats as a switch other than `@host`. |
| `ArgvProperties.SwitchTokenApplies` | bin/named.js:28-79 | Each switch label assigns its own value and parsing goes on at the next token. `-4` sets inet6 to false and `-6` to true. `-r` and `--recursive` set recursive. `+edns`/`+noedns` set edns to true/false. `+dnssec` sets edns and dnssec to true. `+nodnssec` sets dnssec to false. `+debug`/`+nodebug` set debug to true/false. |
| `ArgvProperties.DnssecSwitches` | bin/named.js:67-73 | `+dnssec` sets edns and dnssec to true. `+nodnssec` sets dnssec to false and leaves edns unchanged. |
| `ArgvProperties.SwitchFrame` | bin/named.js:28-79 | Every switch leaves unchanged each option it does not touch, and it never changes port or any file option. |
| `ArgvProperties.LaterSwitchWins` | bin/named.js:28-79 | When a later switch touches every option an earlier one touched, the earlier one has no effect, so the last occurrence wins. |
| `ArgvProperties.IndependentSwitchesCommute` | bin/named.js:28-79 | Switches that touch different options give the same result in either order. |
| `ArgvProperties.ParseFromAppend` | bin/named.js:21-88 | Parsing a prefix that ends cleanly at its last token does not depend on what follows it. Parsing the whole argv continues from the prefix's options. |
| `ArgvProperties.SettledPrefixRuns` | bin/named.js:21-88 | An argv whose scan ends exactly at its end without stopping parses to `Run` with the reached options. |
| `ArgvProperties.AppendedSwitchApplies` | bin/named.js:21-79 | A switch appended to a cleanly ending argv applies on top of that argv's options. |
| `ArgvProperties.VersionIgnoresRest` | bin/named.js:54-60 | After a cleanly ending prefix, a help/version token gives `Exit`, whatever follows, including bad tokens. |
| `ArgvProperties.BadTokenFailsAfterPrefix` | bin/named.js:24-86 | After a cleanly ending prefix, a bad token fails with `UnexpectedArgument` naming it, whatever follows. |
| `ArgvProperties.ReadsAsTokenBounds` | bin/named.js:21 | A position the loop reads as a token lies between the start index and the end of argv. |
| `ArgvProperties.UnexpectedNamesBadToken` | bin/named.js:24-86 | An `UnexpectedArgument` failure names a bad token that the loop read as a token. |
| `ArgvProperties.ExitNeedsVersionToken` | bin/named.js:54-60 | An `Exit` outcome implies that the loop read `-h`, `--help`, `-?` or `-v` as a token. |
| `ArgvProperties.BadPortNeedsPortFlag` | bin/named.js:34-37 | A `BadPort` failure carries an operand that `util.parseU16` rejects. That operand follows a `-p` that the loop read as a token. |
| `ArgvProperties.HostComesFromAtToken` | bin/named.js:80-84 | The final host is either the starting host or the text after the `@` of an `@`-token that the loop read as a token, so never an operand. |
| `ArgvProperties.PortComesFromPortFlag` | bin/named.js:34-37 | The final port is either the starting port or what `util.parseU16` returned for the operand of a `-p` that the loop read as a token. |
| `ArgvProperties.RecursiveNeedsFlag` | bin/named.js:46-49 | Recursive mode is on at the end only if the loop read `-r` or `--recursive` as a token. |
| `ArgvProperties.FileOptionsComeFromFlags` | bin/named.js:38-53 | Each of confFile, hostsFile and hintsFile is either its starting value or the operand, possibly `undefined`, of its own flag, read as a token. |
| `ArgvProperties.Inet6ComesFromSwitch` | bin/named.js:28-33 | inet6 is either its starting value, or false with a `-4` read as a token, or true with a `-6` read as a token. |
| `ArgvProperties.EdnsComesFromSwitch` | bin/named.js:61-70 | edns is either its starting value, or true with a `+edns` or `+dnssec` read as a token, or false with a `+noedns` read as a token. |
| `ArgvProperties.DnssecComesFromSwitch` | bin/named.js:67-73 | dnssec is either its starting value, or true with a `+dnssec` read as a token, or false with a `+nodnssec` read as a token. |
| `ArgvProperties.DebugComesFromSwitch` | bin/named.js:74-79 | debug is either its starting value, or true with a `+debug` read as a token, or false with a `+nodebug` read as a token. |
| `ArgvProperties.SwitchSetsFixedValue` | bin/named.js:28-84 | Each switch assigns a fixed value to every option it touches: the value does not depend on the options before it. |
| `ArgvProperties.UnsetOptionKept` | bin/named.js:21-88 | A switch-set option (host, inet6, recursive, edns, dnssec or debug) that no token read as a token from `i` on assigns ends with the value it had at `i`. |
| `ArgvProperties.LastSettingSwitchWins` | bin/named.js:21-88 | For a switch-set option (host, inet6, recursive, edns, dnssec or debug), the last switch read as a token that assigns it decides its final value, whatever came before it and whatever else follows it. |
| `ArgvProperties.SettingLabels` | bin/named.js:28-84 | The tokens that assign each option: inet6 only `-4`/`-6`; edns only `+edns`/`+noedns`/`+dnssec`; dnssec only `+dnssec`/`+nodnssec`; debug only `+debug`/`+nodebug`; the host only `@`-tokens. |
| `ArgvProperties.LastAddressFamilySwitchWins` | bin/named.js:28-33 | After the loop, inet6 is false if the last `-4`/`-6` read as a token is `-4`, and true if it is `-6`. |
| `ArgvProperties.LastEdnsSwitchWins` | bin/named.js:61-70 | After the loop, edns is false if the last `+edns`/`+noedns`/`+dnssec` read as a token is `+noedns`, and true otherwise. |
| `ArgvProperties.LastDnssecSwitchWins` | bin/named.js:67-73 | After the loop, dnssec is false if the last `+dnssec`/`+nodnssec` read as a token is `+nodnssec`, and true otherwise. |
| `ArgvProperties.LastDebugSwitchWins` | bin/named.js:74-79 | After the loop, debug is true exactly when the last `+debug`/`+nodebug` read as a token is `+debug`. |
| `ArgvProperties.LastAtTokenWins` | bin/named.js:80-84 | After the loop, the host is the text after the `@` of the last `@`-token read as a token. |
| `ArgvProperties.StepKeepsOtherValues` | bin/named.js:27-87 | A pass of the loop body on any token other than the flag of port, conf, hosts or hints leaves that option as it was. |
| `ArgvProperties.OperandOptionKept` | bin/named.js:21-88 | If the flag of port, conf, hosts or hints is never read as a token from `i` on, that option ends with the value it had at `i`. |
| `ArgvProperties.LastOperandFlagWins` | bin/named.js:21-88 | For port, conf, hosts and hints, the last occurrence of the option's flag read as a token decides its final value: the value that flag takes from the entry after it. |
| `ArgvProperties.OperandFlagLabels` | bin/named.js:34-53 | The only tokens that act as the value-taking flags are `-p`, `--conf`, `--hosts` and `--hints`, one per option. |
| `ArgvProperties.LastPortFlagWins` | bin/named.js:34-37 | After the loop, the port is what `util.parseU16` returns for the entry after the last `-p` read as a token. |
| `ArgvProperties.LastConfFlagWins` | bin/named.js:38-41 | After the loop, the configuration file is the entry after the last `--conf` read as a token. It is `None` if that `--conf` is the last entry. |
| `ArgvProperties.LastHostsFlagWins` | bin/named.js:42-45 | After the loop, the hosts file is the entry after the last `--hosts` read as a token. It is `None` if that `--hosts` is the last entry. |
| `ArgvProperties.LastHintsFlagWins` | bin/named.js:50-53 | After the loop, the root hints file is the entry after the last `--hints` read as a token. It is `None` if that `--hints` is the last entry. |
| `ArgvProperties.ConfOperandIsNotAFlag` | bin/named.js:38-41 | `--conf -r` gives the defaults with conf file `-r`, and recursive stays false. |
| `ArgvProperties.LastAddressFamilyWins` | bin/named.js:28-33 | `-6 -4` gives the defaults with inet6 false. |
| `ArgvProperties.OperandNotReadAsToken` | bin/named.js:38-41 | In `--conf @x @x`, the first `@x` is consumed as the operand and is not read as a token; the second one is. |
| `ArgvProperties.HelpBeforeEmptyToken` | bin/named.js:54-60 | `-h ""` exits without an error: the empty token is never examined. |
| `Startup.Pick` | bin/named.js:99-112 | A loader reads a file exactly when the file option is truthy, that is a non-empty string, and then reads exactly that file. Otherwise it uses the built-in source. |
| `Startup.PlanFor` | bin/named.js:90-144 | The recursive server is chosen exactly when `recursive` is set. It loads hints only, from the hints file or the root. The stub server loads conf and hosts only, each from its file or from the system. inet6/edns/dnssec go to the server. The debug handlers are attached exactly when `debug` is set. The server listens on the parsed host and port. |
| `Startup.PlanLoadsForItsKindOnly` | bin/named.js:98-113 | A recursive plan calls the hints loader and no other. A stub plan calls the conf and hosts loaders and not the hints loader. |
| `Startup.PlanReadsOnlyGivenFiles` | bin/named.js:98-113 | Every file a plan reads is the value of its own file option and is not empty. |
| `Startup.MissingFileUsesBuiltin` | bin/named.js:99-112 | Each loader falls back on its own, whatever the other file options are. A recursive plan with a falsy hints option uses the bundled root. A stub plan uses the system conf when the conf option is falsy, and the system hosts when the hosts option is falsy. |
| `Startup.PlanFilesNamedOnCommandLine` | bin/named.js:38-113 | Every file the plan for an argv reads comes from the command line. It is the token right after its own flag (`--hints`, `--conf` or `--hosts`), and the loop read that flag as a token. |
| `Startup.DefaultPlan` | bin/named.js:90-113 | With no arguments, the plan is a stub server on 127.0.0.1:53 with the system conf and hosts, no server options, and no debug handlers. |
| `Startup.ConfNamedLikeFlag` | bin/named.js:104-107 | `--conf -r` plans a stub server that reads its configuration from the file `-r` and its hosts from the system. |
| `Startup.EmptyHintsUsesRoot` | bin/named.js:99-102 | `-r --hints ""` plans a recursive server that uses the bundled root hints, because `""` is falsy. |

## Left out

- `console.log` of the version banner and `process.exit(0)` (bin/named.js:58-59) are I/O. Help/version is the `Exit` outcome.
- Thrown errors are the `Fail` outcome. The message text `Unexpected argument: <arg>.` is not modelled; the failure carries the token.
- `util.parseU16` is not part of this model. It is a parameter that may reject its input, and what it accepts is not described.
- Building `RecursiveServer`/`StubServer`, the `error`, `log`, `query` and `listening` handlers, and `server.open` (bin/named.js:92-96, 115-144) are network and event plumbing over classes this model does not include. The plan only records the decisions: options passed, handlers attached or not, host and port.
- The loaders `hints.fromFile/fromRoot`, `conf.fromFile/fromSystem` and `hosts.fromFile/fromSystem` are disk I/O. The plan records which one is called and with which path.
- JavaScript `null` and `undefined` are both `None`. The script only tests the file options for truthiness, so it never tells them apart.
- Tokens are `seq<char>`, not UTF-16. The only character the source inspects is a leading `@`, which is the same in both.
- The DNS resolution engine, cache, stub forwarder and DNSSEC validation are not part of this model. Their source (`lib/server/recursive`, `lib/server/stub`, `lib/util`) is not included.
