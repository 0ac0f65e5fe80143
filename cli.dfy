// The server's command line: the configuration format taken from a file
// name, the option loop with its defaults, the checks on the parsed values,
// and start-up with an optional preloaded configuration.

module Cli {
  import opened Types
  import opened GraphSpecs
  import opened Compiler
  import opened Service

  // ---------------------------------------------------------------------------
  // Configuration format from a file name

  /** The position of the last `c` in `s`, if any. */
  function LastIndex(s: string, c: char): (r: Option<nat>)
    ensures r.None? <==> c !in s
    ensures r.Some? ==> r.value < |s| && s[r.value] == c && c !in s[r.value + 1..]
  {
    if s == [] then None
    else if s[|s| - 1] == c then Some(|s| - 1)
    else
      var r := LastIndex(s[..|s| - 1], c);
      assert r.Some? ==> s[r.value + 1..] == s[..|s| - 1][r.value + 1..] + [s[|s| - 1]];
      r
  }

  /** The loader a file name selects, from the text after its last '.':
      "yaml" or "yml" give "yaml", "json" gives "json" (case-sensitively). */
  function FormatFromPath(path: string): (r: Result<string, string>)
    ensures '.' !in path ==> r == Err("Cannot determine format from path: " + path)
    ensures r.Ok? ==> r.value == "yaml" || r.value == "json"
  {
    match LastIndex(path, '.')
    case None => Err("Cannot determine format from path: " + path)
    case Some(dot) =>
      var ext := path[dot + 1..];
      if ext == "yaml" || ext == "yml" then Ok("yaml")
      else if ext == "json" then Ok("json")
      else Err("Unknown file extension: " + ext)
  }

  /** Only the last extension counts, whatever dots the rest of the name holds. */
  lemma FormatOfExtension(stem: string, ext: string)
    requires '.' !in ext
    ensures FormatFromPath(stem + "." + ext) ==
      if ext == "yaml" || ext == "yml" then Ok("yaml")
      else if ext == "json" then Ok("json")
      else Err("Unknown file extension: " + ext)
  {
    var path := stem + "." + ext;
    var dot := |stem|;
    assert path[dot] == '.' && path[dot + 1..] == ext;
    assert forall j :: dot < j < |path| ==> path[j] == ext[j - dot - 1];
  }

  // ---------------------------------------------------------------------------
  // Options

  datatype Settings = Settings(port: int, configPath: string, dt: real)

  /** Port 50051, no configuration file, a 0.1 s timestep. */
  const DEFAULTS := Settings(50051, "", 0.1)

  /** Where the option loop ends: with settings, at `--help` (exit status 0),
      or with an error (exit status 1). */
  datatype Scanned = Parsed(settings: Settings) | ShowHelp | Usage(message: string)

  /** The option loop over the arguments after the program name, from
      settings `s`. Numbers are read by `toPort` and `toDt`. */
  function Scan(args: seq<string>, s: Settings, toPort: string -> int, toDt: string -> real): Scanned
    decreases |args|
  {
    if args == [] then Parsed(s)
    else if args[0] == "--help" then ShowHelp
    else if args[0] == "--port" then
      if |args| < 2 then Usage("Error: --port requires an argument")
      else Scan(args[2..], s.(port := toPort(args[1])), toPort, toDt)
    else if args[0] == "--config" then
      if |args| < 2 then Usage("Error: --config requires an argument")
      else Scan(args[2..], s.(configPath := args[1]), toPort, toDt)
    else if args[0] == "--dt" then
      if |args| < 2 then Usage("Error: --dt requires an argument")
      else Scan(args[2..], s.(dt := toDt(args[1])), toPort, toDt)
    else Usage("Error: Unknown argument: " + args[0])
  }

  /** A list that scans to settings `t` can be continued: what follows is
      scanned from `t`. */
  lemma {:induction false} ScanAppend(a: seq<string>, b: seq<string>, s: Settings, t: Settings,
                                      toPort: string -> int, toDt: string -> real)
    requires Scan(a, s, toPort, toDt) == Parsed(t)
    ensures Scan(a + b, s, toPort, toDt) == Scan(b, t, toPort, toDt)
    decreases |a|
  {
    if a != [] {
      assert a[0] == "--port" || a[0] == "--config" || a[0] == "--dt";
      assert |a| >= 2;
      assert (a + b)[0] == a[0] && (a + b)[1] == a[1] && (a + b)[2..] == a[2..] + b;
      var s' := if a[0] == "--port" then s.(port := toPort(a[1]))
                else if a[0] == "--config" then s.(configPath := a[1])
                else s.(dt := toDt(a[1]));
      ScanAppend(a[2..], b, s', t, toPort, toDt);
    } else {
      assert a + b == b;
    }
  }

  /** `--help` ends parsing: nothing after it is looked at. */
  lemma HelpStopsParsing(a: seq<string>, b: seq<string>, t: Settings, toPort: string -> int, toDt: string -> real)
    requires Scan(a, DEFAULTS, toPort, toDt) == Parsed(t)
    ensures Scan(a + ["--help"] + b, DEFAULTS, toPort, toDt) == ShowHelp
  {
    ScanAppend(a, ["--help"] + b, DEFAULTS, t, toPort, toDt);
    assert a + ["--help"] + b == a + (["--help"] + b);
  }

  /** A repeated option overrides what came before it. */
  lemma LastOccurrenceWins(a: seq<string>, v: string, t: Settings, toPort: string -> int, toDt: string -> real)
    requires Scan(a, DEFAULTS, toPort, toDt) == Parsed(t)
    ensures Scan(a + ["--port", v], DEFAULTS, toPort, toDt) == Parsed(t.(port := toPort(v)))
    ensures Scan(a + ["--config", v], DEFAULTS, toPort, toDt) == Parsed(t.(configPath := v))
    ensures Scan(a + ["--dt", v], DEFAULTS, toPort, toDt) == Parsed(t.(dt := toDt(v)))
  {
    ScanAppend(a, ["--port", v], DEFAULTS, t, toPort, toDt);
    ScanAppend(a, ["--config", v], DEFAULTS, t, toPort, toDt);
    ScanAppend(a, ["--dt", v], DEFAULTS, t, toPort, toDt);
  }

  /** An option missing its value, or an argument that is not an option, is an error. */
  lemma MalformedArguments(a: seq<string>, b: seq<string>, x: string, t: Settings,
                           toPort: string -> int, toDt: string -> real)
    requires Scan(a, DEFAULTS, toPort, toDt) == Parsed(t)
    ensures Scan(a + ["--port"], DEFAULTS, toPort, toDt) == Usage("Error: --port requires an argument")
    ensures Scan(a + ["--config"], DEFAULTS, toPort, toDt) == Usage("Error: --config requires an argument")
    ensures Scan(a + ["--dt"], DEFAULTS, toPort, toDt) == Usage("Error: --dt requires an argument")
    ensures x != "--help" && x != "--port" && x != "--config" && x != "--dt" ==>
      Scan(a + [x] + b, DEFAULTS, toPort, toDt) == Usage("Error: Unknown argument: " + x)
  {
    ScanAppend(a, ["--port"], DEFAULTS, t, toPort, toDt);
    ScanAppend(a, ["--config"], DEFAULTS, t, toPort, toDt);
    ScanAppend(a, ["--dt"], DEFAULTS, t, toPort, toDt);
    ScanAppend(a, [x] + b, DEFAULTS, t, toPort, toDt);
    assert a + [x] + b == a + ([x] + b);
  }

  /** The option loop as the server runs it, over `args` (without the program name). */
  method ParseArguments(args: seq<string>, toPort: string -> int, toDt: string -> real) returns (r: Scanned)
    ensures r == Scan(args, DEFAULTS, toPort, toDt)
  {
    var port, configPath, dt := DEFAULTS.port, DEFAULTS.configPath, DEFAULTS.dt;
    var i := 0;
    while i < |args|
      invariant 0 <= i <= |args|
      invariant Scan(args, DEFAULTS, toPort, toDt) == Scan(args[i..], Settings(port, configPath, dt), toPort, toDt)
    {
      var arg := args[i];
      if arg == "--help" {
        return ShowHelp;
      } else if arg == "--port" {
        if i + 1 >= |args| {
          return Usage("Error: --port requires an argument");
        }
        assert args[i + 2..] == args[i..][2..];
        port := toPort(args[i + 1]);
        i := i + 1;
      } else if arg == "--config" {
        if i + 1 >= |args| {
          return Usage("Error: --config requires an argument");
        }
        assert args[i + 2..] == args[i..][2..];
        configPath := args[i + 1];
        i := i + 1;
      } else if arg == "--dt" {
        if i + 1 >= |args| {
          return Usage("Error: --dt requires an argument");
        }
        assert args[i + 2..] == args[i..][2..];
        dt := toDt(args[i + 1]);
        i := i + 1;
      } else {
        return Usage("Error: Unknown argument: " + arg);
      }
      i := i + 1;
    }
    r := Parsed(Settings(port, configPath, dt));
  }

  /** The checks after parsing: the port must be unprivileged and the timestep positive. */
  function CheckSettings(s: Settings): (r: Option<string>)
    ensures r.None? <==> 1024 <= s.port <= 65535 && s.dt > 0.0
  {
    if s.port < 1024 || s.port > 65535 then Some("Error: Port must be between 1024 and 65535")
    else if s.dt <= 0.0 then Some("Error: Timestep must be positive")
    else None
  }

  // ---------------------------------------------------------------------------
  // Start-up

  /** How start-up ends: the process exits with a status, or the server
      listens on a port. */
  datatype Launch = Exit(status: int) | Serving(port: int)

  /** The timestep the server is started with, as written: the service is
      constructed with its default argument and the `--dt` value is unused. */
  function ServiceTimestepAsWritten(s: Settings): (dt: real)
    ensures dt == DEFAULTS.dt
  {
    0.1
  }

  /** With `--dt 0.5` the server reports a 0.5 s timestep but, as written,
      ticks at 0.1 s. */
  lemma TimestepFlagIgnoredAsWritten(toPort: string -> int, toDt: string -> real)
    requires toDt("0.5") == 0.5
    ensures Scan(["--dt", "0.5"], DEFAULTS, toPort, toDt) == Parsed(DEFAULTS.(dt := 0.5))
    ensures CheckSettings(DEFAULTS.(dt := 0.5)).None?
    ensures ServiceTimestepAsWritten(DEFAULTS.(dt := 0.5)) != DEFAULTS.(dt := 0.5).dt
  {
    assert ["--dt", "0.5"][2..] == [];
  }

  /** Start-up: parse and check the options, create the service with the
      requested timestep and, when a configuration file is named, preload it
      (its text already parsed into `parsed`, the loader chosen from its
      name); any failure exits with status 1. */
  method Boot(args: seq<string>, toPort: string -> int, toDt: string -> real,
              parsed: Result<GraphSpec, string>, syntax: ConditionSyntax)
    returns (launch: Launch, service: FluxGraphService?)
    ensures Scan(args, DEFAULTS, toPort, toDt) == ShowHelp ==> launch == Exit(0) && service == null
    ensures Scan(args, DEFAULTS, toPort, toDt).Usage? ==> launch == Exit(1) && service == null
    ensures Scan(args, DEFAULTS, toPort, toDt).Parsed? ==>
      var s := Scan(args, DEFAULTS, toPort, toDt).settings;
      && (CheckSettings(s).Some? ==> launch == Exit(1) && service == null)
      && (CheckSettings(s).None? && s.configPath == "" ==>
            && launch == Serving(s.port) && service != null && fresh(service)
            && service.Valid() && service.dt == s.dt && !service.loaded)
      && (CheckSettings(s).None? && s.configPath != "" && FormatFromPath(s.configPath).Err? ==>
            launch == Exit(1) && service == null)
      && (CheckSettings(s).None? && s.configPath != "" && FormatFromPath(s.configPath).Ok? ==>
            && (launch.Serving? <==> service != null)
            && (launch.Serving? ==>
                  && launch.port == s.port && fresh(service) && service.Valid()
                  && service.dt == s.dt && service.loaded)
            && (parsed.Err? ==> launch == Exit(1))
            && (parsed.Ok? && launch.Serving? ==>
                  && Accepts(parsed.value, service.signalNs.pathToId, s.dt, syntax)
                  && service.Runs(parsed.value, syntax))
            && (parsed.Ok? && launch.Exit? ==>
                  exists ids, e :: Rejects(parsed.value, ids, s.dt, syntax, e)))
  {
    service := null;
    var scanned := ParseArguments(args, toPort, toDt);
    if scanned.ShowHelp? {
      return Exit(0), null;
    }
    if scanned.Usage? {
      return Exit(1), null;
    }
    var s := scanned.settings;
    if CheckSettings(s).Some? {
      return Exit(1), null;
    }
    var created := new FluxGraphService(s.dt);
    if s.configPath != "" {
      var format := FormatFromPath(s.configPath);
      if format.Err? {
        return Exit(1), null;
      }
      var loaded := created.LoadConfig("", format.value, parsed, syntax);
      if loaded.Err? {
        if parsed.Ok? {
          assert Rejects(parsed.value, created.signalNs.pathToId, s.dt, syntax, loaded.error.reason.error);
        }
        return Exit(1), null;
      }
    }
    launch, service := Serving(s.port), created;
  }
}
