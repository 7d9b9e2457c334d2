/** The deterministic assertions of the Neutrino API tests, replayed as client code
    of the model: each method below performs the steps of one test and returns what
    that test reads, and its postcondition is what the test expects those readings
    to be. */
module Scenarios {
  import opened Wrappers
  import opened Values
  import opened Events
  import Options
  import Paths
  import Strings
  import Regex
  import Api

  /** The option names of the custom-option cases name no path key and not `mains`.
      Literal facts only, kept apart so that the scenario proofs stay small. */
  lemma CustomNames()
    ensures !Options.IsReserved("alpha") && !Options.IsReserved("beta")
    ensures !Options.IsReserved("gamma") && !Options.IsReserved("delta")
  {
  }

  /** Custom options given to the constructor read back unchanged. */
  method InitializationStoresOptions(cwd: string) returns (alpha: Option<Value>, beta: Option<Value>, gamma: Option<Value>)
    requires Paths.IsAbsolute(cwd)
    ensures alpha == Some(Str("a")) && beta == Some(Str("b")) && gamma == Some(Str("c"))
  {
    CustomNames();
    var opts := map["alpha" := Str("a"), "beta" := Str("b"), "gamma" := Str("c")];
    Options.CustomOnly(opts);
    var api := new Api.Neutrino(cwd, opts);
    var options := api.options;
    assert options.custom == opts;
    alpha, beta, gamma := options.Read("alpha"), options.Read("beta"), options.Read("gamma");
  }

  /** The options of the merge case: the update names every option, and puts no
      object over an object, so the merge replaces them all. */
  lemma MergeCase(opts: map<string, Value>, update: map<string, Value>)
    requires opts == map["alpha" := Str("a"), "beta" := Object(map[]), "gamma" := Number(4), "delta" := Array([])]
    requires update == map["alpha" := Str("d"), "beta" := Number(3), "gamma" := Regex(".*"), "delta" := Bool(true)]
    ensures Options.WellFormed(opts) && Options.WellFormed(update)
    ensures MergeOptions(Options.Custom(opts), Options.Custom(update)) == update
  {
    CustomNames();
    Options.CustomOnly(opts);
    Options.CustomOnly(update);
    MergeReplaces(opts, update);
  }

  /** Merged custom options read as the update, whatever kinds they replace. */
  method MergesCustomPrimitiveOptionProperties(cwd: string)
    returns (alpha: Option<Value>, beta: Option<Value>, gamma: Option<Value>, delta: Option<Value>)
    requires Paths.IsAbsolute(cwd)
    ensures alpha == Some(Str("d")) && beta == Some(Number(3))
    ensures gamma == Some(Regex(".*")) && delta == Some(Bool(true))
  {
    var opts := map["alpha" := Str("a"), "beta" := Object(map[]), "gamma" := Number(4), "delta" := Array([])];
    var update := map["alpha" := Str("d"), "beta" := Number(3), "gamma" := Regex(".*"), "delta" := Bool(true)];
    MergeCase(opts, update);
    var api := new Api.Neutrino(cwd, opts);
    var options := api.options;
    options.Merge(update);
    alpha, beta, gamma, delta := MergedReadings(options, update);
  }

  /** The readings of the custom options once the merge has replaced them all. */
  method MergedReadings(options: Options.Store, update: map<string, Value>)
    returns (alpha: Option<Value>, beta: Option<Value>, gamma: Option<Value>, delta: Option<Value>)
    requires options.Valid()
    requires update == map["alpha" := Str("d"), "beta" := Number(3), "gamma" := Regex(".*"), "delta" := Bool(true)]
    requires options.custom == update
    ensures alpha == Some(Str("d")) && beta == Some(Number(3))
    ensures gamma == Some(Regex(".*")) && delta == Some(Bool(true))
  {
    CustomNames();
    alpha, beta := options.Read("alpha"), options.Read("beta");
    gamma, delta := options.Read("gamma"), options.Read("delta");
  }

  /** `options.root`: the working directory, then a relative and an absolute assignment. */
  method OptionsRoot(cwd: string) returns (initial: string, relative: string, absolute: string)
    requires Paths.IsAbsolute(cwd)
    ensures initial == cwd && relative == Paths.Join(cwd, "alpha") && absolute == "/alpha"
  {
    var api := new Api.Neutrino(cwd, map[]);
    var options := api.options;
    initial := options.Get(Options.Root);
    options.SetPath(Options.Root, "./alpha");
    assert "./alpha" == "./" + "alpha";
    Paths.JoinDot(cwd, "alpha");
    relative := options.Get(Options.Root);
    options.SetPath(Options.Root, "/alpha");
    absolute := options.Get(Options.Root);
  }

  /** `options.source`, `options.output`, `options.tests` and `options.node_modules`:
      the default under the working directory, a relative assignment that follows a
      later `root`, and an absolute assignment read verbatim. */
  method DerivedPathOption(cwd: string, k: Options.PathKey)
    returns (initial: string, relative: string, moved: string, absolute: string)
    requires Paths.IsAbsolute(cwd) && k != Options.Root
    ensures k == Options.Source ==> initial == Paths.Join(cwd, "src")
    ensures k == Options.Output ==> initial == Paths.Join(cwd, "build")
    ensures k == Options.Tests ==> initial == Paths.Join(cwd, "test")
    ensures k == Options.NodeModules ==> initial == Paths.Join(cwd, "node_modules")
    ensures relative == Paths.Join(cwd, "alpha")
    ensures moved == Paths.Join("/beta", "alpha")
    ensures absolute == "/alpha"
  {
    var api := new Api.Neutrino(cwd, map[]);
    var options := api.options;
    var suffix := Options.DefaultRaw(k, cwd);
    assert !Paths.IsAbsolute(suffix) by {
      match k
      case Source =>
      case Output =>
      case Tests =>
      case NodeModules =>
    }
    assert options.Get(Options.Root) == cwd;
    initial := options.Get(k);
    options.SetPath(k, "./alpha");
    assert "./alpha" == "./" + "alpha";
    Paths.JoinDot(cwd, "alpha");
    assert options.Get(Options.Root) == cwd;
    relative := options.Get(k);
    moved, absolute := DerivedPathOptionMoved(options, k);
  }

  /** A derived key assigned "./alpha", once `root` moves to "/beta" and once the key
      is assigned an absolute path. */
  method DerivedPathOptionMoved(options: Options.Store, k: Options.PathKey) returns (moved: string, absolute: string)
    requires options.Valid() && k != Options.Root && options.raw[k] == "./alpha"
    modifies options
    ensures moved == Paths.Join("/beta", "alpha")
    ensures absolute == "/alpha"
  {
    options.SetPath(Options.Root, "/beta");
    assert "./alpha" == "./" + "alpha";
    Paths.JoinDot("/beta", "alpha");
    assert options.Get(Options.Root) == "/beta" && options.raw[k] == "./alpha";
    moved := options.Get(k);
    options.SetPath(k, "/alpha");
    absolute := options.Get(k);
  }

  /** The relative values of the mains cases and the joined suffixes they read as.
      Literal facts only, kept apart so that the scenario proofs stay small. */
  lemma MainsLiterals()
    ensures "src" + "/" + "index" == "src/index"
    ensures "src" + "/" + "alpha.js" == "src/alpha.js"
    ensures "beta" + "/" + "alpha.js" == "beta/alpha.js"
    ensures "src" + "/" + "beta" == "src/beta"
    ensures "epsilon" + "/" + "alpha.js" == "epsilon/alpha.js"
    ensures "epsilon" + "/" + "delta" == "epsilon/delta"
  {
  }

  /** `options.mains`: the default `index` entry follows `source` and `root`. */
  method OptionsMains(cwd: string) returns (readings: seq<Option<string>>)
    requires Paths.IsAbsolute(cwd)
    ensures readings == [Some(Paths.Join(cwd, "src/index")), Some(Paths.Join(cwd, "src/alpha.js")),
                         Some(Paths.Join(cwd, "beta/alpha.js")), Some(Paths.Join("/gamma", "beta/alpha.js")),
                         Some("/alpha.js")]
  {
    MainsLiterals();
    var api := new Api.Neutrino(cwd, map[]);
    var options := api.options;
    assert options.Get(Options.Root) == cwd;
    options.MainJoined("index", "index");
    var initial := options.Main("index");
    options.SetMain("index", "./alpha.js");
    options.MainJoined("index", "alpha.js");
    var relative := options.Main("index");
    var later := OptionsMainsMoved(options, cwd);
    readings := [initial, relative] + later;
  }

  /** The default entry of `options.mains` once `source` and then `root` move. */
  method OptionsMainsMoved(options: Options.Store, cwd: string) returns (readings: seq<Option<string>>)
    requires options.Valid() && Paths.IsAbsolute(cwd)
    requires options.raw[Options.Root] == cwd && options.raw[Options.Source] == "src"
    requires "index" in options.mains && options.mains["index"] == "./alpha.js"
    modifies options
    ensures readings == [Some(Paths.Join(cwd, "beta/alpha.js")), Some(Paths.Join("/gamma", "beta/alpha.js")),
                         Some("/alpha.js")]
  {
    MainsLiterals();
    assert options.Get(Options.Root) == cwd;
    options.SetPath(Options.Source, "beta");
    options.MainJoined("index", "alpha.js");
    var moved := options.Main("index");
    options.SetPath(Options.Root, "/gamma");
    options.MainJoined("index", "alpha.js");
    var rooted := options.Main("index");
    options.SetMain("index", "/alpha.js");
    readings := [moved, rooted, options.Main("index")];
  }

  /** The constructor options of the override case, read as the store reads them. */
  lemma OverriddenMains(opts: map<string, Value>)
    requires opts == map["mains" := Object(map["alpha" := Str("beta"), "gamma" := Str("delta")])]
    ensures Options.WellFormed(opts) && Options.MAINS in opts
    ensures Options.MainsOf(opts) == map["alpha" := "beta", "gamma" := "delta"]
    ensures forall k: Options.PathKey :: Options.KeyName(k) !in opts
  {
    assert Options.MAINS == "mains";
    var m := Options.MainsOf(opts);
    assert m.Keys == {"alpha", "gamma"};
  }

  /** `mains` given to the constructor: each entry's value replaces its default
      suffix, follows `source` and `root`, and changes independently of the others. */
  method OverrideOptionsMains(cwd: string) returns (alpha: seq<Option<string>>, gamma: seq<Option<string>>)
    requires Paths.IsAbsolute(cwd)
    ensures alpha == [Some(Paths.Join(cwd, "src/beta")), Some(Paths.Join(cwd, "src/alpha.js")),
                      Some(Paths.Join(cwd, "epsilon/alpha.js")), Some(Paths.Join("/zeta", "epsilon/alpha.js")),
                      Some("/alpha.js")]
    ensures gamma == [Some(Paths.Join("/zeta", "epsilon/delta")), Some(Paths.Join("/zeta", "epsilon/alpha.js")),
                      Some(Paths.Join("/zeta", "src/alpha.js")), Some(Paths.Join(cwd, "src/alpha.js")),
                      Some("/alpha.js")]
  {
    MainsLiterals();
    var opts := map["mains" := Object(map["alpha" := Str("beta"), "gamma" := Str("delta")])];
    OverriddenMains(opts);
    var api := new Api.Neutrino(cwd, opts);
    var options := api.options;
    assert options.mains == map["alpha" := "beta", "gamma" := "delta"];
    assert options.Get(Options.Root) == cwd;
    options.MainJoined("alpha", "beta");
    var initial := options.Main("alpha");
    var later;
    later, gamma := OverrideOptionsMainsFirst(options, cwd);
    alpha := [initial] + later;
  }

  /** The first entry of the override case, from the constructed state on. */
  method OverrideOptionsMainsFirst(options: Options.Store, cwd: string)
    returns (alpha: seq<Option<string>>, gamma: seq<Option<string>>)
    requires options.Valid() && Paths.IsAbsolute(cwd)
    requires options.raw[Options.Root] == cwd && options.raw[Options.Source] == "src"
    requires options.mains == map["alpha" := "beta", "gamma" := "delta"]
    modifies options
    ensures alpha == [Some(Paths.Join(cwd, "src/alpha.js")), Some(Paths.Join(cwd, "epsilon/alpha.js")),
                      Some(Paths.Join("/zeta", "epsilon/alpha.js")), Some("/alpha.js")]
    ensures gamma == [Some(Paths.Join("/zeta", "epsilon/delta")), Some(Paths.Join("/zeta", "epsilon/alpha.js")),
                      Some(Paths.Join("/zeta", "src/alpha.js")), Some(Paths.Join(cwd, "src/alpha.js")),
                      Some("/alpha.js")]
  {
    MainsLiterals();
    assert options.Get(Options.Root) == cwd;
    options.SetMain("alpha", "./alpha.js");
    options.MainJoined("alpha", "alpha.js");
    var relative := options.Main("alpha");
    options.SetPath(Options.Source, "epsilon");
    options.MainJoined("alpha", "alpha.js");
    var moved := options.Main("alpha");
    options.SetPath(Options.Root, "/zeta");
    options.MainJoined("alpha", "alpha.js");
    var rooted := options.Main("alpha");
    options.SetMain("alpha", "/alpha.js");
    alpha := [relative, moved, rooted, options.Main("alpha")];
    gamma := OverrideOptionsMainsContinued(options, cwd);
  }

  /** The second entry of the override case, once `source` is "epsilon" and `root` is "/zeta". */
  method OverrideOptionsMainsContinued(options: Options.Store, cwd: string) returns (gamma: seq<Option<string>>)
    requires options.Valid() && Paths.IsAbsolute(cwd)
    requires options.raw[Options.Root] == "/zeta" && options.raw[Options.Source] == "epsilon"
    requires "gamma" in options.mains && options.mains["gamma"] == "delta"
    modifies options
    ensures gamma == [Some(Paths.Join("/zeta", "epsilon/delta")), Some(Paths.Join("/zeta", "epsilon/alpha.js")),
                      Some(Paths.Join("/zeta", "src/alpha.js")), Some(Paths.Join(cwd, "src/alpha.js")),
                      Some("/alpha.js")]
  {
    MainsLiterals();
    assert options.Get(Options.Root) == "/zeta";
    options.MainJoined("gamma", "delta");
    var initial := options.Main("gamma");
    options.SetMain("gamma", "./alpha.js");
    options.MainJoined("gamma", "alpha.js");
    var relative := options.Main("gamma");
    options.SetPath(Options.Source, "src");
    options.MainJoined("gamma", "alpha.js");
    var moved := options.Main("gamma");
    options.SetPath(Options.Root, cwd);
    options.MainJoined("gamma", "alpha.js");
    var rooted := options.Main("gamma");
    options.SetMain("gamma", "/alpha.js");
    gamma := [initial, relative, moved, rooted, options.Main("gamma")];
  }

  /** Middleware is called at once, with no options unless some are given. */
  method MiddlewareReceivesOptions(cwd: string) returns (calls: seq<Invocation>)
    requires Paths.IsAbsolute(cwd)
    ensures calls == [MiddlewareRan("first", None),
                      MiddlewareRan("second", Some(Object(map["alpha" := Str("a"), "beta" := Str("b"), "gamma" := Str("c")])))]
  {
    var api := new Api.Neutrino(cwd, map[]);
    api.Use("first", None);
    var defaults := Object(map["alpha" := Str("a"), "beta" := Str("b"), "gamma" := Str("c")]);
    api.Use("second", Some(defaults));
    calls := api.invoked;
  }

  /** A handler registered with `on` runs when its event is emitted. */
  method TriggersEventHandlers(cwd: string) returns (calls: seq<Invocation>)
    requires Paths.IsAbsolute(cwd)
    ensures calls == [HandlerRan("test", "pass")]
  {
    var api := new Api.Neutrino(cwd, map[]);
    var pass := Handler("pass", Success(Null));
    api.On("test", pass);
    assert api.Listeners("test") == [pass];
    var r := api.EmitForAll("test");
    calls := api.invoked;
  }

  /** `emitForAll` with one resolving handler yields that handler's value. */
  method EventsHandlePromises(cwd: string) returns (r: Result<seq<Value>, Error>)
    requires Paths.IsAbsolute(cwd)
    ensures r == Success([Str("alpha")])
  {
    var api := new Api.Neutrino(cwd, map[]);
    var alpha := Handler("alpha", Success(Str("alpha")));
    api.On("test", alpha);
    assert api.Listeners("test") == [alpha];
    r := api.EmitForAll("test");
    SettleSucceeds([alpha]);
    assert r.value == [Str("alpha")];
  }

  /** `emitForAll` with a rejecting handler fails with that handler's error. */
  method EventsHandlePromiseRejection(cwd: string) returns (r: Result<seq<Value>, Error>)
    requires Paths.IsAbsolute(cwd)
    ensures r.Failure? && r.error.message == "beta"
  {
    var api := new Api.Neutrino(cwd, map[]);
    api.On("test", Handler("beta", Failure(Error("beta"))));
    r := api.EmitForAll("test");
  }

  /** `emitForAll` with several resolving handlers yields their values in order. */
  method EventsHandleMultiplePromises(cwd: string) returns (r: Result<seq<Value>, Error>)
    requires Paths.IsAbsolute(cwd)
    ensures r == Success([Str("alpha"), Str("beta"), Str("gamma")])
  {
    var api := new Api.Neutrino(cwd, map[]);
    var alpha, beta, gamma := Handler("alpha", Success(Str("alpha"))), Handler("beta", Success(Str("beta"))), Handler("gamma", Success(Str("gamma")));
    api.On("test", alpha);
    api.On("test", beta);
    api.On("test", gamma);
    assert api.Listeners("test") == [alpha, beta, gamma];
    r := api.EmitForAll("test");
    SettleSucceeds([alpha, beta, gamma]);
    assert r.value == [Str("alpha"), Str("beta"), Str("gamma")];
  }

  /** Handlers of successive emissions run in emission order. */
  method CommandEmitsEventsAroundExecution(cwd: string) returns (calls: seq<Invocation>)
    requires Paths.IsAbsolute(cwd)
    ensures calls == [HandlerRan("prebuild", "alpha"), HandlerRan("build", "beta")]
  {
    var api := new Api.Neutrino(cwd, map[]);
    api.On("prebuild", Handler("alpha", Success(Number(1))));
    api.On("build", Handler("beta", Success(Number(2))));
    var pre := api.EmitForAll("prebuild");
    var post := api.EmitForAll("build");
    calls := api.invoked;
  }

  /** `call()` and `run()` of a command that was never registered fail. */
  method NonRegisteredCommand(cwd: string) returns (called: Result<Value, Error>, ran: Result<Value, Error>)
    requires Paths.IsAbsolute(cwd)
    ensures called.Failure? && Strings.Contains(called.error.message, "was not registered")
    ensures ran.Failure?
  {
    var api := new Api.Neutrino(cwd, map[]);
    called := api.Call("non-registered");
    ran := api.Run("non-registered");
  }

  /** The regular expression built for one extension. */
  lemma RegexFromOneExtension()
    ensures Regex.ToString(Regex.RegexFromExtensions(["js"])) == "/\\.js$/"
  {
    Regex.EscapeDotsNoDot("js");
    assert Regex.EscapeAll(["js"]) == ["js"];
  }

  /** The source for two extensions without dots. */
  lemma PlainPair(first: string, second: string)
    requires '.' !in first && '.' !in second
    ensures Regex.ToString(Regex.RegexFromExtensions([first, second])) == "/\\.(" + first + "|" + second + ")$/"
  {
    Regex.RegexFromPair(first, second);
    Regex.EscapeDotsNoDot(first);
    Regex.EscapeDotsNoDot(second);
  }

  /** The written source for `js` and `css`. Literal facts only, kept apart so that the scenario proofs stay small. */
  lemma JsCssSource()
    ensures "/\\.(" + "js" + "|" + "css" + ")$/" == "/\\.(js|css)$/"
  {
  }

  /** The regular expression built for two extensions lists them in order. */
  lemma RegexFromTwoExtensions()
    ensures Regex.ToString(Regex.RegexFromExtensions(["js", "css"])) == "/\\.(js|css)$/"
  {
    PlainPair("js", "css");
    JsCssSource();
  }

  /** The source for two dotted names that share a stem. */
  lemma DottedPair(stem: string, first: string, second: string)
    requires '.' !in stem && '.' !in first && '.' !in second
    ensures Regex.ToString(Regex.RegexFromExtensions([stem + "." + first, stem + "." + second])) ==
      "/\\.(" + stem + "\\." + first + "|" + stem + "\\." + second + ")$/"
  {
    Regex.RegexFromPair(stem + "." + first, stem + "." + second);
    Regex.EscapeDotted(stem, first);
    Regex.EscapeDotted(stem, second);
  }

  /** The dotted extensions of the worker case. Literal facts only, kept apart so that the scenario proofs stay small. */
  lemma WorkerNames()
    ensures "worker" + "." + "js" == "worker.js"
    ensures "worker" + "." + "jsx" == "worker.jsx"
  {
  }

  /** The written source for the worker case. Literal facts only, kept apart so that the scenario proofs stay small. */
  lemma WorkerSource()
    ensures "/\\.(" + "worker" + "\\." + "js" + "|" + "worker" + "\\." + "jsx" + ")$/" ==
      "/\\.(worker\\.js|worker\\.jsx)$/"
  {
  }

  /** The dots inside extensions are escaped. */
  lemma RegexFromDottedExtensions()
    ensures Regex.ToString(Regex.RegexFromExtensions(["worker.js", "worker.jsx"])) ==
      "/\\.(worker\\.js|worker\\.jsx)$/"
  {
    DottedPair("worker", "js", "jsx");
    WorkerNames();
    WorkerSource();
  }
}
