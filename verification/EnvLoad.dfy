/**
 Layering of the process environment: Load, apply, setIfAllowed and currentEnv of
 internal/envloader/load.go.  The files under the project root are a map from file name to
 what opening the file yields.
 */
module EnvLoad {
  import opened Wrappers
  import opened Text
  import opened Ordering
  import Dotenv

  type Vars = map<string, string>

  /** A file that cannot be opened; one that is read to its end; one whose scan breaks off after `text`, at a read error or an over-long line. */
  datatype File = Unreadable | Content(text: string) | BrokenOff(text: string)

  datatype Outcome =
    | Loaded
    | OpenFailed(name: string)
    | ReadFailed(name: string)
    | BadEntry(name: string, line: Dotenv.BadLine)
    | UnsupportedEnv(env: string)

  const APP_ENV := "APP_ENV"
  const DEV := "dev"

  predicate Supported(env: string)
  {
    env == "dev" || env == "test" || env == "pre" || env == "prod"
  }

  /** os.Getenv. */
  function Get(env: Vars, key: string): string
  {
    if key in env then env[key] else ""
  }

  /** os.Setenv refuses, without effect, empty keys, keys with an equals sign and NUL characters. */
  predicate Settable(key: string, value: string)
  {
    key != "" && '=' !in key && '\0' !in key && '\0' !in value
  }

  // ---------------------------------------------------------------- one layer, then many

  /** The layer really sets `key`. */
  predicate Sets(env: Vars, protected: set<string>, layer: Vars, key: string)
  {
    key in layer && key !in protected && Blank(Get(env, key)) && Settable(key, layer[key])
  }

  ghost function ApplyLayer(env: Vars, protected: set<string>, layer: Vars): Vars
  {
    map k | k in env.Keys + layer.Keys && (k in env || Sets(env, protected, layer, k)) ::
      if Sets(env, protected, layer, k) then layer[k] else env[k]
  }

  /** Keys of a layer are independent of each other. */
  lemma {:induction false} ApplyLayerStep(env: Vars, protected: set<string>, layer: Vars, todo: set<string>, key: string)
    requires key in todo && todo <= layer.Keys
    ensures ApplyLayer(ApplyLayer(env, protected, layer - todo), protected, map[key := layer[key]])
         == ApplyLayer(env, protected, layer - (todo - {key}))
  {
    var done, one := layer - todo, map[key := layer[key]];
    var before := ApplyLayer(env, protected, done);
    var l, r := ApplyLayer(before, protected, one), ApplyLayer(env, protected, layer - (todo - {key}));
    forall k
      ensures k in l <==> k in r
      ensures k in l && k in r ==> l[k] == r[k]
    {
      assert k == key ==> Get(before, k) == Get(env, k) && (k in before <==> k in env);
    }
    assert l == r;
  }

  ghost function ApplyLayers(env: Vars, protected: set<string>, layers: seq<Vars>): Vars
  {
    if layers == [] then env
    else ApplyLayer(ApplyLayers(env, protected, layers[..|layers| - 1]), protected, layers[|layers| - 1])
  }

  lemma {:induction false} ApplyLayersAppend(env: Vars, protected: set<string>, a: seq<Vars>, b: seq<Vars>)
    ensures ApplyLayers(env, protected, a + b) == ApplyLayers(ApplyLayers(env, protected, a), protected, b)
    decreases |b|
  {
    if b == [] {
      assert a + b == a;
    } else {
      assert (a + b)[..|a + b| - 1] == a + b[..|b| - 1];
      ApplyLayersAppend(env, protected, a, b[..|b| - 1]);
    }
  }

  /** Layer `i` offers a value for `key` that the environment would accept. */
  ghost predicate Offers(layers: seq<Vars>, i: int, key: string)
  {
    && 0 <= i < |layers| && key in layers[i]
    && key != "" && '=' !in key && '\0' !in key && '\0' !in layers[i][key]
  }

  /** Layer `i` has the first non-blank offer for `key`, or all offers are blank and it has the last. */
  ghost predicate Wins(layers: seq<Vars>, i: int, key: string)
  {
    && Offers(layers, i, key)
    && if Blank(layers[i][key])
       then forall j :: Offers(layers, j, key) ==> Blank(layers[j][key]) && j <= i
       else forall j :: j < i && Offers(layers, j, key) ==> Blank(layers[j][key])
  }

  /** Whatever the process environment already holds, even a blank value, is never changed. */
  lemma {:induction false} ProtectedUntouched(env: Vars, layers: seq<Vars>, key: string)
    requires key in env
    ensures key in ApplyLayers(env, env.Keys, layers) && ApplyLayers(env, env.Keys, layers)[key] == env[key]
  {
    if layers != [] {
      ProtectedUntouched(env, layers[..|layers| - 1], key);
    }
  }

  lemma {:induction false} WinnerUnique(layers: seq<Vars>, i: int, j: int, key: string)
    requires Wins(layers, i, key) && Wins(layers, j, key)
    ensures i == j
  {
  }

  /** A variable that nothing offers stays unset. */
  lemma {:induction false} NoOfferUnset(env: Vars, layers: seq<Vars>, key: string)
    requires key !in env && forall i :: !Offers(layers, i, key)
    ensures key !in ApplyLayers(env, env.Keys, layers)
  {
    if layers != [] {
      var front := layers[..|layers| - 1];
      assert forall i :: Offers(front, i, key) ==> Offers(layers, i, key);
      assert !Offers(layers, |layers| - 1, key);
      NoOfferUnset(env, front, key);
    }
  }

  /** What the layers before the last one leave decides whether the last one may set `key`. */
  lemma {:induction false} WinsStep(layers: seq<Vars>, w: int, key: string)
    requires layers != [] && Wins(layers[..|layers| - 1], w, key)
    ensures var n := |layers| - 1;
            Wins(layers, if Blank(layers[w][key]) && Offers(layers, n, key) then n else w, key)
  {
    var n := |layers| - 1;
    assert forall i :: Offers(layers, i, key) <==> (i == n && Offers(layers, n, key)) || Offers(layers[..n], i, key);
  }

  /** Any other variable that some layer offers ends with the first non-blank offer, or with the last offer if all are blank. */
  lemma {:induction false} LayerPrecedence(env: Vars, layers: seq<Vars>, key: string) returns (w: int)
    requires key !in env && exists i :: Offers(layers, i, key)
    ensures Wins(layers, w, key)
    ensures key in ApplyLayers(env, env.Keys, layers) && ApplyLayers(env, env.Keys, layers)[key] == layers[w][key]
  {
    var n := |layers| - 1;
    var front := layers[..n];
    assert forall i :: Offers(layers, i, key) <==> (i == n && Offers(layers, n, key)) || Offers(front, i, key);
    if exists i :: Offers(front, i, key) {
      var v := LayerPrecedence(env, front, key);
      WinsStep(layers, v, key);
      w := if Blank(layers[v][key]) && Offers(layers, n, key) then n else v;
    } else {
      NoOfferUnset(env, front, key);
      w := n;
    }
  }

  // ---------------------------------------------------------------- the file stage

  ghost function FileNames(services: seq<string>): seq<string>
  {
    [".env"] + ServiceFiles(services)
  }

  ghost function ServiceFiles(services: seq<string>): seq<string>
  {
    if services == [] then []
    else
      var name := TrimSpace(services[|services| - 1]);
      ServiceFiles(services[..|services| - 1]) + if name == "" then [] else [".env." + name]
  }

  /** readFile: a file that does not exist is an empty layer. */
  ghost function FileLayer(disk: map<string, File>, name: string, unquote: Dotenv.Unquoter): Result<Vars, Outcome>
  {
    if name !in disk then Ok(map[])
    else
      match disk[name]
      case Unreadable => Err(OpenFailed(name))
      case Content(text) =>
        (match Dotenv.Parse(text, unquote)
         case Err(line) => Err(BadEntry(name, line))
         case Ok(values) => Ok(values))
      case BrokenOff(text) =>
        match Dotenv.Parse(text, unquote)
        case Err(line) => Err(BadEntry(name, line))
        case Ok(_) => Err(ReadFailed(name))
  }

  /** The layers read before the first failure, and that failure if there is one. */
  ghost function ReadFiles(disk: map<string, File>, names: seq<string>, unquote: Dotenv.Unquoter): (seq<Vars>, Option<Outcome>)
  {
    if names == [] then ([], None)
    else
      var (layers, failure) := ReadFiles(disk, names[..|names| - 1], unquote);
      if failure.Some? then (layers, failure)
      else
        match FileLayer(disk, names[|names| - 1], unquote)
        case Ok(layer) => (layers + [layer], None)
        case Err(o) => (layers, Some(o))
  }

  lemma {:induction false} FailureIsFinal(disk: map<string, File>, names: seq<string>, more: seq<string>, unquote: Dotenv.Unquoter)
    requires ReadFiles(disk, names, unquote).1.Some?
    ensures ReadFiles(disk, names + more, unquote) == ReadFiles(disk, names, unquote)
    decreases |more|
  {
    if more == [] {
      assert names + more == names;
    } else {
      assert (names + more)[..|names + more| - 1] == names + more[..|more| - 1];
      FailureIsFinal(disk, names, more[..|more| - 1], unquote);
    }
  }

  lemma {:induction false} FilesOfPrefix(services: seq<string>, n: nat) returns (more: seq<string>)
    requires n <= |services|
    ensures FileNames(services) == FileNames(services[..n]) + more
    decreases |services|
  {
    if n == |services| {
      assert services[..n] == services;
      more := [];
    } else {
      var front := services[..|services| - 1];
      assert front[..n] == services[..n];
      var m := FilesOfPrefix(front, n);
      more := FileNames(services)[|FileNames(services[..n])|..];
      assert FileNames(services) == FileNames(front) + ServiceFiles(services)[|ServiceFiles(front)|..];
    }
  }

  // ---------------------------------------------------------------- Load

  /** currentEnv, as a function of the environment. */
  function CurrentEnv(env: Vars): string
  {
    var e := TrimSpace(Get(env, APP_ENV));
    if e == "" then DEV else e
  }

  /** Everything Load reads besides the environment. */
  datatype Setup = Setup(disk: map<string, File>, services: seq<string>, defaults: Vars, unquote: Dotenv.Unquoter)
  {
    ghost function Files(): (seq<Vars>, Option<Outcome>)
    {
      ReadFiles(disk, FileNames(services), unquote)
    }

    ghost function AfterFiles(env: Vars): Vars
    {
      ApplyLayers(env, env.Keys, Files().0)
    }

    ghost predicate Succeeds(env: Vars)
    {
      Files().1.None? && Supported(CurrentEnv(AfterFiles(env)))
    }

    ghost function Ends(env: Vars): Outcome
    {
      if Succeeds(env) then Loaded
      else if Files().1.Some? then Files().1.value
      else UnsupportedEnv(CurrentEnv(AfterFiles(env)))
    }

    /** All layers of a successful load, in order of precedence. */
    ghost function Layers(): seq<Vars>
    {
      Files().0 + [map[APP_ENV := DEV], defaults]
    }

    ghost function Final(env: Vars): Vars
    {
      if Succeeds(env) then ApplyLayers(env, env.Keys, Layers()) else AfterFiles(env)
    }
  }

  class Process {
    var env: Vars

    constructor (env: Vars)
      ensures this.env == env
    {
      this.env := env;
    }

    method Setenv(key: string, value: string)
      modifies this
      ensures env == if Settable(key, value) then old(env)[key := value] else old(env)
    {
      if Settable(key, value) {
        env := env[key := value];
      }
    }

    /** setIfAllowed: for one key, what a whole layer does. */
    method SetIfAllowed(key: string, value: string, protected: set<string>)
      modifies this
      ensures env == ApplyLayer(old(env), protected, map[key := value])
    {
      if key in protected || !Blank(Get(env, key)) {
        return;
      }
      Setenv(key, value);
    }

    /** apply: the keys of the layer are visited in any order. */
    method Apply(values: Vars, protected: set<string>)
      modifies this
      ensures env == ApplyLayer(old(env), protected, values)
    {
      var todo := values.Keys;
      while todo != {}
        invariant todo <= values.Keys
        invariant env == ApplyLayer(old(env), protected, values - todo)
      {
        var key :| key in todo;
        ApplyLayerStep(old(env), protected, values, todo, key);
        SetIfAllowed(key, values[key], protected);
        todo := todo - {key};
      }
      assert values - todo == values;
    }

    /** readFile: a file that does not exist is an empty layer; an error names the file. */
    method ReadFile(disk: map<string, File>, name: string, unquote: Dotenv.Unquoter) returns (r: Result<Vars, Outcome>)
      ensures r == FileLayer(disk, name, unquote)
      ensures name !in disk ==> r == Ok(map[])
      ensures name in disk && disk[name].Unreadable? ==> r == Err(OpenFailed(name))
      ensures name in disk && !disk[name].Unreadable? ==>
                var parsed := Dotenv.Parse(disk[name].text, unquote);
                r == if parsed.Err? then Err(BadEntry(name, parsed.error))
                     else if disk[name].BrokenOff? then Err(ReadFailed(name)) else Ok(parsed.value)
    {
      if name !in disk {
        return Ok(map[]);
      }
      match disk[name] {
        case Unreadable => return Err(OpenFailed(name));
        case Content(text) =>
          var read := Dotenv.ReadLines(text, unquote);
          match read {
            case Err(line) => return Err(BadEntry(name, line));
            case Ok(values) => return Ok(values);
          }
        case BrokenOff(text) =>
          var read := Dotenv.ReadLines(text, unquote);
          match read {
            case Err(line) => return Err(BadEntry(name, line));
            case Ok(_) => return Err(ReadFailed(name));
          }
      }
    }

    /** Load. */
    method Load(s: Setup) returns (o: Outcome)
      modifies this
      ensures o == s.Ends(old(env)) && env == s.Final(old(env))
    {
      var protected := env.Keys;
      ghost var start := env;
      var failure := LoadFiles(s, protected);
      if failure.Some? {
        return failure.value;
      }
      ghost var afterFiles := env;
      var active := TrimSpace(Get(env, APP_ENV));
      if active == "" {
        active := DEV;
        SetIfAllowed(APP_ENV, active, protected);
      }
      if !Supported(active) {
        return UnsupportedEnv(active);
      }
      FallbackIdle(afterFiles, protected);
      Apply(s.defaults, protected);
      TwoMoreLayers(start, s.Files().0, map[APP_ENV := DEV], s.defaults);
      return Loaded;
    }

    /** The first half of Load: .env, then one optional file per service, stopping at the first that cannot be read. */
    method LoadFiles(s: Setup, protected: set<string>) returns (failure: Option<Outcome>)
      requires protected == env.Keys
      modifies this
      ensures env == s.AfterFiles(old(env))
      ensures failure == s.Files().1
    {
      ghost var start := env;
      failure := LoadFile(s, ".env", protected, [], start);
      assert FileNames(s.services[..0]) == [] + [".env"];
      if failure.Some? {
        FailsAt(s, 0);
        return;
      }
      for i := 0 to |s.services|
        invariant LoadedSoFar(s, FileNames(s.services[..i]), protected, start)
      {
        NextService(s, i);
        var service := TrimSpace(s.services[i]);
        if service != "" {
          failure := LoadFile(s, ".env." + service, protected, FileNames(s.services[..i]), start);
          if failure.Some? {
            FailsAt(s, i + 1);
            return;
          }
        }
      }
      assert s.services[..|s.services|] == s.services;
      return None;
    }

    /** The named files were read without failure and applied in order. */
    ghost predicate LoadedSoFar(s: Setup, names: seq<string>, protected: set<string>, start: Vars)
      reads this
    {
      && ReadFiles(s.disk, names, s.unquote).1.None?
      && env == ApplyLayers(start, protected, ReadFiles(s.disk, names, s.unquote).0)
    }

    /** Reads one more file and applies it, or changes nothing if it cannot be read. */
    method LoadFile(s: Setup, name: string, protected: set<string>, ghost names: seq<string>, ghost start: Vars)
      returns (failure: Option<Outcome>)
      requires LoadedSoFar(s, names, protected, start)
      modifies this
      ensures failure == ReadFiles(s.disk, names + [name], s.unquote).1
      ensures env == ApplyLayers(start, protected, ReadFiles(s.disk, names + [name], s.unquote).0)
    {
      assert (names + [name])[..|names|] == names;
      var read := ReadFile(s.disk, name, s.unquote);
      if read.Err? {
        return Some(read.error);
      }
      ghost var layers := ReadFiles(s.disk, names, s.unquote).0;
      assert (layers + [read.value])[..|layers|] == layers;
      Apply(read.value, protected);
      return None;
    }
  }

  lemma {:induction false} NextService(s: Setup, i: nat)
    requires i < |s.services|
    ensures var name := TrimSpace(s.services[i]);
            FileNames(s.services[..i + 1]) ==
            if name == "" then FileNames(s.services[..i]) else FileNames(s.services[..i]) + [".env." + name]
  {
    assert s.services[..i + 1][..i] == s.services[..i];
    assert ServiceFiles(s.services[..i]) + [] == ServiceFiles(s.services[..i]);
  }

  /** Offering the fallback does nothing once APP_ENV holds something. */
  lemma {:induction false} FallbackIdle(env: Vars, protected: set<string>)
    ensures !Blank(Get(env, APP_ENV)) ==> ApplyLayer(env, protected, map[APP_ENV := DEV]) == env
  {
  }

  lemma {:induction false} FailsAt(s: Setup, n: nat)
    requires n <= |s.services| && ReadFiles(s.disk, FileNames(s.services[..n]), s.unquote).1.Some?
    ensures s.Files() == ReadFiles(s.disk, FileNames(s.services[..n]), s.unquote)
  {
    var more := FilesOfPrefix(s.services, n);
    FailureIsFinal(s.disk, FileNames(s.services[..n]), more, s.unquote);
  }

  lemma {:induction false} TwoMoreLayers(env: Vars, layers: seq<Vars>, a: Vars, b: Vars)
    ensures ApplyLayers(env, env.Keys, layers + [a, b])
         == ApplyLayer(ApplyLayer(ApplyLayers(env, env.Keys, layers), env.Keys, a), env.Keys, b)
  {
    var all := layers + [a, b];
    assert all[..|all| - 1] == layers + [a];
    assert (layers + [a])[..|layers|] == layers;
  }

  // ---------------------------------------------------------------- what Load promises

  /** No outcome of Load, not even a failure halfway, changes a variable the process came with. */
  lemma {:induction false} ProcessVariablesWin(s: Setup, env: Vars, key: string)
    requires key in env
    ensures key in s.Final(env) && s.Final(env)[key] == env[key]
  {
    ProtectedUntouched(env, s.Files().0, key);
    ProtectedUntouched(env, s.Layers(), key);
  }

  /**
   After a successful load every other variable has the first non-blank offer among .env, the
   service files in argument order, the dev fallback and the defaults, or the last blank offer,
   and is unset if nothing offers it.
   */
  lemma {:induction false} LoadPrecedence(s: Setup, env: Vars, key: string)
    requires s.Ends(env) == Loaded && key !in env
    ensures key in s.Final(env) <==> exists i :: Offers(s.Layers(), i, key)
    ensures forall i :: Wins(s.Layers(), i, key) ==> key in s.Final(env) && s.Final(env)[key] == s.Layers()[i][key]
  {
    FailureIsNotLoaded(s.disk, FileNames(s.services), s.unquote);
    if exists i :: Offers(s.Layers(), i, key) {
      var w := LayerPrecedence(env, s.Layers(), key);
      forall i | Wins(s.Layers(), i, key)
        ensures i == w
      {
        WinnerUnique(s.Layers(), i, w, key);
      }
    } else {
      NoOfferUnset(env, s.Layers(), key);
    }
  }

  lemma {:induction false} FailureIsNotLoaded(disk: map<string, File>, names: seq<string>, unquote: Dotenv.Unquoter)
    ensures ReadFiles(disk, names, unquote).1 != Some(Loaded)
    ensures ReadFiles(disk, names, unquote).1.None? ==> |ReadFiles(disk, names, unquote).0| == |names|
  {
    if names != [] {
      FailureIsNotLoaded(disk, names[..|names| - 1], unquote);
    }
  }

  lemma {:induction false} NonBlankStays(env: Vars, protected: set<string>, layer: Vars, key: string)
    requires !Blank(Get(env, key)) || key in protected
    ensures Get(ApplyLayer(env, protected, layer), key) == Get(env, key)
  {
  }

  lemma {:induction false} FallbackIsSet(env: Vars, protected: set<string>)
    requires Blank(Get(env, APP_ENV)) && APP_ENV !in protected
    ensures Get(ApplyLayer(env, protected, map[APP_ENV := DEV]), APP_ENV) == DEV
    ensures TrimSpace(DEV) == DEV
  {
    var layer := map[APP_ENV := DEV];
    assert Settable(APP_ENV, DEV) && Sets(env, protected, layer, APP_ENV);
    assert "" + DEV + "" == DEV;
    TrimPadded("", DEV, "");
  }

  /** currentEnv after a successful load is the supported name that Load validated. */
  lemma {:induction false} CurrentEnvIsValidated(s: Setup, env: Vars)
    requires s.Succeeds(env)
    ensures CurrentEnv(s.Final(env)) == CurrentEnv(s.AfterFiles(env)) && Supported(CurrentEnv(s.Final(env)))
  {
    var after, fallback := s.AfterFiles(env), map[APP_ENV := DEV];
    var middle := ApplyLayer(after, env.Keys, fallback);
    TwoMoreLayers(env, s.Files().0, fallback, s.defaults);
    if Blank(Get(after, APP_ENV)) && APP_ENV !in env {
      FallbackIsSet(after, env.Keys);
    } else {
      NonBlankStays(after, env.Keys, fallback, APP_ENV);
    }
    NonBlankStays(middle, env.Keys, s.defaults, APP_ENV);
  }

  lemma {:induction false} NothingLeftToSet(env: Vars, layers: seq<Vars>)
    requires forall i, k :: Offers(layers, i, k) ==> k in env
    ensures ApplyLayers(env, env.Keys, layers) == env
  {
    if layers != [] {
      var n := |layers| - 1;
      forall i, k | Offers(layers[..n], i, k)
        ensures k in env
      {
        assert Offers(layers, i, k);
      }
      NothingLeftToSet(env, layers[..n]);
      assert forall k :: Sets(env, env.Keys, layers[n], k) ==> Offers(layers, n, k);
    }
  }

  lemma {:induction false} OffersAreSet(env: Vars, layers: seq<Vars>, i: int, key: string)
    requires Offers(layers, i, key)
    ensures key in ApplyLayers(env, env.Keys, layers)
  {
    if key in env {
      ProtectedUntouched(env, layers, key);
    } else {
      var w := LayerPrecedence(env, layers, key);
    }
  }

  /** Loading again, in the environment the first load left, changes nothing and has the same outcome, even after a failure. */
  lemma {:induction false} LoadTwice(s: Setup, env: Vars)
    ensures s.Final(s.Final(env)) == s.Final(env)
    ensures s.Ends(s.Final(env)) == s.Ends(env)
  {
    var files, all, once := s.Files().0, s.Layers(), s.Final(env);
    forall i, k | Offers(files, i, k)
      ensures k in once
    {
      assert Offers(all, i, k);
      OffersAreSet(env, files, i, k);
      OffersAreSet(env, all, i, k);
    }
    NothingLeftToSet(once, files);
    if s.Succeeds(env) {
      CurrentEnvIsValidated(s, env);
      forall i, k | Offers(all, i, k)
        ensures k in once
      {
        OffersAreSet(env, all, i, k);
      }
      NothingLeftToSet(once, all);
    }
  }

  // ---------------------------------------------------------------- the layers and the outcome, spelled out

  predicate Named(service: string)
  {
    !Blank(service)
  }

  /** The file of a service stands after .env and the files of the named services before it. */
  lemma {:induction false} FileNamesInOrder(services: seq<string>)
    ensures |FileNames(services)| == 1 + |Filter(Named, services)| && FileNames(services)[0] == ".env"
    ensures forall i :: 0 <= i < |services| && Named(services[i]) ==>
              |Filter(Named, services[..i])| < |Filter(Named, services)|
              && FileNames(services)[1 + |Filter(Named, services[..i])|] == ".env." + TrimSpace(services[i])
  {
    if services != [] {
      var n := |services| - 1;
      var front := services[..n];
      FileNamesInOrder(front);
      assert services == front + [services[n]];
      FilterSnoc(Named, front, services[n]);
      forall i | 0 <= i < |services| && Named(services[i])
        ensures |Filter(Named, services[..i])| < |Filter(Named, services)|
        ensures FileNames(services)[1 + |Filter(Named, services[..i])|] == ".env." + TrimSpace(services[i])
      {
        if i < n {
          assert front[..i] == services[..i] && front[i] == services[i];
        }
      }
    }
  }

  /** Without a failure each file gives one layer, in order; otherwise the first file that cannot be read is the failure. */
  lemma {:induction false} ReadFilesMeaning(disk: map<string, File>, names: seq<string>, unquote: Dotenv.Unquoter)
    ensures var (layers, failure) := ReadFiles(disk, names, unquote);
            && |layers| <= |names|
            && (forall i :: 0 <= i < |layers| ==> FileLayer(disk, names[i], unquote) == Ok(layers[i]))
            && (failure == None <==> |layers| == |names|)
            && (failure.Some? ==> FileLayer(disk, names[|layers|], unquote) == Err(failure.value))
  {
    if names != [] {
      ReadFilesMeaning(disk, names[..|names| - 1], unquote);
    }
  }

  /** The layers of a load: the files' values, the fallback for APP_ENV, the defaults. */
  lemma {:induction false} LayersSpelledOut(s: Setup)
    ensures var names := FileNames(s.services);
            s.Files().1 == None ==>
              && |s.Layers()| == |names| + 2
              && (forall i :: 0 <= i < |names| ==> FileLayer(s.disk, names[i], s.unquote) == Ok(s.Layers()[i]))
              && s.Layers()[|names|] == map["APP_ENV" := "dev"]
              && s.Layers()[|names| + 1] == s.defaults
  {
    ReadFilesMeaning(s.disk, FileNames(s.services), s.unquote);
  }

  /** Every file can be read exactly if there is no failure; otherwise the failure is that of the first that cannot. */
  lemma {:induction false} FirstFailure(disk: map<string, File>, names: seq<string>, unquote: Dotenv.Unquoter)
    ensures ReadFiles(disk, names, unquote).1 == None <==> forall i :: 0 <= i < |names| ==> FileLayer(disk, names[i], unquote).Ok?
    ensures forall i :: 0 <= i < |names| && FileLayer(disk, names[i], unquote).Err?
                        && (forall j :: 0 <= j < i ==> FileLayer(disk, names[j], unquote).Ok?) ==>
              ReadFiles(disk, names, unquote).1 == Some(FileLayer(disk, names[i], unquote).error)
  {
    ReadFilesMeaning(disk, names, unquote);
  }

  /** The active environment of a process: APP_ENV without surrounding white space, or dev; four names are supported. */
  lemma {:induction false} EnvSpelledOut(env: Vars)
    ensures var name := TrimSpace(if "APP_ENV" in env then env["APP_ENV"] else "");
            && CurrentEnv(env) == (if name == "" then "dev" else name)
            && (Supported(CurrentEnv(env)) <==> name == "" || name == "dev" || name == "test" || name == "pre" || name == "prod")
  {
  }

  /**
   How a load ends: it succeeds exactly if every file can be read and APP_ENV, as the files leave it, is dev, test,
   pre or prod between white space, or blank; otherwise the first unreadable file or the unsupported name is the error.
   */
  lemma {:induction false} OutcomeSpelledOut(s: Setup, env: Vars)
    ensures var names, after := FileNames(s.services), s.AfterFiles(env);
            && (s.Ends(env) == Loaded <==>
                  (forall i :: 0 <= i < |names| ==> FileLayer(s.disk, names[i], s.unquote).Ok?) && Supported(CurrentEnv(after)))
            && (forall i :: 0 <= i < |names| && FileLayer(s.disk, names[i], s.unquote).Err?
                            && (forall j :: 0 <= j < i ==> FileLayer(s.disk, names[j], s.unquote).Ok?) ==>
                  s.Ends(env) == FileLayer(s.disk, names[i], s.unquote).error)
            && (s.Ends(env).UnsupportedEnv? ==> s.Ends(env).env == CurrentEnv(after))
  {
    var names := FileNames(s.services);
    FirstFailure(s.disk, names, s.unquote);
    FailureIsNotLoaded(s.disk, names, s.unquote);
    FailureIsOfAFile(s.disk, names, s.unquote);
  }

  lemma {:induction false} FailureIsOfAFile(disk: map<string, File>, names: seq<string>, unquote: Dotenv.Unquoter)
    ensures ReadFiles(disk, names, unquote).1.Some? ==> !ReadFiles(disk, names, unquote).1.value.UnsupportedEnv?
  {
    if names != [] {
      FailureIsOfAFile(disk, names[..|names| - 1], unquote);
    }
  }
}
