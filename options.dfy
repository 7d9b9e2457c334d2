/** The options object of a Neutrino instance: `root` and four derived path keys,
    the `mains` entry points, and every other option kept as given. A path key holds
    its raw value (default, constructor argument or last assignment) and reads as
    that value normalized under its base (`root` under the working directory, the
    derived keys under `root`, each main under `source`), so a relative value keeps
    following its base while an absolute one is read verbatim. */
module Options {
  import opened Wrappers
  import opened Values
  import Paths

  datatype PathKey = Root | Source | Output | Tests | NodeModules

  /** The property name of a path key on the options object. */
  function KeyName(k: PathKey): string
  {
    match k
    case Root => "root"
    case Source => "source"
    case Output => "output"
    case Tests => "tests"
    case NodeModules => "node_modules"
  }

  /** The path key a property name stands for, if any. */
  function KeyOf(name: string): (k: Option<PathKey>)
    ensures k.Some? ==> KeyName(k.value) == name
    ensures forall p: PathKey :: KeyName(p) == name ==> k == Some(p)
  {
    if name == "root" then Some(Root)
    else if name == "source" then Some(Source)
    else if name == "output" then Some(Output)
    else if name == "tests" then Some(Tests)
    else if name == "node_modules" then Some(NodeModules)
    else None
  }

  /** The raw value a path key has when the constructor is not given one: the
      working directory for `root`, a fixed relative suffix for the others. */
  function DefaultRaw(k: PathKey, cwd: string): (raw: string)
    ensures k == Root ==> raw == cwd
    ensures k != Root ==> raw != "" && !Paths.IsAbsolute(raw) && '/' !in raw
  {
    match k
    case Root => cwd
    case Source => "src"
    case Output => "build"
    case Tests => "test"
    case NodeModules => "node_modules"
  }

  /** The raw value a path key starts with: the constructor's option of that name,
      or the default. */
  function InitialRaw(k: PathKey, cwd: string, opts: map<string, Value>): string
    requires WellFormed(opts)
  {
    if KeyName(k) in opts then opts[KeyName(k)].s else DefaultRaw(k, cwd)
  }

  const MAINS := "mains"

  /** The entry points when the constructor is not given `mains`. */
  const DEFAULT_MAINS: map<string, string> := map["index" := "index"]

  /** The names with special reading rules on the options object. */
  predicate IsReserved(name: string)
  {
    KeyOf(name).Some? || name == MAINS
  }

  /** What a caller must pass for the path keys and `mains`: strings, and an object of strings. */
  predicate WellFormed(opts: map<string, Value>)
  {
    (forall name :: name in opts && KeyOf(name).Some? ==> opts[name].Str?) &&
    (MAINS in opts ==> opts[MAINS].Object? && forall n :: n in opts[MAINS].fields ==> opts[MAINS].fields[n].Str?)
  }

  /** The raw entry names and values of a well-formed `mains` object. */
  function MainsOf(opts: map<string, Value>): (m: map<string, string>)
    requires WellFormed(opts) && MAINS in opts
    ensures m.Keys == opts[MAINS].fields.Keys
    ensures forall n :: n in m ==> opts[MAINS].fields[n] == Str(m[n])
  {
    map n | n in opts[MAINS].fields :: opts[MAINS].fields[n].s
  }

  /** The options without the reserved names. */
  function Custom(opts: map<string, Value>): (m: map<string, Value>)
    ensures forall name :: name in m <==> name in opts && !IsReserved(name)
    ensures forall name :: name in m ==> m[name] == opts[name]
  {
    map name | name in opts && !IsReserved(name) :: opts[name]
  }

  /** Options without reserved names are all custom. */
  lemma CustomOnly(opts: map<string, Value>)
    requires forall name :: name in opts ==> !IsReserved(name)
    ensures Custom(opts) == opts
  {
    assert Custom(opts).Keys == opts.Keys;
  }

  class Store {
    /** The working directory the instance was created in. */
    const cwd: string
    /** The raw value of each path key. */
    var raw: map<PathKey, string>
    /** The raw value of each entry point. */
    var mains: map<string, string>
    /** Every other option. */
    var custom: map<string, Value>

    ghost predicate Valid()
      reads this`raw
    {
      Paths.IsAbsolute(cwd) && forall k: PathKey :: k in raw
    }

    /** The state `Neutrino(opts)` starts in, in working directory `cwd`. */
    ghost predicate Built(cwd: string, opts: map<string, Value>)
      reads this
      requires WellFormed(opts)
    {
      Valid() && this.cwd == cwd &&
      (forall k: PathKey :: raw[k] == InitialRaw(k, cwd, opts)) &&
      mains == (if MAINS in opts then MainsOf(opts) else DEFAULT_MAINS) &&
      custom == Custom(opts)
    }

    constructor (cwd: string, opts: map<string, Value>)
      requires Paths.IsAbsolute(cwd) && WellFormed(opts)
      ensures Built(cwd, opts)
    {
      this.cwd := cwd;
      raw := map[Root := InitialRaw(Root, cwd, opts), Source := InitialRaw(Source, cwd, opts),
                 Output := InitialRaw(Output, cwd, opts), Tests := InitialRaw(Tests, cwd, opts),
                 NodeModules := InitialRaw(NodeModules, cwd, opts)];
      new;
      forall k: PathKey
        ensures k in raw && raw[k] == InitialRaw(k, cwd, opts)
      {
        match k
        case Root =>
        case Source =>
        case Output =>
        case Tests =>
        case NodeModules =>
      }
      mains := if MAINS in opts then MainsOf(opts) else DEFAULT_MAINS;
      custom := Custom(opts);
    }

    /** Reading `options.root` (for `Root`) or a derived path key. */
    function Get(k: PathKey): (p: string)
      reads this`raw
      requires Valid()
      ensures Paths.IsAbsolute(p)
      decreases if k == Root then 0 else 1
    {
      Paths.NormalizePath(if k == Root then cwd else Get(Root), raw[k])
    }

    /** Reading `options.mains[name]`. */
    function Main(name: string): (p: Option<string>)
      reads this`raw, this`mains
      requires Valid()
      ensures p.Some? <==> name in mains
      ensures p.Some? ==> Paths.IsAbsolute(p.value)
    {
      if name in mains then Some(Paths.NormalizePath(Get(Source), mains[name])) else None
    }

    /** A main whose raw value is relative (written with or without a leading "./"),
        under a relative `source`, reads as `root` joined with `source/value`. */
    lemma MainJoined(name: string, value: string)
      requires Valid() && name in mains && raw[Source] != "" && !Paths.IsAbsolute(raw[Source])
      requires value != "" && !Paths.IsAbsolute(value)
      requires mains[name] == value || mains[name] == "./" + value
      ensures Main(name) == Some(Paths.Join(Get(Root), raw[Source] + "/" + value))
    {
      var source := Paths.Join(Get(Root), raw[Source]);
      assert Get(Source) == source;
      if mains[name] != value {
        Paths.JoinDot(source, value);
      }
      Paths.JoinJoin(Get(Root), raw[Source], value);
    }

    /** A property that is neither a path key nor `mains` reads as the custom option
        of that name, and is absent when there is none. */
    lemma ReadCustom(name: string)
      requires Valid() && !IsReserved(name)
      ensures Read(name) == if name in custom then Some(custom[name]) else None
    {
      assert KeyOf(name) == None && name != MAINS;
    }

    /** Reading any property of the options object. */
    function Read(name: string): (v: Option<Value>)
      reads this
      requires Valid()
      ensures !IsReserved(name) ==> (v.Some? <==> name in custom)
      ensures KeyOf(name).Some? ==> v.Some? && v.value.Str? && Paths.IsAbsolute(v.value.s)
      ensures name == MAINS ==> v.Some? && v.value.Object? && v.value.fields.Keys == mains.Keys
    {
      match KeyOf(name)
      case Some(k) => Some(Str(Get(k)))
      case None =>
        if name == MAINS then Some(Object(map n | n in mains :: Str(Paths.NormalizePath(Get(Source), mains[n]))))
        else if name in custom then Some(custom[name])
        else None
    }

    /** `options.root = value` or `options.source = value` and so on. Assigning `root`
        moves every derived key and every main whose raw value is relative, and no
        absolute one; assigning `source` does the same to the mains; assigning any
        other key changes that key only. */
    method SetPath(k: PathKey, value: string)
      requires Valid()
      modifies this
      ensures Valid()
      ensures raw == old(raw)[k := value] && mains == old(mains) && custom == old(custom)
      ensures Get(k) == Paths.NormalizePath(if k == Root then cwd else Get(Root), value)
      ensures forall other: PathKey :: other != k && k != Root ==> Get(other) == old(Get(other))
      ensures k == Root ==> forall other: PathKey :: other != Root && Paths.IsAbsolute(raw[other]) ==> Get(other) == old(Get(other))
      ensures forall n :: k != Root && k != Source ==> Main(n) == old(Main(n))
      ensures forall n :: n in mains && Paths.IsAbsolute(mains[n]) ==> Main(n) == old(Main(n))
    {
      raw := raw[k := value];
    }

    /** `options.mains[name] = value`: only that entry changes. */
    method SetMain(name: string, value: string)
      requires Valid()
      modifies this
      ensures Valid()
      ensures raw == old(raw) && mains == old(mains)[name := value] && custom == old(custom)
      ensures Main(name) == Some(Paths.NormalizePath(Get(Source), value))
      ensures forall n :: n != name ==> Main(n) == old(Main(n))
    {
      mains := mains[name := value];
    }

    /** `options = mergeOptions(options, update)`: path keys and mains entries named
        by the update are assigned through their setters; every other option is merged. */
    method Merge(update: map<string, Value>)
      requires Valid() && WellFormed(update)
      modifies this
      ensures Valid()
      ensures forall k: PathKey :: raw[k] == if KeyName(k) in update then update[KeyName(k)].s else old(raw)[k]
      ensures mains == if MAINS in update then old(mains) + MainsOf(update) else old(mains)
      ensures custom == MergeOptions(old(custom), Custom(update))
    {
      raw := map k: PathKey | k in raw :: if KeyName(k) in update then update[KeyName(k)].s else raw[k];
      if MAINS in update {
        mains := mains + MainsOf(update);
      }
      custom := MergeOptions(custom, Custom(update));
    }
  }
}
