/**
 * export_and_test.py without its subprocesses: the choice of the newest
 * `version_N` training run, the file names the exported voice is given, the
 * renaming of the exported files, and the `piper` command line of the audio
 * test with its optional synthesis flags.
 */
module Export {

  import opened Basics
  import opened Text

  // ---------------------------------------------------------------------------
  // find_latest_version
  // ---------------------------------------------------------------------------

  /** One item of the logs directory: its name and whether it is a directory. */
  datatype DirEntry = DirEntry(name: string, isDir: bool)

  /**
   * Python's int() on a str: surrounding whitespace, an optional sign and at
   * least one decimal digit.
   */
  function ParseInt(s: string): (r: Option<int>)
    ensures r.Some? ==> Strip(s) != []
  {
    var t := Strip(s);
    if t != [] && (t[0] == '+' || t[0] == '-') then
      var ds := t[1..];
      if ds != [] && AllDigits(ds) then
        var v: int := DigitsValue(ds);
        Some(if t[0] == '-' then -v else v)
      else None
    else if t != [] && AllDigits(t) then Some(DigitsValue(t))
    else None
  }

  /** `s.split("_")[0]`: everything before the first '_'. */
  function FirstField(s: string): (f: string)
    ensures '_' !in f
    ensures |f| <= |s| && f == s[..|f|]
  {
    match IndexOf(s, '_')
    case None => s
    case Some(k) => s[..k]
  }

  const VERSION_PREFIX: string := "version_"

  /**
   * The version number of a directory name: it starts with "version_" and the
   * field after that first '_' parses as an int; None otherwise.
   */
  function VersionOf(name: string): Option<int>
  {
    if |name| >= |VERSION_PREFIX| && name[..|VERSION_PREFIX|] == VERSION_PREFIX then
      ParseInt(FirstField(name[|VERSION_PREFIX|..]))
    else None
  }

  /** The version an item contributes: only directories count. */
  function Qualify(e: DirEntry): Option<int>
  {
    if e.isDir then VersionOf(e.name) else None
  }

  /** The versions of the qualifying items, in listing order. */
  function Versions(es: seq<DirEntry>): seq<int>
  {
    if es == [] then []
    else
      var last := es[|es| - 1];
      Versions(es[..|es| - 1]) + (if Qualify(last).Some? then [Qualify(last).value] else [])
  }

  /** Python's max over a non-empty list. */
  function MaxOf(xs: seq<int>): (m: int)
    requires |xs| > 0
    ensures m in xs
    ensures forall k :: 0 <= k < |xs| ==> xs[k] <= m
  {
    if |xs| == 1 then xs[0]
    else
      var m := MaxOf(xs[..|xs| - 1]);
      assert xs == xs[..|xs| - 1] + [xs[|xs| - 1]];
      if xs[|xs| - 1] > m then xs[|xs| - 1] else m
  }

  /** The newest version in a listing, None when no item qualifies. */
  function Latest(es: seq<DirEntry>): Option<int>
  {
    var vs := Versions(es);
    if vs == [] then None else Some(MaxOf(vs))
  }

  /** `find_latest_version`: None when the logs directory does not exist. */
  method FindLatestVersion(logs: Option<seq<DirEntry>>) returns (r: Option<int>)
    ensures logs.None? ==> r.None?
    ensures logs.Some? ==> r == Latest(logs.value)
  {
    if logs.None? {
      return None;
    }
    var es := logs.value;
    var versions: seq<int> := [];
    var i := 0;
    while i < |es|
      invariant i <= |es|
      invariant versions == Versions(es[..i])
    {
      assert es[..i + 1][..i] == es[..i];
      var q := Qualify(es[i]);
      if q.Some? {
        versions := versions + [q.value];
      }
      i := i + 1;
    }
    assert es[..i] == es;
    if versions == [] {
      return None;
    }
    return Some(MaxOf(versions));
  }

  /** The versions listed are exactly those of the qualifying items. */
  lemma {:induction false} VersionsMembers(es: seq<DirEntry>, v: int)
    ensures v in Versions(es) <==> exists k :: 0 <= k < |es| && Qualify(es[k]) == Some(v)
  {
    if es != [] {
      var init := es[..|es| - 1];
      VersionsMembers(init, v);
      if v in Versions(es) && v !in Versions(init) {
        assert Qualify(es[|es| - 1]) == Some(v);
      }
      if exists k :: 0 <= k < |es| && Qualify(es[k]) == Some(v) {
        var k :| 0 <= k < |es| && Qualify(es[k]) == Some(v);
        if k < |es| - 1 {
          assert init[k] == es[k];
        }
      }
    }
  }

  /**
   * The result of the search: None exactly when no item qualifies, otherwise
   * a version some item carries and no item exceeds.
   */
  lemma LatestIsMaximum(es: seq<DirEntry>)
    ensures Latest(es).None? <==> forall k :: 0 <= k < |es| ==> Qualify(es[k]).None?
    ensures Latest(es).Some? ==>
      (exists k :: 0 <= k < |es| && Qualify(es[k]) == Latest(es)) &&
      forall k :: 0 <= k < |es| && Qualify(es[k]).Some? ==> Qualify(es[k]).value <= Latest(es).value
  {
    var vs := Versions(es);
    if vs == [] {
      forall k | 0 <= k < |es| ensures Qualify(es[k]).None? {
        if Qualify(es[k]).Some? {
          VersionsMembers(es, Qualify(es[k]).value);
        }
      }
    } else {
      var m := MaxOf(vs);
      VersionsMembers(es, m);
      VersionsMembers(es, vs[0]);
      forall k | 0 <= k < |es| && Qualify(es[k]).Some? ensures Qualify(es[k]).value <= m {
        VersionsMembers(es, Qualify(es[k]).value);
      }
    }
  }

  /** Every qualifying item bounds the result from below. */
  lemma LatestBound(es: seq<DirEntry>, e: DirEntry)
    requires e in es && Qualify(e).Some?
    ensures Latest(es).Some? && Qualify(e).value <= Latest(es).value
  {
    var k :| 0 <= k < |es| && es[k] == e;
    LatestIsMaximum(es);
  }

  /** A found version belongs to an item of the listing. */
  lemma LatestWitness(es: seq<DirEntry>) returns (e: DirEntry)
    requires Latest(es).Some?
    ensures e in es && Qualify(e) == Latest(es)
  {
    LatestIsMaximum(es);
    var k :| 0 <= k < |es| && Qualify(es[k]) == Latest(es);
    e := es[k];
  }

  /** A listing that holds every item of another finds a version at least as new. */
  lemma LatestMonotone(es1: seq<DirEntry>, es2: seq<DirEntry>)
    requires forall e :: e in es1 ==> e in es2
    ensures Latest(es1).Some? ==> Latest(es2).Some? && Latest(es1).value <= Latest(es2).value
  {
    if Latest(es1).Some? {
      var e1 := LatestWitness(es1);
      LatestBound(es2, e1);
    }
  }

  /** The order of the listing, and repeated items, do not matter. */
  lemma LatestOrderIndependent(es1: seq<DirEntry>, es2: seq<DirEntry>)
    requires forall e :: e in es1 <==> e in es2
    ensures Latest(es1) == Latest(es2)
  {
    LatestMonotone(es1, es2);
    LatestMonotone(es2, es1);
    var l1, l2 := Latest(es1), Latest(es2);
    if l1.Some? {
      assert l1 == Some(l1.value) && l2 == Some(l2.value);
    }
  }

  lemma DecimalStripped(n: nat)
    ensures Strip(Decimal(n)) == Decimal(n)
  {
    var d := Decimal(n);
    assert IsDigit(d[0]) && IsDigit(d[|d| - 1]);
    StripOfStripped(d);
  }

  /** int() reads back str() of a natural number. */
  lemma ParseIntDecimal(n: nat)
    ensures ParseInt(Decimal(n)) == Some(n)
  {
    var d := Decimal(n);
    DecimalValue(n);
    DecimalStripped(n);
    assert IsDigit(d[0]);
  }

  lemma VersionOfPrefixed(rest: string)
    ensures VersionOf(VERSION_PREFIX + rest) == ParseInt(FirstField(rest))
  {
    var name := VERSION_PREFIX + rest;
    assert name[..|VERSION_PREFIX|] == VERSION_PREFIX;
    assert name[|VERSION_PREFIX|..] == rest;
  }

  lemma FirstFieldOf(d: string, suffix: string)
    requires '_' !in d
    ensures FirstField(d) == d
    ensures FirstField(d + "_" + suffix) == d
  {
    var s := d + "_" + suffix;
    assert s[..|d|] == d;
    IndexOfAt(s, '_', |d|);
  }

  lemma DecimalHasNoUnderscore(n: nat)
    ensures '_' !in Decimal(n)
  {
    var d := Decimal(n);
    forall k | 0 <= k < |d| ensures d[k] != '_' { assert IsDigit(d[k]); }
  }

  /** A directory named "version_" and a number yields that number. */
  lemma VersionOfName(n: nat)
    ensures VersionOf(VERSION_PREFIX + Decimal(n)) == Some(n)
  {
    DecimalHasNoUnderscore(n);
    FirstFieldOf(Decimal(n), "");
    ParseIntDecimal(n);
    VersionOfPrefixed(Decimal(n));
  }

  /** Anything after a second '_' is ignored. */
  lemma VersionOfNameSuffix(n: nat, suffix: string)
    ensures VersionOf(VERSION_PREFIX + (Decimal(n) + "_" + suffix)) == Some(n)
  {
    var d := Decimal(n);
    DecimalHasNoUnderscore(n);
    FirstFieldOf(d, suffix);
    ParseIntDecimal(n);
    VersionOfPrefixed(d + "_" + suffix);
  }

  /** An explicit --version is used as given; otherwise the newest run is searched for. */
  method ChooseVersion(explicit: Option<int>, logs: Option<seq<DirEntry>>) returns (r: Option<int>)
    ensures explicit.Some? ==> r == explicit
    ensures explicit.None? && logs.None? ==> r.None?
    ensures explicit.None? && logs.Some? ==> r == Latest(logs.value)
  {
    if explicit.Some? {
      return explicit;
    }
    r := FindLatestVersion(logs);
  }

  // ---------------------------------------------------------------------------
  // setup_model_files
  // ---------------------------------------------------------------------------

  const EXPORTED_MODEL: string := "model.onnx"
  const EXPORTED_CONFIG: string := "config.json"

  /** The voice model file: "en_US-" and the model name, then ".onnx". */
  function TargetModel(name: string): (f: string)
    ensures f != EXPORTED_MODEL && f != EXPORTED_CONFIG
  {
    var f := "en_US-" + name + ".onnx";
    assert f[0] == 'e' && EXPORTED_MODEL[0] == 'm' && EXPORTED_CONFIG[0] == 'c';
    f
  }

  /** The voice config file, named after the model file. */
  function TargetConfig(name: string): (f: string)
    ensures f != EXPORTED_MODEL && f != EXPORTED_CONFIG
  {
    var f := TargetModel(name) + ".json";
    assert f[0] == 'e' && EXPORTED_MODEL[0] == 'm' && EXPORTED_CONFIG[0] == 'c';
    f
  }

  /**
   * The target names belong to their model name alone, and the config is the
   * model file's name with ".json" added.
   */
  lemma TargetNames(name: string, other: string)
    ensures TargetConfig(name) == TargetModel(name) + ".json"
    ensures TargetModel(name) != TargetConfig(name)
    ensures TargetModel(name) == TargetModel(other) ==> name == other
  {
    var m := TargetModel(name);
    assert |TargetConfig(name)| == |m| + 5;
    if TargetModel(name) == TargetModel(other) {
      assert |name| == |other|;
      assert name == m[6..6 + |name|];
      assert other == TargetModel(other)[6..6 + |other|];
    }
  }

  /** The output directory of the export: file name to contents. */
  class OutputDir {
    var files: map<string, string>

    constructor(files: map<string, string>)
      ensures this.files == files
    {
      this.files := files;
    }

    /**
     * `setup_model_files`: without an exported model nothing is touched;
     * otherwise the model is moved onto its target name, replacing any file
     * there, and the config is copied from `configSource` when that exists,
     * else moved from the exported config; with neither, it fails after the
     * model has been moved.
     */
    method SetupModelFiles(name: string, configSource: Option<string>) returns (ok: bool)
      modifies this`files
      ensures EXPORTED_MODEL !in old(files) ==> !ok && files == old(files)
      ensures EXPORTED_MODEL in old(files) ==>
        var moved := (old(files) - {EXPORTED_MODEL})[TargetModel(name) := old(files)[EXPORTED_MODEL]];
        (configSource.Some? ==> ok && files == moved[TargetConfig(name) := configSource.value]) &&
        (configSource.None? && EXPORTED_CONFIG in old(files) ==>
          ok && files == (moved - {EXPORTED_CONFIG})[TargetConfig(name) := old(files)[EXPORTED_CONFIG]]) &&
        (configSource.None? && EXPORTED_CONFIG !in old(files) ==> !ok && files == moved)
    {
      TargetNames(name, name);
      if EXPORTED_MODEL !in files {
        return false;
      }
      var exported := files[EXPORTED_MODEL];
      var model := TargetModel(name);
      var config := TargetConfig(name);
      if model in files {
        files := files - {model};
      }
      files := (files - {EXPORTED_MODEL})[model := exported];
      if configSource.Some? {
        if config in files {
          files := files - {config};
        }
        files := files[config := configSource.value];
      } else if EXPORTED_CONFIG in files {
        files := (files - {EXPORTED_CONFIG})[config := files[EXPORTED_CONFIG]];
      } else {
        return false;
      }
      return true;
    }
  }

  /** A successful setup leaves the voice's two files and no exported model. */
  lemma SetupLeavesVoice(old_files: map<string, string>, name: string, configSource: Option<string>)
    requires EXPORTED_MODEL in old_files
    requires configSource.Some? || EXPORTED_CONFIG in old_files
    ensures var moved := (old_files - {EXPORTED_MODEL})[TargetModel(name) := old_files[EXPORTED_MODEL]];
      var files := if configSource.Some? then moved[TargetConfig(name) := configSource.value]
        else (moved - {EXPORTED_CONFIG})[TargetConfig(name) := old_files[EXPORTED_CONFIG]];
      EXPORTED_MODEL !in files &&
      files[TargetModel(name)] == old_files[EXPORTED_MODEL] &&
      files[TargetConfig(name)] == (if configSource.Some? then configSource.value else old_files[EXPORTED_CONFIG]) &&
      (configSource.None? ==> EXPORTED_CONFIG !in files) &&
      forall f :: f in old_files && f !in {EXPORTED_MODEL, EXPORTED_CONFIG, TargetModel(name), TargetConfig(name)} ==>
        f in files && files[f] == old_files[f]
  {
    TargetNames(name, name);
  }

  // ---------------------------------------------------------------------------
  // The piper command line
  // ---------------------------------------------------------------------------

  /** The synthesis options main collects; each value is the `str()` of the float given. */
  datatype Synthesis = Synthesis(lengthScale: Option<string>, noiseScale: Option<string>, noiseW: Option<string>)

  const LENGTH_SCALE: string := "length_scale"
  const NOISE_SCALE: string := "noise_scale"
  const NOISE_W: string := "noise_w"

  /** The keyword arguments generate_test_audio looks for, in the order it looks. */
  const SYNTHESIS_KEYS: seq<string> := [LENGTH_SCALE, NOISE_SCALE, NOISE_W]

  lemma SynthesisKeysDistinct()
    ensures LENGTH_SCALE != NOISE_SCALE && LENGTH_SCALE != NOISE_W && NOISE_SCALE != NOISE_W
    ensures forall i, j :: 0 <= i < j < |SYNTHESIS_KEYS| ==> SYNTHESIS_KEYS[i] != SYNTHESIS_KEYS[j]
  {
    assert LENGTH_SCALE[0] == 'l' && NOISE_SCALE[0] == 'n' && NOISE_W[0] == 'n';
    assert |NOISE_SCALE| != |NOISE_W|;
  }

  /**
   * main's `synthesis_params`: built one option at a time, a key only for an
   * option that was given.
   */
  method CollectSynthesis(opts: Synthesis) returns (params: map<string, string>)
    ensures params.Keys <= {LENGTH_SCALE, NOISE_SCALE, NOISE_W}
    ensures LENGTH_SCALE in params <==> opts.lengthScale.Some?
    ensures NOISE_SCALE in params <==> opts.noiseScale.Some?
    ensures NOISE_W in params <==> opts.noiseW.Some?
    ensures opts.lengthScale.Some? ==> params[LENGTH_SCALE] == opts.lengthScale.value
    ensures opts.noiseScale.Some? ==> params[NOISE_SCALE] == opts.noiseScale.value
    ensures opts.noiseW.Some? ==> params[NOISE_W] == opts.noiseW.value
  {
    SynthesisKeysDistinct();
    params := map[];
    if opts.lengthScale.Some? {
      params := params[LENGTH_SCALE := opts.lengthScale.value];
    }
    if opts.noiseScale.Some? {
      params := params[NOISE_SCALE := opts.noiseScale.value];
    }
    if opts.noiseW.Some? {
      params := params[NOISE_W := opts.noiseW.value];
    }
  }

  /** The fixed start of every piper command. */
  function CommandPrefix(model: string, out: string): seq<string>
  {
    ["piper", "--model", model, "--output_file", out]
  }

  /** The keys of `keys` that `params` holds, in the order of `keys`. */
  function Present(keys: seq<string>, params: map<string, string>): (r: seq<string>)
    ensures |r| <= |keys|
    ensures forall k :: k in r <==> k in keys && k in params
  {
    if keys == [] then []
    else (if keys[0] in params then [keys[0]] else []) + Present(keys[1..], params)
  }

  /** A flag and its value for every key of `keys` that `params` holds. */
  function FlagArgs(keys: seq<string>, params: map<string, string>): seq<string>
  {
    if keys == [] then []
    else (if keys[0] in params then ["--" + keys[0], params[keys[0]]] else []) + FlagArgs(keys[1..], params)
  }

  /** The command generate_test_audio runs. */
  function PiperCommand(model: string, out: string, params: map<string, string>): seq<string>
  {
    CommandPrefix(model, out) + FlagArgs(SYNTHESIS_KEYS, params)
  }

  /** The flags of the three keys, spelled out. */
  lemma SynthesisFlags(params: map<string, string>)
    ensures FlagArgs(SYNTHESIS_KEYS, params) ==
      (if LENGTH_SCALE in params then ["--length_scale", params[LENGTH_SCALE]] else []) +
      (if NOISE_SCALE in params then ["--noise_scale", params[NOISE_SCALE]] else []) +
      (if NOISE_W in params then ["--noise_w", params[NOISE_W]] else [])
  {
    assert "--" + LENGTH_SCALE == "--length_scale";
    assert "--" + NOISE_SCALE == "--noise_scale";
    assert "--" + NOISE_W == "--noise_w";
    var k1, k2, k3 := SYNTHESIS_KEYS, [NOISE_SCALE, NOISE_W], [NOISE_W];
    assert k1[0] == LENGTH_SCALE && k1[1..] == k2;
    assert k2[0] == NOISE_SCALE && k2[1..] == k3;
    assert k3[0] == NOISE_W && k3[1..] == [];
    assert FlagArgs(k3, params) == (if NOISE_W in params then ["--noise_w", params[NOISE_W]] else []) + [];
    assert FlagArgs(k2, params) == (if NOISE_SCALE in params then ["--noise_scale", params[NOISE_SCALE]] else []) + FlagArgs(k3, params);
    assert FlagArgs(k1, params) == (if LENGTH_SCALE in params then ["--length_scale", params[LENGTH_SCALE]] else []) + FlagArgs(k2, params);
  }

  /** generate_test_audio's `cmd`: the prefix, then one `extend` per option present. */
  method BuildCommand(model: string, out: string, params: map<string, string>) returns (cmd: seq<string>)
    ensures cmd == PiperCommand(model, out, params)
  {
    SynthesisFlags(params);
    cmd := ["piper", "--model", model, "--output_file", out];
    if |params| > 0 {
      if LENGTH_SCALE in params {
        cmd := cmd + ["--length_scale", params[LENGTH_SCALE]];
      }
      if NOISE_SCALE in params {
        cmd := cmd + ["--noise_scale", params[NOISE_SCALE]];
      }
      if NOISE_W in params {
        cmd := cmd + ["--noise_w", params[NOISE_W]];
      }
    } else {
      assert params.Keys == {};
    }
  }

  /** Each present key contributes its flag and value, in key order, and nothing else is added. */
  lemma {:induction false} FlagArgsLayout(keys: seq<string>, params: map<string, string>)
    ensures Pairs(FlagArgs(keys, params), Present(keys, params), params)
  {
    if keys != [] {
      FlagArgsLayout(keys[1..], params);
      var a', ks' := FlagArgs(keys[1..], params), Present(keys[1..], params);
      if keys[0] in params {
        assert FlagArgs(keys, params) == ["--" + keys[0], params[keys[0]]] + a';
        assert Present(keys, params) == [keys[0]] + ks';
        PairsCons(keys[0], a', ks', params);
      } else {
        assert FlagArgs(keys, params) == a' && Present(keys, params) == ks';
      }
    }
  }

  /** `a` is the flag of each key of `ks` followed by its value, in order. */
  predicate Pairs(a: seq<string>, ks: seq<string>, params: map<string, string>)
  {
    |a| == 2 * |ks| &&
    forall j :: 0 <= j < |ks| ==> ks[j] in params && a[2 * j] == "--" + ks[j] && a[2 * j + 1] == params[ks[j]]
  }

  lemma PairsCons(k: string, a: seq<string>, ks: seq<string>, params: map<string, string>)
    requires k in params && Pairs(a, ks, params)
    ensures Pairs(["--" + k, params[k]] + a, [k] + ks, params)
  {
    var a2, ks2 := ["--" + k, params[k]] + a, [k] + ks;
    forall j | 1 <= j < |ks2| ensures ks2[j] in params && a2[2 * j] == "--" + ks2[j] && a2[2 * j + 1] == params[ks2[j]] {
      assert a2[2 * j] == a[2 * (j - 1)] && a2[2 * j + 1] == a[2 * (j - 1) + 1];
      assert ks2[j] == ks[j - 1];
    }
  }

  /** The value following `flag` among flag/value pairs, if it is there. */
  function FlagValue(args: seq<string>, flag: string): Option<string>
  {
    if |args| < 2 then None
    else if args[0] == flag then Some(args[1])
    else FlagValue(args[2..], flag)
  }

  lemma FlagInjective(a: string, b: string)
    ensures "--" + a == "--" + b <==> a == b
  {
    if "--" + a == "--" + b {
      assert ("--" + a)[2..] == a && ("--" + b)[2..] == b;
    }
  }

  /** Reading a flag back from the pairs of distinct keys gives the value of its key. */
  lemma {:induction false} FlagValueOf(keys: seq<string>, params: map<string, string>, key: string)
    requires forall i, j :: 0 <= i < j < |keys| ==> keys[i] != keys[j]
    requires key in keys
    ensures FlagValue(FlagArgs(keys, params), "--" + key) == if key in params then Some(params[key]) else None
  {
    var a := FlagArgs(keys, params);
    var rest := FlagArgs(keys[1..], params);
    if keys[0] == key {
      if key !in params {
        assert a == rest;
        assert key !in keys[1..] by {
          forall j | 0 <= j < |keys| - 1 ensures keys[1..][j] != key { assert keys[1..][j] == keys[j + 1]; }
        }
        FlagValueAbsent(keys[1..], params, key);
      }
    } else {
      FlagValueOf(keys[1..], params, key);
      if keys[0] in params {
        FlagInjective(keys[0], key);
        assert a == ["--" + keys[0], params[keys[0]]] + rest;
        assert a[2..] == rest;
      } else {
        assert a == rest;
      }
    }
  }

  lemma {:induction false} FlagValueAbsent(keys: seq<string>, params: map<string, string>, key: string)
    requires key !in keys
    ensures FlagValue(FlagArgs(keys, params), "--" + key) == None
  {
    if keys != [] {
      FlagValueAbsent(keys[1..], params, key);
      var a := FlagArgs(keys, params);
      var rest := FlagArgs(keys[1..], params);
      if keys[0] in params {
        FlagInjective(keys[0], key);
        assert a == ["--" + keys[0], params[keys[0]]] + rest;
        assert a[2..] == rest;
      } else {
        assert a == rest;
      }
    }
  }

  /**
   * The command carries exactly the options main was given: the fixed prefix,
   * and behind it each given option under its flag, in the order length_scale,
   * noise_scale, noise_w; with none given, five arguments.
   */
  lemma CommandCarriesOptions(model: string, out: string, opts: Synthesis, params: map<string, string>)
    requires params.Keys <= {LENGTH_SCALE, NOISE_SCALE, NOISE_W}
    requires LENGTH_SCALE in params <==> opts.lengthScale.Some?
    requires NOISE_SCALE in params <==> opts.noiseScale.Some?
    requires NOISE_W in params <==> opts.noiseW.Some?
    requires opts.lengthScale.Some? ==> params[LENGTH_SCALE] == opts.lengthScale.value
    requires opts.noiseScale.Some? ==> params[NOISE_SCALE] == opts.noiseScale.value
    requires opts.noiseW.Some? ==> params[NOISE_W] == opts.noiseW.value
    ensures var cmd := PiperCommand(model, out, params);
      cmd[..5] == CommandPrefix(model, out) &&
      FlagValue(cmd[5..], "--length_scale") == opts.lengthScale &&
      FlagValue(cmd[5..], "--noise_scale") == opts.noiseScale &&
      FlagValue(cmd[5..], "--noise_w") == opts.noiseW &&
      (opts == Synthesis(None, None, None) ==> |cmd| == 5)
  {
    var cmd := PiperCommand(model, out, params);
    assert cmd[5..] == FlagArgs(SYNTHESIS_KEYS, params);
    SynthesisKeysDistinct();
    assert "--" + LENGTH_SCALE == "--length_scale";
    assert "--" + NOISE_SCALE == "--noise_scale";
    assert "--" + NOISE_W == "--noise_w";
    FlagValueOf(SYNTHESIS_KEYS, params, LENGTH_SCALE);
    FlagValueOf(SYNTHESIS_KEYS, params, NOISE_SCALE);
    FlagValueOf(SYNTHESIS_KEYS, params, NOISE_W);
    if opts == Synthesis(None, None, None) {
      SynthesisFlags(params);
    }
  }

  /** The audio test's output file. */
  function TestWav(name: string): string
  {
    "test_" + name + ".wav"
  }

  /**
   * The test recording never lands on an exported or voice file of the
   * folder, and each voice gets its own.
   */
  lemma TestWavNames(name: string, other: string)
    ensures var w := TestWav(name);
      w != EXPORTED_MODEL && w != EXPORTED_CONFIG && w != TargetModel(name) && w != TargetConfig(name)
    ensures TestWav(name) == TestWav(other) ==> name == other
  {
    var w := TestWav(name);
    assert w[0] == 't' && EXPORTED_MODEL[0] == 'm' && EXPORTED_CONFIG[0] == 'c';
    assert TargetModel(name)[0] == 'e' && TargetConfig(name)[0] == 'e';
    if TestWav(name) == TestWav(other) {
      assert |name| == |other|;
      assert name == w[5..5 + |name|];
      assert other == TestWav(other)[5..5 + |other|];
    }
  }
}
