/**
 * checkpoint_convert.py: the recursive conversion of `pathlib.Path` objects to
 * strings inside a loaded checkpoint, the whitelist filter that deletes every
 * hyperparameter not needed to rebuild the model, and the names of the
 * temporary and final output files.
 */
module Checkpoint {

  import opened Basics

  /**
   * A value inside a checkpoint: a `pathlib.Path` by its text, a string, any
   * other object (number, None, tensor) by an opaque description, and the
   * three containers that are walked. A dict keeps its insertion order.
   */
  datatype Value =
    | Path(text: string)
    | Str(s: string)
    | Leaf(description: string)
    | List(items: seq<Value>)
    | Tuple(items: seq<Value>)
    | Dict(entries: seq<Entry>)

  datatype Entry = Entry(key: Value, value: Value)

  // ---------------------------------------------------------------------------
  // convert_paths
  // ---------------------------------------------------------------------------

  /** `convert_paths`: `str(p)` for a path, dict values and list and tuple items converted. */
  function ConvertPaths(v: Value): Value
    decreases v
  {
    match v
    case Path(p) => Str(p)
    case List(xs) => List(seq(|xs|, i requires 0 <= i < |xs| => ConvertPaths(xs[i])))
    case Tuple(xs) => Tuple(seq(|xs|, i requires 0 <= i < |xs| => ConvertPaths(xs[i])))
    case Dict(es) => Dict(seq(|es|, i requires 0 <= i < |es| => Entry(es[i].key, ConvertPaths(es[i].value))))
    case _ => v
  }

  /** No path is left where the conversion looks: in dict values, list and tuple items. */
  predicate NoPaths(v: Value)
    decreases v
  {
    match v
    case Path(_) => false
    case List(xs) => forall i :: 0 <= i < |xs| ==> NoPaths(xs[i])
    case Tuple(xs) => forall i :: 0 <= i < |xs| ==> NoPaths(xs[i])
    case Dict(es) => forall i :: 0 <= i < |es| ==> NoPaths(es[i].value)
    case _ => true
  }

  /**
   * `b` is `a` with every path it reaches turned into its string: the same
   * container kinds, lengths, order and dict keys, and every other leaf equal.
   */
  predicate SameShape(a: Value, b: Value)
    decreases a
  {
    match a
    case Path(p) => b == Str(p)
    case List(xs) => b.List? && |b.items| == |xs| && forall i :: 0 <= i < |xs| ==> SameShape(xs[i], b.items[i])
    case Tuple(xs) => b.Tuple? && |b.items| == |xs| && forall i :: 0 <= i < |xs| ==> SameShape(xs[i], b.items[i])
    case Dict(es) =>
      b.Dict? && |b.entries| == |es| &&
      forall i :: 0 <= i < |es| ==> b.entries[i].key == es[i].key && SameShape(es[i].value, b.entries[i].value)
    case _ => b == a
  }

  /** The conversion leaves no path behind. */
  lemma {:induction false} ConvertLeavesNoPaths(v: Value)
    ensures NoPaths(ConvertPaths(v))
    decreases v
  {
    match v
    case List(xs) =>
      forall i | 0 <= i < |xs| ensures NoPaths(ConvertPaths(xs[i])) { ConvertLeavesNoPaths(xs[i]); }
    case Tuple(xs) =>
      forall i | 0 <= i < |xs| ensures NoPaths(ConvertPaths(xs[i])) { ConvertLeavesNoPaths(xs[i]); }
    case Dict(es) =>
      forall i | 0 <= i < |es| ensures NoPaths(ConvertPaths(es[i].value)) { ConvertLeavesNoPaths(es[i].value); }
    case _ =>
  }

  /** The conversion is exactly the shape-keeping replacement of paths by strings. */
  lemma {:induction false} ConvertIsSameShape(v: Value, r: Value)
    ensures SameShape(v, r) <==> r == ConvertPaths(v)
    decreases v
  {
    match v
    case List(xs) =>
      if r.List? && |r.items| == |xs| {
        forall i | 0 <= i < |xs| ensures SameShape(xs[i], r.items[i]) <==> r.items[i] == ConvertPaths(xs[i]) {
          ConvertIsSameShape(xs[i], r.items[i]);
        }
      }
    case Tuple(xs) =>
      if r.Tuple? && |r.items| == |xs| {
        forall i | 0 <= i < |xs| ensures SameShape(xs[i], r.items[i]) <==> r.items[i] == ConvertPaths(xs[i]) {
          ConvertIsSameShape(xs[i], r.items[i]);
        }
      }
    case Dict(es) =>
      if r.Dict? && |r.entries| == |es| {
        forall i | 0 <= i < |es|
          ensures SameShape(es[i].value, r.entries[i].value) <==> r.entries[i].value == ConvertPaths(es[i].value)
        {
          ConvertIsSameShape(es[i].value, r.entries[i].value);
        }
      }
    case _ =>
  }

  /** A value without paths comes back unchanged. */
  lemma {:induction false} ConvertWithoutPaths(v: Value)
    requires NoPaths(v)
    ensures ConvertPaths(v) == v
    decreases v
  {
    match v
    case List(xs) =>
      forall i | 0 <= i < |xs| ensures ConvertPaths(xs[i]) == xs[i] { ConvertWithoutPaths(xs[i]); }
    case Tuple(xs) =>
      forall i | 0 <= i < |xs| ensures ConvertPaths(xs[i]) == xs[i] { ConvertWithoutPaths(xs[i]); }
    case Dict(es) =>
      forall i | 0 <= i < |es| ensures ConvertPaths(es[i].value) == es[i].value { ConvertWithoutPaths(es[i].value); }
      assert ConvertPaths(v).entries == es;
    case _ =>
  }

  /** Converting twice is converting once. */
  lemma ConvertIdempotent(v: Value)
    ensures ConvertPaths(ConvertPaths(v)) == ConvertPaths(v)
  {
    ConvertLeavesNoPaths(v);
    ConvertWithoutPaths(ConvertPaths(v));
  }

  // ---------------------------------------------------------------------------
  // strip_checkpoint_params
  // ---------------------------------------------------------------------------

  /** The hyperparameters the model architecture needs; every other one is deleted. */
  const KEEP_PARAMS: seq<string> := [
    "num_symbols", "num_speakers", "resblock", "resblock_kernel_sizes",
    "resblock_dilation_sizes", "upsample_rates", "upsample_initial_channel",
    "upsample_kernel_sizes", "filter_length", "hop_length", "win_length",
    "mel_channels", "mel_fmin", "mel_fmax", "inter_channels", "hidden_channels",
    "filter_channels", "n_heads", "n_layers", "kernel_size", "p_dropout",
    "n_layers_q", "use_spectral_norm", "gin_channels", "use_sdp", "segment_size"
  ]

  const HYPER_PARAMETERS: Value := Str("hyper_parameters")

  /** `key in keep_params`: only a string key can equal one of the names. */
  predicate Keep(k: Value, keep: seq<string>)
  {
    k.Str? && k.s in keep
  }

  /** The keys of a dict, in order. */
  function Keys(es: seq<Entry>): (ks: seq<Value>)
    ensures |ks| == |es| && forall i :: 0 <= i < |es| ==> ks[i] == es[i].key
  {
    seq(|es|, i requires 0 <= i < |es| => es[i].key)
  }

  /** Every Python dict has distinct keys. */
  predicate DistinctKeys(es: seq<Entry>)
  {
    forall i, j :: 0 <= i < j < |es| ==> es[i].key != es[j].key
  }

  /** No element occurs twice. */
  predicate Distinct<T(==)>(s: seq<T>)
  {
    forall i, j :: 0 <= i < j < |s| ==> s[i] != s[j]
  }

  /** The entries whose key is kept, in order. */
  function Kept(es: seq<Entry>, keep: seq<string>): seq<Entry>
  {
    if es == [] then [] else (if Keep(es[0].key, keep) then [es[0]] else []) + Kept(es[1..], keep)
  }

  /** `keys_to_remove`: the keys not kept, in dict order. */
  function KeysToRemove(es: seq<Entry>, keep: seq<string>): seq<Value>
  {
    if es == [] then [] else (if Keep(es[0].key, keep) then [] else [es[0].key]) + KeysToRemove(es[1..], keep)
  }

  /** The entries whose key is not among `ks`, in order. */
  function FilterOut(es: seq<Entry>, ks: seq<Value>): seq<Entry>
  {
    if es == [] then [] else (if es[0].key in ks then [] else [es[0]]) + FilterOut(es[1..], ks)
  }

  /** The entries kept are exactly those of the dict whose key is in the list: values untouched. */
  lemma {:induction false} KeptMembers(es: seq<Entry>, e: Entry, keep: seq<string>)
    ensures e in Kept(es, keep) <==> e in es && Keep(e.key, keep)
  {
    if es != [] {
      KeptMembers(es[1..], e, keep);
      assert es == [es[0]] + es[1..];
    }
  }

  lemma KeysAppend(a: seq<Entry>, b: seq<Entry>)
    ensures Keys(a + b) == Keys(a) + Keys(b)
  {
  }

  /** The keys left are the original keys that are in the list. */
  lemma {:induction false} KeptKeys(es: seq<Entry>, k: Value, keep: seq<string>)
    ensures k in Keys(Kept(es, keep)) <==> k in Keys(es) && Keep(k, keep)
  {
    if es != [] {
      KeptKeys(es[1..], k, keep);
      assert Keys(es) == [es[0].key] + Keys(es[1..]);
      var head := if Keep(es[0].key, keep) then [es[0]] else [];
      assert Kept(es, keep) == head + Kept(es[1..], keep);
      KeysAppend(head, Kept(es[1..], keep));
      assert Keys(head) == if Keep(es[0].key, keep) then [es[0].key] else [];
    }
  }

  /** A dict whose keys are all kept is left as it is, with nothing to remove. */
  lemma {:induction false} KeptAllKept(es: seq<Entry>, keep: seq<string>)
    requires forall i :: 0 <= i < |es| ==> Keep(es[i].key, keep)
    ensures Kept(es, keep) == es
    ensures KeysToRemove(es, keep) == []
  {
    if es != [] {
      KeptAllKept(es[1..], keep);
      assert Keep(es[0].key, keep);
    }
  }

  /** Stripping twice keeps the same entries, and the second pass finds nothing to remove. */
  lemma KeptIdempotent(es: seq<Entry>, keep: seq<string>)
    ensures Kept(Kept(es, keep), keep) == Kept(es, keep)
    ensures KeysToRemove(Kept(es, keep), keep) == []
  {
    var k := Kept(es, keep);
    forall i | 0 <= i < |k| ensures Keep(k[i].key, keep) {
      KeptMembers(es, k[i], keep);
    }
    KeptAllKept(k, keep);
  }

  lemma {:induction false} KeysToRemoveMembers(es: seq<Entry>, k: Value, keep: seq<string>)
    ensures k in KeysToRemove(es, keep) <==> k in Keys(es) && !Keep(k, keep)
  {
    if es != [] {
      KeysToRemoveMembers(es[1..], k, keep);
      assert Keys(es) == [es[0].key] + Keys(es[1..]);
    }
  }

  lemma {:induction false} KeysToRemoveDistinct(es: seq<Entry>, keep: seq<string>)
    requires DistinctKeys(es)
    ensures Distinct(KeysToRemove(es, keep))
  {
    if es != [] {
      KeysToRemoveDistinct(es[1..], keep);
      if !Keep(es[0].key, keep) {
        var rest := KeysToRemove(es[1..], keep);
        forall j | 0 <= j < |rest| ensures rest[j] != es[0].key {
          KeysToRemoveMembers(es[1..], rest[j], keep);
          var m :| 0 <= m < |Keys(es[1..])| && Keys(es[1..])[m] == rest[j];
          assert es[m + 1].key == rest[j];
        }
      }
    }
  }

  lemma {:induction false} FilterOutMembers(es: seq<Entry>, ks: seq<Value>, k: Value)
    ensures k in Keys(FilterOut(es, ks)) <==> k in Keys(es) && k !in ks
  {
    if es != [] {
      FilterOutMembers(es[1..], ks, k);
      assert Keys(es) == [es[0].key] + Keys(es[1..]);
      var head := if es[0].key in ks then [] else [es[0]];
      assert Keys(FilterOut(es, ks)) == Keys(head) + Keys(FilterOut(es[1..], ks));
    }
  }

  /** Filtering out no key changes nothing. */
  lemma {:induction false} FilterOutNone(es: seq<Entry>)
    ensures FilterOut(es, []) == es
  {
    if es != [] {
      FilterOutNone(es[1..]);
      assert es == [es[0]] + es[1..];
    }
  }

  /** `del d[k]` on the filtered dict is filtering one key more. */
  lemma {:induction false} FilterOutMore(es: seq<Entry>, ks: seq<Value>, k: Value)
    ensures FilterOut(FilterOut(es, ks), [k]) == FilterOut(es, ks + [k])
  {
    if es != [] {
      FilterOutMore(es[1..], ks, k);
      var e := es[0];
      var rest := FilterOut(es[1..], ks);
      assert e.key in ks + [k] <==> e.key in ks || e.key == k;
      if e.key in ks {
        assert FilterOut(es, ks) == rest;
      } else {
        assert FilterOut(es, ks) == [e] + rest;
        assert ([e] + rest)[1..] == rest;
        assert FilterOut([e] + rest, [k]) == (if e.key == k then [] else [e]) + FilterOut(rest, [k]);
      }
    }
  }

  /** Filtering out exactly the keys that are not kept leaves the kept entries. */
  lemma {:induction false} FilterOutKept(es: seq<Entry>, ks: seq<Value>, keep: seq<string>)
    requires forall i :: 0 <= i < |es| ==> (es[i].key in ks <==> !Keep(es[i].key, keep))
    ensures FilterOut(es, ks) == Kept(es, keep)
  {
    if es != [] {
      FilterOutKept(es[1..], ks, keep);
    }
  }

  /** `if key in d: del d[key]`. */
  function Delete(es: seq<Entry>, key: Value): seq<Entry>
  {
    if key in Keys(es) then FilterOut(es, [key]) else es
  }

  /** The dict after the deletion loop has gone through `ks` in order. */
  function DeleteEach(es: seq<Entry>, ks: seq<Value>): seq<Entry>
  {
    if ks == [] then es else Delete(DeleteEach(es, ks[..|ks| - 1]), ks[|ks| - 1])
  }

  /** The keys the deletion loop records: each one still present when its turn comes. */
  function RemovedEach(es: seq<Entry>, ks: seq<Value>): seq<Value>
  {
    if ks == [] then []
    else
      var init, k := ks[..|ks| - 1], ks[|ks| - 1];
      RemovedEach(es, init) + (if k in Keys(DeleteEach(es, init)) then [k] else [])
  }

  /**
   * The deletion loop of strip_checkpoint_params over one dict: every key in
   * `keys_to_remove` still present is deleted and recorded in `removed`.
   */
  method StripDict(hp: seq<Entry>, keep: seq<string>) returns (kept: seq<Entry>, removed: seq<Value>)
    ensures kept == DeleteEach(hp, KeysToRemove(hp, keep)) && kept == Kept(hp, keep)
    ensures removed == RemovedEach(hp, KeysToRemove(hp, keep))
    ensures DistinctKeys(hp) ==> removed == KeysToRemove(hp, keep)
  {
    var toRemove := KeysToRemove(hp, keep);
    kept := hp;
    removed := [];
    var i := 0;
    while i < |toRemove|
      invariant i <= |toRemove|
      invariant kept == DeleteEach(hp, toRemove[..i])
      invariant removed == RemovedEach(hp, toRemove[..i])
    {
      var key := toRemove[i];
      assert toRemove[..i + 1][..i] == toRemove[..i];
      if key in Keys(kept) {
        kept := FilterOut(kept, [key]);
        removed := removed + [key];
      }
      i := i + 1;
    }
    assert toRemove[..i] == toRemove;
    StripDictDone(hp, keep);
  }

  /** After the last pass only the kept entries remain, and with distinct keys every key to remove was recorded. */
  lemma StripDictDone(hp: seq<Entry>, keep: seq<string>)
    ensures var ks := KeysToRemove(hp, keep);
      DeleteEach(hp, ks) == Kept(hp, keep) &&
      (DistinctKeys(hp) ==> RemovedEach(hp, ks) == ks)
  {
    var ks := KeysToRemove(hp, keep);
    DeleteEachFilters(hp, ks);
    FilterOutRemovable(hp, keep);
    if DistinctKeys(hp) {
      KeysToRemoveDistinct(hp, keep);
      forall j | 0 <= j < |ks| ensures ks[j] in Keys(hp) {
        KeysToRemoveMembers(hp, ks[j], keep);
      }
      RemovedEachAll(hp, ks);
    }
  }

  /** Deleting the keys one at a time removes exactly the entries whose key is among them. */
  lemma {:induction false} DeleteEachFilters(es: seq<Entry>, ks: seq<Value>)
    ensures DeleteEach(es, ks) == FilterOut(es, ks)
    decreases |ks|
  {
    if ks == [] {
      FilterOutNone(es);
    } else {
      var init, k := ks[..|ks| - 1], ks[|ks| - 1];
      DeleteEachFilters(es, init);
      var d := FilterOut(es, init);
      FilterOutMore(es, init, k);
      if k !in Keys(d) {
        FilterOutAbsent(d, k);
      }
      assert ks == init + [k];
    }
  }

  /** Keys that are all present and never repeat are each recorded at their turn. */
  lemma {:induction false} RemovedEachAll(es: seq<Entry>, ks: seq<Value>)
    requires Distinct(ks) && forall j :: 0 <= j < |ks| ==> ks[j] in Keys(es)
    ensures RemovedEach(es, ks) == ks
    decreases |ks|
  {
    if ks != [] {
      var init, k := ks[..|ks| - 1], ks[|ks| - 1];
      assert forall j :: 0 <= j < |init| ==> init[j] == ks[j];
      RemovedEachAll(es, init);
      DeleteEachFilters(es, init);
      FilterOutMembers(es, init, k);
      NotEarlier(ks, |ks| - 1);
      assert ks == init + [k];
    }
  }

  /** Filtering out `keys_to_remove` leaves the kept entries. */
  lemma FilterOutRemovable(hp: seq<Entry>, keep: seq<string>)
    ensures FilterOut(hp, KeysToRemove(hp, keep)) == Kept(hp, keep)
  {
    forall j | 0 <= j < |hp| ensures hp[j].key in KeysToRemove(hp, keep) <==> !Keep(hp[j].key, keep) {
      KeysToRemoveMembers(hp, hp[j].key, keep);
    }
    FilterOutKept(hp, KeysToRemove(hp, keep), keep);
  }

  /** In a sequence without repeats no element occurs before its own position. */
  lemma NotEarlier<T>(s: seq<T>, i: nat)
    requires Distinct(s) && i < |s|
    ensures s[i] !in s[..i]
  {
    forall j | 0 <= j < i ensures s[..i][j] != s[i] {
      assert s[..i][j] == s[j];
    }
  }

  /** Deleting a key that is absent changes nothing. */
  lemma {:induction false} FilterOutAbsent(es: seq<Entry>, k: Value)
    requires k !in Keys(es)
    ensures FilterOut(es, [k]) == es
  {
    if es != [] {
      assert Keys(es) == [es[0].key] + Keys(es[1..]);
      FilterOutAbsent(es[1..], k);
    }
  }

  /** The first position of key `k` in a dict: where `d[k]` looks. */
  function Find(es: seq<Entry>, k: Value): (r: Option<nat>)
    ensures r.None? <==> k !in Keys(es)
    ensures r.Some? ==> r.value < |es| && es[r.value].key == k
  {
    if es == [] then None
    else if es[0].key == k then Some(0)
    else match Find(es[1..], k)
      case None =>
        assert Keys(es) == [es[0].key] + Keys(es[1..]);
        None
      case Some(j) => Some(j + 1)
  }

  datatype StripOutcome = NoHyperParameters | NotADict | Stripped(removed: seq<Value>)

  /** A loaded checkpoint: its top-level dict, edited in place. */
  class Checkpoint {
    var entries: seq<Entry>

    constructor(entries: seq<Entry>)
      ensures this.entries == entries
    {
      this.entries := entries;
    }

    /**
     * `strip_checkpoint_params`: without a 'hyper_parameters' entry nothing
     * changes; a value there that is not a dict has no `.items()` and raises;
     * otherwise only its kept entries remain and every other entry is untouched.
     */
    method StripParams() returns (o: StripOutcome)
      modifies this
      ensures Find(old(entries), HYPER_PARAMETERS).None? ==> o == NoHyperParameters && entries == old(entries)
      ensures Find(old(entries), HYPER_PARAMETERS).Some? ==>
        var j := Find(old(entries), HYPER_PARAMETERS).value;
        var hp := old(entries)[j].value;
        (!hp.Dict? ==> o == NotADict && entries == old(entries)) &&
        (hp.Dict? ==>
          o.Stripped? &&
          entries == old(entries)[j := Entry(HYPER_PARAMETERS, Dict(Kept(hp.entries, KEEP_PARAMS)))] &&
          (DistinctKeys(hp.entries) ==> o.removed == KeysToRemove(hp.entries, KEEP_PARAMS)))
    {
      match Find(entries, HYPER_PARAMETERS)
      case None =>
        return NoHyperParameters;
      case Some(j) =>
        var hp := entries[j].value;
        if !hp.Dict? {
          return NotADict;
        }
        var kept, removed := StripDict(hp.entries, KEEP_PARAMS);
        entries := entries[j := Entry(HYPER_PARAMETERS, Dict(kept))];
        return Stripped(removed);
    }
  }

  // ---------------------------------------------------------------------------
  // Output names of process_checkpoint
  // ---------------------------------------------------------------------------

  /** `os.path.basename`: what follows the last '/'. */
  function BaseName(p: string): (b: string)
    ensures '/' !in b
    ensures |b| <= |p| && b == p[|p| - |b|..]
  {
    if p == [] then []
    else if p[|p| - 1] == '/' then []
    else
      var b := BaseName(p[..|p| - 1]);
      assert p[..|p| - 1][|p| - 1 - |b|..] + [p[|p| - 1]] == p[|p| - |b| - 1..];
      b + [p[|p| - 1]]
  }

  /** `os.path.join(folder, name)` for a name that does not start with '/'. */
  function Join(folder: string, name: string): string
  {
    if folder == [] || folder[|folder| - 1] == '/' then folder + name else folder + "/" + name
  }

  /** The final checkpoint: "processed-" and the input's file name, in the output folder. */
  function OutputPath(folder: string, input: string): string
  {
    Join(folder, "processed-" + BaseName(input))
  }

  /** The temporary checkpoint: "temp-" and the input's file name, in the output folder. */
  function TempPath(folder: string, input: string): string
  {
    Join(folder, "temp-" + BaseName(input))
  }

  lemma JoinBaseName(folder: string, name: string)
    requires '/' !in name
    ensures BaseName(Join(folder, name)) == name
  {
    var j := Join(folder, name);
    var pre := if folder == [] || folder[|folder| - 1] == '/' then folder else folder + "/";
    assert j == pre + name;
    JoinBaseNameRec(pre, name);
  }

  lemma {:induction false} JoinBaseNameRec(pre: string, name: string)
    requires '/' !in name
    requires pre == [] || pre[|pre| - 1] == '/'
    ensures BaseName(pre + name) == name
    decreases |name|
  {
    if name == [] {
      assert pre + name == pre;
    } else {
      var init, last := name[..|name| - 1], name[|name| - 1];
      assert name == init + [last];
      assert pre + name == (pre + init) + [last];
      BaseNameSnoc(pre + init, last);
      JoinBaseNameRec(pre, init);
    }
  }

  /** A character other than '/' appended to a path extends its file name. */
  lemma BaseNameSnoc(q: string, c: char)
    requires c != '/'
    ensures BaseName(q + [c]) == BaseName(q) + [c]
  {
    var p := q + [c];
    assert p[..|p| - 1] == q;
  }

  /**
   * The two files written land in the output folder under the input's file
   * name with their prefixes, so they never coincide.
   */
  lemma OutputNames(folder: string, input: string)
    ensures BaseName(OutputPath(folder, input)) == "processed-" + BaseName(input)
    ensures BaseName(TempPath(folder, input)) == "temp-" + BaseName(input)
    ensures OutputPath(folder, input) != TempPath(folder, input)
  {
    var b := BaseName(input);
    var o, t := "processed-" + b, "temp-" + b;
    assert o[0] == 'p' && t[0] == 't';
    assert '/' !in o by {
      forall k | 0 <= k < |o| ensures o[k] != '/' {
        if k >= 10 { assert o[k] == b[k - 10]; }
      }
    }
    assert '/' !in t by {
      forall k | 0 <= k < |t| ensures t[k] != '/' {
        if k >= 5 { assert t[k] == b[k - 5]; }
      }
    }
    JoinBaseName(folder, o);
    JoinBaseName(folder, t);
  }
}
