/**
 * The parameter dictionaries of laser-database assemblies
 * (`psdaq/psdaq/configdb/lasdb.py`): flattening a nested dictionary of
 * IOC parameters into PV-name/value pairs (`_unpack_pv_dict`), nesting
 * PV names back into dictionaries (`_pack_pv_dict`, `pack_dict`), the IOC
 * list of a configuration and the validation of the IOC accessors, and
 * the key names `read_assembly_config_file` gives configuration-file
 * entries.
 *
 * A Python dict is its list of entries in insertion order; leaves are
 * non-container scalars. The configuration database is a parameter: the
 * current configuration is passed in, and a store is returned.
 */
module Lasdb {
  import opened Wrappers
  import opened Text

  datatype Value = Leaf(n: int) | Dict(entries: seq<Entry>)
  datatype Entry = Entry(key: string, val: Value)

  // ---------------------------------------------------------------------
  // Python dict operations on an entry list
  // ---------------------------------------------------------------------

  /** The position of key k, or the length when k is absent. */
  function Find(es: seq<Entry>, k: string): (i: nat)
    ensures i <= |es|
    ensures i < |es| ==> es[i].key == k
    ensures forall j :: 0 <= j < i ==> es[j].key != k
  {
    if es == [] then 0 else if es[0].key == k then 0 else 1 + Find(es[1..], k)
  }

  /** `d.get(k)`. */
  function Get(es: seq<Entry>, k: string): Option<Value>
  {
    var i := Find(es, k);
    if i < |es| then Some(es[i].val) else None
  }

  /** `d[k] = v`: an existing key keeps its place, a new key goes last. */
  function Store(es: seq<Entry>, k: string, v: Value): (r: seq<Entry>)
    ensures |r| == |es| || |r| == |es| + 1
    ensures forall j :: 0 <= j < |es| ==> r[j].key == es[j].key
  {
    var i := Find(es, k);
    if i < |es| then es[i := Entry(k, v)] else es + [Entry(k, v)]
  }

  /** The first position holding a key is the one Find returns. */
  lemma FindFirst(es: seq<Entry>, k: string, j: nat)
    requires j < |es| && es[j].key == k && forall i :: 0 <= i < j ==> es[i].key != k
    ensures Find(es, k) == j
  {
  }

  /** After `d[k] = v`, k holds v and every other key holds what it held. */
  lemma StoreGet(es: seq<Entry>, k: string, v: Value, k2: string)
    ensures Get(Store(es, k, v), k2) == if k2 == k then Some(v) else Get(es, k2)
  {
    var r := Store(es, k, v);
    var i := Find(es, k);
    var j := Find(es, k2);
    if k2 == k {
      FindFirst(r, k, i);
    } else if j < |es| {
      FindFirst(r, k2, j);
    } else {
      assert forall j :: 0 <= j < |es| ==> r[j].key != k2;
    }
  }

  /** `d[k] = v` for each entry of l in turn. */
  function StoreAll(out: seq<Entry>, l: seq<Entry>): seq<Entry>
  {
    if l == [] then out else Store(StoreAll(out, l[..|l| - 1]), l[|l| - 1].key, l[|l| - 1].val)
  }

  lemma {:induction false} StoreAllAppend(out: seq<Entry>, a: seq<Entry>, b: seq<Entry>)
    ensures StoreAll(out, a + b) == StoreAll(StoreAll(out, a), b)
  {
    if b == [] {
      assert a + b == a;
    } else {
      assert (a + b)[..|a + b| - 1] == a + b[..|b| - 1];
      StoreAllAppend(out, a, b[..|b| - 1]);
    }
  }

  /** Entry i of l names key k, and no later entry does. */
  predicate LastWith(l: seq<Entry>, i: nat, k: string)
  {
    i < |l| && l[i].key == k && forall j :: i < j < |l| ==> l[j].key != k
  }

  /** After storing l, a key holds the value of the last entry naming it, or what it held. */
  lemma StoreAllGet(out: seq<Entry>, l: seq<Entry>, k: string)
    ensures forall i: nat :: LastWith(l, i, k) ==> Get(StoreAll(out, l), k) == Some(l[i].val)
    ensures (forall i :: 0 <= i < |l| ==> l[i].key != k) ==> Get(StoreAll(out, l), k) == Get(out, k)
  {
    forall i: nat | LastWith(l, i, k) ensures Get(StoreAll(out, l), k) == Some(l[i].val) {
      StoreAllGetLast(out, l, k, i);
    }
    if forall i :: 0 <= i < |l| ==> l[i].key != k {
      StoreAllGetAbsent(out, l, k);
    }
  }

  lemma {:induction false} StoreAllGetLast(out: seq<Entry>, l: seq<Entry>, k: string, i: nat)
    requires LastWith(l, i, k)
    ensures Get(StoreAll(out, l), k) == Some(l[i].val)
  {
    var init := l[..|l| - 1];
    var e := l[|l| - 1];
    StoreGet(StoreAll(out, init), e.key, e.val, k);
    if i < |l| - 1 {
      assert LastWith(init, i, k);
      StoreAllGetLast(out, init, k, i);
    }
  }

  lemma {:induction false} StoreAllGetAbsent(out: seq<Entry>, l: seq<Entry>, k: string)
    requires forall i :: 0 <= i < |l| ==> l[i].key != k
    ensures Get(StoreAll(out, l), k) == Get(out, k)
  {
    if l != [] {
      var init := l[..|l| - 1];
      var e := l[|l| - 1];
      assert forall i :: 0 <= i < |init| ==> init[i].key != k by {
        forall i | 0 <= i < |init| ensures init[i].key != k {
          assert init[i] == l[i];
        }
      }
      StoreAllGetAbsent(out, init, k);
      StoreGet(StoreAll(out, init), e.key, e.val, k);
    }
  }

  // ---------------------------------------------------------------------
  // _unpack_pv_dict
  // ---------------------------------------------------------------------

  /** The PV name of a key under basepv: `BASE` names the parent itself. */
  function Path(basepv: string, k: string): (p: string)
    ensures StartsWith(p, basepv)
    ensures k != "BASE" ==> p == basepv + ":" + k
  {
    if k != "BASE" then basepv + ":" + k else basepv
  }

  /**
   * `_unpack_pv_dict` after its first n items: sub-dictionaries unpacked
   * under their path, leaves written at their path.
   */
  function UnpackSpec(basepv: string, params: seq<Entry>, n: nat, out: seq<Entry>): (r: seq<Entry>)
    requires n <= |params|
    ensures |out| <= |r|
    ensures forall j :: 0 <= j < |out| ==> r[j].key == out[j].key
    decreases Dict(params), n
  {
    if n == 0 then out
    else
      var o := UnpackSpec(basepv, params, n - 1, out);
      var e := params[n - 1];
      assert e in params;
      match e.val
      case Dict(sub) => UnpackSpec(Path(basepv, e.key), sub, |sub|, o)
      case Leaf(_) => Store(o, Path(basepv, e.key), e.val)
  }

  /** The leaves of the first n items with their PV names, in depth-first order. */
  function Flatten(basepv: string, params: seq<Entry>, n: nat): seq<Entry>
    requires n <= |params|
    decreases Dict(params), n
  {
    if n == 0 then []
    else
      var e := params[n - 1];
      assert e in params;
      Flatten(basepv, params, n - 1) +
        match e.val
        case Dict(sub) => Flatten(Path(basepv, e.key), sub, |sub|)
        case Leaf(_) => [Entry(Path(basepv, e.key), e.val)]
  }

  /** Unpacking stores exactly the flattened leaves, in depth-first order. */
  lemma {:induction false} UnpackIsStoreAll(basepv: string, params: seq<Entry>, n: nat, out: seq<Entry>)
    requires n <= |params|
    ensures UnpackSpec(basepv, params, n, out) == StoreAll(out, Flatten(basepv, params, n))
    decreases Dict(params), n
  {
    if n > 0 {
      var e := params[n - 1];
      assert e in params;
      UnpackIsStoreAll(basepv, params, n - 1, out);
      var o := UnpackSpec(basepv, params, n - 1, out);
      var f := Flatten(basepv, params, n - 1);
      match e.val {
        case Dict(sub) =>
          var p := Path(basepv, e.key);
          assert UnpackSpec(basepv, params, n, out) == UnpackSpec(p, sub, |sub|, o);
          assert Flatten(basepv, params, n) == f + Flatten(p, sub, |sub|);
          UnpackIsStoreAll(p, sub, |sub|, o);
          StoreAllAppend(out, f, Flatten(p, sub, |sub|));
        case Leaf(_) =>
          var x := Entry(Path(basepv, e.key), e.val);
          assert UnpackSpec(basepv, params, n, out) == Store(o, x.key, x.val);
          assert Flatten(basepv, params, n) == f + [x];
          StoreAllAppend(out, f, [x]);
          assert [x][..0] == [];
      }
    }
  }

  /** Every flattened pair is a leaf whose PV name starts with basepv. */
  lemma {:induction false} FlattenLeaves(basepv: string, params: seq<Entry>, n: nat)
    requires n <= |params|
    ensures forall x :: x in Flatten(basepv, params, n) ==> x.val.Leaf? && StartsWith(x.key, basepv)
    decreases Dict(params), n
  {
    if n > 0 {
      var e := params[n - 1];
      assert e in params;
      FlattenLeaves(basepv, params, n - 1);
      var f := Flatten(basepv, params, n - 1);
      match e.val {
        case Dict(sub) =>
          var p := Path(basepv, e.key);
          var g := Flatten(p, sub, |sub|);
          FlattenLeaves(p, sub, |sub|);
          assert Flatten(basepv, params, n) == f + g;
          forall x | x in g ensures StartsWith(x.key, basepv) {
            StartsWithTrans(x.key, p, basepv);
          }
        case Leaf(_) =>
          assert Flatten(basepv, params, n) == f + [Entry(Path(basepv, e.key), e.val)];
      }
    }
  }

  lemma StartsWithTrans(s: string, p: string, q: string)
    requires StartsWith(s, p) && StartsWith(p, q)
    ensures StartsWith(s, q)
  {
    assert s[..|q|] == s[..|p|][..|q|];
  }

  /**
   * The flattened result: each PV name holds the value of the last leaf
   * written there, and a name no leaf has keeps what `out_dict` held.
   */
  lemma UnpackWritesLeaves(basepv: string, params: seq<Entry>, out: seq<Entry>, k: string)
    ensures var l := Flatten(basepv, params, |params|);
      forall i: nat :: LastWith(l, i, k) ==> Get(UnpackSpec(basepv, params, |params|, out), k) == Some(l[i].val)
    ensures var l := Flatten(basepv, params, |params|);
      (forall i :: 0 <= i < |l| ==> l[i].key != k) ==> Get(UnpackSpec(basepv, params, |params|, out), k) == Get(out, k)
  {
    UnpackIsStoreAll(basepv, params, |params|, out);
    StoreAllGet(out, Flatten(basepv, params, |params|), k);
  }

  /** A Python dict object, mutated in place through every reference to it. */
  class PyDict {
    var entries: seq<Entry>

    constructor (entries: seq<Entry>)
      ensures this.entries == entries
    {
      this.entries := entries;
    }
  }

  /**
   * `_unpack_pv_dict(basepv, params, out_dict)`: the loop over the items,
   * recursing into sub-dictionaries with the same `out_dict`, which it
   * returns.
   */
  method UnpackPvDict(basepv: string, params: seq<Entry>, outDict: PyDict) returns (r: PyDict)
    modifies outDict
    ensures r == outDict
    ensures outDict.entries == UnpackSpec(basepv, params, |params|, old(outDict.entries))
    decreases Dict(params)
  {
    ghost var start := outDict.entries;
    var i := 0;
    while i < |params|
      invariant 0 <= i <= |params|
      invariant outDict.entries == UnpackSpec(basepv, params, i, start)
    {
      var e := params[i];
      assert e in params;
      var tempBase := if e.key != "BASE" then basepv + ":" + e.key else basepv;
      assert tempBase == Path(basepv, e.key);
      ghost var prev := outDict.entries;
      match e.val {
        case Dict(sub) =>
          assert UnpackSpec(basepv, params, i + 1, start) == UnpackSpec(tempBase, sub, |sub|, prev);
          var _ := UnpackPvDict(tempBase, sub, outDict);
        case Leaf(_) =>
          assert UnpackSpec(basepv, params, i + 1, start) == Store(prev, tempBase, e.val);
          outDict.entries := Store(outDict.entries, tempBase, e.val);
      }
      i := i + 1;
    }
    r := outDict;
  }

  // ---------------------------------------------------------------------
  // _pack_pv_dict
  // ---------------------------------------------------------------------

  /** The levels of a PV name: every `basepv:` removed, the rest split at `:`. */
  function Levels(basepv: string, k: string): (ls: seq<string>)
    ensures |ls| >= 1
  {
    Split(Replace(k, basepv + ":", ""), ':')
  }

  /** The seed dictionary `{l0: {l1: ... {last: v}}}`. */
  function Nest(levels: seq<string>, v: Value): (d: Value)
    requires |levels| >= 1
    ensures d.Dict? && |d.entries| == 1 && d.entries[0].key == levels[0]
  {
    if |levels| == 1 then Dict([Entry(levels[0], v)]) else Dict([Entry(levels[0], Nest(levels[1..], v))])
  }

  /** The seed dictionaries, one per parameter, in order. */
  function Seeds(basepv: string, params: seq<Entry>): (ds: seq<Value>)
    ensures |ds| == |params|
    ensures forall i :: 0 <= i < |params| ==> ds[i] == Nest(Levels(basepv, params[i].key), params[i].val)
  {
    seq(|params|, i requires 0 <= i < |params| => Nest(Levels(basepv, params[i].key), params[i].val))
  }

  /** A dictionary built, or the `TypeError` / `KeyError` a non-dictionary where one is expected raises. */
  datatype Packed = Packed(v: Value) | PackError

  /**
   * `pack_dict(in_dict, out_dict)` after the first n items of in_dict: a
   * missing key is inserted, a key present in both with a dictionary in
   * in_dict is merged recursively, and nothing is ever overwritten.
   */
  function PackDict(inEs: seq<Entry>, n: nat, out: Value): (r: Packed)
    requires n <= |inEs|
    ensures out.Leaf? && n > 0 ==> r == PackError
    ensures r.Packed? && out.Dict? ==>
      && r.v.Dict? && |out.entries| <= |r.v.entries|
      && forall j :: 0 <= j < |out.entries| ==> r.v.entries[j].key == out.entries[j].key
    decreases Dict(inEs), n
  {
    if n == 0 then Packed(out)
    else match PackDict(inEs, n - 1, out)
      case PackError => PackError
      case Packed(o) =>
        var e := inEs[n - 1];
        assert e in inEs;
        match o
        case Leaf(_) => PackError
        case Dict(oes) =>
          var i := Find(oes, e.key);
          if i == |oes| then Packed(Dict(oes + [e]))
          else match e.val
            case Leaf(_) => Packed(o)
            case Dict(sub) =>
              match PackDict(sub, |sub|, oes[i].val)
              case PackError => PackError
              case Packed(s) => Packed(Dict(oes[i := Entry(e.key, s)]))
  }

  /** Merging into a number a dictionary with no items leaves the number; with items it raises. */
  lemma {:induction false} PackDictIntoLeaf(inEs: seq<Entry>, n: nat, x: int)
    requires n <= |inEs|
    ensures PackDict(inEs, n, Leaf(x)) == if n == 0 then Packed(Leaf(x)) else PackError
  {
    if n > 1 {
      PackDictIntoLeaf(inEs, n - 1, x);
    }
  }

  /**
   * `pack_dict` only inserts: every key of `out_dict` stays in its place,
   * and a number stored under it is never replaced.
   */
  lemma {:induction false} PackDictKeeps(inEs: seq<Entry>, n: nat, out: seq<Entry>)
    requires n <= |inEs|
    ensures var r := PackDict(inEs, n, Dict(out));
      r.Packed? ==>
        (r.v.Dict? && |r.v.entries| >= |out|
         && forall j :: 0 <= j < |out| ==>
              (r.v.entries[j].key == out[j].key && (out[j].val.Leaf? ==> r.v.entries[j].val == out[j].val)))
    decreases Dict(inEs), n
  {
    if n > 0 {
      PackDictKeeps(inEs, n - 1, out);
      var r := PackDict(inEs, n - 1, Dict(out));
      if r.Packed? && r.v.Dict? {
        var oes := r.v.entries;
        var e := inEs[n - 1];
        assert e in inEs;
        var i := Find(oes, e.key);
        if i < |oes| && e.val.Dict? && oes[i].val.Leaf? {
          PackDictIntoLeaf(e.val.entries, |e.val.entries|, oes[i].val.n);
        }
      }
    }
  }

  /** `if 'BASE' not in out_dict: out_dict['BASE'] = {}`. */
  function AddBase(o: Value): Packed
  {
    match o
    case Leaf(_) => PackError
    case Dict(es) => if Find(es, "BASE") < |es| then Packed(o) else Packed(Dict(es + [Entry("BASE", Dict([]))]))
  }

  /** `out_dict['BASE'][k] = v`. */
  function SetBase(o: Value, k: string, v: Value): Packed
  {
    match o
    case Leaf(_) => PackError
    case Dict(es) =>
      match Get(es, "BASE")
      case Some(Dict(b)) => Packed(Dict(Store(es, "BASE", Dict(Store(b, k, v)))))
      case _ => PackError
  }

  /**
   * `for k, v in d.items()` of the final loop over the first n items of a
   * seed d: a number goes under `BASE`, a dictionary makes `pack_dict(d,
   * out_dict)` merge the whole seed.
   */
  function SeedItems(des: seq<Entry>, n: nat, o: Value): Packed
    requires n <= |des|
  {
    if n == 0 then Packed(o)
    else match SeedItems(des, n - 1, o)
      case PackError => PackError
      case Packed(o') =>
        if des[n - 1].val.Leaf? then SetBase(o', des[n - 1].key, des[n - 1].val)
        else PackDict(des, |des|, o')
  }

  /** The final loop over the first n seeds. */
  function PackSeeds(seeds: seq<Value>, n: nat, o: Value): Packed
    requires n <= |seeds|
  {
    if n == 0 then Packed(o)
    else match PackSeeds(seeds, n - 1, o)
      case PackError => PackError
      case Packed(o') =>
        match seeds[n - 1]
        case Leaf(_) => PackError
        case Dict(des) => SeedItems(des, |des|, o')
  }

  /**
   * The final loop over the seed that `out_dict` itself is bound to: its
   * items are taken as they stand, a number goes under `BASE`, and
   * `pack_dict` of the dictionary into itself finds every key present and
   * adds nothing.
   */
  function SelfItems(des: seq<Entry>, n: nat, o: Value): Packed
    requires n <= |des|
  {
    if n == 0 then Packed(o)
    else match SelfItems(des, n - 1, o)
      case PackError => PackError
      case Packed(o') =>
        if des[n - 1].val.Leaf? then SetBase(o', des[n - 1].key, des[n - 1].val) else Packed(o')
  }

  /**
   * `_pack_pv_dict` as written: the seed loop rebinds `out_dict`, so with
   * any parameters the result is built in the last seed, the caller's
   * dictionary unused.
   */
  function PackAsWritten(basepv: string, params: seq<Entry>, out: Value): (r: Packed)
    ensures r.Packed? ==> HasBase(r.v)
  {
    if params == [] then (AddBaseHasBase(out); AddBase(out))
    else
      var seeds := Seeds(basepv, params);
      AddBaseHasBase(seeds[|seeds| - 1]);
      match AddBase(seeds[|seeds| - 1])
      case PackError => PackError
      case Packed(o0) =>
        PackSeedsHasBase(seeds, |seeds| - 1, o0);
        match PackSeeds(seeds, |seeds| - 1, o0)
        case PackError => PackError
        case Packed(o) =>
          match o
          case Leaf(_) => PackError
          case Dict(es) => (SelfItemsHasBase(es, |es|, o); SelfItems(es, |es|, o))
  }

  /** `_pack_pv_dict` with the seeds kept apart from `out_dict`, which collects them all. */
  function PackFixed(basepv: string, params: seq<Entry>, out: Value): (r: Packed)
    ensures out.Leaf? ==> r == PackError
    ensures r.Packed? ==> HasBase(r.v)
  {
    AddBaseHasBase(out);
    match AddBase(out)
    case PackError => PackError
    case Packed(o0) => (PackSeedsHasBase(Seeds(basepv, params), |params|, o0); PackSeeds(Seeds(basepv, params), |params|, o0))
  }

  /** A dictionary with a `BASE` key. */
  predicate HasBase(v: Value)
  {
    v.Dict? && Find(v.entries, "BASE") < |v.entries|
  }

  /** A dictionary that keeps every key of v in its place still has `BASE` when v has. */
  lemma KeepsBase(v: Value, w: Value)
    requires HasBase(v) && w.Dict? && |v.entries| <= |w.entries|
    requires forall j :: 0 <= j < |v.entries| ==> w.entries[j].key == v.entries[j].key
    ensures HasBase(w)
  {
    var i := Find(v.entries, "BASE");
    assert w.entries[i].key == "BASE";
  }

  lemma AddBaseHasBase(o: Value)
    ensures AddBase(o).Packed? ==> HasBase(AddBase(o).v)
  {
    if o.Dict? && Find(o.entries, "BASE") == |o.entries| {
      var es := o.entries + [Entry("BASE", Dict([]))];
      assert es[|o.entries|].key == "BASE";
    }
  }

  lemma SetBaseHasBase(o: Value, k: string, v: Value)
    requires HasBase(o)
    ensures SetBase(o, k, v).Packed? ==> HasBase(SetBase(o, k, v).v)
  {
    if SetBase(o, k, v).Packed? {
      KeepsBase(o, SetBase(o, k, v).v);
    }
  }

  lemma {:induction false} SeedItemsHasBase(des: seq<Entry>, n: nat, o: Value)
    requires n <= |des| && HasBase(o)
    ensures SeedItems(des, n, o).Packed? ==> HasBase(SeedItems(des, n, o).v)
  {
    if n > 0 {
      SeedItemsHasBase(des, n - 1, o);
      var p := SeedItems(des, n - 1, o);
      if p.Packed? {
        if des[n - 1].val.Leaf? {
          SetBaseHasBase(p.v, des[n - 1].key, des[n - 1].val);
        } else if PackDict(des, |des|, p.v).Packed? {
          KeepsBase(p.v, PackDict(des, |des|, p.v).v);
        }
      }
    }
  }

  lemma {:induction false} SelfItemsHasBase(des: seq<Entry>, n: nat, o: Value)
    requires n <= |des| && HasBase(o)
    ensures SelfItems(des, n, o).Packed? ==> HasBase(SelfItems(des, n, o).v)
  {
    if n > 0 {
      SelfItemsHasBase(des, n - 1, o);
      var p := SelfItems(des, n - 1, o);
      if p.Packed? && des[n - 1].val.Leaf? {
        SetBaseHasBase(p.v, des[n - 1].key, des[n - 1].val);
      }
    }
  }

  lemma {:induction false} PackSeedsHasBase(seeds: seq<Value>, n: nat, o: Value)
    requires n <= |seeds| && HasBase(o)
    ensures PackSeeds(seeds, n, o).Packed? ==> HasBase(PackSeeds(seeds, n, o).v)
  {
    if n > 0 {
      PackSeedsHasBase(seeds, n - 1, o);
      var p := PackSeeds(seeds, n - 1, o);
      if p.Packed? && seeds[n - 1].Dict? {
        SeedItemsHasBase(seeds[n - 1].entries, |seeds[n - 1].entries|, p.v);
      }
    }
  }

  /** A single-level name: `basepv:` then a name with no `:`. */
  predicate SingleLevel(basepv: string, e: Entry, name: string)
  {
    e.key == basepv + ":" + name && ':' !in name && e.val.Leaf?
  }

  /** A single-level PV name has the one level after `basepv:`. */
  lemma SingleLevelSeed(basepv: string, name: string, v: Value)
    requires ':' !in name
    ensures Nest(Levels(basepv, basepv + ":" + name), v) == Dict([Entry(name, v)])
  {
    var pat := basepv + ":";
    assert pat[|pat| - 1] == ':';
    forall i: nat ensures !OccursAt(name, pat, i) {
      if i + |pat| <= |name| {
        assert name[i..i + |pat|][|pat| - 1] == name[i + |pat| - 1];
      }
    }
    StripPrefix(pat, name);
    assert basepv + ":" + name == pat + name;
    SplitWithout(name, ':');
  }

  /** The BASE entries the corrected pack builds from single-level parameters. */
  function BaseEntries(params: seq<Entry>, names: seq<string>): (r: seq<Entry>)
    requires |names| == |params|
    ensures |r| == |params|
  {
    if params == [] then []
    else BaseEntries(params[..|params| - 1], names[..|names| - 1]) + [Entry(names[|names| - 1], params[|params| - 1].val)]
  }

  lemma {:induction false} BaseEntriesShape(params: seq<Entry>, names: seq<string>)
    requires |names| == |params|
    ensures forall j :: 0 <= j < |params| ==> BaseEntries(params, names)[j] == Entry(names[j], params[j].val)
  {
    if params != [] {
      BaseEntriesShape(params[..|params| - 1], names[..|names| - 1]);
    }
  }

  /**
   * The corrected pack puts single-level parameters, with distinct names,
   * into an empty dictionary's `BASE`, each under its name, in order.
   */
  lemma {:induction false} PackFixedSingleLevels(basepv: string, params: seq<Entry>, names: seq<string>)
    requires |names| == |params|
    requires forall i :: 0 <= i < |params| ==> SingleLevel(basepv, params[i], names[i])
    requires forall i, j :: 0 <= i < j < |names| ==> names[i] != names[j]
    ensures PackFixed(basepv, params, Dict([])) == Packed(Dict([Entry("BASE", Dict(BaseEntries(params, names)))]))
  {
    var o0 := Dict([Entry("BASE", Dict([]))]);
    assert [] + [Entry("BASE", Dict([]))] == o0.entries;
    assert AddBase(Dict([])) == Packed(o0);
    PackSeedsSingleLevels(basepv, params, names, |params|);
    assert params[..|params|] == params && names[..|names|] == names;
  }

  /** `out_dict['BASE'][name] = v` for a name `BASE` does not hold yet appends it there. */
  lemma SetBaseAt(es: seq<Entry>, i: nat, prior: seq<Entry>, name: string, v: Value)
    requires Find(es, "BASE") == i && i < |es| && es[i].val == Dict(prior)
    requires Find(prior, name) == |prior|
    ensures SetBase(Dict(es), name, v) == Packed(Dict(es[i := Entry("BASE", Dict(prior + [Entry(name, v)]))]))
  {
    assert Get(es, "BASE") == Some(Dict(prior));
    assert Store(prior, name, v) == prior + [Entry(name, v)];
  }

  lemma SetBaseFresh(prior: seq<Entry>, name: string, v: Value)
    requires Find(prior, name) == |prior|
    ensures SetBase(Dict([Entry("BASE", Dict(prior))]), name, v) == Packed(Dict([Entry("BASE", Dict(prior + [Entry(name, v)]))]))
  {
    var es := [Entry("BASE", Dict(prior))];
    assert es[0].key == "BASE";
    SetBaseAt(es, 0, prior, name, v);
    assert es[0 := Entry("BASE", Dict(prior + [Entry(name, v)]))] == [Entry("BASE", Dict(prior + [Entry(name, v)]))];
  }

  /** A one-item seed holding a number under a fresh name appends it to `BASE`. */
  lemma SeedItemFresh(prior: seq<Entry>, name: string, v: Value)
    requires Find(prior, name) == |prior| && v.Leaf?
    ensures SeedItems([Entry(name, v)], 1, Dict([Entry("BASE", Dict(prior))]))
      == Packed(Dict([Entry("BASE", Dict(prior + [Entry(name, v)]))]))
  {
    SetBaseFresh(prior, name, v);
  }

  lemma {:induction false} PackSeedsSingleLevels(basepv: string, params: seq<Entry>, names: seq<string>, n: nat)
    requires |names| == |params| && n <= |params|
    requires forall i :: 0 <= i < |params| ==> SingleLevel(basepv, params[i], names[i])
    requires forall i, j :: 0 <= i < j < |names| ==> names[i] != names[j]
    ensures PackSeeds(Seeds(basepv, params), n, Dict([Entry("BASE", Dict([]))]))
      == Packed(Dict([Entry("BASE", Dict(BaseEntries(params[..n], names[..n])))]))
  {
    var seeds := Seeds(basepv, params);
    if n == 0 {
      assert params[..0] == [];
    } else {
      PackSeedsSingleLevels(basepv, params, names, n - 1);
      var prior := BaseEntries(params[..n - 1], names[..n - 1]);
      var o := Dict([Entry("BASE", Dict(prior))]);
      var e := params[n - 1];
      SingleLevelSeed(basepv, names[n - 1], e.val);
      assert seeds[n - 1] == Dict([Entry(names[n - 1], e.val)]);
      assert params[..n][..n - 1] == params[..n - 1] && names[..n][..n - 1] == names[..n - 1];
      BaseEntriesShape(params[..n - 1], names[..n - 1]);
      assert Find(prior, names[n - 1]) == |prior| by {
        forall j | 0 <= j < |prior| ensures prior[j].key != names[n - 1] {
          assert prior[j].key == names[j];
        }
      }
      SeedItemFresh(prior, names[n - 1], e.val);
      assert BaseEntries(params[..n], names[..n]) == prior + [Entry(names[n - 1], e.val)];
    }
  }

  /**
   * Two single-level parameters `P:a` and `P:b` packed into an empty
   * dictionary: as written the last seed `{'b': 2}` carries the result,
   * so a stray top-level `b` sits beside `BASE`; the corrected pack gives
   * `BASE` alone.
   */
  lemma PackRebindsOutDict()
    ensures PackAsWritten("P", [Entry("P:a", Leaf(1)), Entry("P:b", Leaf(2))], Dict([]))
      == Packed(Dict([Entry("b", Leaf(2)), Entry("BASE", Dict([Entry("a", Leaf(1)), Entry("b", Leaf(2))]))]))
    ensures PackFixed("P", [Entry("P:a", Leaf(1)), Entry("P:b", Leaf(2))], Dict([]))
      == Packed(Dict([Entry("BASE", Dict([Entry("a", Leaf(1)), Entry("b", Leaf(2))]))]))
  {
    ExampleAsWritten();
    ExampleFixed();
  }

  lemma ExampleAsWritten()
    ensures PackAsWritten("P", [Entry("P:a", Leaf(1)), Entry("P:b", Leaf(2))], Dict([]))
      == Packed(Dict([Entry("b", Leaf(2)), Entry("BASE", Dict([Entry("a", Leaf(1)), Entry("b", Leaf(2))]))]))
  {
    var params := [Entry("P:a", Leaf(1)), Entry("P:b", Leaf(2))];
    ExampleSeeds();
    var seeds := Seeds("P", params);
    var o0 := Dict([Entry("b", Leaf(2)), Entry("BASE", Dict([]))]);
    var o1 := Dict([Entry("b", Leaf(2)), Entry("BASE", Dict([Entry("a", Leaf(1))]))]);
    var o2 := Dict([Entry("b", Leaf(2)), Entry("BASE", Dict([Entry("a", Leaf(1)), Entry("b", Leaf(2))]))]);
    ExampleSteps();
    assert AddBase(seeds[1]) == Packed(o0);
    ExampleFirstSeed(seeds, o0, o1);
    ExampleSelf(o1, o2);
  }

  lemma ExampleFirstSeed(seeds: seq<Value>, o0: Value, o1: Value)
    requires |seeds| == 2 && seeds[0] == Dict([Entry("a", Leaf(1))])
    requires SetBase(o0, "a", Leaf(1)) == Packed(o1)
    ensures PackSeeds(seeds, 1, o0) == Packed(o1)
  {
    assert PackSeeds(seeds, 0, o0) == Packed(o0);
    assert SeedItems([Entry("a", Leaf(1))], 0, o0) == Packed(o0);
  }

  lemma ExampleSelf(o1: Value, o2: Value)
    requires o1 == Dict([Entry("b", Leaf(2)), Entry("BASE", Dict([Entry("a", Leaf(1))]))])
    requires SetBase(o1, "b", Leaf(2)) == Packed(o2)
    ensures SelfItems(o1.entries, 2, o1) == Packed(o2)
  {
    assert SelfItems(o1.entries, 0, o1) == Packed(o1);
    assert SelfItems(o1.entries, 1, o1) == Packed(o2);
  }

  lemma ExampleFixed()
    ensures PackFixed("P", [Entry("P:a", Leaf(1)), Entry("P:b", Leaf(2))], Dict([]))
      == Packed(Dict([Entry("BASE", Dict([Entry("a", Leaf(1)), Entry("b", Leaf(2))]))]))
  {
    var params := [Entry("P:a", Leaf(1)), Entry("P:b", Leaf(2))];
    assert SingleLevel("P", params[0], "a") && SingleLevel("P", params[1], "b") by {
      assert "P" + ":" + "a" == "P:a" && "P" + ":" + "b" == "P:b";
    }
    assert "a" != "b";
    PackFixedSingleLevels("P", params, ["a", "b"]);
    BaseEntriesShape(params, ["a", "b"]);
    assert BaseEntries(params, ["a", "b"]) == [Entry("a", Leaf(1)), Entry("b", Leaf(2))];
  }

  lemma ExampleSeeds()
    ensures Seeds("P", [Entry("P:a", Leaf(1)), Entry("P:b", Leaf(2))]) == [Dict([Entry("a", Leaf(1))]), Dict([Entry("b", Leaf(2))])]
  {
    SingleLevelSeed("P", "a", Leaf(1));
    SingleLevelSeed("P", "b", Leaf(2));
    assert "P" + ":" + "a" == "P:a" && "P" + ":" + "b" == "P:b";
  }

  lemma ExampleSteps()
    ensures AddBase(Dict([Entry("b", Leaf(2))])) == Packed(Dict([Entry("b", Leaf(2)), Entry("BASE", Dict([]))]))
    ensures SetBase(Dict([Entry("b", Leaf(2)), Entry("BASE", Dict([]))]), "a", Leaf(1))
      == Packed(Dict([Entry("b", Leaf(2)), Entry("BASE", Dict([Entry("a", Leaf(1))]))]))
    ensures SetBase(Dict([Entry("b", Leaf(2)), Entry("BASE", Dict([Entry("a", Leaf(1))]))]), "b", Leaf(2))
      == Packed(Dict([Entry("b", Leaf(2)), Entry("BASE", Dict([Entry("a", Leaf(1)), Entry("b", Leaf(2))]))]))
  {
    ExampleAddBase();
    ExampleSetA();
    ExampleSetB();
  }

  lemma ExampleAddBase()
    ensures AddBase(Dict([Entry("b", Leaf(2))])) == Packed(Dict([Entry("b", Leaf(2)), Entry("BASE", Dict([]))]))
  {
    var es := [Entry("b", Leaf(2))];
    assert es[0].key != "BASE" by { assert |es[0].key| != |"BASE"|; }
    assert Find(es[1..], "BASE") == 0;
    assert Find(es, "BASE") == 1;
    assert es + [Entry("BASE", Dict([]))] == [Entry("b", Leaf(2)), Entry("BASE", Dict([]))];
  }

  lemma ExampleSetA()
    ensures SetBase(Dict([Entry("b", Leaf(2)), Entry("BASE", Dict([]))]), "a", Leaf(1))
      == Packed(Dict([Entry("b", Leaf(2)), Entry("BASE", Dict([Entry("a", Leaf(1))]))]))
  {
    var es := [Entry("b", Leaf(2)), Entry("BASE", Dict([]))];
    assert es[0].key != "BASE" by { assert |es[0].key| != |"BASE"|; }
    assert es[1..][0].key == "BASE";
    assert Find(es[1..], "BASE") == 0;
    assert Find(es, "BASE") == 1;
    SetBaseAt(es, 1, [], "a", Leaf(1));
    assert [] + [Entry("a", Leaf(1))] == [Entry("a", Leaf(1))];
    assert es[1 := Entry("BASE", Dict([Entry("a", Leaf(1))]))] == [Entry("b", Leaf(2)), Entry("BASE", Dict([Entry("a", Leaf(1))]))];
  }

  lemma ExampleSetB()
    ensures SetBase(Dict([Entry("b", Leaf(2)), Entry("BASE", Dict([Entry("a", Leaf(1))]))]), "b", Leaf(2))
      == Packed(Dict([Entry("b", Leaf(2)), Entry("BASE", Dict([Entry("a", Leaf(1)), Entry("b", Leaf(2))]))]))
  {
    var es := [Entry("b", Leaf(2)), Entry("BASE", Dict([Entry("a", Leaf(1))]))];
    assert es[0].key != "BASE" by { assert |es[0].key| != |"BASE"|; }
    assert es[1..][0].key == "BASE";
    assert Find(es[1..], "BASE") == 0;
    assert Find(es, "BASE") == 1;
    var prior := [Entry("a", Leaf(1))];
    assert prior[0].key != "b" by { assert prior[0].key[0] != "b"[0]; }
    assert Find(prior[1..], "b") == 0;
    assert Find(prior, "b") == 1;
    SetBaseAt(es, 1, prior, "b", Leaf(2));
    assert prior + [Entry("b", Leaf(2))] == [Entry("a", Leaf(1)), Entry("b", Leaf(2))];
    assert es[1 := Entry("BASE", Dict([Entry("a", Leaf(1)), Entry("b", Leaf(2))]))] == [Entry("b", Leaf(2)), Entry("BASE", Dict([Entry("a", Leaf(1)), Entry("b", Leaf(2))]))];
  }

  // ---------------------------------------------------------------------
  // The IOCs of an assembly
  // ---------------------------------------------------------------------

  /** The configuration keys that are not IOCs. */
  const NOT_IOCS: seq<string> := ["detType:RO", "detName:RO", "COMMON", ":types:"]

  /** `get_iocs`: the configuration's keys, the non-IOC ones dropped. */
  function GetIocs(cfg: seq<Entry>): (r: seq<string>)
    ensures |r| <= |cfg|
    ensures forall i :: 0 <= i < |r| ==> r[i] !in NOT_IOCS
  {
    if cfg == [] then []
    else GetIocs(cfg[..|cfg| - 1]) + (if cfg[|cfg| - 1].key in NOT_IOCS then [] else [cfg[|cfg| - 1].key])
  }

  /** A key is an IOC exactly when the configuration has it and it is not one of the four. */
  lemma {:induction false} GetIocsMembers(cfg: seq<Entry>, k: string)
    ensures k in GetIocs(cfg) <==> k !in NOT_IOCS && exists i :: 0 <= i < |cfg| && cfg[i].key == k
  {
    if cfg != [] {
      var init := cfg[..|cfg| - 1];
      GetIocsMembers(init, k);
      if exists i :: 0 <= i < |init| && init[i].key == k {
        var i :| 0 <= i < |init| && init[i].key == k;
        assert cfg[i].key == k;
      }
      if exists i :: 0 <= i < |cfg| && cfg[i].key == k {
        var i :| 0 <= i < |cfg| && cfg[i].key == k;
        if i < |init| {
          assert init[i].key == k;
        }
      }
    }
  }

  /** The IOC list keeps the configuration's order: it distributes over concatenation. */
  lemma {:induction false} GetIocsAppend(a: seq<Entry>, b: seq<Entry>)
    ensures GetIocs(a + b) == GetIocs(a) + GetIocs(b)
  {
    if b == [] {
      assert a + b == a;
    } else {
      assert (a + b)[..|a + b| - 1] == a + b[..|b| - 1];
      GetIocsAppend(a, b[..|b| - 1]);
    }
  }

  /** What an IOC accessor returns or raises, or the configuration it stores. */
  datatype Reply = Ok(v: Value) | ValueError | KeyError | TypeError | AttributeError | Stored(cfg: seq<Entry>)

  /** `get_ioc_config(ioc)`. */
  function GetIocConfig(cfg: seq<Entry>, ioc: string): (r: Reply)
    ensures r.Ok? <==> ioc in GetIocs(cfg)
    ensures r.Ok? ==> Get(cfg, ioc) == Some(r.v)
    ensures !r.Ok? ==> r == ValueError
  {
    GetIocsMembers(cfg, ioc);
    if ioc !in GetIocs(cfg) then ValueError
    else match Get(cfg, ioc)
      case Some(v) => Ok(v)
      case None => KeyError
  }

  /** `get_ioc_parameters(ioc)`: the IOC's `CONFIG` section. */
  function GetIocParameters(cfg: seq<Entry>, ioc: string): (r: Reply)
    ensures r == ValueError <==> ioc !in GetIocs(cfg)
    ensures r.Ok? ==>
      && GetIocConfig(cfg, ioc).Ok? && GetIocConfig(cfg, ioc).v.Dict?
      && Get(GetIocConfig(cfg, ioc).v.entries, "CONFIG") == Some(r.v)
    ensures r.Ok? || r == ValueError || r == KeyError || r == TypeError
  {
    if ioc !in GetIocs(cfg) then ValueError
    else match GetIocConfig(cfg, ioc)
      case Ok(Dict(es)) => (match Get(es, "CONFIG") case Some(v) => Ok(v) case None => KeyError)
      case Ok(Leaf(_)) => TypeError
      case other => other
  }

  /** `all(key in new_ioc_cfg for key in ('IOC', 'CONFIG'))`, or the `TypeError` of `in` on a number. */
  function HasSections(v: Value): Option<bool>
  {
    match v
    case Leaf(_) => None
    case Dict(es) => Some(Find(es, "IOC") < |es| && Find(es, "CONFIG") < |es|)
  }

  /** `set_ioc_config` as written: its success path calls the undefined `self.set_current_cfg`. */
  function SetIocConfig(cfg: seq<Entry>, ioc: string, newCfg: Value): (r: Reply)
    ensures !r.Stored? && !r.Ok?
    ensures r == AttributeError <==> ioc in GetIocs(cfg) && HasSections(newCfg) == Some(true)
    ensures r == TypeError <==> ioc in GetIocs(cfg) && newCfg.Leaf?
  {
    if ioc !in GetIocs(cfg) then ValueError
    else match HasSections(newCfg)
      case None => TypeError
      case Some(true) => AttributeError
      case Some(false) => ValueError
  }

  /** `set_ioc_config` calling `set_current_config`: the configuration with the IOC's entry replaced is stored. */
  function SetIocConfigFixed(cfg: seq<Entry>, ioc: string, newCfg: Value): (r: Reply)
    ensures r.Stored? <==> ioc in GetIocs(cfg) && HasSections(newCfg) == Some(true)
    ensures r.Stored? ==> |r.cfg| == |cfg| && Get(r.cfg, ioc) == Some(newCfg)
    ensures !r.Stored? ==> r == ValueError || r == TypeError
  {
    GetIocsMembers(cfg, ioc);
    StoreGet(cfg, ioc, newCfg, ioc);
    if ioc !in GetIocs(cfg) then ValueError
    else match HasSections(newCfg)
      case None => TypeError
      case Some(true) => Stored(Store(cfg, ioc, newCfg))
      case Some(false) => ValueError
  }

  /** All three accessors raise `ValueError` for a name that is not an IOC of the configuration. */
  lemma UnknownIocRejected(cfg: seq<Entry>, ioc: string, newCfg: Value)
    requires ioc in NOT_IOCS || forall i :: 0 <= i < |cfg| ==> cfg[i].key != ioc
    ensures GetIocConfig(cfg, ioc) == ValueError && GetIocParameters(cfg, ioc) == ValueError
    ensures SetIocConfig(cfg, ioc, newCfg) == ValueError && SetIocConfigFixed(cfg, ioc, newCfg) == ValueError
  {
    GetIocsMembers(cfg, ioc);
  }

  /** An IOC of the configuration is found, and `get_ioc_parameters` returns its `CONFIG` section. */
  lemma KnownIocFound(cfg: seq<Entry>, ioc: string, i: nat)
    requires i < |cfg| && cfg[i].key == ioc && ioc !in NOT_IOCS
    ensures GetIocConfig(cfg, ioc) == Ok(Get(cfg, ioc).value)
    ensures Get(cfg, ioc).value.Dict? && Get(Get(cfg, ioc).value.entries, "CONFIG").Some? ==>
      GetIocParameters(cfg, ioc) == Ok(Get(Get(cfg, ioc).value.entries, "CONFIG").value)
  {
    GetIocsMembers(cfg, ioc);
  }

  /** For a known IOC and a configuration with both sections, the call as written always raises `AttributeError`. */
  lemma SetIocConfigNeverStores(cfg: seq<Entry>, ioc: string, newCfg: Value)
    requires ioc in GetIocs(cfg) && HasSections(newCfg) == Some(true)
    ensures SetIocConfig(cfg, ioc, newCfg) == AttributeError
  {
  }

  /**
   * The corrected call round-trips: the stored configuration has the same
   * IOCs, `get_ioc_config` returns the new configuration and
   * `get_ioc_parameters` its `CONFIG` section.
   */
  lemma SetIocConfigRoundTrip(cfg: seq<Entry>, ioc: string, newCfg: Value)
    requires ioc in GetIocs(cfg) && HasSections(newCfg) == Some(true)
    ensures SetIocConfigFixed(cfg, ioc, newCfg).Stored?
    ensures var c := SetIocConfigFixed(cfg, ioc, newCfg).cfg;
      GetIocs(c) == GetIocs(cfg) && GetIocConfig(c, ioc) == Ok(newCfg)
      && GetIocParameters(c, ioc) == Ok(Get(newCfg.entries, "CONFIG").value)
  {
    GetIocsMembers(cfg, ioc);
    var i := Find(cfg, ioc);
    var c := Store(cfg, ioc, newCfg);
    assert c == cfg[i := Entry(ioc, newCfg)];
    ReplaceKeepsIocs(cfg, i, Entry(ioc, newCfg));
    StoreGet(cfg, ioc, newCfg, ioc);
    var es := newCfg.entries;
    assert Find(es, "CONFIG") < |es|;
  }

  /** Replacing an entry by one with the same key keeps the IOC list. */
  lemma ReplaceKeepsIocs(cfg: seq<Entry>, i: nat, e: Entry)
    requires i < |cfg| && cfg[i].key == e.key
    ensures GetIocs(cfg[i := e]) == GetIocs(cfg)
  {
    assert cfg == cfg[..i] + [cfg[i]] + cfg[i + 1..];
    assert cfg[i := e] == cfg[..i] + [e] + cfg[i + 1..];
    GetIocsAppend(cfg[..i] + [cfg[i]], cfg[i + 1..]);
    GetIocsAppend(cfg[..i], [cfg[i]]);
    GetIocsAppend(cfg[..i] + [e], cfg[i + 1..]);
    GetIocsAppend(cfg[..i], [e]);
    assert [cfg[i]][..0] == [] && [e][..0] == [];
  }

  // ---------------------------------------------------------------------
  // read_assembly_config_file
  // ---------------------------------------------------------------------

  /** The name of a configuration-file entry: `IOC.<SECTION>.<KEY>`. */
  function ConfigKeyName(section: string, key: string): (r: string)
    ensures |r| == |section| + |key| + 5
    ensures StartsWith(r, "IOC.")
  {
    "IOC." + Upper(section) + "." + Upper(key)
  }

  /** A section of the file: its name and its keys, in file order. */
  datatype Section = Section(name: string, keys: seq<string>)

  /** The names of the entries of the sections, section by section, key by key. */
  function ConfigFileNames(sections: seq<Section>): (r: seq<string>)
    ensures forall i :: 0 <= i < |r| ==> StartsWith(r[i], "IOC.")
    ensures sections == [] ==> r == []
  {
    if sections == [] then []
    else
      var s := sections[|sections| - 1];
      ConfigFileNames(sections[..|sections| - 1]) + seq(|s.keys|, j requires 0 <= j < |s.keys| => ConfigKeyName(s.name, s.keys[j]))
  }

  lemma UpperKeepsDot(s: string)
    requires '.' !in s
    ensures '.' !in Upper(s)
  {
    forall i | 0 <= i < |s| ensures Upper(s)[i] != '.' {
      assert s[i] != '.';
    }
  }

  /** An entry name splits back at the dots into `IOC`, the upper-cased section and the upper-cased key. */
  lemma ConfigKeyNameSplits(section: string, key: string)
    requires '.' !in section && '.' !in key
    ensures Split(ConfigKeyName(section, key), '.') == ["IOC", Upper(section), Upper(key)]
  {
    var us, uk := Upper(section), Upper(key);
    UpperKeepsDot(section);
    UpperKeepsDot(key);
    var t := us + ['.'] + uk;
    calc {
      ConfigKeyName(section, key);
      "IOC." + us + "." + uk;
      { assert "IOC." == "IOC" + ['.']; }
      "IOC" + ['.'] + t;
    }
    SplitAtFirst("IOC", '.', t);
    SplitAtFirst(us, '.', uk);
    SplitWithout(uk, '.');
  }

  /** Every entry of a section gets a name, in order, after the names of the earlier sections. */
  lemma {:induction false} ConfigFileNamesAppend(sections: seq<Section>, s: Section)
    ensures |ConfigFileNames(sections + [s])| == |ConfigFileNames(sections)| + |s.keys|
    ensures forall j :: 0 <= j < |s.keys| ==> ConfigFileNames(sections + [s])[|ConfigFileNames(sections)| + j] == ConfigKeyName(s.name, s.keys[j])
  {
    assert (sections + [s])[..|sections|] == sections;
  }
}
