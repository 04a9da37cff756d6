/** What merging with the default mergers means, and the laws it obeys. */
module MergeLaws {
  import opened Options
  import opened Values
  import opened Mergers

  /** Reference: a key of one side only is kept; two dicts are merged; a new dict
      replaces an old list or string; otherwise the old value stays. */
  ghost function Combine(x: Config, y: Config): Config
    decreases Dict(y), 0
  {
    map k | k in x.Keys + y.Keys :: if k !in y then x[k] else if k !in x then y[k] else CombineKey(x[k], y[k])
  }

  ghost function CombineKey(a: Value, b: Value): Value
    decreases b, 1
  {
    if a.Dict? && b.Dict? then Dict(Combine(a.d, b.d))
    else if (a.List? || a.Str?) && b.Dict? then b
    else a
  }

  /** The dispatching mergers compute the reference, and never raise. */
  lemma {:induction false} DefaultMergeCombines(h: Host, x: Config, y: Config)
    ensures Merge(h, DEFAULT_MERGERS, Dict(x), Dict(y)) == Some(Dict(Combine(x, y)))
    decreases Dict(y), 0
  {
    var m := DictMerger(false, false, false, false);
    forall k | k in x && k in y ensures SameKey(h, DEFAULT_MERGERS, m, x[k], y[k]) == Some(CombineKey(x[k], y[k])) {
      DefaultSameKey(h, x[k], y[k]);
    }
    LookupDefault(Dict(x));
    assert OnDict(h, DEFAULT_MERGERS, m, x, Dict(y)).value.d == Combine(x, y);
  }

  lemma {:induction false} DefaultSameKey(h: Host, a: Value, b: Value)
    ensures SameKey(h, DEFAULT_MERGERS, DictMerger(false, false, false, false), a, b) == Some(CombineKey(a, b))
    decreases b, 1
  {
    if b.Dict? {
      LookupDefault(a);
      if a.Dict? {
        DefaultMergeCombines(h, a.d, b.d);
        assert Merge(h, DEFAULT_MERGERS, a, b) == Some(CombineKey(a, b));
      } else if a.List? {
        assert Merge(h, DEFAULT_MERGERS, a, b) == OnList(h, DEFAULT_MERGERS, ListMerger(Replace, false, false, false), a.xs, b);
      }
    }
  }

  lemma LookupDefault(v: Value)
    ensures Lookup(DEFAULT_MERGERS, v) ==
            if v.Dict? then Some(DictMerger(false, false, false, false))
            else if v.List? then Some(ListMerger(Replace, false, false, false))
            else if v.Str? then Some(StrMerger(false)) else None
  {
    var d, s := DictMerger(false, false, false, false), StrMerger(false);
    assert DEFAULT_MERGERS[1..] == [d, s] && [d, s][1..] == [s] && [s][1..] == [];
    assert Lookup([s], v) == (if v.Str? then Some(s) else None);
    assert Lookup([d, s], v) == (if v.Dict? then Some(d) else Lookup([s], v));
  }

  // ---------------------------------------------------------------- identity, idempotence

  lemma EmptyIsIdentity(x: Config)
    ensures Combine(map[], x) == x && Combine(x, map[]) == x
  {
  }

  lemma {:induction false} Idempotent(x: Config)
    ensures Combine(x, x) == x
    decreases Dict(x)
  {
    forall k | k in x ensures CombineKey(x[k], x[k]) == x[k] {
      if x[k].Dict? {
        Idempotent(x[k].d);
      }
    }
  }

  /** Merging the same thing twice changes nothing the second time. */
  lemma {:induction false} Absorbed(x: Config, y: Config)
    ensures Combine(Combine(x, y), y) == Combine(x, y)
    decreases Dict(y), 0
  {
    var c := Combine(x, y);
    forall k | k in y ensures CombineKey(c[k], y[k]) == c[k] {
      if k !in x {
        if y[k].Dict? {
          Idempotent(y[k].d);
        }
      } else if x[k].Dict? && y[k].Dict? {
        Absorbed(x[k].d, y[k].d);
      } else if y[k].Dict? {
        Idempotent(y[k].d);
      }
    }
  }

  // ---------------------------------------------------------------- associativity

  /** `y` adds nothing to `x`. */
  ghost predicate Covers(x: Config, y: Config)
    decreases Dict(y), 0
  {
    forall k :: k in y ==> k in x && CoversKey(x[k], y[k])
  }

  ghost predicate CoversKey(a: Value, b: Value)
    decreases b, 1
  {
    b.Dict? ==> !a.List? && !a.Str? && (a.Dict? ==> Covers(a.d, b.d))
  }

  lemma {:induction false} CoversMeansUnchanged(x: Config, y: Config)
    ensures Covers(x, y) <==> Combine(x, y) == x
    decreases Dict(y), 0
  {
    forall k | k in x && k in y ensures CoversKey(x[k], y[k]) <==> CombineKey(x[k], y[k]) == x[k] {
      if x[k].Dict? && y[k].Dict? {
        CoversMeansUnchanged(x[k].d, y[k].d);
      }
    }
    if Combine(x, y) == x {
      forall k | k in y ensures k in x && CoversKey(x[k], y[k]) {
        assert k in Combine(x, y);
      }
    }
  }

  /** Where all three have a key, a scalar in the middle must not hide a dict on
      the right from a value on the left that the dict would change. */
  ghost predicate Aligned(x: Config, y: Config, z: Config)
    decreases Dict(z), 0
  {
    forall k :: k in x && k in y && k in z ==> AlignedKey(x[k], y[k], z[k])
  }

  ghost predicate AlignedKey(a: Value, b: Value, c: Value)
    decreases c, 1
  {
    c.Dict? ==>
      && (a.Dict? && b.Dict? ==> Aligned(a.d, b.d, c.d))
      && (!b.Dict? && !b.List? && !b.Str? ==> CoversKey(a, c))
  }

  /** Default merging is associative on three configurations exactly when they
      are aligned; `"x"`, `1`, `{}` under one key is the smallest that is not. */
  lemma {:induction false} AssociativeIff(x: Config, y: Config, z: Config)
    ensures Combine(Combine(x, y), z) == Combine(x, Combine(y, z)) <==> Aligned(x, y, z)
    decreases Dict(z), 0
  {
    var l, r := Combine(Combine(x, y), z), Combine(x, Combine(y, z));
    assert l.Keys == r.Keys;
    forall k | k in l ensures l[k] == r[k] <==> (k in x && k in y && k in z ==> AlignedKey(x[k], y[k], z[k])) {
      if k in x && k in y && k in z {
        AssociativeKeyIff(x[k], y[k], z[k]);
      }
    }
    if l == r {
      forall k | k in x && k in y && k in z ensures AlignedKey(x[k], y[k], z[k]) {
        assert k in l;
      }
    }
  }

  lemma {:induction false} AssociativeKeyIff(a: Value, b: Value, c: Value)
    ensures CombineKey(CombineKey(a, b), c) == CombineKey(a, CombineKey(b, c)) <==> AlignedKey(a, b, c)
    decreases c, 1
  {
    if c.Dict? {
      if a.Dict? && b.Dict? {
        AssociativeIff(a.d, b.d, c.d);
      } else if a.Dict? {
        CoversMeansUnchanged(a.d, c.d);
      }
    }
  }

  lemma NotAssociative()
    ensures var x, y, z := map["k" := Str("x")], map["k" := Int(1)], map["k" := Dict(map[])];
            Combine(Combine(x, y), z) != Combine(x, Combine(y, z))
  {
    var x, y, z := map["k" := Str("x")], map["k" := Int(1)], map["k" := Dict(map[])];
    AssociativeIff(x, y, z);
    assert !AlignedKey(x["k"], y["k"], z["k"]);
  }

  // ---------------------------------------------------------------- regrouping

  /** Every key the two share holds a dict on both sides or on neither. */
  ghost predicate SameShape(x: Config, y: Config)
    decreases Dict(y), 0
  {
    forall k :: k in x && k in y ==> SameShapeKey(x[k], y[k])
  }

  ghost predicate SameShapeKey(a: Value, b: Value)
    decreases b, 1
  {
    a.Dict? == b.Dict? && (a.Dict? ==> SameShape(a.d, b.d))
  }

  lemma {:induction false} SameShapeSymmetric(x: Config, y: Config)
    requires SameShape(x, y)
    ensures SameShape(y, x)
    decreases Dict(y), 0
  {
    forall k | k in x && k in y ensures SameShapeKey(y[k], x[k]) {
      assert SameShapeKey(x[k], y[k]);
      if x[k].Dict? {
        SameShapeSymmetric(x[k].d, y[k].d);
      }
    }
  }

  lemma {:induction false} SameShapeAligned(x: Config, y: Config, z: Config)
    requires SameShape(x, y) && SameShape(y, z)
    ensures Aligned(x, y, z)
    decreases Dict(z), 0
  {
    forall k | k in x && k in y && k in z ensures AlignedKey(x[k], y[k], z[k]) {
      assert SameShapeKey(x[k], y[k]) && SameShapeKey(y[k], z[k]);
      if z[k].Dict? {
        SameShapeAligned(x[k].d, y[k].d, z[k].d);
      }
    }
  }

  lemma {:induction false} SameShapeCombined(x: Config, y: Config, z: Config)
    requires SameShape(x, y) && SameShape(x, z) && SameShape(y, z)
    ensures SameShape(Combine(x, y), z)
    decreases Dict(z), 0
  {
    var c := Combine(x, y);
    forall k | k in c && k in z ensures SameShapeKey(c[k], z[k]) {
      if k in x && k in y {
        SameShapeKeyCombined(x[k], y[k], z[k]);
      }
    }
  }

  lemma {:induction false} SameShapeKeyCombined(a: Value, b: Value, c: Value)
    requires SameShapeKey(a, b) && SameShapeKey(a, c) && SameShapeKey(b, c)
    ensures SameShapeKey(CombineKey(a, b), c)
    decreases c, 1
  {
    if a.Dict? {
      SameShapeCombined(a.d, b.d, c.d);
    }
  }

  /** The left fold over a list of configurations. */
  ghost function CombineAll(xs: seq<Config>): Config {
    if xs == [] then map[] else Combine(CombineAll(xs[..|xs| - 1]), xs[|xs| - 1])
  }

  ghost predicate AllSameShape(xs: seq<Config>) {
    forall i, j :: 0 <= i < j < |xs| ==> SameShape(xs[i], xs[j])
  }

  lemma {:induction false} FoldSameShape(xs: seq<Config>, z: Config)
    requires AllSameShape(xs + [z])
    ensures SameShape(CombineAll(xs), z)
  {
    if xs != [] {
      var init, last := xs[..|xs| - 1], xs[|xs| - 1];
      PairsOf(xs + [z], init, last, z);
      FoldSameShape(init, z);
      FoldSameShape(init, last);
      assert (xs + [z])[|xs| - 1] == last && (xs + [z])[|xs|] == z;
      SameShapeCombined(CombineAll(init), last, z);
    }
  }

  lemma PairsOf(xs: seq<Config>, init: seq<Config>, a: Config, b: Config)
    requires xs == init + [a, b] && AllSameShape(xs)
    ensures AllSameShape(init + [a]) && AllSameShape(init + [b])
  {
    forall i, j | 0 <= i < j < |init + [a]| ensures SameShape((init + [a])[i], (init + [a])[j]) {
      assert (init + [a])[i] == xs[i] && (init + [a])[j] == xs[j];
    }
    forall i, j | 0 <= i < j < |init + [b]| ensures SameShape((init + [b])[i], (init + [b])[j]) {
      var j' := if j == |init| then j + 1 else j;
      assert (init + [b])[i] == xs[i] && (init + [b])[j] == xs[j'];
    }
  }

  /** Configurations of one shape may be merged in groups: merging `xs` and `ys`
      apart and then together is merging them all in order. */
  lemma {:induction false} Regroup(xs: seq<Config>, ys: seq<Config>)
    requires AllSameShape(xs + ys)
    ensures CombineAll(xs + ys) == Combine(CombineAll(xs), CombineAll(ys))
  {
    if ys == [] {
      assert xs + ys == xs;
      EmptyIsIdentity(CombineAll(xs));
    } else {
      var init, last := ys[..|ys| - 1], ys[|ys| - 1];
      var all := xs + ys;
      assert all[..|all| - 1] == xs + init && all[|all| - 1] == last && all == xs + init + [last];
      ShapesOfParts(xs, init, last);
      Regroup(xs, init);
      FoldsSameShape(xs, init);
      FoldSameShape(xs, last);
      FoldSameShape(init, last);
      SameShapeAligned(CombineAll(xs), CombineAll(init), last);
      AssociativeIff(CombineAll(xs), CombineAll(init), last);
    }
  }

  lemma ShapesOfParts(xs: seq<Config>, ys: seq<Config>, z: Config)
    requires AllSameShape(xs + ys + [z])
    ensures AllSameShape(xs + ys) && AllSameShape(xs + [z]) && AllSameShape(ys + [z])
  {
    var all := xs + ys + [z];
    assert xs + ys == all[..|xs| + |ys|];
    assert ys + [z] == all[|xs|..];
    forall i, j | 0 <= i < j < |ys + [z]| ensures SameShape((ys + [z])[i], (ys + [z])[j]) {
      assert (ys + [z])[i] == all[|xs| + i] && (ys + [z])[j] == all[|xs| + j];
    }
    forall i, j | 0 <= i < j < |xs + [z]| ensures SameShape((xs + [z])[i], (xs + [z])[j]) {
      var j' := if j == |xs| then |xs| + |ys| else j;
      assert (xs + [z])[i] == all[i] && (xs + [z])[j] == all[j'];
    }
  }

  lemma {:induction false} FoldsSameShape(xs: seq<Config>, ys: seq<Config>)
    requires AllSameShape(xs + ys)
    ensures SameShape(CombineAll(xs), CombineAll(ys))
  {
    if ys != [] {
      var init, last := ys[..|ys| - 1], ys[|ys| - 1];
      assert xs + ys == xs + init + [last];
      ShapesOfParts(xs, init, last);
      FoldsSameShape(xs, init);
      FoldSameShape(xs, last);
      FoldSameShape(init, last);
      SameShapeSymmetric(CombineAll(xs), CombineAll(init));
      SameShapeSymmetric(CombineAll(xs), last);
      SameShapeSymmetric(CombineAll(init), last);
      SameShapeCombined(CombineAll(init), last, CombineAll(xs));
      SameShapeSymmetric(CombineAll(ys), CombineAll(xs));
    }
  }

  // ---------------------------------------------------------------- paths

  ghost function At(v: Value, path: seq<string>): Option<Value> {
    if path == [] then Some(v)
    else if v.Dict? && path[0] in v.d then At(v.d[path[0]], path[1..])
    else None
  }

  ghost predicate DictAt(v: Value, path: seq<string>) {
    At(v, path).Some? && At(v, path).value.Dict?
  }

  /** What the merge has at a path below dicts of both sides: what the one side
      has, or for two values the choice the reference makes between them. */
  lemma {:induction false} CombinedAt(x: Config, y: Config, path: seq<string>, k: string)
    requires DictAt(Dict(x), path) && DictAt(Dict(y), path)
    ensures var a, b := At(Dict(x), path + [k]), At(Dict(y), path + [k]);
            At(Dict(Combine(x, y)), path + [k])
            == if b.None? then a else if a.None? then b else Some(CombineKey(a.value, b.value))
    decreases |path|
  {
    if path == [] {
      assert (path + [k])[1..] == [];
    } else {
      assert (path + [k])[1..] == path[1..] + [k];
      assert DictAt(x[path[0]], path[1..]) && DictAt(y[path[0]], path[1..]);
      CombinedAt(x[path[0]].d, y[path[0]].d, path[1..], k);
    }
  }

  // ---------------------------------------------------------------- the older merge

  /** The merge the default mergers replaced: a key that is set is never
      overridden, and only dicts are merged into dicts. */
  ghost function OldCombine(x: Config, y: Config): Config
    decreases Dict(y), 0
  {
    map k | k in x.Keys + y.Keys :: if k !in y then x[k] else if k !in x then y[k] else OldCombineKey(x[k], y[k])
  }

  ghost function OldCombineKey(a: Value, b: Value): Value
    decreases b, 1
  {
    if a.Dict? && b.Dict? then Dict(OldCombine(a.d, b.d)) else a
  }

  /** No list or string meets a dict. */
  ghost predicate NoClobber(x: Config, y: Config)
    decreases Dict(y), 0
  {
    forall k :: k in x && k in y ==> NoClobberKey(x[k], y[k])
  }

  ghost predicate NoClobberKey(a: Value, b: Value)
    decreases b, 1
  {
    b.Dict? ==> !a.List? && !a.Str? && (a.Dict? ==> NoClobber(a.d, b.d))
  }

  /** The default mergers agree with the older merge exactly when no list or
      string that is set meets a dict. */
  lemma {:induction false} AgreesWithOldIff(x: Config, y: Config)
    ensures Combine(x, y) == OldCombine(x, y) <==> NoClobber(x, y)
    decreases Dict(y), 0
  {
    var c, o := Combine(x, y), OldCombine(x, y);
    assert c.Keys == o.Keys;
    forall k | k in c ensures c[k] == o[k] <==> (k in x && k in y ==> NoClobberKey(x[k], y[k])) {
      if k in x && k in y {
        KeyAgreesWithOldIff(x[k], y[k]);
      }
    }
    if c == o {
      forall k | k in x && k in y ensures NoClobberKey(x[k], y[k]) {
        assert k in c;
      }
    }
  }

  lemma {:induction false} KeyAgreesWithOldIff(a: Value, b: Value)
    ensures CombineKey(a, b) == OldCombineKey(a, b) <==> NoClobberKey(a, b)
    decreases b, 1
  {
    if a.Dict? && b.Dict? {
      AgreesWithOldIff(a.d, b.d);
    }
  }
}
