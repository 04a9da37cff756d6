/** What the options of the mergers mean for the values they merge. */
module MergerMeaning {
  import opened Options
  import opened Values
  import opened Mergers

  // ---------------------------------------------------------------- lists

  lemma MergesLists(h: Host, ms: seq<Merger>, m: Merger, xs: seq<Value>, new_: Value)
    requires m.ListMerger? && Lookup(ms, List(xs)) == Some(m)
    ensures Merge(h, ms, List(xs), new_) == OnList(h, ms, m, xs, new_)
  {
    hide OnList;
  }

  /** Appending: the old list is in front, and after it come the new items. */
  lemma AppendKeepsOldFirst(h: Host, ms: seq<Merger>, m: Merger, xs: seq<Value>, new_: Value)
    requires m.ListMerger? && m.how == Append && Lookup(ms, List(xs)) == Some(m)
    ensures Merge(h, ms, List(xs), new_).Some? <==> Items(h, new_).Some?
    ensures Items(h, new_).Some? ==>
              var r := Merge(h, ms, List(xs), new_).value;
              r.List? && |r.xs| >= |xs| && r.xs[..|xs|] == xs && r.xs[|xs|..] == Items(h, new_).value
  {
    hide Items;
    MergesLists(h, ms, m, xs, new_);
  }

  /** Prepending: the new items are in front, and after them comes the old list. */
  lemma PrependPutsNewFirst(h: Host, ms: seq<Merger>, m: Merger, xs: seq<Value>, new_: Value)
    requires m.ListMerger? && m.how == Prepend && Lookup(ms, List(xs)) == Some(m)
    ensures Merge(h, ms, List(xs), new_).Some? <==> Items(h, new_).Some?
    ensures Items(h, new_).Some? ==>
              var r, ys := Merge(h, ms, List(xs), new_).value, Items(h, new_).value;
              r.List? && |r.xs| >= |ys| && r.xs[..|ys|] == ys && r.xs[|ys|..] == xs
  {
    hide Items;
    MergesLists(h, ms, m, xs, new_);
  }

  /** The items of a list are its own, those of a text its characters, and those of a dict its
      keys, in the order in which the host lists them; nothing else has any. */
  lemma ItemsAre(h: Host, v: Value)
    ensures Items(h, v).Some? <==> v.List? || v.Str? || v.Dict?
    ensures v.List? ==> Items(h, v).value == v.xs
    ensures v.Str? ==> |Items(h, v).value| == |v.s| && forall i :: 0 <= i < |v.s| ==> Items(h, v).value[i] == Str([v.s[i]])
    ensures v.Dict? ==> |Items(h, v).value| == |h.order(v.d)|
                        && forall i :: 0 <= i < |h.order(v.d)| ==> Items(h, v).value[i] == Str(h.order(v.d)[i])
  {
  }

  /** Whether a new item is merged into the old one of the same index. */
  predicate RecursesItem(m: Merger, v: Value)
    requires m.ListMerger?
  {
    match v
    case List(_) => m.recurseArray
    case Str(_) => m.recurseStr
    case Dict(_) => m.recurseDict
    case _ => false
  }

  lemma ReplaceItem(h: Host, ms: seq<Merger>, m: Merger, a: Value, b: Value)
    requires m.ListMerger? && m.how == Replace
    ensures SameIndex(h, ms, m, a, b) == if RecursesItem(m, b) then Merge(h, ms, a, b) else Some(b)
  {
  }

  lemma {:induction false} OverlayAt(h: Host, ms: seq<Merger>, m: Merger, xs: seq<Value>, ys: seq<Value>)
    requires m.ListMerger?
    ensures Overlay(h, ms, m, xs, ys).Some? <==>
              forall i :: 0 <= i < |xs| && i < |ys| ==> SameIndex(h, ms, m, xs[i], ys[i]).Some?
    ensures Overlay(h, ms, m, xs, ys).Some? ==>
              var zs := Overlay(h, ms, m, xs, ys).value;
              && |zs| == |xs|
              && (forall i :: 0 <= i < |xs| && i < |ys| ==> SameIndex(h, ms, m, xs[i], ys[i]) == Some(zs[i]))
              && (forall i :: |ys| <= i < |xs| ==> zs[i] == xs[i])
    decreases |ys|
  {
    hide SameIndex;
    if xs != [] && ys != [] {
      OverlayAt(h, ms, m, xs[1..], ys[1..]);
      if Overlay(h, ms, m, xs, ys).Some? {
        forall i | 0 <= i < |xs| && i < |ys| ensures SameIndex(h, ms, m, xs[i], ys[i]).Some? {
          assert i > 0 ==> xs[1..][i - 1] == xs[i] && ys[1..][i - 1] == ys[i];
        }
      }
    }
  }

  /** Replacing: the old length stays; at an index of both lists the new item takes the place of
      the old, or is merged into it if its type recurses; beyond that the old items stay. A new
      value that is no list replaces the whole list. */
  lemma ReplaceAt(h: Host, ms: seq<Merger>, m: Merger, xs: seq<Value>, new_: Value)
    requires m.ListMerger? && m.how == Replace && Lookup(ms, List(xs)) == Some(m)
    ensures !new_.List? ==> Merge(h, ms, List(xs), new_) == Some(new_)
    ensures new_.List? && Merge(h, ms, List(xs), new_).Some? ==>
              var r, ys := Merge(h, ms, List(xs), new_).value, new_.xs;
              && r.List? && |r.xs| == |xs|
              && (forall i :: 0 <= i < |xs| && i < |ys| && !RecursesItem(m, ys[i]) ==> r.xs[i] == ys[i])
              && (forall i :: 0 <= i < |xs| && i < |ys| && RecursesItem(m, ys[i]) ==> Merge(h, ms, xs[i], ys[i]) == Some(r.xs[i]))
              && (forall i :: |ys| <= i < |xs| ==> r.xs[i] == xs[i])
    ensures new_.List? && Merge(h, ms, List(xs), new_).None? ==>
              exists i :: 0 <= i < |xs| && i < |new_.xs| && RecursesItem(m, new_.xs[i]) && Merge(h, ms, xs[i], new_.xs[i]).None?
  {
    hide SameIndex, Merge, Overlay, RecursesItem;
    MergesLists(h, ms, m, xs, new_);
    if new_.List? {
      var ys := new_.xs;
      OverlayAt(h, ms, m, xs, ys);
      forall i | 0 <= i < |xs| && i < |ys|
        ensures SameIndex(h, ms, m, xs[i], ys[i]) == if RecursesItem(m, ys[i]) then Merge(h, ms, xs[i], ys[i]) else Some(ys[i])
      {
        ReplaceItem(h, ms, m, xs[i], ys[i]);
      }
    }
  }

  /** Without replacing, what merges leaves the old list as it is; a number, a null or a truth value
      raises, and so does a dict with keys, unless the list is empty. */
  lemma NoReplaceKeeps(h: Host, ms: seq<Merger>, m: Merger, xs: seq<Value>, new_: Value)
    requires m.ListMerger? && m.how == NoReplace && Lookup(ms, List(xs)) == Some(m)
    ensures Merge(h, ms, List(xs), new_) ==
            match new_
            case List(_) => Some(List(xs))
            case Str(_) => Some(List(xs))
            case Dict(y) => if xs != [] && y != map[] then None else Some(List(xs))
            case _ => None
  {
    MergesLists(h, ms, m, xs, new_);
  }

  // ---------------------------------------------------------------- dicts

  lemma MergesDicts(h: Host, ms: seq<Merger>, m: Merger, x: Config, new_: Value)
    requires m.DictMerger? && Lookup(ms, Dict(x)) == Some(m)
    ensures Merge(h, ms, Dict(x), new_) == OnDict(h, ms, m, x, new_)
  {
    hide OnDict;
  }

  /** Whether a new value is merged into the old one of the same key. */
  predicate RecursesKey(m: Merger, v: Value)
    requires m.DictMerger?
  {
    match v
    case Dict(_) => true
    case List(_) => m.recurseArray
    case Str(_) => m.recurseStr
    case _ => false
  }

  /** Key by key: a key of one side is kept. Of a key of both sides, when deleting is allowed a
      null deletes it; else the new value is taken when replacing, is merged into the old one when
      it is a dict or its type recurses, and is dropped otherwise. */
  lemma KeyAt(h: Host, ms: seq<Merger>, m: Merger, x: Config, y: Config, k: string)
    requires m.DictMerger? && Lookup(ms, Dict(x)) == Some(m) && Merge(h, ms, Dict(x), Dict(y)).Some?
    ensures var r := Merge(h, ms, Dict(x), Dict(y)).value;
            && r.Dict?
            && (k in x && k !in y ==> k in r.d && r.d[k] == x[k])
            && (k !in x && k in y ==> k in r.d && r.d[k] == y[k])
            && (k !in x && k !in y ==> k !in r.d)
            && (k in x && k in y && m.allowDelete && y[k] == Null ==> k !in r.d)
            && (k in x && k in y && !(m.allowDelete && y[k] == Null) ==>
                  && k in r.d
                  && (m.replace ==> r.d[k] == y[k])
                  && (!m.replace && RecursesKey(m, y[k]) ==> Merge(h, ms, x[k], y[k]) == Some(r.d[k]))
                  && (!m.replace && !RecursesKey(m, y[k]) ==> r.d[k] == x[k]))
  {
    hide Merge, SameKey;
    MergesDicts(h, ms, m, x, Dict(y));
    if k in x && k in y {
      KeyOfBoth(h, ms, m, x[k], y[k]);
    }
  }

  lemma KeyOfBoth(h: Host, ms: seq<Merger>, m: Merger, a: Value, b: Value)
    requires m.DictMerger?
    ensures SameKey(h, ms, m, a, b) ==
            if m.replace then Some(b) else if RecursesKey(m, b) then Merge(h, ms, a, b) else Some(a)
  {
  }

  /** A merge of dicts raises only if that of some key does, and nothing but a dict is merged
      into a dict. */
  lemma DictRaisesIff(h: Host, ms: seq<Merger>, m: Merger, x: Config, new_: Value)
    requires m.DictMerger? && Lookup(ms, Dict(x)) == Some(m)
    ensures !new_.Dict? ==> Merge(h, ms, Dict(x), new_) == Some(Dict(x))
    ensures new_.Dict? ==>
              (Merge(h, ms, Dict(x), new_).None? <==>
               exists k :: k in x && k in new_.d && !m.replace && RecursesKey(m, new_.d[k]) && Merge(h, ms, x[k], new_.d[k]).None?)
  {
    hide Merge, SameKey, RecursesKey;
    MergesDicts(h, ms, m, x, new_);
    if new_.Dict? {
      forall k | k in x && k in new_.d
        ensures SameKey(h, ms, m, x[k], new_.d[k]) ==
                if m.replace then Some(new_.d[k]) else if RecursesKey(m, new_.d[k]) then Merge(h, ms, x[k], new_.d[k]) else Some(x[k])
        ensures new_.d[k].Null? ==> !RecursesKey(m, new_.d[k])
      {
        KeyOfBoth(h, ms, m, x[k], new_.d[k]);
        NullRecursesNot(m, new_.d[k]);
      }
    }
  }

  lemma NullRecursesNot(m: Merger, v: Value)
    requires m.DictMerger?
    ensures v.Null? ==> !RecursesKey(m, v)
  {
  }

  // ---------------------------------------------------------------- texts, and what nothing handles

  /** Appending puts the new text after the old one; otherwise the new value is taken. */
  lemma StringMerge(h: Host, ms: seq<Merger>, m: Merger, s: string, new_: Value)
    requires m.StrMerger? && Lookup(ms, Str(s)) == Some(m)
    ensures m.append ==>
              var r := Merge(h, ms, Str(s), new_);
              r.Some? && r.value.Str? && s <= r.value.s && r.value.s[|s|..] == Text(h, new_)
    ensures !m.append ==> Merge(h, ms, Str(s), new_) == Some(new_)
  {
    hide Text;
  }

  /** A value of a type that no merger has a method for stays as it is. */
  lemma UnhandledStays(h: Host, ms: seq<Merger>, old_: Value, new_: Value)
    requires forall m :: m in ms ==> !Handles(m, old_)
    ensures Merge(h, ms, old_, new_) == Some(old_)
  {
  }

  /** Of several mergers for one type the one named first counts. */
  lemma FirstMergerCounts(m: Merger, ms: seq<Merger>, v: Value)
    ensures Lookup([m] + ms, v) == if Handles(m, v) then Some(m) else Lookup(ms, v)
  {
    hide Handles;
    assert ([m] + ms)[1..] == ms;
  }
}
