/** Configuration values, as YAML gives them. */
module Values {
  import opened Options

  datatype Value =
    | Null
    | Bool(b: bool)
    | Int(i: int)
    | Str(s: string)
    | List(xs: seq<Value>)
    | Dict(d: map<string, Value>)

  type Config = map<string, Value>

  /** What Python decides outside this model: the text of a value that is not a
      string, and the order in which a dict lists its keys. */
  datatype Host = Host(text: Value -> string, order: map<string, Value> -> seq<string>)

  function Text(h: Host, v: Value): string {
    if v.Str? then v.s else h.text(v)
  }

  /** What iterating over a value yields; `None` when it cannot be iterated. */
  function Items(h: Host, v: Value): Option<seq<Value>> {
    match v
    case List(xs) => Some(xs)
    case Str(s) => Some(seq(|s|, i requires 0 <= i < |s| => Str([s[i]])))
    case Dict(d) => var ks := h.order(d); Some(seq(|ks|, i requires 0 <= i < |ks| => Str(ks[i])))
    case _ => None
  }
}

/** The merger classes and their dispatch on the type of the old value. A merge
    that raises is `None`. */
module Mergers {
  import opened Options
  import opened Values

  datatype ListMethod = Append | Prepend | Replace | NoReplace

  datatype Merger =
    | DictMerger(replace: bool, recurseStr: bool, recurseArray: bool, allowDelete: bool)
    | ListMerger(how: ListMethod, recurseStr: bool, recurseDict: bool, recurseArray: bool)
    | StrMerger(append: bool)

  /** `list()+dict()+str()` */
  const DEFAULT_MERGERS: seq<Merger> :=
    [ListMerger(Replace, false, false, false), DictMerger(false, false, false, false), StrMerger(false)]

  /** `dict(replace)+list()+str()`, the default for cloud-config parts */
  const CLOUD_MERGERS: seq<Merger> :=
    [DictMerger(true, false, false, false), ListMerger(Replace, false, false, false), StrMerger(false)]

  /** Whether a merger has the method for the type of the value. */
  predicate Handles(m: Merger, v: Value) {
    match m
    case DictMerger(_, _, _, _) => v.Dict?
    case ListMerger(_, _, _, _) => v.List?
    case StrMerger(_) => v.Str?
  }

  /** The first merger with the method asked for. */
  function Lookup(ms: seq<Merger>, v: Value): (r: Option<Merger>)
    ensures r.Some? ==> r.value in ms && Handles(r.value, v)
    ensures r.None? ==> forall m :: m in ms ==> !Handles(m, v)
  {
    if ms == [] then None
    else if Handles(ms[0], v) then Some(ms[0])
    else Lookup(ms[1..], v)
  }

  ghost function Merge(h: Host, ms: seq<Merger>, old_: Value, new_: Value): Option<Value>
    decreases new_, 2
  {
    match Lookup(ms, old_)
    case None => Some(old_)
    case Some(DictMerger(replace, rs, ra, del)) => OnDict(h, ms, DictMerger(replace, rs, ra, del), old_.d, new_)
    case Some(ListMerger(how, rs, rd, ra)) => OnList(h, ms, ListMerger(how, rs, rd, ra), old_.xs, new_)
    case Some(StrMerger(append)) => Some(if append then Str(old_.s + Text(h, new_)) else new_)
  }

  // ---------------------------------------------------------------- dicts

  /** The value for a key that both dicts have. */
  ghost function SameKey(h: Host, ms: seq<Merger>, m: Merger, oldV: Value, newV: Value): Option<Value>
    requires m.DictMerger?
    decreases newV, 3
  {
    if m.replace then Some(newV)
    else if newV.Dict? || (newV.List? && m.recurseArray) || (newV.Str? && m.recurseStr) then Merge(h, ms, oldV, newV)
    else Some(oldV)
  }

  predicate Deletes(m: Merger, x: map<string, Value>, y: map<string, Value>, k: string)
    requires m.DictMerger?
  {
    k in x && k in y && y[k].Null? && m.allowDelete
  }

  ghost function OnDict(h: Host, ms: seq<Merger>, m: Merger, x: map<string, Value>, new_: Value): Option<Value>
    requires m.DictMerger?
    decreases new_, 1
  {
    if !new_.Dict? then Some(Dict(x))
    else
      var y := new_.d;
      if forall k :: k in x && k in y && !Deletes(m, x, y, k) ==> SameKey(h, ms, m, x[k], y[k]).Some? then
        Some(Dict(map k | k in x.Keys + y.Keys && !Deletes(m, x, y, k) ::
                    if k !in y then x[k] else if k !in x then y[k] else SameKey(h, ms, m, x[k], y[k]).value))
      else
        None
  }

  // ---------------------------------------------------------------- lists

  ghost function SameIndex(h: Host, ms: seq<Merger>, m: Merger, oldV: Value, newV: Value): Option<Value>
    requires m.ListMerger?
    decreases newV, 3
  {
    if m.how == NoReplace then Some(oldV)
    else if (newV.List? && m.recurseArray) || (newV.Str? && m.recurseStr) || (newV.Dict? && m.recurseDict) then
      Merge(h, ms, oldV, newV)
    else Some(newV)
  }

  /** Index by index; beyond the shorter list the old items stay. */
  ghost function Overlay(h: Host, ms: seq<Merger>, m: Merger, xs: seq<Value>, ys: seq<Value>): Option<seq<Value>>
    requires m.ListMerger?
    decreases ys, 0
  {
    if xs == [] || ys == [] then Some(xs)
    else
      var head := SameIndex(h, ms, m, xs[0], ys[0]);
      var tail := Overlay(h, ms, m, xs[1..], ys[1..]);
      if head.Some? && tail.Some? then Some([head.value] + tail.value) else None
  }

  ghost function OnList(h: Host, ms: seq<Merger>, m: Merger, xs: seq<Value>, new_: Value): Option<Value>
    requires m.ListMerger?
    decreases new_, 1
  {
    match m.how
    case Append => (match Items(h, new_) case None => None case Some(ys) => Some(List(xs + ys)))
    case Prepend => (match Items(h, new_) case None => None case Some(ys) => Some(List(ys + xs)))
    case Replace =>
      if !new_.List? then Some(new_)
      else (match Overlay(h, ms, m, xs, new_.xs) case None => None case Some(zs) => Some(List(zs)))
    case NoReplace =>
      if new_.List? || new_.Str? || (new_.Dict? && (xs == [] || new_.d == map[])) then Some(List(xs)) else None
  }

  // ---------------------------------------------------------------- the merging loops

  method MergeValues(h: Host, ms: seq<Merger>, old_: Value, new_: Value) returns (r: Option<Value>)
    ensures r == Merge(h, ms, old_, new_)
    decreases new_, 2
  {
    match Lookup(ms, old_)
    case None => r := Some(old_);
    case Some(m) =>
      match m
      case DictMerger(_, _, _, _) =>
        if new_.Dict? {
          r := DoDictReplace(h, ms, m, old_.d, new_);
        } else {
          r := Some(old_);
        }
      case ListMerger(_, _, _, _) => r := MergeList(h, ms, m, old_.xs, new_);
      case StrMerger(append) => r := Some(if append then Str(old_.s + Text(h, new_)) else new_);
  }

  /** How a key stands in the copy: merged once its turn has come, else as it was. */
  ghost predicate KeyMerged(h: Host, ms: seq<Merger>, m: Merger, x: map<string, Value>, y: map<string, Value>,
                            merged: map<string, Value>, k: string, done: bool)
    requires m.DictMerger? && (done ==> k in y)
  {
    if !done then
      (k in merged <==> k in x) && (k in x ==> merged[k] == x[k])
    else
      && (k in merged <==> !Deletes(m, x, y, k))
      && (k in merged && k !in x ==> merged[k] == y[k])
      && (k in merged && k in x ==> SameKey(h, ms, m, x[k], y[k]) == Some(merged[k]))
  }

  /** Merges key by key into a copy of the old dict, in whatever order the new
      dict lists its keys. */
  method DoDictReplace(h: Host, ms: seq<Merger>, m: Merger, value: map<string, Value>, mergeWith: Value)
    returns (r: Option<Value>)
    requires m.DictMerger? && mergeWith.Dict?
    ensures r == OnDict(h, ms, m, value, mergeWith)
    decreases mergeWith, 1
  {
    var y := mergeWith.d;
    var merged := value;
    var todo := y.Keys;
    while todo != {}
      invariant todo <= y.Keys
      invariant forall k :: KeyMerged(h, ms, m, value, y, merged, k, k in y && k !in todo)
    {
      var k :| k in todo;
      todo := todo - {k};
      if k in value {
        if y[k].Null? && m.allowDelete {
          merged := merged - {k};
        } else {
          var v := MergeSameKey(h, ms, m, value[k], y[k]);
          if v.None? {
            return None;
          }
          merged := merged[k := v.value];
        }
      } else {
        merged := merged[k := y[k]];
      }
    }
    AllKeysMerged(h, ms, m, value, y, merged);
    r := Some(Dict(merged));
  }

  lemma AllKeysMerged(h: Host, ms: seq<Merger>, m: Merger, x: map<string, Value>, y: map<string, Value>, merged: map<string, Value>)
    requires m.DictMerger?
    requires forall k :: KeyMerged(h, ms, m, x, y, merged, k, k in y)
    ensures OnDict(h, ms, m, x, Dict(y)) == Some(Dict(merged))
  {
    forall k | k in x && k in y && !Deletes(m, x, y, k) ensures SameKey(h, ms, m, x[k], y[k]).Some? {
      assert KeyMerged(h, ms, m, x, y, merged, k, true);
    }
    var spec := OnDict(h, ms, m, x, Dict(y)).value.d;
    forall k ensures k in merged <==> k in spec
      ensures k in merged ==> merged[k] == spec[k]
    {
      assert KeyMerged(h, ms, m, x, y, merged, k, k in y);
    }
    assert merged == spec;
  }

  method MergeSameKey(h: Host, ms: seq<Merger>, m: Merger, oldV: Value, newV: Value) returns (r: Option<Value>)
    requires m.DictMerger?
    ensures r == SameKey(h, ms, m, oldV, newV)
    decreases newV, 3
  {
    if m.replace {
      return Some(newV);
    }
    if newV.List? && m.recurseArray {
      r := MergeValues(h, ms, oldV, newV);
    } else if newV.Str? && m.recurseStr {
      r := MergeValues(h, ms, oldV, newV);
    } else if newV.Dict? {
      r := MergeValues(h, ms, oldV, newV);
    } else {
      r := Some(oldV);
    }
  }

  method MergeList(h: Host, ms: seq<Merger>, m: Merger, value: seq<Value>, mergeWith: Value) returns (r: Option<Value>)
    requires m.ListMerger?
    ensures r == OnList(h, ms, m, value, mergeWith)
    decreases mergeWith, 1
  {
    if m.how == Replace && !mergeWith.List? {
      return Some(mergeWith);
    }
    if m.how == Prepend {
      var ys := Items(h, mergeWith);
      return if ys.None? then None else Some(List(ys.value + value));
    } else if m.how == Append {
      var ys := Items(h, mergeWith);
      return if ys.None? then None else Some(List(value + ys.value));
    }
    if !mergeWith.List? {
      // only its length is asked for, and its items as far as the lists overlap
      if mergeWith.Str? || (mergeWith.Dict? && (value == [] || mergeWith.d == map[])) {
        return Some(List(value));
      }
      return None;
    }
    var merged := OverlayLists(h, ms, m, value, mergeWith.xs);
    if m.how == NoReplace {
      OverlayNoReplace(h, ms, m, value, mergeWith.xs);
    }
    r := if merged.None? then None else Some(List(merged.value));
  }

  /** Replaces the items at the indexes that both lists have. */
  method OverlayLists(h: Host, ms: seq<Merger>, m: Merger, value: seq<Value>, ys: seq<Value>) returns (r: Option<seq<Value>>)
    requires m.ListMerger?
    ensures r == Overlay(h, ms, m, value, ys)
    decreases ys, 0
  {
    hide SameIndex, Overlay, OverlayFrom;
    var merged := value;
    var commonLen := if |merged| < |ys| then |merged| else |ys|;
    OverlayStart(h, ms, m, value, ys);
    for i := 0 to commonLen
      invariant |merged| == |value| && merged[i..] == value[i..]
      invariant OverlayFrom(h, ms, m, value, ys, merged, i)
    {
      var v := MergeSameIndex(h, ms, m, merged[i], ys[i]);
      assert merged[i] == merged[i..][0] == value[i];
      OverlayStep(h, ms, m, value, ys, merged, i);
      if v.None? {
        return None;
      }
      assert merged[i := v.value][i + 1..] == merged[i..][1..] == value[i + 1..];
      merged := merged[i := v.value];
    }
    OverlayEnd(h, ms, m, value, ys, merged, commonLen);
    r := Some(merged);
  }

  method MergeSameIndex(h: Host, ms: seq<Merger>, m: Merger, oldV: Value, newV: Value) returns (r: Option<Value>)
    requires m.ListMerger?
    ensures r == SameIndex(h, ms, m, oldV, newV)
    decreases newV, 3
  {
    if m.how == NoReplace {
      return Some(oldV);
    }
    if newV.List? && m.recurseArray {
      r := MergeValues(h, ms, oldV, newV);
    } else if newV.Str? && m.recurseStr {
      r := MergeValues(h, ms, oldV, newV);
    } else if newV.Dict? && m.recurseDict {
      r := MergeValues(h, ms, oldV, newV);
    } else {
      r := Some(newV);
    }
  }

  /** The first `i` items are merged, the rest still has to be. */
  ghost predicate OverlayFrom(h: Host, ms: seq<Merger>, m: Merger, xs: seq<Value>, ys: seq<Value>, merged: seq<Value>, i: nat)
    requires m.ListMerger? && i <= |xs| && i <= |ys| && i <= |merged|
  {
    var whole, rest := Overlay(h, ms, m, xs, ys), Overlay(h, ms, m, xs[i..], ys[i..]);
    (whole.Some? <==> rest.Some?) && (whole.Some? ==> whole.value == merged[..i] + rest.value)
  }

  lemma OverlayStart(h: Host, ms: seq<Merger>, m: Merger, xs: seq<Value>, ys: seq<Value>)
    requires m.ListMerger?
    ensures OverlayFrom(h, ms, m, xs, ys, xs, 0)
  {
    hide SameIndex, Overlay;
    assert xs[0..] == xs && ys[0..] == ys;
  }

  lemma OverlayStep(h: Host, ms: seq<Merger>, m: Merger, xs: seq<Value>, ys: seq<Value>, merged: seq<Value>, i: nat)
    requires m.ListMerger? && i < |xs| && i < |ys| && i < |merged| && OverlayFrom(h, ms, m, xs, ys, merged, i)
    ensures var v := SameIndex(h, ms, m, xs[i], ys[i]);
            if v.None? then Overlay(h, ms, m, xs, ys) == None
            else OverlayFrom(h, ms, m, xs, ys, merged[i := v.value], i + 1)
  {
    hide SameIndex;
    var v := SameIndex(h, ms, m, xs[i], ys[i]);
    assert xs[i..][1..] == xs[i + 1..] && ys[i..][1..] == ys[i + 1..];
    if v.Some? {
      assert merged[i := v.value][..i + 1] == merged[..i] + [v.value];
    }
  }

  lemma OverlayEnd(h: Host, ms: seq<Merger>, m: Merger, xs: seq<Value>, ys: seq<Value>, merged: seq<Value>, i: nat)
    requires m.ListMerger? && i <= |xs| && i <= |ys| && (i == |xs| || i == |ys|)
    requires |merged| == |xs| && merged[i..] == xs[i..] && OverlayFrom(h, ms, m, xs, ys, merged, i)
    ensures Overlay(h, ms, m, xs, ys) == Some(merged)
  {
    hide SameIndex;
    assert merged == merged[..i] + merged[i..];
  }

  lemma {:induction false} OverlayNoReplace(h: Host, ms: seq<Merger>, m: Merger, xs: seq<Value>, ys: seq<Value>)
    requires m.ListMerger? && m.how == NoReplace
    ensures Overlay(h, ms, m, xs, ys) == Some(xs)
    decreases |ys|
  {
    if xs != [] && ys != [] {
      OverlayNoReplace(h, ms, m, xs[1..], ys[1..]);
      assert [xs[0]] + xs[1..] == xs;
    }
  }
}
