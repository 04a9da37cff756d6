/** Merging many configurations: `mergemanydict`, what it means for plain
    configurations, and how it compares with the merge it replaced. */
module MergeMany {
  import opened Options
  import opened Values
  import opened Mergers
  import opened MergerOptions
  import opened MergeLaws
  import Strings

  /** `list()+dict()+str()` */
  const DEF_MERGE_TYPE := "list()" + "+" + ("dict()" + "+" + "str()")

  /** `dict(replace)+list()+str()` */
  const CLOUD_MERGE_TYPE := "dict(replace)" + "+" + ("list()" + "+" + "str()")

  lemma ConstructCons(p: Parsed, ps: seq<Parsed>)
    requires ConstructOne(p).Some? && Construct(ps).Some?
    ensures Construct([p] + ps) == Some([ConstructOne(p).value] + Construct(ps).value)
  {
    assert ([p] + ps)[1..] == ps;
  }

  lemma ConstructThree(a: Parsed, b: Parsed, c: Parsed)
    requires ConstructOne(a).Some? && ConstructOne(b).Some? && ConstructOne(c).Some?
    ensures Construct([a, b, c]) == Some([ConstructOne(a).value, ConstructOne(b).value, ConstructOne(c).value])
  {
    ConstructCons(c, []);
    ConstructCons(b, [c] + []);
    ConstructCons(a, [b] + ([c] + []));
    assert [a] + ([b] + ([c] + [])) == [a, b, c];
    var x, y, z := ConstructOne(a).value, ConstructOne(b).value, ConstructOne(c).value;
    assert [x] + ([y] + ([z] + [])) == [x, y, z];
  }

  lemma JoinThree(x: string, y: string, z: string)
    ensures Strings.Join([x, y, z], "+") == x + "+" + (y + "+" + z)
  {
    assert [x, y, z][1..] == [y, z] && [y, z][1..] == [z];
    assert Strings.Join([z], "+") == z;
    assert Strings.Join([y, z], "+") == y + "+" + z;
  }

  lemma StringOfThree(a: Spec, b: Spec, c: Spec)
    requires GoodSpec(a) && GoodSpec(b) && GoodSpec(c)
    ensures StringExtract(Print(a) + "+" + (Print(b) + "+" + Print(c))) == Some([ParsedOf(a), ParsedOf(b), ParsedOf(c)])
  {
    hide Print, PrintAll, AsParsed, GoodSpec, StringExtract, ParsedOf, Strings.Join;
    var ps := [a, b, c];
    StringFormRoundTrip(ps);
    JoinThree(Print(a), Print(b), Print(c));
    ThreeOf(a, b, c);
  }

  lemma ThreeOf(a: Spec, b: Spec, c: Spec)
    ensures PrintAll([a, b, c]) == [Print(a), Print(b), Print(c)]
    ensures AsParsed([a, b, c]) == [ParsedOf(a), ParsedOf(b), ParsedOf(c)]
  {
    ConsAll([a, b, c]);
    ConsAll([b, c]);
    ConsAll([c]);
    assert [a, b, c][1..] == [b, c] && [b, c][1..] == [c] && [c][1..] == [];
    assert PrintAll([]) == [] && AsParsed([]) == [];
  }

  /** A merger named without options. */
  lemma PlainSpec(name: string)
    requires name == "list" || name == "dict" || name == "str"
    ensures GoodSpec(Spec(name, []))
    ensures Print(Spec(name, [])) == name + "()"
    ensures ParsedOf(Spec(name, [])) == Parsed(Str(name), List([]))
  {
    assert Strings.Join([], ",") == "";
    assert Strs([]) == [];
  }

  /** The names of the built-in merger modules, from the short ones. */
  lemma FullNames()
    ensures !Strings.StartsWith("list", "m_") && !Strings.StartsWith("dict", "m_") && !Strings.StartsWith("str", "m_")
    ensures "m_" + "list" == "m_list" && "m_" + "dict" == "m_dict" && "m_" + "str" == "m_str"
    ensures "m_list" != "m_dict" && "m_str" != "m_dict" && "m_str" != "m_list"
  {
    assert "list"[..2] == "li" && "dict"[..2] == "di" && "str"[..2] == "st" && "m_"[0] == 'm';
    assert "li"[0] == 'l' && "di"[0] == 'd' && "st"[0] == 's';
    assert "m_list"[2] == 'l' && "m_dict"[2] == 'd' && "m_str"[2] == 's';
  }

  lemma NoOptions(o: string)
    ensures !Has(List([]), o) && HasOption(List([]), o).Some?
  {
  }

  lemma NoListMethod()
    ensures ListMethodOf(List([])) == Replace
  {
    hide Has;
    NoOptions("append");
    NoOptions("prepend");
    NoOptions("replace");
    NoOptions("no_replace");
  }

  lemma ConstructPlain()
    ensures ConstructOne(Parsed(Str("list"), List([]))) == Some(ListMerger(Replace, false, false, false))
    ensures ConstructOne(Parsed(Str("dict"), List([]))) == Some(DictMerger(false, false, false, false))
    ensures ConstructOne(Parsed(Str("str"), List([]))) == Some(StrMerger(false))
  {
    hide Has, HasOption, ListMethodOf, Strings.StartsWith;
    FullNames();
    NoOptions("");
    NoListMethod();
    forall o ensures !Has(List([]), o) {
      NoOptions(o);
    }
  }

  lemma DictReplaceSpec()
    ensures var a := Spec("dict", ["replace"]);
            && GoodSpec(a) && Print(a) == "dict(replace)"
            && ParsedOf(a) == Parsed(Str("dict"), List([Str("replace")]))
  {
    assert GoodOption("replace");
    assert Strings.Join(["replace"], ",") == "replace";
    assert Strs(["replace"]) == [Str("replace")];
  }

  lemma ConstructDictReplace()
    ensures ConstructOne(Parsed(Str("dict"), List([Str("replace")]))) == Some(DictMerger(true, false, false, false))
  {
    assert "dict"[0] == 'd';
    assert forall s :: Strings.StartsWith(s, "m_") ==> s[0] == "m_"[0];
    assert "m_" + "dict" == "m_dict";
    assert |"replace"| == 7;
  }

  /** What the default string form stands for. */
  lemma DefaultMergeType()
    ensures StringExtract(DEF_MERGE_TYPE).Some?
    ensures Construct(StringExtract(DEF_MERGE_TYPE).value) == Some(DEFAULT_MERGERS)
  {
    PlainSpec("list");
    PlainSpec("dict");
    PlainSpec("str");
    var a, b, c := Spec("list", []), Spec("dict", []), Spec("str", []);
    assert DEF_MERGE_TYPE == Print(a) + "+" + (Print(b) + "+" + Print(c));
    ConstructPlain();
    StringOfThree(a, b, c);
    ConstructThree(ParsedOf(a), ParsedOf(b), ParsedOf(c));
  }

  lemma CloudMergeType()
    ensures StringExtract(CLOUD_MERGE_TYPE).Some?
    ensures Construct(StringExtract(CLOUD_MERGE_TYPE).value) == Some(CLOUD_MERGERS)
  {
    PlainSpec("list");
    PlainSpec("str");
    var a, b, c := Spec("dict", ["replace"]), Spec("list", []), Spec("str", []);
    DictReplaceSpec();
    assert CLOUD_MERGE_TYPE == Print(a) + "+" + (Print(b) + "+" + Print(c));
    ConstructPlain();
    ConstructDictReplace();
    StringOfThree(a, b, c);
    ConstructThree(ParsedOf(a), ParsedOf(b), ParsedOf(c));
  }

  // ---------------------------------------------------------------- mergemanydict

  /** One configuration merged into what there is so far; an empty one is passed
      over, and one that names no mergers gets the default ones. */
  ghost function MergeOne(h: Host, acc: Value, cfg: Config): Option<Value> {
    if cfg == map[] then Some(acc)
    else
      var (rest, named) := DictExtract(h, cfg);
      if named.None? then None
      else
        var parsed := if named.value == [] then StringExtract(DEF_MERGE_TYPE) else named;
        if parsed.None? || Construct(parsed.value).None? then None
        else Merge(h, Construct(parsed.value).value, acc, Dict(rest))
  }

  ghost function MergeInto(h: Host, acc: Value, cfgs: seq<Config>): Option<Value>
    decreases |cfgs|
  {
    if cfgs == [] then Some(acc)
    else
      match MergeOne(h, acc, cfgs[0])
      case None => None
      case Some(next) => MergeInto(h, next, cfgs[1..])
  }

  function Reversed(cfgs: seq<Config>): (r: seq<Config>)
    ensures |r| == |cfgs| && forall i :: 0 <= i < |cfgs| ==> r[i] == cfgs[|cfgs| - 1 - i]
  {
    seq(|cfgs|, i requires 0 <= i < |cfgs| => cfgs[|cfgs| - 1 - i])
  }

  method MergeManyDict(h: Host, srcs: seq<Config>, reverse: bool := false) returns (r: Option<Value>)
    ensures r == MergeInto(h, Dict(map[]), if reverse then Reversed(srcs) else srcs)
  {
    var cfgs := if reverse then Reversed(srcs) else srcs;
    var merged := Dict(map[]);
    var i := 0;
    assert cfgs[0..] == cfgs;
    while i < |cfgs|
      invariant 0 <= i <= |cfgs|
      invariant MergeInto(h, Dict(map[]), cfgs) == MergeInto(h, merged, cfgs[i..])
    {
      assert cfgs[i..][0] == cfgs[i] && cfgs[i..][1..] == cfgs[i + 1..];
      if cfgs[i] != map[] {
        var rest, parsed := DictExtractMergers(h, cfgs[i]);
        if parsed == Some([]) {
          parsed := StringExtractMergers(DEF_MERGE_TYPE);
        }
        if parsed.None? {
          return None;
        }
        var mergers := ConstructMergers(parsed.value);
        if mergers.None? {
          return None;
        }
        var next := MergeValues(h, mergers.value, merged, Dict(rest));
        if next.None? {
          return None;
        }
        merged := next.value;
      }
      i := i + 1;
    }
    r := Some(merged);
  }

  /** A configuration that says nothing about how it is to be merged. */
  ghost predicate Plain(cfg: Config) {
    "merge_how" !in cfg && "merge_type" !in cfg
  }

  lemma MergeOnePlain(h: Host, x: Config, cfg: Config)
    requires Plain(cfg)
    ensures MergeOne(h, Dict(x), cfg) == Some(Dict(Combine(x, cfg)))
  {
    if cfg == map[] {
      EmptyIsIdentity(x);
    } else {
      assert cfg - {"merge_how"} == cfg && cfg - {"merge_type"} == cfg;
      DefaultMergeType();
      DefaultMergeCombines(h, x, cfg);
    }
  }

  lemma {:induction false} MergeIntoConcat(h: Host, acc: Value, xs: seq<Config>, ys: seq<Config>)
    ensures MergeInto(h, acc, xs + ys)
            == match MergeInto(h, acc, xs) case None => None case Some(mid) => MergeInto(h, mid, ys)
    decreases |xs|
  {
    if xs == [] {
      assert xs + ys == ys;
    } else {
      assert (xs + ys)[1..] == xs[1..] + ys;
      var next := MergeOne(h, acc, xs[0]);
      if next.Some? {
        MergeIntoConcat(h, next.value, xs[1..], ys);
      }
    }
  }

  /** On plain configurations merging never raises and is the left fold of the
      reference. */
  lemma {:induction false} MergeManyPlain(h: Host, cfgs: seq<Config>)
    requires forall c :: c in cfgs ==> Plain(c)
    ensures MergeInto(h, Dict(map[]), cfgs) == Some(Dict(CombineAll(cfgs)))
  {
    if cfgs != [] {
      var init, last := cfgs[..|cfgs| - 1], cfgs[|cfgs| - 1];
      MergeManyPlain(h, init);
      MergeIntoConcat(h, Dict(map[]), init, [last]);
      assert init + [last] == cfgs && [last][1..] == [];
      MergeOnePlain(h, CombineAll(init), last);
      assert MergeInto(h, Dict(CombineAll(init)), [last]) == Some(Dict(CombineAll(cfgs)));
    }
  }

  /** Plain configurations of one shape may be merged in groups. */
  lemma MergeManyRegroups(h: Host, xs: seq<Config>, ys: seq<Config>)
    requires AllSameShape(xs + ys) && forall c :: c in xs + ys ==> Plain(c)
    ensures exists a, b ::
              && MergeInto(h, Dict(map[]), xs) == Some(Dict(a)) && MergeInto(h, Dict(map[]), ys) == Some(Dict(b))
              && MergeInto(h, Dict(map[]), xs + ys) == Some(Dict(Combine(a, b)))
  {
    forall c | c in xs || c in ys ensures c in xs + ys {}
    MergeManyPlain(h, xs);
    MergeManyPlain(h, ys);
    MergeManyPlain(h, xs + ys);
    Regroup(xs, ys);
  }
}
