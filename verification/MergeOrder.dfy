/** Whose mergers a part is merged with: its own, or those of the part before it. */
module MergeOrder {
  import opened Options
  import opened Values
  import opened Mergers
  import opened MergerOptions
  import opened MergeLaws
  import opened CloudConfig
  import opened MergerNaming
  import MergeMany

  /** What a part says of merging: the payload without that, and the mergers it names, in
      the payload or in its header; `None` among these when it names none. */
  function Named(h: Host, p: Part): Option<(Config, Option<seq<Merger>>)>
    requires p.CloudPart?
  {
    if p.yaml.None? then None
    else
      var (rest, fromYaml) := DictExtract(h, p.yaml.value);
      var fromHeader := StringExtract(HeaderMergers(p));
      if fromYaml.None? || fromHeader.None? then None
      else if fromYaml.value + fromHeader.value == [] then Some((rest, None))
      else
        var ms := Construct(fromYaml.value + fromHeader.value);
        if ms.None? then None else Some((rest, ms))
  }

  /** The configuration so far, and the mergers that wait for the next part. */
  datatype Pending = Pending(config: Value, mergers: seq<Merger>)

  /** The order in which the documentation says that parts are merged: each with the
      mergers of the part before it that named some, the first with the default. */
  ghost function DocumentedFold(h: Host, parts: seq<Part>): Pending
    requires forall p :: p in parts ==> p.CloudPart?
  {
    if parts == [] then Pending(Dict(map[]), CLOUD_MERGERS)
    else
      var before := DocumentedFold(h, parts[..|parts| - 1]);
      match Named(h, parts[|parts| - 1])
      case None => before
      case Some((rest, own)) =>
        match Merge(h, before.mergers, before.config, Dict(rest))
        case None => before
        case Some(v) => Pending(v, if own.Some? then own.value else before.mergers)
  }

  /** The mergers the code uses are a part's own, or else the default. */
  lemma OwnMergers(h: Host, p: Part)
    requires p.CloudPart?
    ensures ExtractMergers(h, p) ==
            match Named(h, p)
            case None => None
            case Some((rest, own)) => Some((rest, if own.Some? then own.value else CLOUD_MERGERS))
  {
    hide DictExtract, StringExtract, Construct;
    MergeMany.CloudMergeType();
  }

  /** Where the part's own choice of mergers is the one that waits for it. */
  ghost predicate SameChoice(h: Host, parts: seq<Part>, i: nat)
    requires (forall p :: p in parts ==> p.CloudPart?) && i < |parts|
  {
    var named := Named(h, parts[i]);
    named.Some? ==> (if named.value.1.Some? then named.value.1.value else CLOUD_MERGERS) == DocumentedFold(h, parts[..i]).mergers
  }

  /** As long as the two choices coincide, so do the configurations. */
  lemma {:induction false} SameChoicesAgree(h: Host, parts: seq<Part>)
    requires forall p :: p in parts ==> p.CloudPart?
    requires forall i :: 0 <= i < |parts| ==> SameChoice(h, parts, i)
    ensures Base(Fold(h, parts).config) == DocumentedFold(h, parts).config
  {
    hide Named, ExtractMergers, Merge;
    if parts != [] {
      var n := |parts| - 1;
      forall i | 0 <= i < n ensures SameChoice(h, parts[..n], i) {
        assert SameChoice(h, parts, i) && parts[..n][..i] == parts[..i];
      }
      SameChoicesAgree(h, parts[..n]);
      BaseIsNeverNull(h, parts[..n]);
      OwnMergers(h, parts[n]);
      assert SameChoice(h, parts, n);
      if ExtractMergers(h, parts[n]).Some? {
        var (rest, ms) := ExtractMergers(h, parts[n]).value;
        MergeIsNeverNull(h, ms, Base(Fold(h, parts[..n]).config), rest);
      }
    }
  }

  const FIRST := CloudPart("a", Some(map["k" := Int(1)]), "", "")

  /** Names the mergers that leave what is set. */
  const SECOND := CloudPart("b", Some(map["k" := Int(2)]), MergeMany.DEF_MERGE_TYPE, "")

  lemma NamedFirst(h: Host)
    ensures Named(h, FIRST) == Some((map["k" := Int(1)], None))
  {
    hide StringExtract, Construct;
    var y: Config := map["k" := Int(1)];
    assert y - {"merge_how"} == y && y - {"merge_type"} == y;
    EmptyStringNamesNothing();
  }

  lemma NamedSecond(h: Host)
    ensures Named(h, SECOND) == Some((map["k" := Int(2)], Some(DEFAULT_MERGERS)))
  {
    hide StringExtract, Construct;
    var y: Config := map["k" := Int(2)];
    assert y - {"merge_how"} == y && y - {"merge_type"} == y;
    assert MergeMany.DEF_MERGE_TYPE != "" by { assert |MergeMany.DEF_MERGE_TYPE| > 0; }
    MergeMany.DefaultMergeType();
    DefaultNamesSome();
    var named := StringExtract(MergeMany.DEF_MERGE_TYPE).value;
    assert [] + named == named;
  }

  lemma DefaultNamesSome()
    requires StringExtract(MergeMany.DEF_MERGE_TYPE).Some?
    requires Construct(StringExtract(MergeMany.DEF_MERGE_TYPE).value) == Some(DEFAULT_MERGERS)
    ensures StringExtract(MergeMany.DEF_MERGE_TYPE).value != []
  {
    hide StringExtract;
    assert Construct([]) == Some([]);
  }

  /** Two parts that set one key, the second naming the mergers that leave what is set: by
      the documentation the second replaces the value, and by the code the first stays. */
  lemma OrdersDiffer(h: Host)
    ensures Fold(h, [FIRST, SECOND]).config == Some(Dict(map["k" := Int(1)]))
    ensures DocumentedFold(h, [FIRST, SECOND]).config == Dict(map["k" := Int(2)])
  {
    hide Named, ExtractMergers, Merge;
    NamedFirst(h);
    NamedSecond(h);
    OwnMergers(h, FIRST);
    OwnMergers(h, SECOND);
    var x, y: Config := map["k" := Int(1)], map["k" := Int(2)];
    CloudMergeReplaces(h, map[], x);
    CloudMergeReplaces(h, x, y);
    assert map[] + x == x && x + y == y;
    DefaultMergeCombines(h, x, y);
    assert Combine(x, y) == x;
    var parts := [FIRST, SECOND];
    assert parts[..1] == [FIRST] && [FIRST][..0] == [];
    assert Fold(h, []) == Gathered(None, []) && Fold(h, [FIRST]).config == Some(Dict(x));
    assert DocumentedFold(h, []) == Pending(Dict(map[]), CLOUD_MERGERS);
    assert DocumentedFold(h, [FIRST]) == Pending(Dict(x), CLOUD_MERGERS);
  }

  // ---------------------------------------------------------------- the documented list form

  /** The list form that the documentation gives for the default string form. */
  function DocumentedForm(): seq<Value> {
    [DictEntry(EXTEND), DictEntry(PLAIN), DictEntry(APPEND)]
  }

  const EXTEND := Spec("list", ["extend"])
  const PLAIN := Spec("dict", [])
  const APPEND := Spec("str", ["append"])

  lemma AreGood()
    ensures GoodSpec(EXTEND) && GoodSpec(PLAIN) && GoodSpec(APPEND)
  {
    assert GoodOption("extend") && GoodOption("append");
  }

  /** It makes other mergers: strings are appended. */
  lemma DocumentedFormAppends()
    ensures ExtractEntries(DocumentedForm()).Some?
    ensures var ms := Construct(ExtractEntries(DocumentedForm()).value);
            && ms == Some([ListMerger(Replace, false, false, false), DictMerger(false, false, false, false), StrMerger(true)])
            && ms != Some(DEFAULT_MERGERS)
  {
    hide ExtractEntries, ConstructOne, Construct, GoodSpec, DictEntry, ParsedOf, AsParsed;
    AreGood();
    var ps := [EXTEND, PLAIN, APPEND];
    EntriesAreRead(DocumentedForm(), ps);
    MergeMany.ThreeOf(EXTEND, PLAIN, APPEND);
    ExtendIsNone();
    ListOptions(["extend"]);
    DictOptions([]);
    StrOptions(["append"]);
    MergeMany.ConstructThree(ParsedOf(EXTEND), ParsedOf(PLAIN), ParsedOf(APPEND));
    assert DEFAULT_MERGERS[2] == StrMerger(false);
  }

  lemma ExtendIsNone()
    ensures forall o :: o in ["extend"] ==> o == "extend"
    ensures "extend" != "append" && "extend" != "prepend" && "extend" != "replace" && "extend" != "no_replace"
    ensures "extend" != "recurse_str" && "extend" != "recurse_dict" && "extend" != "recurse_array" && "extend" != "recurse_list"
  {
    assert "extend"[0] == 'e' && "append"[0] == 'a' && "prepend"[0] == 'p' && "replace"[0] == 'r' && "no_replace"[0] == 'n';
    assert "recurse_str"[0] == 'r' && "recurse_dict"[0] == 'r' && "recurse_array"[0] == 'r' && "recurse_list"[0] == 'r';
  }
}
