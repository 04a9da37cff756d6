/** The mergers that a configuration or a part names are the ones it is merged with. */
module MergerNaming {
  import opened Options
  import opened Values
  import opened Mergers
  import opened MergerOptions
  import opened MergerMeaning
  import opened MergeLaws
  import opened CloudConfig
  import MergeMany
  import Strings

  // ---------------------------------------------------------------- what the options say

  lemma OptionIn(opts: seq<string>, o: string)
    ensures Has(List(Strs(opts)), o) <==> o in opts
    ensures HasOption(List(Strs(opts)), o).Some?
  {
    if o in opts {
      var i :| 0 <= i < |opts| && opts[i] == o;
      assert Strs(opts)[i] == Str(o);
    }
  }

  /** How a list is merged: the first of the four ways that is named, or else replacing. */
  lemma ListOptions(opts: seq<string>)
    ensures ConstructOne(ParsedOf(Spec("list", opts)))
            == Some(ListMerger(if "append" in opts then Append
                               else if "prepend" in opts then Prepend
                               else if "no_replace" in opts && "replace" !in opts then NoReplace
                               else Replace,
                               "recurse_str" in opts, "recurse_dict" in opts,
                               "recurse_array" in opts || "recurse_list" in opts))
  {
    hide Has, HasOption, Strings.StartsWith;
    MergeMany.FullNames();
    forall o ensures (Has(List(Strs(opts)), o) <==> o in opts) && HasOption(List(Strs(opts)), o).Some? {
      OptionIn(opts, o);
    }
  }

  lemma DictOptions(opts: seq<string>)
    ensures ConstructOne(ParsedOf(Spec("dict", opts)))
            == Some(DictMerger("replace" in opts, "recurse_str" in opts, "recurse_array" in opts || "recurse_list" in opts,
                               "allow_delete" in opts))
  {
    hide Has, HasOption, Strings.StartsWith;
    MergeMany.FullNames();
    forall o ensures (Has(List(Strs(opts)), o) <==> o in opts) && HasOption(List(Strs(opts)), o).Some? {
      OptionIn(opts, o);
    }
  }

  lemma StrOptions(opts: seq<string>)
    ensures ConstructOne(ParsedOf(Spec("str", opts))) == Some(StrMerger("append" in opts))
  {
    hide Has, HasOption, Strings.StartsWith;
    MergeMany.FullNames();
    forall o ensures (Has(List(Strs(opts)), o) <==> o in opts) && HasOption(List(Strs(opts)), o).Some? {
      OptionIn(opts, o);
    }
  }

  // ---------------------------------------------------------------- the forms of naming

  predicate GoodSpecs(ps: seq<Spec>) {
    forall p :: p in ps ==> GoodSpec(p)
  }

  function StringForm(ps: seq<Spec>): string {
    Strings.Join(PrintAll(ps), "+")
  }

  function DictEntry(p: Spec): Value {
    Dict(map["name" := Str(p.name), "settings" := List(Strs(p.opts))])
  }

  function ListEntry(p: Spec): Value {
    List([Str(p.name)] + Strs(p.opts))
  }

  /** An entry of the list form, either a dict or a list. */
  predicate EntryFor(v: Value, p: Spec) {
    v == DictEntry(p) || v == ListEntry(p)
  }

  /** The value names these mergers, in the string form or entry by entry. */
  predicate NamesMergers(v: Value, ps: seq<Spec>) {
    || v == Str(StringForm(ps))
    || (v.List? && |v.xs| == |ps| && forall i :: 0 <= i < |ps| ==> EntryFor(v.xs[i], ps[i]))
  }

  lemma NameIsPlain(p: Spec)
    requires GoodSpec(p)
    ensures '-' !in p.name && Strings.Trimmed(p.name)
  {
    var last := p.name[|p.name| - 1];
    assert p.name[0] in p.name && last in p.name;
    assert IsNameChar(p.name[0]) && IsNameChar(last);
  }

  lemma EntryFields(p: Spec)
    ensures DictEntry(p).Dict?
    ensures var d := DictEntry(p).d;
            "name" in d && d["name"] == Str(p.name) && "settings" in d && d["settings"] == List(Strs(p.opts))
  {
    hide Strs;
    assert "name"[0] == 'n' && "settings"[0] == 's';
  }

  /** In a dict entry too, dashes may be written for underscores. */
  lemma DictEntryIsRead(p: Spec)
    requires Strings.Trimmed(p.name)
    ensures ExtractEntry(DictEntry(p)) == Some(ParsedOf(p.(name := Strings.ReplaceChar(p.name, '-', '_'))))
  {
    hide Strings.Trimmed, Strings.Strip, Strs, Strings.ReplaceChar, DictEntry;
    EntryFields(p);
    UnderscoresAreTrimmed(p.name);
    Strings.StripTrimmed(Strings.ReplaceChar(p.name, '-', '_'));
  }

  lemma UnderscoresAreTrimmed(name: string)
    requires Strings.Trimmed(name)
    ensures Strings.Trimmed(Strings.ReplaceChar(name, '-', '_'))
  {
  }

  lemma ListEntryIsRead(p: Spec)
    ensures ExtractEntry(ListEntry(p)) == Some(ParsedOf(p))
  {
    hide Strs;
    var xs := [Str(p.name)] + Strs(p.opts);
    assert xs[0] == Str(p.name) && xs[1..] == Strs(p.opts);
  }

  lemma EntryIsRead(v: Value, p: Spec)
    requires GoodSpec(p) && EntryFor(v, p)
    ensures ExtractEntry(v) == Some(ParsedOf(p)) && Truthy(Str(p.name))
  {
    hide ExtractEntry, GoodOption, IsNameChar, IsPlain, ParsedOf, Strings.Trimmed, DictEntry, ListEntry, Strings.ReplaceChar;
    NameIsPlain(p);
    ReplaceKeeps(p.name, '-', '_');
    DictEntryIsRead(p);
    ListEntryIsRead(p);
  }

  lemma {:induction false} EntriesAreRead(vs: seq<Value>, ps: seq<Spec>)
    requires GoodSpecs(ps) && |vs| == |ps| && forall i :: 0 <= i < |ps| ==> EntryFor(vs[i], ps[i])
    ensures ExtractEntries(vs) == Some(AsParsed(ps))
  {
    hide ExtractEntry, EntryFor, GoodSpec, ParsedOf, Truthy;
    if ps == [] {
      assert AsParsed(ps) == [];
    } else {
      assert ps[0] in ps;
      EntryIsRead(vs[0], ps[0]);
      ParsedName(ps[0]);
      EntriesAreRead(vs[1..], ps[1..]);
      ConsAll(ps);
    }
  }

  lemma ParsedName(p: Spec)
    ensures ParsedOf(p).name == Str(p.name)
  {
  }

  /** `merge_how` is taken out of the configuration, and names the mergers. */
  lemma HowIsRead(h: Host, cfg: Config, v: Value, ps: seq<Spec>)
    requires GoodSpecs(ps) && NamesMergers(v, ps)
    ensures DictExtract(h, cfg["merge_how" := v]) == (cfg - {"merge_how"}, Some(AsParsed(ps)))
  {
    hide StringExtract, ExtractEntries, EntryFor, GoodSpec;
    assert cfg["merge_how" := v] - {"merge_how"} == cfg - {"merge_how"};
    if v.Str? {
      StringFormRoundTrip(ps);
    } else {
      EntriesAreRead(v.xs, ps);
    }
  }

  /** So does `merge_type` when there is no `merge_how`, or a null one; both are taken out. */
  lemma TypeIsRead(h: Host, cfg: Config, v: Value, ps: seq<Spec>)
    requires GoodSpecs(ps) && NamesMergers(v, ps) && ("merge_how" in cfg ==> cfg["merge_how"].Null?)
    ensures DictExtract(h, cfg["merge_type" := v]) == (cfg - {"merge_how", "merge_type"}, Some(AsParsed(ps)))
  {
    hide StringExtract, ExtractEntries, EntryFor, GoodSpec;
    assert cfg["merge_type" := v] - {"merge_how"} - {"merge_type"} == cfg - {"merge_how", "merge_type"};
    if v.Str? {
      StringFormRoundTrip(ps);
    } else {
      EntriesAreRead(v.xs, ps);
    }
  }

  /** Names are taken from the configuration by the one key or the other. */
  ghost predicate NamedIn(cfg: Config, ps: seq<Spec>, rest: Config) {
    || ("merge_how" in cfg && NamesMergers(cfg["merge_how"], ps) && rest == cfg - {"merge_how"})
    || (("merge_how" in cfg ==> cfg["merge_how"].Null?) && "merge_type" in cfg && NamesMergers(cfg["merge_type"], ps)
        && rest == cfg - {"merge_how", "merge_type"})
  }

  lemma NamesAreRead(h: Host, cfg: Config, ps: seq<Spec>, rest: Config)
    requires GoodSpecs(ps) && NamedIn(cfg, ps, rest)
    ensures DictExtract(h, cfg) == (rest, Some(AsParsed(ps)))
  {
    hide DictExtract, NamesMergers, GoodSpec;
    if "merge_how" in cfg && NamesMergers(cfg["merge_how"], ps) && rest == cfg - {"merge_how"} {
      HowIsRead(h, cfg, cfg["merge_how"], ps);
      assert cfg["merge_how" := cfg["merge_how"]] == cfg;
    } else {
      TypeIsRead(h, cfg, cfg["merge_type"], ps);
      assert cfg["merge_type" := cfg["merge_type"]] == cfg;
    }
  }

  /** A configuration that names mergers is merged with exactly these, in the order named, and
      without the key that names them. `merge_how` wins over `merge_type`, which then stays. */
  lemma NamedMergersAreUsed(h: Host, acc: Value, cfg: Config, ps: seq<Spec>, rest: Config)
    requires ps != [] && GoodSpecs(ps) && NamedIn(cfg, ps, rest) && Construct(AsParsed(ps)).Some?
    ensures MergeMany.MergeOne(h, acc, cfg) == Merge(h, Construct(AsParsed(ps)).value, acc, Dict(rest))
  {
    hide DictExtract, NamesMergers, GoodSpec, Construct, Merge, StringExtract;
    NamesAreRead(h, cfg, ps, rest);
    assert |AsParsed(ps)| == |ps|;
  }

  // ---------------------------------------------------------------- cloud-config parts

  /** The header that counts: the one without the `X-`, unless it is empty. */
  predicate HeaderNames(p: Part, qs: seq<Spec>)
    requires p.CloudPart?
  {
    p.mergeType == StringForm(qs) || (p.mergeType == "" && p.xMergeType == StringForm(qs))
  }

  lemma FormIsEmpty(qs: seq<Spec>)
    requires GoodSpecs(qs)
    ensures StringForm(qs) == "" ==> qs == []
  {
    if qs != [] {
      assert qs[0] in qs && GoodSpec(qs[0]);
      assert PrintAll(qs)[0] == Print(qs[0]) && Print(qs[0]) != "";
    }
  }

  lemma HeaderIsRead(p: Part, qs: seq<Spec>)
    requires p.CloudPart? && GoodSpecs(qs) && HeaderNames(p, qs)
    requires qs == [] ==> p.xMergeType == ""
    ensures StringExtract(HeaderMergers(p)) == Some(AsParsed(qs))
  {
    hide StringExtract, GoodSpec, PrintAll, AsParsed, Strings.Join;
    FormIsEmpty(qs);
    StringFormRoundTrip(qs);
    if qs == [] {
      assert StringForm([]) == "" by { NothingNamed(); }
    }
  }

  lemma NothingNamed()
    ensures StringForm([]) == "" && AsParsed([]) == []
  {
    assert PrintAll([]) == [];
  }

  /** What a payload names: some mergers, or none at all. */
  ghost predicate PayloadNames(cfg: Config, ps: seq<Spec>, rest: Config) {
    if ps == [] then MergeMany.Plain(cfg) && rest == cfg else NamedIn(cfg, ps, rest)
  }

  lemma PayloadIsRead(h: Host, cfg: Config, ps: seq<Spec>, rest: Config)
    requires GoodSpecs(ps) && PayloadNames(cfg, ps, rest)
    ensures DictExtract(h, cfg) == (rest, Some(AsParsed(ps)))
  {
    hide GoodSpec, NamesMergers;
    if ps == [] {
      assert cfg - {"merge_how"} == cfg && cfg - {"merge_type"} == cfg;
      NothingNamed();
    } else {
      NamesAreRead(h, cfg, ps, rest);
    }
  }

  /** A part is merged with the mergers its payload names and after them those of its header,
      the `X-` one counting only if the other is empty; the names are not part of what is merged. */
  lemma PartMergersAreUsed(h: Host, buf: Value, p: Part, ps: seq<Spec>, qs: seq<Spec>, rest: Config)
    requires p.CloudPart? && p.yaml.Some? && GoodSpecs(ps) && GoodSpecs(qs) && ps + qs != []
    requires PayloadNames(p.yaml.value, ps, rest) && HeaderNames(p, qs) && (qs == [] ==> p.xMergeType == "")
    requires Construct(AsParsed(ps + qs)).Some?
    ensures MergePart(h, buf, p) == Merge(h, Construct(AsParsed(ps + qs)).value, buf, Dict(rest))
  {
    hide DictExtract, PayloadNames, HeaderNames, HeaderMergers, GoodSpec, Construct, Merge, StringExtract;
    PayloadIsRead(h, p.yaml.value, ps, rest);
    HeaderIsRead(p, qs);
    assert AsParsed(ps + qs) == AsParsed(ps) + AsParsed(qs);
    assert |AsParsed(ps + qs)| == |ps + qs|;
  }

  // ---------------------------------------------------------------- writing names otherwise

  /** Capitals and dashes may be used in the string form for small letters and underscores. */
  lemma WrittenOtherwise(piece: string, p: Spec)
    requires GoodSpec(p) && Strings.ReplaceChar(Strings.Lower(piece), '-', '_') == Print(p)
    ensures ExtractPiece(piece) == Good(ParsedOf(p))
  {
    hide GoodSpec, Print, ParsedOf, OptionsOf, MatchCall, Strings.Lower, Strings.ReplaceChar, Strings.Trimmed, Strings.Strip;
    var low := Strings.Lower(piece);
    SameEnds(low, Print(p), p);
    Strings.StripTrimmed(low);
    PieceReadsBack(p);
    PrintIsCanonical(p);
  }

  lemma SameEnds(low: string, s: string, p: Spec)
    requires GoodSpec(p) && s == Print(p) && Strings.ReplaceChar(low, '-', '_') == s
    ensures Strings.Trimmed(low)
  {
    hide GoodOption;
    assert s == p.name + "(" + Strings.Join(p.opts, ",") + ")";
    assert p.name[0] in p.name && s[0] == p.name[0] && s[|s| - 1] == ')';
    assert |low| == |s| && (low[0] == s[0] || low[0] == '-') && low[|s| - 1] == ')';
  }

  // ---------------------------------------------------------------- lists that are appended

  /** `dict(recurse_list)+list(append)` */
  const APPENDING: seq<Merger> := [DictMerger(false, false, true, false), ListMerger(Append, false, false, false)]

  const RECURSE_LIST := Spec("dict", ["recurse_list"])
  const LIST_APPEND := Spec("list", ["append"])

  lemma AppendingIsNamed()
    ensures GoodSpecs([RECURSE_LIST, LIST_APPEND])
    ensures StringForm([RECURSE_LIST, LIST_APPEND]) == "dict(recurse_list)+list(append)"
    ensures Construct(AsParsed([RECURSE_LIST, LIST_APPEND])) == Some(APPENDING)
  {
    hide ConstructOne, Construct, ParsedOf, AsParsed, GoodSpec;
    assert GoodSpec(RECURSE_LIST) && GoodSpec(LIST_APPEND) by { AppendingSpecs(); }
    AppendingText();
    AppendingOptions();
    DictOptions(["recurse_list"]);
    ListOptions(["append"]);
    var a, b := ParsedOf(RECURSE_LIST), ParsedOf(LIST_APPEND);
    ConsAll([RECURSE_LIST, LIST_APPEND]);
    ConsAll([LIST_APPEND]);
    assert [RECURSE_LIST, LIST_APPEND][1..] == [LIST_APPEND] && [LIST_APPEND][1..] == [];
    assert AsParsed([]) == [] by { NothingNamed(); }
    assert AsParsed([RECURSE_LIST, LIST_APPEND]) == [a] + ([b] + []);
    assert Construct([]) == Some([]) by { NothingToConstruct([]); }
    MergeMany.ConstructCons(b, []);
    MergeMany.ConstructCons(a, [b] + []);
    assert APPENDING == [APPENDING[0]] + ([APPENDING[1]] + []);
  }

  lemma AppendingSpecs()
    ensures GoodSpec(RECURSE_LIST) && GoodSpec(LIST_APPEND)
  {
    assert GoodOption("recurse_list") && GoodOption("append");
  }

  lemma AppendingText()
    ensures StringForm([RECURSE_LIST, LIST_APPEND]) == "dict(recurse_list)+list(append)"
  {
    var texts := PrintAll([RECURSE_LIST, LIST_APPEND]);
    assert Print(RECURSE_LIST) == "dict(recurse_list)" && Print(LIST_APPEND) == "list(append)";
    assert texts == ["dict(recurse_list)", "list(append)"] && texts[1..] == ["list(append)"];
    assert Strings.Join(["list(append)"], "+") == "list(append)";
  }

  lemma AppendingOptions()
    ensures forall o :: o in ["recurse_list"] <==> o == "recurse_list"
    ensures forall o :: o in ["append"] <==> o == "append"
    ensures "replace" != "recurse_list" && "recurse_str" != "recurse_list" && "allow_delete" != "recurse_list"
    ensures "recurse_str" != "append" && "recurse_dict" != "append" && "recurse_array" != "append" && "recurse_list" != "append"
  {
    assert "replace"[2] == 'p' && "recurse_list"[2] == 'c' && "allow_delete"[0] == 'a' && "append"[0] == 'a';
    assert "recurse_str"[8] == 's' && "recurse_list"[8] == 'l' && "recurse_str"[0] == 'r' && "recurse_dict"[0] == 'r'
      && "recurse_array"[0] == 'r' && "recurse_list"[0] == 'r';
  }

  lemma LookupAppending()
    ensures forall x :: Lookup(APPENDING, Dict(x)) == Some(DictMerger(false, false, true, false))
    ensures forall xs :: Lookup(APPENDING, List(xs)) == Some(ListMerger(Append, false, false, false))
    ensures forall v: Value :: !v.Dict? && !v.List? ==> Lookup(APPENDING, v) == None
  {
    var d, l := DictMerger(false, false, true, false), ListMerger(Append, false, false, false);
    assert APPENDING[1..] == [l] && [l][1..] == [];
    forall v: Value ensures Lookup([l], v) == if v.List? then Some(l) else None {}
  }

  lemma {:induction false} AppendingNeverRaises(h: Host, a: Value, b: Value)
    requires b.List? || b.Dict?
    ensures Merge(h, APPENDING, a, b).Some?
    decreases b
  {
    hide Merge, Lookup;
    LookupAppending();
    if a.Dict? {
      DictRaisesIff(h, APPENDING, DictMerger(false, false, true, false), a.d, b);
      if b.Dict? {
        forall k | k in a.d && k in b.d && RecursesKey(DictMerger(false, false, true, false), b.d[k])
          ensures Merge(h, APPENDING, a.d[k], b.d[k]).Some?
        {
          AppendingNeverRaises(h, a.d[k], b.d[k]);
        }
      }
    } else if a.List? {
      AppendKeepsOldFirst(h, APPENDING, ListMerger(Append, false, false, false), a.xs, b);
    } else {
      LookupNone(h, a, b);
    }
  }

  lemma LookupNone(h: Host, a: Value, b: Value)
    requires Lookup(APPENDING, a) == None
    ensures Merge(h, APPENDING, a, b) == Some(a)
  {
  }

  /** With these mergers, wherever below dicts of both sides there is a list on both, the merge has
      the old items followed by the new ones. */
  lemma {:induction false} ListsAreAppended(h: Host, x: Config, y: Config, path: seq<string>, xs: seq<Value>, ys: seq<Value>)
    requires path != [] && At(Dict(x), path) == Some(List(xs)) && At(Dict(y), path) == Some(List(ys))
    ensures Merge(h, APPENDING, Dict(x), Dict(y)).Some?
    ensures At(Merge(h, APPENDING, Dict(x), Dict(y)).value, path) == Some(List(xs + ys))
    decreases |path|
  {
    hide Merge, Lookup;
    var m, k := DictMerger(false, false, true, false), path[0];
    LookupAppending();
    AppendingNeverRaises(h, Dict(x), Dict(y));
    KeyAt(h, APPENDING, m, x, y, k);
    var r := Merge(h, APPENDING, Dict(x), Dict(y)).value;
    if |path| == 1 {
      AppendKeepsOldFirst(h, APPENDING, ListMerger(Append, false, false, false), xs, List(ys));
      assert At(r, path) == At(r.d[k], path[1..]);
      assert r.d[k].xs == r.d[k].xs[..|xs|] + r.d[k].xs[|xs|..];
    } else {
      ListsAreAppended(h, x[k].d, y[k].d, path[1..], xs, ys);
    }
  }

  // ---------------------------------------------------------------- what raises

  /** A name without its parentheses is not in the right format, wherever it comes. */
  lemma NoParenthesesRaise(pieces: seq<string>, i: nat)
    requires i < |pieces| && (forall p :: p in pieces ==> '+' !in p)
    requires Canonical(pieces[i]) != "" && '(' !in pieces[i]
    ensures StringExtract(Strings.Join(pieces, "+")) == None
  {
    hide ExtractPiece, Canonical;
    Strings.SplitJoined(pieces, '+');
    PieceIsBad(pieces[i]);
    BadPieceRaises(pieces, i);
  }

  lemma {:induction false} BadPieceRaises(pieces: seq<string>, i: nat)
    requires i < |pieces| && ExtractPiece(pieces[i]) == Bad
    ensures ExtractPieces(pieces) == None
  {
    hide ExtractPiece;
    if i > 0 {
      BadPieceRaises(pieces[1..], i - 1);
    }
  }

  lemma PieceIsBad(piece: string)
    requires Canonical(piece) != "" && '(' !in piece
    ensures ExtractPiece(piece) == Bad
  {
    hide Canonical, OptionsOf, NameEnd;
    CanonicalHasNone(piece);
    var name := Canonical(piece);
    forall i | 0 <= i < |name| ensures name[i] != '(' {
      assert name[i] in name;
    }
  }

  lemma CanonicalHasNone(piece: string)
    requires '(' !in piece
    ensures '(' !in Canonical(piece)
  {
    hide Strings.Strip;
    var low := Strings.Lower(piece);
    forall i | 0 <= i < |low| ensures low[i] != '(' {
      assert piece[i] in piece;
    }
    Strings.StripWithin(low);
    var s := Strings.Strip(low);
    forall i | 0 <= i < |s| ensures Canonical(piece)[i] != '(' {
      assert s[i] in s;
    }
  }

  /** A merger that is none of the built-in ones cannot be made here. */
  lemma UnknownNameRaises(p: Parsed)
    requires p.name.Str? && p.name.s !in {"dict", "list", "str", "m_dict", "m_list", "m_str"}
    ensures ConstructOne(p) == None
  {
    hide Has, HasOption, ListMethodOf;
    var s := p.name.s;
    if !Strings.StartsWith(s, "m_") {
      assert ("m_" + s)[2..] == s;
      assert "m_dict"[2..] == "dict" && "m_list"[2..] == "list" && "m_str"[2..] == "str";
    }
  }

  lemma {:induction false} EntriesOfBoth(a: seq<Value>, b: seq<Value>)
    ensures ExtractEntries(a + b)
            == if ExtractEntries(a).None? || ExtractEntries(b).None? then None
               else Some(ExtractEntries(a).value + ExtractEntries(b).value)
  {
    hide ExtractEntry, Truthy;
    if a == [] {
      assert a + b == b;
      assert ExtractEntries(b).Some? ==> [] + ExtractEntries(b).value == ExtractEntries(b).value;
    } else {
      assert (a + b)[1..] == a[1..] + b;
      EntriesOfBoth(a[1..], b);
      if ExtractEntries(a).Some? && ExtractEntries(b).Some? {
        var p := ExtractEntry(a[0]).value;
        var first, mid, last := if Truthy(p.name) then [p] else [], ExtractEntries(a[1..]).value, ExtractEntries(b).value;
        assert first + (mid + last) == first + mid + last;
      }
    }
  }

  lemma OneEntry(v: Value)
    ensures ExtractEntries([v]) ==
            match ExtractEntry(v)
            case None => None
            case Some(p) => Some(if Truthy(p.name) then [p] else [])
  {
    hide ExtractEntry, Truthy;
    assert [v][1..] == [] && ExtractEntries([]) == Some([]);
    if ExtractEntry(v).Some? {
      var p := ExtractEntry(v).value;
      assert (if Truthy(p.name) then [p] else []) + [] == if Truthy(p.name) then [p] else [];
    }
  }

  /** An entry of the list form whose name is empty is passed over. */
  lemma NamelessIsPassedOver(a: seq<Value>, settings: seq<Value>, b: seq<Value>)
    ensures ExtractEntries(a + [List([Str("")] + settings)] + b) == ExtractEntries(a + b)
  {
    hide ExtractEntries;
    var v := List([Str("")] + settings);
    assert a + [v] + b == a + ([v] + b);
    assert v.xs[0] == Str("");
    EntriesOfBoth(a, [v] + b);
    EntriesOfBoth([v], b);
    EntriesOfBoth(a, b);
    OneEntry(v);
    assert ExtractEntries(b).Some? ==> [] + ExtractEntries(b).value == ExtractEntries(b).value;
  }

  /** Names in the list form are entries, not text: of a text the first character is taken for the
      name, and there is no such merger. */
  lemma TextEntryRaises(h: Host, acc: Value, cfg: Config, a: seq<Value>, s: string, b: seq<Value>)
    requires "merge_how" in cfg && cfg["merge_how"] == List(a + [Str(s)] + b)
    ensures MergeMany.MergeOne(h, acc, cfg) == None
  {
    hide ExtractEntries, Construct, Merge, StringExtract, ConstructOne;
    var v := Str(s);
    assert a + [v] + b == a + ([v] + b);
    EntriesOfBoth(a, [v] + b);
    EntriesOfBoth([v], b);
    OneEntry(v);
    var named := ExtractEntries(a + [v] + b);
    if named.Some? {
      var p := ExtractEntry(v).value;
      OneCharacter(s);
      var i := |ExtractEntries(a).value|;
      assert named.value[i] == p;
      UnknownNameRaises(p);
      OneUnknownRaises(named.value, i);
    }
  }

  lemma OneCharacter(s: string)
    requires s != ""
    ensures |s[..1]| == 1 && Truthy(Str(s[..1])) && s[..1] !in {"dict", "list", "str", "m_dict", "m_list", "m_str"}
  {
    assert |"dict"| == 4 && |"list"| == 4 && |"str"| == 3 && |"m_dict"| == 6 && |"m_list"| == 6 && |"m_str"| == 5;
  }

  lemma {:induction false} OneUnknownRaises(ps: seq<Parsed>, i: nat)
    requires i < |ps| && ConstructOne(ps[i]) == None
    ensures Construct(ps) == None
  {
    hide ConstructOne;
    if i > 0 {
      OneUnknownRaises(ps[1..], i - 1);
    }
  }

  // ---------------------------------------------------------------- blanks, dashes, and other options

  predicate Blanks(s: string) {
    forall c :: c in s ==> Strings.IsSpace(c)
  }

  ghost predicate Padded(text: string, o: string) {
    exists l, r :: Blanks(l) && Blanks(r) && text == l + o + r
  }

  /** White space around an option of the string form does not count, and one that is nothing else
      is none. */
  lemma {:induction false} PaddedOptions(texts: seq<string>, opts: seq<string>)
    requires |texts| == |opts| && forall i :: 0 <= i < |opts| ==> GoodOption(opts[i]) && Padded(texts[i], opts[i])
    ensures CleanOptions(texts) == Strs(opts)
    ensures forall b :: Blanks(b) ==> CleanOptions([b] + texts) == Strs(opts)
  {
    hide Strings.Strip, Strings.Lower, GoodOption, Blanks;
    if opts != [] {
      PaddedOptions(texts[1..], opts[1..]);
      OptionIsCleaned(texts[0], opts[0]);
      assert Strs(opts) == [Str(opts[0])] + Strs(opts[1..]);
    }
    forall b | Blanks(b) ensures CleanOptions([b] + texts) == Strs(opts) {
      BlankIsNone(b);
      assert ([b] + texts)[1..] == texts;
      assert [] + Strs(opts) == Strs(opts);
    }
  }

  lemma OptionIsCleaned(text: string, o: string)
    requires GoodOption(o) && Padded(text, o)
    ensures Strings.Strip(text) == o && Strings.Lower(o) == o && o != ""
  {
    hide Strings.Strip, Blanks;
    var l, r :| Blanks(l) && Blanks(r) && text == l + o + r;
    PaddedStrips(l, o, r);
    LowerKeeps(o);
  }

  lemma PaddedStrips(l: string, o: string, r: string)
    requires Blanks(l) && Blanks(r) && Strings.Trimmed(o)
    ensures Strings.Strip(l + o + r) == o
  {
    hide Strings.Strip, Strings.IsSpace;
    Strings.StripPadded(l, o, r);
  }

  lemma BlankIsNone(b: string)
    requires Blanks(b)
    ensures Strings.Strip(b) == ""
  {
    hide Strings.Strip, Strings.IsSpace;
    assert b + "" + "" == b;
    Strings.StripPadded(b, "", "");
  }

  /** Options that are a text hold every option that occurs in it, and options that are a dict hold
      its keys; what cannot be searched raises. */
  lemma OtherOptions(v: Value)
    ensures ConstructOne(Parsed(Str("str"), v)) ==
            match v
            case Str(s) => Some(StrMerger(Strings.Contains(s, "append")))
            case Dict(d) => Some(StrMerger("append" in d))
            case List(xs) => Some(StrMerger(Str("append") in xs))
            case _ => None
  {
    hide Strings.StartsWith, Strings.Contains;
    MergeMany.FullNames();
  }
}
