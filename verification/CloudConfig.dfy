/** The handler that merges cloud-config parts into one configuration. */
module CloudConfig {
  import opened Options
  import opened Values
  import opened Mergers
  import opened MergerOptions
  import MergeMany
  import Strings

  /** What the handler is called with. `yaml` is the loaded payload, `None` when it
      is not a dict; `patch` applies a JSON patch, `None` when that raises. */
  datatype Event = Begin | End | Content(part: Part)

  datatype Part =
    | CloudPart(filename: string, yaml: Option<Config>, mergeType: string, xMergeType: string)
    | PatchPart(filename: string, patch: Value -> Option<Value>)

  datatype CloudFile = Empty | Contents(names: seq<string>, config: Value)

  function HeaderMergers(p: Part): string
    requires p.CloudPart?
  {
    if p.mergeType != "" then p.mergeType else p.xMergeType
  }

  /** The payload without its merge keys, and the mergers to apply: those of the
      payload, then those of the header, or the default when there are none. */
  function ExtractMergers(h: Host, p: Part): Option<(Config, seq<Merger>)>
    requires p.CloudPart?
  {
    if p.yaml.None? then None
    else
      var (rest, fromYaml) := DictExtract(h, p.yaml.value);
      var fromHeader := StringExtract(HeaderMergers(p));
      if fromYaml.None? || fromHeader.None? then None
      else
        var all := fromYaml.value + fromHeader.value;
        var parsed := if all == [] then StringExtract(MergeMany.CLOUD_MERGE_TYPE) else Some(all);
        if parsed.None? || Construct(parsed.value).None? then None
        else Some((rest, Construct(parsed.value).value))
  }

  /** The buffer after one part, `None` when the part fails to merge. */
  ghost function MergePart(h: Host, buf: Value, p: Part): Option<Value> {
    if p.PatchPart? then p.patch(buf)
    else
      match ExtractMergers(h, p)
      case None => None
      case Some((rest, ms)) => Merge(h, ms, buf, Dict(rest))
  }

  /** A null that a JSON patch leaves behind is no buffer at all. */
  function AsBuffer(v: Value): Option<Value> {
    if v.Null? then None else Some(v)
  }

  /** What the next part is merged into: a part always finds at least an empty dict. */
  function Base(buf: Option<Value>): Value {
    if buf.None? then Dict(map[]) else buf.value
  }

  function OnOneLine(filename: string): string {
    Strings.ReplaceChar(Strings.ReplaceChar(Strings.ReplaceChar(filename, '\n', ' '), '\r', ' '), '\t', ' ')
  }

  function StoredName(filename: string): string {
    Strings.Strip(OnOneLine(filename))
  }

  function ShownNames(names: seq<string>): seq<string> {
    seq(|names|, i requires 0 <= i < |names| => if names[i] == "" then "?" else names[i])
  }

  class Handler {
    const host: Host
    var cloudBuf: Option<Value>
    var fileNames: seq<string>
    var written: Option<CloudFile>

    constructor (host: Host)
      ensures this.host == host && cloudBuf == None && fileNames == [] && written == None
    {
      this.host := host;
      cloudBuf, fileNames, written := None, [], None;
    }

    ghost function State(): HandlerState
      reads this
    {
      HandlerState(cloudBuf, fileNames, written)
    }

    method HandlePart(e: Event)
      modifies this
      ensures State() == Step(host, old(State()), e)
    {
      if e.Begin? {
        Reset();
        return;
      }
      if e.End? {
        WriteCloudConfig();
        Reset();
        return;
      }
      if cloudBuf.None? || fileNames == [] {
        cloudBuf := Some(Dict(map[]));
      }
      var merged;
      if e.part.PatchPart? {
        merged := e.part.patch(cloudBuf.value);
      } else {
        merged := MergeYaml(e.part);
      }
      if merged.Some? {
        cloudBuf := AsBuffer(merged.value);
        fileNames := fileNames + [StoredName(e.part.filename)];
      }
    }

    method MergeYaml(p: Part) returns (r: Option<Value>)
      requires p.CloudPart? && cloudBuf.Some?
      ensures r == MergePart(host, cloudBuf.value, p)
    {
      hide StringExtract, Construct, Merge, DictExtract;
      if p.yaml.None? {
        return None;
      }
      var rest, all := DictExtractMergers(host, p.yaml.value);
      var fromHeader := StringExtractMergers(HeaderMergers(p));
      if all.None? || fromHeader.None? {
        return None;
      }
      var parsed := Some(all.value + fromHeader.value);
      if parsed.value == [] {
        parsed := StringExtractMergers(MergeMany.CLOUD_MERGE_TYPE);
      }
      if parsed.None? {
        return None;
      }
      var mergers := ConstructMergers(parsed.value);
      if mergers.None? {
        return None;
      }
      r := MergeValues(host, mergers.value, cloudBuf.value, Dict(rest));
    }

    method WriteCloudConfig()
      modifies this`written
      ensures written == Some(FileFor(cloudBuf, fileNames))
    {
      written := Some(if cloudBuf.None? then Empty else Contents(ShownNames(fileNames), cloudBuf.value));
    }

    method Reset()
      modifies this`cloudBuf, this`fileNames
      ensures cloudBuf == None && fileNames == []
    {
      fileNames := [];
      cloudBuf := None;
    }
  }

  // ---------------------------------------------------------------- specification

  datatype HandlerState = HandlerState(buf: Option<Value>, names: seq<string>, written: Option<CloudFile>)

  function FileFor(buf: Option<Value>, names: seq<string>): CloudFile {
    match buf
    case None => Empty
    case Some(v) => Contents(ShownNames(names), v)
  }

  ghost function Step(h: Host, s: HandlerState, e: Event): HandlerState {
    match e
    case Begin => HandlerState(None, [], s.written)
    case End => HandlerState(None, [], Some(FileFor(s.buf, s.names)))
    case Content(p) =>
      var base := if s.names == [] then Dict(map[]) else Base(s.buf);
      match MergePart(h, base, p)
      case None => s.(buf := Some(base))
      case Some(v) => s.(buf := AsBuffer(v), names := s.names + [StoredName(p.filename)])
  }

  ghost function Run(h: Host, s: HandlerState, es: seq<Event>): HandlerState {
    if es == [] then s else Step(h, Run(h, s, es[..|es| - 1]), es[|es| - 1])
  }

  /** What a list of parts amounts to: the buffer, and the parts that merged into it. */
  datatype Gathered = Gathered(config: Option<Value>, merged: seq<Part>)

  /** The left fold over the parts: one that merges gives the next buffer, and one that
      fails leaves what it would have been merged into. */
  ghost function Fold(h: Host, parts: seq<Part>): Gathered {
    if parts == [] then Gathered(None, [])
    else
      var g := Fold(h, parts[..|parts| - 1]);
      var last := parts[|parts| - 1];
      match MergePart(h, Base(g.config), last)
      case None => g.(config := Some(Base(g.config)))
      case Some(v) => Gathered(AsBuffer(v), g.merged + [last])
  }

  function NamesOf(parts: seq<Part>): (names: seq<string>)
    ensures |names| == |parts|
  {
    seq(|parts|, i requires 0 <= i < |parts| => StoredName(parts[i].filename))
  }

  function AsEvents(parts: seq<Part>): seq<Event> {
    seq(|parts|, i requires 0 <= i < |parts| => Content(parts[i]))
  }

  /** What has been gathered at any point of a cycle. */
  lemma {:induction false} RunFolds(h: Host, s: HandlerState, parts: seq<Part>)
    requires s.buf == None && s.names == []
    ensures var g := Fold(h, parts);
            && Run(h, s, AsEvents(parts)) == HandlerState(g.config, NamesOf(g.merged), s.written)
            && (g.merged == [] ==> Base(g.config) == Dict(map[]))
  {
    hide MergePart, StoredName, AsBuffer;
    if parts == [] {
      assert AsEvents(parts) == [] && NamesOf([]) == [];
    } else {
      var init, last := parts[..|parts| - 1], parts[|parts| - 1];
      assert AsEvents(parts) == AsEvents(init) + [Content(last)];
      assert AsEvents(parts)[..|init|] == AsEvents(init);
      RunFolds(h, s, init);
      var g := Fold(h, init);
      assert NamesOf(g.merged + [last]) == NamesOf(g.merged) + [StoredName(last.filename)];
    }
  }

  /** One cycle, from whatever state the handler is in: the file written at the
      end holds the fold over the parts, under the names of those that merged, in order.
      The handler is then as good as new. */
  lemma CycleWritesFold(h: Host, s: HandlerState, parts: seq<Part>)
    ensures var g := Fold(h, parts);
            Run(h, s, [Begin] + AsEvents(parts) + [End])
            == HandlerState(None, [], Some(FileFor(g.config, NamesOf(g.merged))))
  {
    hide MergePart, StoredName, FileFor;
    var es := [Begin] + AsEvents(parts) + [End];
    assert es[..|es| - 1] == [Begin] + AsEvents(parts) && es[|es| - 1] == End;
    RunAfterBegin(h, s, AsEvents(parts));
    RunFolds(h, s.(buf := None, names := []), parts);
  }

  lemma {:induction false} RunAfterBegin(h: Host, s: HandlerState, es: seq<Event>)
    ensures Run(h, s, [Begin] + es) == Run(h, s.(buf := None, names := []), es)
  {
    hide MergePart, StoredName, FileFor;
    var all := [Begin] + es;
    if es == [] {
      assert all[..0] == [] && all[0] == Begin;
    } else {
      assert all[..|all| - 1] == [Begin] + es[..|es| - 1];
      assert all[|all| - 1] == es[|es| - 1];
      RunAfterBegin(h, s, es[..|es| - 1]);
    }
  }

  /** Parts that fail to merge do not enter the fold: without them the same parts merge,
      to the same configuration. They show only where there is nothing else: a failing
      part on an empty buffer leaves an empty dict. */
  lemma {:induction false} FailedPartsDoNotMatter(h: Host, parts: seq<Part>)
    ensures var g := Fold(h, parts); var clean := Fold(h, g.merged);
            && clean.merged == g.merged && Base(clean.config) == Base(g.config)
            && (clean == g <==> clean.config.Some? || g.config.None?)
  {
    hide MergePart;
    if parts != [] {
      var init, last := parts[..|parts| - 1], parts[|parts| - 1];
      FailedPartsDoNotMatter(h, init);
      var g := Fold(h, init);
      assert (g.merged + [last])[..|g.merged|] == g.merged;
    }
  }

  /** No merger makes null of a value and a dict. */
  lemma MergeIsNeverNull(h: Host, ms: seq<Merger>, buf: Value, rest: Config)
    requires !buf.Null?
    ensures Merge(h, ms, buf, Dict(rest)) != Some(Null)
  {
    hide Overlay, SameKey, Items, Text;
    var m := Lookup(ms, buf);
    if m.Some? && m.value.ListMerger? {
      assert Merge(h, ms, buf, Dict(rest)) == OnList(h, ms, m.value, buf.xs, Dict(rest));
    } else if m.Some? && m.value.DictMerger? {
      assert Merge(h, ms, buf, Dict(rest)) == OnDict(h, ms, m.value, buf.d, Dict(rest));
    }
  }

  lemma {:induction false} BaseIsNeverNull(h: Host, parts: seq<Part>)
    ensures !Base(Fold(h, parts).config).Null?
  {
    hide MergePart;
    if parts != [] {
      BaseIsNeverNull(h, parts[..|parts| - 1]);
    }
  }

  lemma OnlyPatchesGiveNull(h: Host, buf: Value, p: Part)
    requires !buf.Null?
    ensures MergePart(h, buf, p) == Some(Null) <==> p.PatchPart? && p.patch(buf) == Some(Null)
  {
    hide ExtractMergers, Merge;
    if p.CloudPart? && ExtractMergers(h, p).Some? {
      MergeIsNeverNull(h, ExtractMergers(h, p).value.1, buf, ExtractMergers(h, p).value.0);
    }
  }

  /** The file comes out empty exactly when no part came, or the last one is a patch that
      gives null; the names of the parts are lost with it. */
  lemma EmptyFileIff(h: Host, s: HandlerState, parts: seq<Part>)
    ensures Run(h, s, [Begin] + AsEvents(parts) + [End]).written == Some(Empty) <==>
              || parts == []
              || var before, last := parts[..|parts| - 1], parts[|parts| - 1];
                 last.PatchPart? && last.patch(Base(Fold(h, before).config)) == Some(Null)
  {
    hide Run, MergePart;
    CycleWritesFold(h, s, parts);
    if parts != [] {
      var before, last := parts[..|parts| - 1], parts[|parts| - 1];
      BaseIsNeverNull(h, before);
      OnlyPatchesGiveNull(h, Base(Fold(h, before).config), last);
    }
  }

  /** A part that fails, alone, leaves an empty dict where no part leaves nothing. */
  lemma FailingAloneShows(h: Host, p: Part)
    requires MergePart(h, Dict(map[]), p) == None
    ensures Fold(h, [p]) == Gathered(Some(Dict(map[])), []) && Fold(h, Fold(h, [p]).merged) == Gathered(None, [])
  {
    hide MergePart;
    assert [p][..0] == [] && Fold(h, []) == Gathered(None, []);
  }

  // ---------------------------------------------------------------- parts that name no mergers

  /** A cloud-config part that loads and says nothing about merging. */
  ghost predicate Ordinary(p: Part) {
    && p.CloudPart? && p.yaml.Some? && MergeMany.Plain(p.yaml.value)
    && p.mergeType == "" && p.xMergeType == ""
  }

  lemma EmptyStringNamesNothing()
    ensures StringExtract("") == Some([])
  {
    assert PrintAll([]) == [] && AsParsed([]) == [];
    StringFormRoundTrip([]);
  }

  lemma OrdinaryMergers(h: Host, p: Part)
    requires Ordinary(p)
    ensures ExtractMergers(h, p) == Some((p.yaml.value, CLOUD_MERGERS))
  {
    hide StringExtract, Construct;
    var y := p.yaml.value;
    assert y - {"merge_how"} == y && y - {"merge_type"} == y;
    EmptyStringNamesNothing();
    MergeMany.CloudMergeType();
  }

  lemma CloudMergeReplaces(h: Host, x: Config, y: Config)
    ensures Merge(h, CLOUD_MERGERS, Dict(x), Dict(y)) == Some(Dict(x + y))
  {
    var m := DictMerger(true, false, false, false);
    assert CLOUD_MERGERS[0] == m;
    assert Merge(h, CLOUD_MERGERS, Dict(x), Dict(y)) == OnDict(h, CLOUD_MERGERS, m, x, Dict(y));
    assert OnDict(h, CLOUD_MERGERS, m, x, Dict(y)).value.d == x + y;
  }

  lemma OrdinaryReplaces(h: Host, x: Config, p: Part)
    requires Ordinary(p)
    ensures MergePart(h, Dict(x), p) == Some(Dict(x + p.yaml.value))
  {
    hide ExtractMergers, Merge;
    OrdinaryMergers(h, p);
    CloudMergeReplaces(h, x, p.yaml.value);
  }

  /** The value of a key in the last part that sets it; `None` when none does. */
  ghost function LastWith(parts: seq<Part>, k: string): Option<Value> {
    if parts == [] then None
    else
      var last := parts[|parts| - 1];
      if last.CloudPart? && last.yaml.Some? && k in last.yaml.value then Some(last.yaml.value[k])
      else LastWith(parts[..|parts| - 1], k)
  }

  /** What the parts come to, as a plain map: later parts override earlier ones. */
  ghost function Overridden(parts: seq<Part>): Config
    requires forall p :: p in parts ==> Ordinary(p)
  {
    if parts == [] then map[]
    else
      assert Ordinary(parts[|parts| - 1]);
      Overridden(parts[..|parts| - 1]) + parts[|parts| - 1].yaml.value
  }

  lemma {:induction false} OrdinaryFold(h: Host, parts: seq<Part>)
    requires forall p :: p in parts ==> Ordinary(p)
    ensures Fold(h, parts) == Gathered(if parts == [] then None else Some(Dict(Overridden(parts))), parts)
  {
    hide MergePart, Ordinary;
    if parts != [] {
      var init, last := parts[..|parts| - 1], parts[|parts| - 1];
      OrdinaryFold(h, init);
      OrdinaryReplaces(h, Overridden(init), last);
      assert init + [last] == parts;
      OverriddenStep(parts);
    }
  }

  lemma OverriddenStep(parts: seq<Part>)
    requires parts != [] && forall p :: p in parts ==> Ordinary(p)
    ensures var last := parts[|parts| - 1];
            last.CloudPart? && last.yaml.Some? && Overridden(parts) == Overridden(parts[..|parts| - 1]) + last.yaml.value
  {
    assert Ordinary(parts[|parts| - 1]);
  }

  lemma {:induction false} OverriddenByLast(parts: seq<Part>, k: string)
    requires forall p :: p in parts ==> Ordinary(p)
    ensures LastWith(parts, k) == if k in Overridden(parts) then Some(Overridden(parts)[k]) else None
  {
    if parts != [] {
      OverriddenByLast(parts[..|parts| - 1], k);
      assert Ordinary(parts[|parts| - 1]);
    }
  }

  /** Parts that name no mergers all merge, and each top-level key has the value
      of the last part that sets it. */
  lemma LastPartWins(h: Host, parts: seq<Part>, k: string)
    requires forall p :: p in parts ==> Ordinary(p)
    ensures Fold(h, parts).merged == parts && Base(Fold(h, parts).config).Dict?
    ensures var config := Base(Fold(h, parts).config).d;
            LastWith(parts, k) == if k in config then Some(config[k]) else None
  {
    OrdinaryFold(h, parts);
    OverriddenByLast(parts, k);
  }

  // ---------------------------------------------------------------- the names in the file

  predicate Breaks(c: char) {
    c == '\n' || c == '\r' || c == '\t'
  }

  lemma OnOneLineIs(filename: string)
    ensures |OnOneLine(filename)| == |filename|
    ensures forall i :: 0 <= i < |filename| ==> OnOneLine(filename)[i] == if Breaks(filename[i]) then ' ' else filename[i]
  {
  }

  /** A name is stored on one line and without outer white space. */
  lemma StoredNameIsClean(filename: string)
    ensures var s := StoredName(filename); Strings.Trimmed(s) && forall c :: c in s ==> !Breaks(c)
  {
    hide OnOneLine, Strings.Strip, Strings.Trimmed;
    OnOneLineIs(filename);
    Strings.StripWithin(OnOneLine(filename));
    forall c | c in OnOneLine(filename) ensures !Breaks(c) {
      var i :| 0 <= i < |filename| && OnOneLine(filename)[i] == c;
    }
  }

  /** A name without outer white space is stored as it is, but for breaks and tabs inside, which
      become blanks. */
  lemma StoredNameKeeps(filename: string)
    requires Strings.Trimmed(filename)
    ensures |StoredName(filename)| == |filename|
    ensures forall i :: 0 <= i < |filename| ==> StoredName(filename)[i] == if Breaks(filename[i]) then ' ' else filename[i]
  {
    hide OnOneLine, Strings.Strip;
    OnOneLineIs(filename);
    BreaksAreSpace();
    if filename != "" {
      assert OnOneLine(filename)[0] == filename[0];
      assert OnOneLine(filename)[|filename| - 1] == filename[|filename| - 1];
    }
    Strings.StripTrimmed(OnOneLine(filename));
  }

  lemma BreaksAreSpace()
    ensures forall c :: Breaks(c) ==> Strings.IsSpace(c)
  {
  }

  /** The file names the parts that merged, in order, and a part without a name as `?`. */
  lemma WrittenNames(h: Host, s: HandlerState, parts: seq<Part>)
    ensures var file, merged := Run(h, s, [Begin] + AsEvents(parts) + [End]).written, Fold(h, parts).merged;
            && file.Some?
            && (file.value.Contents? ==>
                  && |file.value.names| == |merged|
                  && forall i :: 0 <= i < |merged| ==>
                       var name := StoredName(merged[i].filename); file.value.names[i] == if name == "" then "?" else name)
  {
    hide MergePart, StoredName, Run, Fold;
    CycleWritesFold(h, s, parts);
  }
}
