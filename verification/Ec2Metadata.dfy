/** Crawling a metadata service into a nested dictionary. */
module Ec2Metadata {
  import opened Options
  import opened Strings
  import Decimal

  /** What the service holds, in the order in which it lists it. An ssh key is listed as
      `<number>=<name>`. */
  datatype Tree = Tree(entries: seq<Entry>)
  datatype Entry =
    | Leaf(name: string, blob: string)
    | Key(id: nat, name: string, blob: string)
    | Dir(name: string, sub: Tree)

  /** What the crawl makes of it. */
  datatype Meta<D> = Value(value: D) | Dict(d: map<string, Meta<D>>)

  /** How leaves are decoded, what `int()` makes of a text (printed again), and how a name
      is added to a URL. */
  datatype Codec<!D> = Codec(decode: (string, string) -> D, toInt: string -> Option<string>, combine: (string, string) -> string)

  const CREDENTIALS := "security-credentials"

  function ChildUrl<D>(c: Codec<D>, base: string, name: string): string {
    var url := c.combine(base, name);
    if EndsWith(url, "/") then url else url + "/"
  }

  // ---------------------------------------------------------------- parsing a listing

  /** The leaves with the resource to fetch for each, in listing order, and the
      children. */
  datatype Listing = Listing(leaves: seq<(string, string)>, children: seq<string>)

  function RStripSlash(s: string): (r: string)
    ensures |r| <= |s| && r == s[..|r|]
  {
    if EndsWith(s, "/") then RStripSlash(s[..|s| - 1]) else s
  }

  function FieldName(field: string): string {
    if EndsWith(field, "/") then RStripSlash(field) else field
  }

  /** Assigning a dictionary key: a key keeps the place it had first. */
  function Assign(leaves: seq<(string, string)>, name: string, resource: string): seq<(string, string)> {
    if leaves == [] then [(name, resource)]
    else if leaves[0].0 == name then [(name, resource)] + leaves[1..]
    else [leaves[0]] + Assign(leaves[1..], name, resource)
  }

  /** The name and resource of a leaf: `3=name` stands for an ssh key. */
  function LeafOf<D>(c: Codec<D>, field: string): (string, string) {
    var eq := Find(field, '=');
    if eq == |field| then (field, field)
    else
      match c.toInt(field[..eq])
      case None => (field, field)
      case Some(n) => (field[eq + 1..], n + "/openssh-key")
  }

  function AddField<D>(c: Codec<D>, l: Listing, field: string): Listing {
    var name := FieldName(field);
    if field == "" || name == "" || name == CREDENTIALS then l
    else if EndsWith(field, "/") then (if name in l.children then l else l.(children := l.children + [name]))
    else l.(leaves := Assign(l.leaves, LeafOf(c, field).0, LeafOf(c, field).1))
  }

  function ParseLines<D>(c: Codec<D>, lines: seq<string>): Listing {
    if lines == [] then Listing([], [])
    else AddField(c, ParseLines(c, lines[..|lines| - 1]), Strip(lines[|lines| - 1]))
  }

  lemma ParseLinesStep<D>(c: Codec<D>, lines: seq<string>, i: nat)
    requires i < |lines|
    ensures ParseLines(c, lines[..i + 1]) == AddField(c, ParseLines(c, lines[..i]), Strip(lines[i]))
  {
    hide AddField;
    assert lines[..i + 1][..i] == lines[..i];
  }

  method ParseListing<D>(c: Codec<D>, blob: string) returns (l: Listing)
    ensures l == ParseLines(c, SplitLines(blob))
  {
    hide ParseLines, SplitLines, Strip, RStripSlash, Assign, Find;
    var leaves: seq<(string, string)>, children: seq<string> := [], [];
    var lines := SplitLines(blob);
    assert ParseLines(c, lines[..0]) == Listing([], []) by { ParseNone(c, lines); }
    for i := 0 to |lines|
      invariant Listing(leaves, children) == ParseLines(c, lines[..i])
    {
      ParseLinesStep(c, lines, i);
      var field := Strip(lines[i]);
      var name := FieldName(field);
      if field == "" || name == "" || name == CREDENTIALS {
        continue;
      }
      if EndsWith(field, "/") {
        if name !in children {
          children := children + [name];
        }
      } else {
        var resource := name;
        var eq := Find(field, '=');
        if eq < |field| {
          var ident := c.toInt(field[..eq]);
          if ident.Some? {
            resource := ident.value + "/openssh-key";
            name := field[eq + 1..];
          }
        }
        leaves := Assign(leaves, name, resource);
      }
    }
    assert lines[..|lines|] == lines;
    l := Listing(leaves, children);
  }

  lemma ParseNone<D>(c: Codec<D>, lines: seq<string>)
    ensures ParseLines(c, lines[..0]) == Listing([], [])
  {
  }

  // ---------------------------------------------------------------- trees that can be listed

  predicate GoodName(name: string) {
    name != "" && Trimmed(name) && NoBreak(name) && '/' !in name && '=' !in name
  }

  /** The name of a key is the rest of its line. */
  predicate GoodKey(name: string) {
    && NoBreak(name) && !EndsWith(name, "/")
    && (name == "" || !IsSpace(name[|name| - 1]))
  }

  predicate GoodEntry(e: Entry) {
    if e.Key? then GoodKey(e.name) else GoodName(e.name)
  }

  /** Names are distinct among the directories, and among the leaves and keys. */
  predicate Distinct(es: seq<Entry>) {
    forall i, j :: 0 <= i < j < |es| && es[i].Dir? == es[j].Dir? ==> es[i].name != es[j].name
  }

  predicate GoodTree(t: Tree) {
    && Distinct(t.entries)
    && forall e :: e in t.entries ==> GoodEntry(e) && (e.Dir? ==> GoodTree(e.sub))
  }

  /** `int()` reads the numbers keys are listed with. */
  ghost predicate ReadsNumbers<D>(c: Codec<D>) {
    forall n: nat :: c.toInt(Decimal.Print(n)) == Some(Decimal.Print(n))
  }

  function FieldOf(e: Entry): string {
    match e
    case Leaf(name, _) => name
    case Key(id, name, _) => Decimal.Print(id) + "=" + name
    case Dir(name, _) => name + "/"
  }

  function Fields(es: seq<Entry>): seq<string> {
    seq(|es|, i requires 0 <= i < |es| => FieldOf(es[i]))
  }

  /** The lines of a text without outer blanks and without the blank ones. */
  function CleanLines(lines: seq<string>): seq<string> {
    if lines == [] then []
    else
      var rest, field := CleanLines(lines[..|lines| - 1]), Strip(lines[|lines| - 1]);
      if field == "" then rest else rest + [field]
  }

  /** A text that lists the tree: its non-blank lines are the entries, in order. */
  predicate Lists(blob: string, t: Tree) {
    CleanLines(SplitLines(blob)) == Fields(t.entries)
  }

  /** Credentials are not materialized. */
  predicate Hidden(e: Entry) {
    !e.Key? && e.name == CREDENTIALS
  }

  function Resource(e: Entry): string {
    if e.Key? then Decimal.Print(e.id) + "/openssh-key" else e.name
  }

  /** The entries that are fetched as leaves, and those that are fetched as directories. */
  function Leaves(es: seq<Entry>): (r: seq<Entry>)
    ensures forall e :: e in r <==> e in es && !e.Dir? && !Hidden(e)
  {
    if es == [] then []
    else
      var last := es[|es| - 1];
      assert es == es[..|es| - 1] + [last];
      Leaves(es[..|es| - 1]) + if last.Dir? || Hidden(last) then [] else [last]
  }

  function Dirs(es: seq<Entry>): (r: seq<Entry>)
    ensures forall e :: e in r <==> e in es && e.Dir? && !Hidden(e)
  {
    if es == [] then []
    else
      var last := es[|es| - 1];
      assert es == es[..|es| - 1] + [last];
      Dirs(es[..|es| - 1]) + if last.Dir? && !Hidden(last) then [last] else []
  }

  function Names(es: seq<Entry>): seq<string> {
    seq(|es|, i requires 0 <= i < |es| => es[i].name)
  }

  function Resources(es: seq<Entry>): seq<(string, string)> {
    seq(|es|, i requires 0 <= i < |es| => (es[i].name, Resource(es[i])))
  }

  /** What parsing the listing of some entries gives. */
  function ListingOf(es: seq<Entry>): Listing {
    Listing(Resources(Leaves(es)), Names(Dirs(es)))
  }

  // ---------------------------------------------------------------- parsing lists the tree

  lemma {:induction false} AssignNew(leaves: seq<(string, string)>, name: string, resource: string)
    requires forall l :: l in leaves ==> l.0 != name
    ensures Assign(leaves, name, resource) == leaves + [(name, resource)]
  {
    if leaves != [] {
      assert leaves[0] in leaves;
      assert forall l :: l in leaves[1..] ==> l in leaves;
      AssignNew(leaves[1..], name, resource);
    }
  }

  lemma NoSlash(name: string)
    requires '/' !in name
    ensures !EndsWith(name, "/") && RStripSlash(name) == name
  {
    if name != "" {
      assert name[|name| - 1] in name;
    }
  }

  lemma AddLeaf<D>(c: Codec<D>, l: Listing, e: Entry)
    requires e.Leaf? && GoodEntry(e) && !Hidden(e)
    requires forall x :: x in l.leaves ==> x.0 != e.name
    ensures AddField(c, l, FieldOf(e)) == l.(leaves := l.leaves + [(e.name, e.name)])
  {
    NoSlash(e.name);
    AssignNew(l.leaves, e.name, e.name);
  }

  lemma AddKey<D>(c: Codec<D>, l: Listing, e: Entry)
    requires e.Key? && GoodEntry(e) && ReadsNumbers(c)
    requires forall x :: x in l.leaves ==> x.0 != e.name
    ensures AddField(c, l, FieldOf(e)) == l.(leaves := l.leaves + [(e.name, Resource(e))])
  {
    hide RStripSlash, Find, Assign, Decimal.Print, Decimal.IsDigit;
    var id := Decimal.Print(e.id);
    var field := id + "=" + e.name;
    assert '=' !in id by { KeyNumber(e.id); }
    FindFirst(id, '=', e.name);
    assert field[..|id|] == id && field[|id| + 1..] == e.name;
    assert '=' in field && '=' !in CREDENTIALS;
    assert !EndsWith(field, "/");
    AssignNew(l.leaves, e.name, Resource(e));
  }

  lemma KeyNumber(n: nat)
    ensures '=' !in Decimal.Print(n)
  {
  }

  lemma AddDir<D>(c: Codec<D>, l: Listing, e: Entry)
    requires e.Dir? && GoodEntry(e) && !Hidden(e)
    requires e.name !in l.children
    ensures AddField(c, l, FieldOf(e)) == l.(children := l.children + [e.name])
  {
    NoSlash(e.name);
    assert (e.name + "/")[..|e.name|] == e.name;
  }

  lemma AddHidden<D>(c: Codec<D>, l: Listing, e: Entry)
    requires Hidden(e)
    ensures AddField(c, l, FieldOf(e)) == l
  {
    hide RStripSlash, Assign, LeafOf, EndsWith;
    CredentialsEnd();
  }

  lemma CredentialsEnd()
    ensures !EndsWith(CREDENTIALS, "/") && EndsWith(CREDENTIALS + "/", "/")
    ensures RStripSlash(CREDENTIALS + "/") == CREDENTIALS
  {
    var n := |CREDENTIALS|;
    assert CREDENTIALS[n - 1] == 's' && CREDENTIALS[n - 1..][0] == 's';
    assert (CREDENTIALS + "/")[n..] == "/" && (CREDENTIALS + "/")[..n] == CREDENTIALS;
  }

  lemma ListingStep(es: seq<Entry>)
    requires es != []
    ensures var e, l := es[|es| - 1], ListingOf(es[..|es| - 1]);
            ListingOf(es) ==
            if Hidden(e) then l
            else if e.Dir? then l.(children := l.children + [e.name])
            else l.(leaves := l.leaves + [(e.name, Resource(e))])
  {
    hide Resource, Hidden;
  }

  lemma NewAmongLeaves(es: seq<Entry>, x: (string, string))
    requires es != [] && Distinct(es) && !es[|es| - 1].Dir?
    requires x in ListingOf(es[..|es| - 1]).leaves
    ensures x.0 != es[|es| - 1].name
  {
    hide Resource, Hidden;
    var before := Leaves(es[..|es| - 1]);
    var k :| 0 <= k < |before| && Resources(before)[k] == x;
    assert before[k] in before;
    var j :| 0 <= j < |es| - 1 && es[j] == before[k];
  }

  lemma NewAmongDirs(es: seq<Entry>)
    requires es != [] && Distinct(es) && es[|es| - 1].Dir?
    ensures es[|es| - 1].name !in ListingOf(es[..|es| - 1]).children
  {
    hide Resource, Hidden;
    var before := Dirs(es[..|es| - 1]);
    forall e | e in before ensures e.name != es[|es| - 1].name {
      var j :| 0 <= j < |es| - 1 && es[j] == e;
    }
  }

  lemma LeafResource(e: Entry)
    requires e.Leaf?
    ensures Resource(e) == e.name
  {
  }

  lemma AddEntry<D>(c: Codec<D>, es: seq<Entry>)
    requires es != [] && Distinct(es) && GoodEntry(es[|es| - 1]) && ReadsNumbers(c)
    ensures AddField(c, ListingOf(es[..|es| - 1]), FieldOf(es[|es| - 1])) == ListingOf(es)
  {
    hide AddField, FieldOf, GoodEntry, Distinct, Resource, ReadsNumbers, ListingOf, Leaves, Dirs;
    var e, l := es[|es| - 1], ListingOf(es[..|es| - 1]);
    ListingStep(es);
    if Hidden(e) {
      AddHidden(c, l, e);
    } else if e.Dir? {
      NewAmongDirs(es);
      AddDir(c, l, e);
    } else {
      forall x | x in l.leaves ensures x.0 != e.name {
        NewAmongLeaves(es, x);
      }
      if e.Key? {
        AddKey(c, l, e);
      } else {
        AddLeaf(c, l, e);
        LeafResource(e);
      }
    }
  }

  /** Parsing the listing of a tree finds its leaves and directories, in order. */
  lemma {:induction false} ParseLists<D>(c: Codec<D>, lines: seq<string>, es: seq<Entry>)
    requires CleanLines(lines) == Fields(es)
    requires Distinct(es) && ReadsNumbers(c) && forall e :: e in es ==> GoodEntry(e)
    ensures ParseLines(c, lines) == ListingOf(es)
    decreases |lines|
  {
    hide AddField, FieldOf, GoodEntry, Strip, ReadsNumbers, Resource, Hidden;
    if lines == [] {
      assert es == [];
    } else {
      var n := |lines| - 1;
      var field := Strip(lines[n]);
      if field == "" {
        ParseLists(c, lines[..n], es);
        assert AddField(c, ListingOf(es), "") == ListingOf(es) by { AddBlank(c, ListingOf(es)); }
      } else {
        var m := |es| - 1;
        assert |Fields(es)| == |es| && Fields(es)[m] == field;
        assert CleanLines(lines[..n]) == Fields(es)[..m] == Fields(es[..m]);
        ParseLists(c, lines[..n], es[..m]);
        AddEntry(c, es);
      }
    }
  }

  lemma AddBlank<D>(c: Codec<D>, l: Listing)
    ensures AddField(c, l, "") == l
  {
  }

  predicate Clean(field: string) {
    Trimmed(field) && field != "" && NoBreak(field)
  }

  /** Every good tree has a listing: its fields, one on a line. */
  lemma ListingExists(t: Tree)
    requires GoodTree(t)
    ensures Lists(Unlines(Fields(t.entries)), t)
  {
    hide Clean, SplitLines, Unlines, FieldOf;
    var fields := Fields(t.entries);
    forall k | 0 <= k < |fields| ensures Clean(fields[k]) && NoBreak(fields[k]) {
      EntryOfTree(t, t.entries[k]);
      FieldIsClean(t.entries[k]);
      CleanHasNoBreak(fields[k]);
    }
    SplitUnlines(fields);
    CleanAlready(fields);
  }

  lemma CleanHasNoBreak(f: string)
    requires Clean(f)
    ensures NoBreak(f)
  {
  }

  lemma EntryOfTree(t: Tree, e: Entry)
    requires GoodTree(t) && e in t.entries
    ensures GoodEntry(e)
  {
  }

  lemma FieldIsClean(e: Entry)
    requires GoodEntry(e)
    ensures Clean(FieldOf(e))
  {
    hide Decimal.Print;
    if e.Key? {
      assert Decimal.Print(e.id)[0] in Decimal.Print(e.id);
    }
  }

  lemma StripClean(f: string)
    requires Clean(f)
    ensures Strip(f) == f && f != ""
  {
    StripTrimmed(f);
  }

  lemma {:induction false} CleanAlready(fields: seq<string>)
    requires forall k :: 0 <= k < |fields| ==> Clean(fields[k])
    ensures CleanLines(fields) == fields
  {
    hide Strip, Clean;
    if fields != [] {
      var n := |fields| - 1;
      StripClean(fields[n]);
      CleanAlready(fields[..n]);
    }
  }

  // ---------------------------------------------------------------- the crawl

  /** The service answers every URL the crawl asks for: with the blob of the leaf, or
      with a listing of the directory. */
  predicate Serves<D>(c: Codec<D>, caller: string -> string, t: Tree, base: string) {
    && (forall e :: e in Leaves(t.entries) ==> caller(c.combine(base, Resource(e))) == e.blob)
    && (forall e :: e in Dirs(t.entries) ==>
          Lists(caller(ChildUrl(c, base, e.name)), e.sub) && Serves(c, caller, e.sub, ChildUrl(c, base, e.name)))
  }

  // ---------------------------------------------------------------- a service that answers

  /** Below a URL that ends in a slash, names are added as they are. */
  ghost predicate Appends<D>(c: Codec<D>) {
    forall base, name :: EndsWith(base, "/") ==> c.combine(base, name) == base + name
  }

  /** Keys have numbers of their own, which no directory beside them has as its name. */
  predicate Apart(t: Tree) {
    && (forall i, j :: 0 <= i < j < |t.entries| && t.entries[i].Key? && t.entries[j].Key? ==> t.entries[i].id != t.entries[j].id)
    && (forall e, d :: e in t.entries && e.Key? && d in t.entries && d.Dir? ==> d.name != Decimal.Print(e.id))
    && (forall e :: e in t.entries && e.Dir? ==> Apart(e.sub))
  }

  function LeafAt(es: seq<Entry>, path: string): (r: Option<Entry>)
    ensures r.Some? ==> r.value in es && !r.value.Dir? && Resource(r.value) == path
    ensures r.None? ==> forall e :: e in es && !e.Dir? ==> Resource(e) != path
  {
    if es == [] then None
    else if !es[0].Dir? && Resource(es[0]) == path then Some(es[0])
    else
      assert es == [es[0]] + es[1..];
      LeafAt(es[1..], path)
  }

  function DirAt(es: seq<Entry>, name: string): (r: Option<Entry>)
    ensures r.Some? ==> r.value in es && r.value.Dir? && r.value.name == name
    ensures r.None? ==> forall e :: e in es && e.Dir? ==> e.name != name
  {
    if es == [] then None
    else if es[0].Dir? && es[0].name == name then Some(es[0])
    else
      assert es == [es[0]] + es[1..];
      DirAt(es[1..], name)
  }

  /** What a tree has under a path: the blob of a leaf or key, or the listing of a directory. */
  function Lookup(t: Tree, path: string): string
    decreases t
  {
    match LeafAt(t.entries, path)
    case Some(e) => e.blob
    case None =>
      var n := Find(path, '/');
      match DirAt(t.entries, path[..n])
      case None => ""
      case Some(d) =>
        assert d in t.entries;
        if |path| <= n + 1 then Unlines(Fields(d.sub.entries)) else Lookup(d.sub, path[n + 1..])
  }

  /** The service that holds a tree below a URL. */
  function ServiceOf(t: Tree, base: string): string -> string {
    url =>
      if url == base then Unlines(Fields(t.entries))
      else if StartsWith(url, base) then Lookup(t, url[|base|..])
      else ""
  }

  lemma LeafIsThere(t: Tree, e: Entry)
    requires GoodTree(t) && Apart(t) && e in t.entries && !e.Dir?
    ensures LeafAt(t.entries, Resource(e)) == Some(e)
  {
    hide Decimal.Print, LeafAt, Resource, GoodEntry;
    var r := LeafAt(t.entries, Resource(e)).value;
    EntryOfTree(t, e);
    EntryOfTree(t, r);
    var i :| 0 <= i < |t.entries| && t.entries[i] == e;
    var j :| 0 <= j < |t.entries| && t.entries[j] == r;
    SlashInKey(e);
    SlashInKey(r);
    if e.Key? && r.Key? {
      SameKeyResource(e, r);
    } else if e.Leaf? && r.Leaf? {
      LeafResource(e);
      LeafResource(r);
    }
  }

  lemma SlashInKey(e: Entry)
    requires !e.Dir? && GoodEntry(e)
    ensures '/' in Resource(e) <==> e.Key?
  {
    hide Decimal.Print;
    if e.Key? {
      assert Resource(e)[|Decimal.Print(e.id)|] == '/';
    }
  }

  lemma SameKeyResource(e: Entry, d: Entry)
    requires e.Key? && d.Key? && Resource(e) == Resource(d)
    ensures e.id == d.id
  {
    hide Decimal.Print;
    var a, b := Decimal.Print(e.id), Decimal.Print(d.id);
    assert |a| == |b|;
    assert a == Resource(e)[..|a|] && b == Resource(d)[..|b|];
    Decimal.PrintInjective(e.id, d.id);
  }

  lemma DirIsThere(t: Tree, d: Entry)
    requires GoodTree(t) && d in t.entries && d.Dir?
    ensures DirAt(t.entries, d.name) == Some(d)
  {
    var r := DirAt(t.entries, d.name).value;
    var i :| 0 <= i < |t.entries| && t.entries[i] == d;
    var j :| 0 <= j < |t.entries| && t.entries[j] == r;
  }

  /** Nothing but a directory is found under a path that starts with its name. */
  lemma LookupBelow(t: Tree, d: Entry, p: string)
    requires GoodTree(t) && Apart(t) && d in t.entries && d.Dir?
    ensures Lookup(t, d.name + "/" + p) == if p == "" then Unlines(Fields(d.sub.entries)) else Lookup(d.sub, p)
  {
    hide Unlines, Fields, Decimal.Print, LeafAt, DirAt;
    var path := d.name + "/" + p;
    EntryOfTree(t, d);
    FindFirst(d.name, '/', p);
    forall e | e in t.entries && !e.Dir? ensures Resource(e) != path {
      NoLeafBelow(t, d, e, p);
    }
    assert LeafAt(t.entries, path) == None;
    DirIsThere(t, d);
    assert path[..|d.name|] == d.name && path[|d.name| + 1..] == p;
  }

  lemma NoLeafBelow(t: Tree, d: Entry, e: Entry, p: string)
    requires GoodTree(t) && Apart(t) && d in t.entries && d.Dir? && e in t.entries && !e.Dir?
    ensures Resource(e) != d.name + "/" + p
  {
    hide Decimal.Print, Find;
    var path := d.name + "/" + p;
    EntryOfTree(t, d);
    EntryOfTree(t, e);
    FindFirst(d.name, '/', p);
    if e.Key? {
      var id := Decimal.Print(e.id);
      assert '/' !in id by { KeyNumber(e.id); }
      FindFirst(id, '/', "openssh-key");
      assert Resource(e) == id + "/" + "openssh-key";
      assert Resource(e)[..|id|] == id && path[..|d.name|] == d.name;
    } else {
      assert path[|d.name|] == '/';
    }
  }

  lemma {:induction false} AnswersAll<D>(c: Codec<D>, caller: string -> string, t: Tree, base: string)
    requires GoodTree(t) && Apart(t) && Appends(c) && EndsWith(base, "/")
    requires forall p :: p != "" ==> caller(base + p) == Lookup(t, p)
    ensures Serves(c, caller, t, base)
    decreases t
  {
    hide Lists, Lookup, LeafAt, DirAt, Resource, Appends, Unlines, Fields, Hidden;
    forall e | e in Leaves(t.entries) ensures caller(c.combine(base, Resource(e))) == e.blob {
      EntryOfTree(t, e);
      Added(c, base, Resource(e));
      LeafIsThere(t, e);
      LookupLeaf(t, e);
    }
    forall d | d in Dirs(t.entries)
      ensures Lists(caller(ChildUrl(c, base, d.name)), d.sub) && Serves(c, caller, d.sub, ChildUrl(c, base, d.name))
    {
      var url := base + d.name + "/";
      EntryOfTree(t, d);
      ChildIs(c, base, d);
      forall p ensures caller(url + p) == if p == "" then Unlines(Fields(d.sub.entries)) else Lookup(d.sub, p) {
        assert url + p == base + (d.name + "/" + p);
        LookupBelow(t, d, p);
      }
      assert url + "" == url;
      ListingExists(d.sub);
      AnswersAll(c, caller, d.sub, url);
    }
  }

  lemma Added<D>(c: Codec<D>, base: string, name: string)
    requires Appends(c) && EndsWith(base, "/")
    ensures c.combine(base, name) == base + name
  {
  }

  lemma ChildIs<D>(c: Codec<D>, base: string, d: Entry)
    requires Appends(c) && EndsWith(base, "/") && d.Dir? && GoodEntry(d)
    ensures ChildUrl(c, base, d.name) == base + d.name + "/" && EndsWith(base + d.name + "/", "/")
  {
    var url := base + d.name;
    assert d.name[|d.name| - 1] in d.name && url[|url| - 1] == d.name[|d.name| - 1];
    assert (url + "/")[|url|..] == "/";
  }

  lemma LookupLeaf(t: Tree, e: Entry)
    requires !e.Dir? && LeafAt(t.entries, Resource(e)) == Some(e) && GoodEntry(e)
    ensures Lookup(t, Resource(e)) == e.blob && Resource(e) != ""
  {
    hide LeafAt;
  }

  /** Every good tree whose keys and directories are apart is served, below any URL. */
  lemma ServiceServes<D>(c: Codec<D>, t: Tree, base: string)
    requires GoodTree(t) && Apart(t) && Appends(c) && EndsWith(base, "/")
    ensures Lists(ServiceOf(t, base)(base), t) && Serves(c, ServiceOf(t, base), t, base)
  {
    hide Lists, Lookup, Unlines, Fields, Serves, Appends, Apart, GoodTree;
    ListingExists(t);
    var caller := ServiceOf(t, base);
    forall p | p != "" ensures caller(base + p) == Lookup(t, p) {
      assert (base + p)[|base|..] == p && (base + p)[..|base|] == base;
      assert |base + p| != |base|;
    }
    AnswersAll(c, caller, t, base);
  }

  function LeafValues<D>(c: Codec<D>, es: seq<Entry>): map<string, Meta<D>>
    requires forall e :: e in es ==> !e.Dir?
  {
    if es == [] then map[]
    else
      var last := es[|es| - 1];
      LeafValues(c, es[..|es| - 1])[last.name := Value(c.decode(last.name, last.blob))]
  }

  function DirValues<D>(c: Codec<D>, es: seq<Entry>, t: Tree): map<string, Meta<D>>
    requires forall e :: e in es ==> e.Dir? && e in t.entries
    decreases t, |es|
  {
    if es == [] then map[]
    else
      var last := es[|es| - 1];
      assert last in es && last in t.entries;
      DirValues(c, es[..|es| - 1], t)[last.name := Dict(Materialized(c, last.sub))]
  }

  /** What the tree materializes to: a directory hides a leaf of the same name. */
  function Materialized<D>(c: Codec<D>, t: Tree): map<string, Meta<D>>
    decreases t
  {
    LeafValues(c, Leaves(t.entries)) + DirValues(c, Dirs(t.entries), t)
  }

  function LeafUrls<D>(c: Codec<D>, es: seq<Entry>, base: string): (urls: seq<string>)
    ensures |urls| == |es|
  {
    seq(|es|, i requires 0 <= i < |es| => c.combine(base, Resource(es[i])))
  }

  function DirFetches<D>(c: Codec<D>, es: seq<Entry>, t: Tree, base: string): seq<string>
    requires forall e :: e in es ==> e.Dir? && e in t.entries
    decreases t, |es|
  {
    if es == [] then []
    else
      var last := es[|es| - 1];
      assert last in es && last in t.entries;
      var url := ChildUrl(c, base, last.name);
      DirFetches(c, es[..|es| - 1], t, base) + [url] + Fetches(c, last.sub, url)
  }

  /** The URLs the crawl asks for: every directory, followed by what is below it, and then
      the leaves. */
  function Fetches<D>(c: Codec<D>, t: Tree, base: string): seq<string>
    decreases t
  {
    DirFetches(c, Dirs(t.entries), t, base) + LeafUrls(c, Leaves(t.entries), base)
  }

  /** One fetch for each leaf and each directory that is not hidden. */
  function Count(t: Tree): nat
    decreases t
  {
    |Leaves(t.entries)| + CountDirs(Dirs(t.entries), t)
  }

  function CountDirs(es: seq<Entry>, t: Tree): nat
    requires forall e :: e in es ==> e.Dir? && e in t.entries
    decreases t, |es|
  {
    if es == [] then 0
    else
      var last := es[|es| - 1];
      assert last in es && last in t.entries;
      CountDirs(es[..|es| - 1], t) + 1 + Count(last.sub)
  }

  lemma {:induction false} FetchCount<D>(c: Codec<D>, t: Tree, base: string)
    ensures |Fetches(c, t, base)| == Count(t)
    decreases t
  {
    DirFetchCount(c, Dirs(t.entries), t, base);
  }

  lemma {:induction false} DirFetchCount<D>(c: Codec<D>, es: seq<Entry>, t: Tree, base: string)
    requires forall e :: e in es ==> e.Dir? && e in t.entries
    ensures |DirFetches(c, es, t, base)| == CountDirs(es, t)
    decreases t, |es|
  {
    if es != [] {
      var last := es[|es| - 1];
      assert last in es && last in t.entries;
      DirFetchCount(c, es[..|es| - 1], t, base);
      FetchCount(c, last.sub, ChildUrl(c, base, last.name));
    }
  }

  // ---------------------------------------------------------------- what is materialized

  predicate DistinctNames(es: seq<Entry>) {
    forall i, j :: 0 <= i < j < |es| ==> es[i].name != es[j].name
  }

  lemma {:induction false} LeavesDistinct(es: seq<Entry>)
    requires Distinct(es)
    ensures DistinctNames(Leaves(es))
  {
    hide Hidden;
    if es != [] {
      var n := |es| - 1;
      LeavesDistinct(es[..n]);
      forall e | e in Leaves(es[..n]) ensures !es[n].Dir? ==> e.name != es[n].name {
        var j :| 0 <= j < n && es[j] == e;
      }
    }
  }

  lemma {:induction false} DirsDistinct(es: seq<Entry>)
    requires Distinct(es)
    ensures DistinctNames(Dirs(es))
  {
    hide Hidden;
    if es != [] {
      var n := |es| - 1;
      DirsDistinct(es[..n]);
      forall e | e in Dirs(es[..n]) ensures es[n].Dir? ==> e.name != es[n].name {
        var j :| 0 <= j < n && es[j] == e;
      }
    }
  }

  lemma {:induction false} LeafValueAt<D>(c: Codec<D>, es: seq<Entry>, k: nat)
    requires (forall x :: x in es ==> !x.Dir?) && DistinctNames(es) && k < |es|
    ensures var e := es[k]; e.name in LeafValues(c, es) && LeafValues(c, es)[e.name] == Value(c.decode(e.name, e.blob))
    decreases |es|
  {
    var n := |es| - 1;
    if k < n {
      LeafValueAt(c, es[..n], k);
    }
  }

  lemma {:induction false} LeafKeys<D>(c: Codec<D>, es: seq<Entry>, k: string)
    requires (forall x :: x in es ==> !x.Dir?) && k in LeafValues(c, es)
    ensures exists e :: e in es && e.name == k
  {
    var n := |es| - 1;
    assert es == es[..n] + [es[n]];
    if es[n].name == k {
      assert es[n] in es;
    } else {
      LeafKeys(c, es[..n], k);
    }
  }

  lemma {:induction false} DirValueAt<D>(c: Codec<D>, es: seq<Entry>, t: Tree, k: nat)
    requires (forall x :: x in es ==> x.Dir? && x in t.entries) && DistinctNames(es) && k < |es|
    ensures es[k].Dir?
    ensures var e := es[k]; e.name in DirValues(c, es, t) && DirValues(c, es, t)[e.name] == Dict(Materialized(c, e.sub))
    decreases |es|
  {
    hide Materialized;
    assert es[k] in es;
    var n := |es| - 1;
    if k < n {
      DirValueAt(c, es[..n], t, k);
    }
  }

  lemma {:induction false} DirKeys<D>(c: Codec<D>, es: seq<Entry>, t: Tree, k: string)
    requires (forall x :: x in es ==> x.Dir? && x in t.entries) && k in DirValues(c, es, t)
    ensures exists e :: e in es && e.name == k
    decreases |es|
  {
    var n := |es| - 1;
    assert es == es[..n] + [es[n]];
    if es[n].name == k {
      assert es[n] in es;
    } else {
      DirKeys(c, es[..n], t, k);
    }
  }

  /** Nothing is made up: every key is the name of an entry that is not hidden. */
  lemma MaterializedKeys<D>(c: Codec<D>, t: Tree, k: string)
    requires k in Materialized(c, t)
    ensures exists e :: e in t.entries && !Hidden(e) && e.name == k
  {
    hide Hidden;
    var dirs, leaves := Dirs(t.entries), Leaves(t.entries);
    if k in DirValues(c, dirs, t) {
      DirKeys(c, dirs, t, k);
      var e :| e in dirs && e.name == k;
      assert e in t.entries;
    } else {
      LeafKeys(c, leaves, k);
      var e :| e in leaves && e.name == k;
      assert e in t.entries;
    }
  }

  /** Nothing is lost: below a directory lies what its tree materializes to, and a leaf
      has its own decoded contents unless a directory has the same name. */
  lemma MaterializedAt<D>(c: Codec<D>, t: Tree, e: Entry)
    requires GoodTree(t) && e in t.entries && !Hidden(e)
    requires !e.Dir? ==> forall d :: d in Dirs(t.entries) ==> d.name != e.name
    ensures e.name in Materialized(c, t)
    ensures Materialized(c, t)[e.name] == if e.Dir? then Dict(Materialized(c, e.sub)) else Value(c.decode(e.name, e.blob))
  {
    hide Hidden;
    LeavesDistinct(t.entries);
    DirsDistinct(t.entries);
    var dirs, leaves := Dirs(t.entries), Leaves(t.entries);
    if e.Dir? {
      var k :| 0 <= k < |dirs| && dirs[k] == e;
      DirValueAt(c, dirs, t, k);
    } else {
      var k :| 0 <= k < |leaves| && leaves[k] == e;
      LeafValueAt(c, leaves, k);
      if e.name in DirValues(c, dirs, t) {
        DirKeys(c, dirs, t, e.name);
        assert false;
      }
    }
  }

  // ---------------------------------------------------------------- the crawler

  lemma DirValuesStep<D>(c: Codec<D>, es: seq<Entry>, t: Tree, base: string, i: nat)
    requires (forall e :: e in es ==> e.Dir? && e in t.entries) && i < |es|
    ensures var e, url := es[i], ChildUrl(c, base, es[i].name);
            && DirValues(c, es[..i + 1], t) == DirValues(c, es[..i], t)[e.name := Dict(Materialized(c, e.sub))]
            && DirFetches(c, es[..i + 1], t, base) == DirFetches(c, es[..i], t, base) + [url] + Fetches(c, e.sub, url)
  {
    hide Materialized, Fetches;
    assert es[..i + 1][..i] == es[..i];
  }

  lemma LeafValuesStep<D>(c: Codec<D>, es: seq<Entry>, base: string, i: nat)
    requires (forall e :: e in es ==> !e.Dir?) && i < |es|
    ensures LeafValues(c, es[..i + 1]) == LeafValues(c, es[..i])[es[i].name := Value(c.decode(es[i].name, es[i].blob))]
    ensures LeafUrls(c, es[..i + 1], base) == LeafUrls(c, es[..i], base) + [c.combine(base, Resource(es[i]))]
  {
    assert es[..i + 1][..i] == es[..i];
  }

  lemma TreeBelow<D>(c: Codec<D>, caller: string -> string, t: Tree, base: string, e: Entry)
    requires GoodTree(t) && Serves(c, caller, t, base) && e in Dirs(t.entries)
    ensures var url := ChildUrl(c, base, e.name);
            GoodTree(e.sub) && Lists(caller(url), e.sub) && Serves(c, caller, e.sub, url)
  {
  }

  lemma GoodListing<D>(c: Codec<D>, blob: string, t: Tree)
    requires GoodTree(t) && Lists(blob, t) && ReadsNumbers(c)
    ensures ParseLines(c, SplitLines(blob)) == ListingOf(t.entries)
  {
    ParseLists(c, SplitLines(blob), t.entries);
  }

  class MetadataMaterializer<!D> {
    const codec: Codec<D>
    const blob: string
    const baseUrl: string
    const caller: string -> string
    var md: Option<map<string, Meta<D>>>

    constructor (codec: Codec<D>, blob: string, baseUrl: string, caller: string -> string)
      ensures this.codec == codec && this.blob == blob && this.baseUrl == baseUrl && this.caller == caller
      ensures md == None
    {
      this.codec, this.blob, this.baseUrl, this.caller := codec, blob, baseUrl, caller;
      md := None;
    }

    /** Crawls what `blob` lists at `base`; `fetched` logs the calls. */
    method MaterializeAt(blob: string, base: string, ghost t: Tree) returns (joined: map<string, Meta<D>>, fetched: seq<string>)
      requires GoodTree(t) && Lists(blob, t) && Serves(codec, caller, t, base) && ReadsNumbers(codec)
      ensures joined == Materialized(codec, t)
      ensures fetched == Fetches(codec, t, base)
      decreases t
    {
      hide GoodTree, Lists, Serves, ReadsNumbers, DirValues, LeafValues, DirFetches, Leaves, Dirs, ParseLines, Resource, Hidden;
      var listing := ParseListing(codec, blob);
      GoodListing(codec, blob, t);
      ghost var dirs, leaves := Dirs(t.entries), Leaves(t.entries);
      var childContents: map<string, Meta<D>> := map[];
      fetched := [];
      NothingYet(codec, dirs, leaves, t, base);
      for i := 0 to |listing.children|
        invariant childContents == DirValues(codec, dirs[..i], t)
        invariant fetched == DirFetches(codec, dirs[..i], t, base)
      {
        DirValuesStep(codec, dirs, t, base, i);
        TreeBelow(codec, caller, t, base, dirs[i]);
        var c := listing.children[i];
        var childUrl := ChildUrl(codec, base, c);
        var contents, below := MaterializeAt(caller(childUrl), childUrl, dirs[i].sub);
        childContents := childContents[c := Dict(contents)];
        fetched := fetched + [childUrl] + below;
      }
      var leafContents: map<string, Meta<D>> := map[];
      ghost var before := fetched;
      for i := 0 to |listing.leaves|
        invariant leafContents == LeafValues(codec, leaves[..i])
        invariant fetched == before + LeafUrls(codec, leaves[..i], base)
      {
        LeafValuesStep(codec, leaves, base, i);
        LeafBlob(codec, caller, t, base, leaves[i]);
        var (field, resource) := listing.leaves[i];
        var leafUrl := codec.combine(base, resource);
        fetched := fetched + [leafUrl];
        leafContents := leafContents[field := Value(codec.decode(field, caller(leafUrl)))];
      }
      assert dirs[..|dirs|] == dirs && leaves[..|leaves|] == leaves;
      joined := childContents;
      var fields := leafContents.Keys;
      while fields != {}
        invariant fields <= leafContents.Keys
        invariant joined.Keys == childContents.Keys + (leafContents.Keys - fields)
        invariant forall k :: k in joined ==> joined[k] == if k in childContents then childContents[k] else leafContents[k]
        decreases |fields|
      {
        var field :| field in fields;
        fields := fields - {field};
        if field !in joined {
          joined := joined[field := leafContents[field]];
        }
      }
      assert joined == leafContents + childContents;
    }

    /** The first call crawls, later ones return what it found. */
    method Materialize(ghost t: Tree) returns (r: map<string, Meta<D>>, fetched: seq<string>)
      requires GoodTree(t) && Lists(blob, t) && Serves(codec, caller, t, baseUrl) && ReadsNumbers(codec)
      requires md.Some? ==> md.value == Materialized(codec, t)
      modifies this
      ensures md == Some(r) && r == Materialized(codec, t)
      ensures fetched == if old(md).Some? then [] else Fetches(codec, t, baseUrl)
    {
      if md.Some? {
        return md.value, [];
      }
      r, fetched := MaterializeAt(blob, baseUrl, t);
      md := Some(r);
    }
  }

  lemma NothingYet<D>(c: Codec<D>, dirs: seq<Entry>, leaves: seq<Entry>, t: Tree, base: string)
    requires forall e :: e in dirs ==> e.Dir? && e in t.entries
    requires forall e :: e in leaves ==> !e.Dir?
    ensures DirValues(c, dirs[..0], t) == map[] && DirFetches(c, dirs[..0], t, base) == []
    ensures LeafValues(c, leaves[..0]) == map[]
  {
  }

  lemma LeafBlob<D>(c: Codec<D>, caller: string -> string, t: Tree, base: string, e: Entry)
    requires Serves(c, caller, t, base) && e in Leaves(t.entries)
    ensures caller(c.combine(base, Resource(e))) == e.blob
  {
  }

  // ---------------------------------------------------------------- single lines, and the order of the crawl

  /** A line `3=name` is for the key `name`, fetched as `3/openssh-key`. */
  lemma KeyLine<D>(c: Codec<D>, id: nat, name: string)
    requires ReadsNumbers(c) && GoodKey(name)
    ensures ParseLines(c, [Decimal.Print(id) + "=" + name])
            == Listing([(name, Decimal.Print(id) + "/openssh-key")], [])
  {
    hide AddField, Decimal.Print, Strip, ReadsNumbers;
    var e := Key(id, name, "");
    var field := FieldOf(e);
    FieldIsClean(e);
    StripClean(field);
    assert [field][..0] == [];
    AddKey(c, Listing([], []), e);
  }

  /** The credentials are not looked into, whether listed as a directory or as a leaf. */
  lemma CredentialsAreSkipped<D>(c: Codec<D>, before: seq<string>)
    ensures ParseLines(c, before + ["security-credentials/"]) == ParseLines(c, before)
    ensures ParseLines(c, before + ["security-credentials"]) == ParseLines(c, before)
  {
    hide AddField, Strip;
    var dir, leaf := Dir("security-credentials", Tree([])), Leaf("security-credentials", "");
    assert Hidden(dir) && Hidden(leaf) by { CredentialsAreHidden(dir, leaf); }
    assert FieldOf(dir) == "security-credentials/" && FieldOf(leaf) == "security-credentials";
    CredentialsAreTrimmed();
    AddHidden(c, ParseLines(c, before), dir);
    AddHidden(c, ParseLines(c, before), leaf);
    assert (before + [FieldOf(dir)])[..|before|] == before && (before + [FieldOf(leaf)])[..|before|] == before;
  }

  lemma CredentialsAreHidden(dir: Entry, leaf: Entry)
    requires dir == Dir("security-credentials", Tree([])) && leaf == Leaf("security-credentials", "")
    ensures Hidden(dir) && Hidden(leaf)
  {
  }

  lemma CredentialsAreTrimmed()
    ensures Strip("security-credentials/") == "security-credentials/" && Strip("security-credentials") == "security-credentials"
  {
    var a := "security-credentials";
    assert a[0] == 's' && a[|a| - 1] == 's' && (a + "/")[|a|] == '/' && a + "/" == "security-credentials/";
    StripTrimmed(a);
    StripTrimmed(a + "/");
  }

  /** Right after a directory is fetched comes all that is below it, and the leaves come last. */
  lemma FetchOrder<D>(c: Codec<D>, t: Tree, base: string, k: nat)
    requires k < |Dirs(t.entries)|
    ensures var d := Dirs(t.entries)[k]; var url, all := ChildUrl(c, base, d.name), Fetches(c, t, base);
            var n, below := |DirFetches(c, Dirs(t.entries)[..k], t, base)|, Fetches(c, d.sub, url);
            n + |below| < |all| && all[n] == url && all[n + 1..n + 1 + |below|] == below
    ensures var all, leaves := Fetches(c, t, base), LeafUrls(c, Leaves(t.entries), base);
            |leaves| <= |all| && all[|all| - |leaves|..] == leaves
  {
    hide ChildUrl, LeafUrls, Leaves;
    var dirs, leaves := Dirs(t.entries), LeafUrls(c, Leaves(t.entries), base);
    var d := dirs[k];
    var url := ChildUrl(c, base, d.name);
    DirFetchesSplit(c, dirs, t, base, k);
    var n := |DirFetches(c, dirs[..k], t, base)|;
    var all, below := Fetches(c, t, base), Fetches(c, d.sub, url);
    assert all[..n + 1 + |below|] == DirFetches(c, dirs[..k], t, base) + [url] + below;
  }

  lemma {:induction false} DirFetchesSplit<D>(c: Codec<D>, es: seq<Entry>, t: Tree, base: string, k: nat)
    requires (forall e :: e in es ==> e.Dir? && e in t.entries) && k < |es|
    ensures var url := ChildUrl(c, base, es[k].name);
            DirFetches(c, es[..k], t, base) + [url] + Fetches(c, es[k].sub, url) <= DirFetches(c, es, t, base)
  {
    hide ChildUrl, Fetches;
    var n := |es| - 1;
    if k < n {
      assert es[..n][..k] == es[..k];
      DirFetchesSplit(c, es[..n], t, base, k);
    }
  }

  // ---------------------------------------------------------------- names that come twice

  predicate Slashes(s: string) {
    s != "" && forall c :: c in s ==> c == '/'
  }

  lemma {:induction false} SlashesStripped(name: string, slashes: string)
    requires '/' !in name && (forall c :: c in slashes ==> c == '/')
    ensures RStripSlash(name + slashes) == name
  {
    var s := name + slashes;
    if slashes == "" {
      NoSlash(name);
      assert s == name;
    } else {
      var init := slashes[..|slashes| - 1];
      assert slashes[|slashes| - 1] in slashes && s[|s| - 1] == '/';
      assert s[|s| - 1..] == "/" && s[..|s| - 1] == name + init;
      forall c | c in init ensures c == '/' {
        assert c in slashes;
      }
      SlashesStripped(name, init);
    }
  }

  /** A directory may be listed with any number of slashes, and counts once however often it is. */
  lemma DirectoryLine<D>(c: Codec<D>, l: Listing, name: string, slashes: string)
    requires GoodName(name) && name != CREDENTIALS && Slashes(slashes)
    ensures AddField(c, l, name + slashes) == if name in l.children then l else l.(children := l.children + [name])
  {
    hide RStripSlash, GoodName;
    NameHasNoSlash(name);
    SlashesStripped(name, slashes);
    var s := name + slashes;
    assert slashes[|slashes| - 1] in slashes && s[|s| - 1] == '/' && s[|s| - 1..] == "/";
  }

  lemma NameHasNoSlash(name: string)
    requires GoodName(name)
    ensures '/' !in name && name != ""
  {
  }

  /** A leaf listed again stays where it was first, with the resource it was given last; no other
      leaf is touched. */
  lemma {:induction false} AssignedTwice(leaves: seq<(string, string)>, name: string, resource: string, k: nat)
    requires k < |leaves| && leaves[k].0 == name && forall i :: 0 <= i < k ==> leaves[i].0 != name
    ensures Assign(leaves, name, resource) == leaves[k := (name, resource)]
  {
    if k > 0 {
      AssignedTwice(leaves[1..], name, resource, k - 1);
    }
  }

  /** A line with an equals sign but no number before it lists a leaf by all of the line. */
  lemma NoNumber<D>(c: Codec<D>, field: string)
    requires Clean(field) && !EndsWith(field, "/") && '=' in field && field != CREDENTIALS
    requires c.toInt(field[..Find(field, '=')]) == None
    ensures ParseLines(c, [field]) == Listing([(field, field)], [])
  {
    hide Find, Strip, Clean;
    StripClean(field);
    assert [field][..0] == [];
  }
}
