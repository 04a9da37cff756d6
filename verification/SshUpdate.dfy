/** Merging new keys into an `authorized_keys` file. */
module SshUpdate {
  import opened Options
  import opened Strings
  import opened SshKeys

  /** What becomes of one old entry: each key with its base64 replaces it in turn. */
  function Replaced(ent: KeyLine, keys: seq<KeyLine>): KeyLine
    decreases |keys|
  {
    if keys == [] || !Valid(ent) then ent
    else Replaced(if keys[0].base64 == ent.base64 then keys[0] else ent, keys[1..])
  }

  function ReplaceAll(old_: seq<KeyLine>, keys: seq<KeyLine>): (r: seq<KeyLine>)
    ensures |r| == |old_| && forall i :: 0 <= i < |old_| ==> r[i] == Replaced(old_[i], keys)
  {
    seq(|old_|, i requires 0 <= i < |old_| => Replaced(old_[i], keys))
  }

  /** The keys whose base64 no old entry has. */
  function Missing(old_: seq<KeyLine>, keys: seq<KeyLine>): seq<KeyLine> {
    if keys == [] then []
    else (if HasBase64(old_, keys[0].base64) then [] else [keys[0]]) + Missing(old_, keys[1..])
  }

  predicate HasBase64(old_: seq<KeyLine>, b: string) {
    exists e :: e in old_ && Valid(e) && e.base64 == b
  }

  function Updated(old_: seq<KeyLine>, keys: seq<KeyLine>): seq<KeyLine> {
    ReplaceAll(old_, keys) + Missing(old_, keys)
  }

  function PrintAll(es: seq<KeyLine>): seq<string> {
    seq(|es|, i requires 0 <= i < |es| => Print(es[i]))
  }

  function TextOf(es: seq<KeyLine>): string {
    Join(PrintAll(es) + [""], "\n")
  }

  /** Lines as the parser makes them: a base64 field never comes without a key type. */
  predicate Parsed(keys: seq<KeyLine>) {
    forall k :: k in keys && k.base64 != "" ==> Valid(k)
  }

  /** Replaces old entries in place, then appends the keys that matched none of
      them. Which keys are still to be added is kept by position, since keys that
      look the same stay apart. */
  method UpdateAuthorizedKeys(oldEntries: seq<KeyLine>, keys: seq<KeyLine>) returns (text: string)
    requires Parsed(keys)
    ensures text == TextOf(Updated(oldEntries, keys))
  {
    var entries, toAdd := ReplaceEntries(oldEntries, keys);
    var missing := ToAppend(oldEntries, keys, toAdd);
    entries := entries + missing;
    var lines := [];
    for j := 0 to |entries|
      invariant lines == PrintAll(entries[..j])
    {
      assert entries[..j + 1] == entries[..j] + [entries[j]];
      lines := lines + [Print(entries[j])];
    }
    assert entries[..|entries|] == entries;
    text := Join(lines + [""], "\n");
  }

  /** `toAdd[k]`: none of the entries has the base64 of the k-th key. */
  ghost predicate StillToAdd(entries: seq<KeyLine>, keys: seq<KeyLine>, toAdd: seq<bool>) {
    |toAdd| == |keys| && forall k :: 0 <= k < |keys| ==> toAdd[k] == !HasBase64(entries, keys[k].base64)
  }

  method ReplaceEntries(oldEntries: seq<KeyLine>, keys: seq<KeyLine>) returns (entries: seq<KeyLine>, toAdd: seq<bool>)
    requires Parsed(keys)
    ensures entries == ReplaceAll(oldEntries, keys) && StillToAdd(oldEntries, keys, toAdd)
  {
    entries := oldEntries;
    toAdd := seq(|keys|, i => true);
    var i := 0;
    while i < |oldEntries|
      invariant 0 <= i <= |oldEntries| && |entries| == |oldEntries|
      invariant forall j :: 0 <= j < i ==> entries[j] == Replaced(oldEntries[j], keys)
      invariant forall j :: i <= j < |entries| ==> entries[j] == oldEntries[j]
      invariant StillToAdd(oldEntries[..i], keys, toAdd)
    {
      var ent;
      ent, toAdd := ReplaceEntry(entries[i], keys, toAdd);
      forall k | 0 <= k < |keys|
        ensures HasBase64(oldEntries[..i + 1], keys[k].base64)
                <==> HasBase64(oldEntries[..i], keys[k].base64) || SameKey(oldEntries[i], keys[k])
      {
        HasBase64More(oldEntries, i, keys[k]);
      }
      entries := entries[i := ent];
      i := i + 1;
    }
    assert oldEntries[..i] == oldEntries;
  }

  predicate SameKey(ent: KeyLine, key: KeyLine) {
    Valid(ent) && key.base64 == ent.base64
  }

  method ReplaceEntry(old_: KeyLine, keys: seq<KeyLine>, toAdd0: seq<bool>) returns (ent: KeyLine, toAdd: seq<bool>)
    requires Parsed(keys) && |toAdd0| == |keys|
    ensures ent == Replaced(old_, keys)
    ensures |toAdd| == |keys| && forall k :: 0 <= k < |keys| ==> toAdd[k] == (toAdd0[k] && !SameKey(old_, keys[k]))
  {
    ent, toAdd := old_, toAdd0;
    assert keys[0..] == keys;
    var k := 0;
    while k < |keys|
      invariant 0 <= k <= |keys| && |toAdd| == |keys|
      invariant Valid(ent) == Valid(old_) && ent.base64 == old_.base64
      invariant Replaced(old_, keys) == Replaced(ent, keys[k..])
      invariant forall j :: 0 <= j < |keys| ==> toAdd[j] == (toAdd0[j] && !(j < k && SameKey(old_, keys[j])))
    {
      assert keys[k..][1..] == keys[k + 1..] && keys[k..][0] == keys[k] && keys[k] in keys;
      if Valid(ent) && keys[k].base64 == ent.base64 {
        ent := keys[k];
        toAdd := toAdd[k := false];
      }
      k := k + 1;
    }
  }

  method ToAppend(oldEntries: seq<KeyLine>, keys: seq<KeyLine>, toAdd: seq<bool>) returns (missing: seq<KeyLine>)
    requires StillToAdd(oldEntries, keys, toAdd)
    ensures missing == Missing(oldEntries, keys)
  {
    hide Missing, HasBase64;
    missing := [];
    var n := 0;
    assert keys[0..] == keys;
    while n < |keys|
      invariant 0 <= n <= |keys|
      invariant missing + Missing(oldEntries, keys[n..]) == Missing(oldEntries, keys)
    {
      MissingStep(oldEntries, keys, n);
      if toAdd[n] {
        missing := missing + [keys[n]];
      }
      n := n + 1;
    }
    NoneMissing(oldEntries, keys);
  }

  lemma MissingStep(old_: seq<KeyLine>, keys: seq<KeyLine>, n: nat)
    requires n < |keys|
    ensures Missing(old_, keys[n..]) == (if HasBase64(old_, keys[n].base64) then [] else [keys[n]]) + Missing(old_, keys[n + 1..])
  {
    hide HasBase64;
    assert keys[n..][1..] == keys[n + 1..];
  }

  lemma NoneMissing(old_: seq<KeyLine>, keys: seq<KeyLine>)
    ensures Missing(old_, keys[|keys|..]) == []
  {
  }

  lemma HasBase64More(old_: seq<KeyLine>, i: nat, key: KeyLine)
    requires i < |old_|
    ensures HasBase64(old_[..i + 1], key.base64) <==> HasBase64(old_[..i], key.base64) || SameKey(old_[i], key)
  {
    var more := old_[..i + 1];
    assert more == old_[..i] + [old_[i]];
    assert more[i] == old_[i];
    assert forall e :: e in old_[..i] ==> e in more;
  }

  // ---------------------------------------------------------------- laws

  /** Valid keys, each of another base64. */
  predicate DistinctKeys(keys: seq<KeyLine>) {
    && (forall k :: k in keys ==> Valid(k))
    && (forall i, j :: 0 <= i < j < |keys| ==> keys[i].base64 != keys[j].base64)
  }

  /** An old entry is replaced by the key with its base64 if there is one, and
      stays exactly as it was if there is none or it is no valid key. */
  lemma {:induction false} ReplacedIs(ent: KeyLine, keys: seq<KeyLine>)
    requires DistinctKeys(keys)
    ensures forall k :: k in keys && SameKey(ent, k) ==> Replaced(ent, keys) == k
    ensures (forall k :: k in keys ==> !SameKey(ent, k)) ==> Replaced(ent, keys) == ent
    ensures Valid(Replaced(ent, keys)) == Valid(ent) && (Valid(ent) ==> Replaced(ent, keys).base64 == ent.base64)
    decreases |keys|
  {
    if keys != [] && Valid(ent) {
      assert keys[0] in keys;
      var rest := keys[1..];
      assert keys == [keys[0]] + rest;
      assert forall k :: k in rest ==> k in keys;
      if SameKey(ent, keys[0]) {
        forall k | k in rest ensures !SameKey(keys[0], k) {
          var j :| 0 <= j < |rest| && rest[j] == k;
          assert keys[j + 1] == k;
        }
        ReplacedIs(keys[0], rest);
      } else {
        ReplacedIs(ent, rest);
      }
    }
  }

  lemma {:induction false} MissingIs(old_: seq<KeyLine>, keys: seq<KeyLine>)
    ensures forall k :: k in Missing(old_, keys) <==> k in keys && !HasBase64(old_, k.base64)
  {
    if keys != [] {
      MissingIs(old_, keys[1..]);
      assert keys == [keys[0]] + keys[1..];
    }
  }

  /** After an update every key is there, and every other valid entry has a base64
      that no key has. */
  lemma UpdatedHasKeys(old_: seq<KeyLine>, keys: seq<KeyLine>)
    requires DistinctKeys(keys)
    ensures forall k :: k in keys ==> k in Updated(old_, keys)
    ensures forall e, k :: e in Updated(old_, keys) && k in keys && SameKey(e, k) ==> e == k
  {
    var new_ := Updated(old_, keys);
    MissingIs(old_, keys);
    forall k | k in keys ensures k in new_ {
      if HasBase64(old_, k.base64) {
        var e :| e in old_ && Valid(e) && e.base64 == k.base64;
        var i :| 0 <= i < |old_| && old_[i] == e;
        ReplacedIs(e, keys);
        assert ReplaceAll(old_, keys)[i] == k;
      } else {
        assert k in Missing(old_, keys);
      }
    }
    forall e, k | e in new_ && k in keys && SameKey(e, k) ensures e == k {
      if e in Missing(old_, keys) {
        SameBase64SameKey(keys, e, k);
      } else {
        var i :| 0 <= i < |old_| && ReplaceAll(old_, keys)[i] == e;
        ReplacedIs(old_[i], keys);
        assert SameKey(old_[i], k);
      }
    }
  }

  lemma SameBase64SameKey(keys: seq<KeyLine>, e: KeyLine, k: KeyLine)
    requires DistinctKeys(keys) && e in keys && k in keys && e.base64 == k.base64
    ensures e == k
  {
    var i :| 0 <= i < |keys| && keys[i] == e;
    var j :| 0 <= j < |keys| && keys[j] == k;
    assert !(i < j) && !(j < i);
  }

  lemma {:induction false} NothingMissing(old_: seq<KeyLine>, keys: seq<KeyLine>)
    requires forall k :: k in keys ==> HasBase64(old_, k.base64)
    ensures Missing(old_, keys) == []
  {
    if keys != [] {
      assert keys[0] in keys;
      assert forall k :: k in keys[1..] ==> k in keys;
      NothingMissing(old_, keys[1..]);
    }
  }

  /** Updating a second time changes nothing. */
  lemma UpdateIsIdempotent(old_: seq<KeyLine>, keys: seq<KeyLine>)
    requires DistinctKeys(keys)
    ensures Updated(Updated(old_, keys), keys) == Updated(old_, keys)
  {
    var new_ := Updated(old_, keys);
    UpdatedHasKeys(old_, keys);
    forall i | 0 <= i < |new_| ensures Replaced(new_[i], keys) == new_[i] {
      ReplacedIs(new_[i], keys);
      assert new_[i] in new_;
      if exists k :: k in keys && SameKey(new_[i], k) {
        var k :| k in keys && SameKey(new_[i], k);
      }
    }
    assert ReplaceAll(new_, keys) == new_;
    forall k | k in keys ensures HasBase64(new_, k.base64) {
      assert k in new_ && Valid(k);
    }
    NothingMissing(new_, keys);
  }

  // ---------------------------------------------------------------- the file as text

  function ParseAll(lines: seq<string>): (es: seq<KeyLine>)
    ensures |es| == |lines| && forall i :: 0 <= i < |lines| ==> es[i] == Parse(lines[i], None)
  {
    seq(|lines|, i requires 0 <= i < |lines| => Parse(lines[i], None))
  }

  /** Reads a file, updates it and writes it. */
  function UpdatedText(text: string, keys: seq<KeyLine>): string {
    TextOf(Updated(ParseAll(SplitLines(text)), keys))
  }

  /** A key that comes back from the file as it went in, on one line. */
  predicate Storable(k: KeyLine) {
    Valid(k) && NoBreak(Print(k)) && Parse(Print(k), None) == k.(source := Print(k))
  }

  /** A key that is found again in the file, on one line, by its base64. */
  predicate Findable(k: KeyLine) {
    Valid(k) && NoBreak(Print(k)) && SameKey(Parse(Print(k), None), k)
  }

  lemma StorableIsFindable(k: KeyLine)
    requires Storable(k)
    ensures Findable(k)
  {
    hide Parse, Print;
  }

  /** Options that a line of the file can hold. Those found by the parser are such, but
      for a hash in front. */
  predicate HoldsOptions(k: KeyLine, given: Option<string>) {
    match given
    case None => k.options.None? || !StartsWith(k.options.value, "#")
    case Some(o) => GoodOptions(o) && !StartsWith(o, "#") && NoBreak(o)
  }

  /** A key parsed from one line, with or without options of the caller's, is storable
      exactly when a line can hold its options. */
  lemma ParsedIsStorableIff(src: string, given: Option<string>)
    requires NoBreak(src) && Valid(Parse(src, given))
    ensures Storable(Parse(src, given)) <==> HoldsOptions(Parse(src, given), given)
  {
    hide Parse, Print, StartsWith, GoodOptions, NoBreak;
    match given
    case None =>
      RoundTripIff(src);
      PrintKeepsLine(src);
      NoKeyIsNotValid(Print(Parse(src, None)));
    case Some(o) =>
      RoundTripWithIff(src, o);
      if GoodOptions(o) {
        PrintWithKeepsLine(src, o);
      }
  }

  lemma NoKeyIsNotValid(src: string)
    ensures !Valid(NoKey(src))
  {
  }

  /** Empty options of the caller's print as none, and the key is still found. */
  lemma EmptyOptionsAreFindable(src: string)
    requires NoBreak(src) && Valid(Parse(src, Some("")))
    ensures Findable(Parse(src, Some("")))
  {
    hide ParseEntry, IsComment, Print, Strip, RStripBreaks, StartsWith, GoodKey, GoodOptions, NoBreak;
    var ent := Strip(RStripBreaks(src));
    var key := ParseEntry(ent).value.key;
    ParsedEntryIsGood(ent);
    var e := Entry(None, key);
    PrintIsPrintEntry(src, e);
    PrintsAlike(src, key);
    ParsePrintedEntry(e);
    HashFirst(e);
    ParseTrimmed(PrintEntry(e));
    ParsedChars(ent);
    EntryWithin(src);
    UnbrokenWithin(ent, src);
    UnbrokenEntry(ent, e);
  }

  lemma PrintsAlike(src: string, k: Key)
    ensures Print(LineOf(src, Entry(Some(""), k))) == Print(LineOf(src, Entry(None, k)))
  {
  }

  /** What one line of the file is read back as. */
  lemma ReadBack(src: string)
    ensures var e := Parse(src, None); var back := Parse(Print(e), None);
            Print(back) == Print(e) && (Valid(back) ==> Valid(e) && back.base64 == e.base64)
  {
    hide Strip, RStripBreaks, ParseEntry, IsComment, StartsWith;
    var e := Parse(src, None);
    if Valid(e) {
      RoundTripIff(src);
    } else {
      InvalidIsSource(src);
    }
  }

  lemma InvalidIsSource(src: string)
    requires !Valid(Parse(src, None))
    ensures Parse(src, None) == NoKey(src) && Print(NoKey(src)) == src
  {
    hide ParseEntry, IsComment, IsKeyType;
    if ParseEntry(Strip(RStripBreaks(src))).Some? {
      ParsedEntryIsGood(Strip(RStripBreaks(src)));
    }
  }

  /** An entry of an updated file, read back and updated again, prints the same. */
  lemma EntryStays(old_: seq<string>, keys: seq<KeyLine>, i: nat)
    requires DistinctKeys(keys) && (forall k :: k in keys ==> Findable(k)) && i < |Updated(ParseAll(old_), keys)|
    ensures var e := Updated(ParseAll(old_), keys)[i];
            Print(Replaced(Parse(Print(e), None), keys)) == Print(e)
  {
    hide Parse, Print;
    var es := ParseAll(old_);
    var e := Updated(es, keys)[i];
    var back := Parse(Print(e), None);
    ReplacedIs(back, keys);
    if e in keys {
      assert Findable(e) && SameKey(back, e);
    } else {
      MissingIs(es, keys);
      assert i < |es|;
      assert e == Replaced(es[i], keys);
      ReplacedIs(es[i], keys);
      assert forall k :: k in keys ==> !SameKey(es[i], k);
      ReadBack(old_[i]);
    }
  }

  lemma KeyReadBack(old_: seq<string>, keys: seq<KeyLine>, k: KeyLine)
    requires DistinctKeys(keys) && k in keys && Findable(k)
    ensures HasBase64(ParseAll(PrintAll(Updated(ParseAll(old_), keys))), k.base64)
  {
    hide Parse, Print;
    var new_ := Updated(ParseAll(old_), keys);
    UpdatedHasKeys(ParseAll(old_), keys);
    assert k in new_;
    var i :| 0 <= i < |new_| && new_[i] == k;
    assert ParseAll(PrintAll(new_))[i] == Parse(Print(k), None);
  }

  lemma UpdatedLines(text: string, keys: seq<KeyLine>)
    requires forall k :: k in keys ==> Findable(k)
    requires DistinctKeys(keys)
    ensures SplitLines(UpdatedText(text, keys)) == PrintAll(Updated(ParseAll(SplitLines(text)), keys))
  {
    hide Parse, Print;
    var old_ := SplitLines(text);
    var new_ := Updated(ParseAll(old_), keys);
    forall l | l in PrintAll(new_) ensures NoBreak(l) {
      var i :| 0 <= i < |new_| && Print(new_[i]) == l;
      if new_[i] in keys {
        assert Findable(new_[i]);
      } else {
        MissingIs(ParseAll(old_), keys);
        assert i < |old_|;
        ReplacedIs(ParseAll(old_)[i], keys);
        assert new_[i] == Parse(old_[i], None) && old_[i] in old_;
        PrintKeepsLine(old_[i]);
      }
    }
    JoinIsUnlines(PrintAll(new_));
    SplitUnlines(PrintAll(new_));
  }

  /** Updating a file with keys that can be found again leaves the same text when it is
      done again, whatever else the file holds. */
  lemma FileUpdateIsIdempotent(text: string, keys: seq<KeyLine>)
    requires DistinctKeys(keys) && forall k :: k in keys ==> Findable(k)
    ensures UpdatedText(UpdatedText(text, keys), keys) == UpdatedText(text, keys)
  {
    hide Parse, Print, Findable;
    var old_ := SplitLines(text);
    var new_ := Updated(ParseAll(old_), keys);
    UpdatedLines(text, keys);
    var back := ParseAll(PrintAll(new_));
    forall k | k in keys ensures HasBase64(back, k.base64) {
      KeyReadBack(old_, keys, k);
    }
    NothingMissing(back, keys);
    forall i | 0 <= i < |new_| ensures Print(Updated(back, keys)[i]) == Print(new_[i]) {
      EntryStays(old_, keys, i);
    }
    assert PrintAll(Updated(back, keys)) == PrintAll(new_);
  }

  predicate OneLiners(keys: seq<KeyLine>) {
    forall k :: k in keys ==> NoBreak(Print(k))
  }

  lemma FreshFile(keys: seq<KeyLine>)
    ensures UpdatedText("", keys) == Unlines(PrintAll(keys))
  {
    hide Print, NoBreak, Missing, Join, Unlines;
    assert ParseAll(SplitLines("")) == [];
    AllMissing(keys);
    assert Updated([], keys) == keys;
    JoinIsUnlines(PrintAll(keys));
  }

  lemma {:induction false} AllMissing(keys: seq<KeyLine>)
    ensures Missing([], keys) == keys
  {
    if keys != [] {
      AllMissing(keys[1..]);
    }
  }

  lemma {:induction false} MissingFrom(old_: seq<KeyLine>, keys: seq<KeyLine>)
    ensures Missing(old_, keys) == [] ==> forall k :: k in keys ==> HasBase64(old_, k.base64)
  {
    if keys != [] {
      MissingFrom(old_, keys[1..]);
      assert keys == [keys[0]] + keys[1..];
    }
  }

  /** The lines that the second update of an empty file leaves are those of the first. */
  lemma SameLines(keys: seq<KeyLine>)
    requires OneLiners(keys)
    requires UpdatedText(UpdatedText("", keys), keys) == UpdatedText("", keys)
    ensures PrintAll(Updated(ParseAll(PrintAll(keys)), keys)) == PrintAll(keys)
  {
    hide Parse, Print, NoBreak, Unlines;
    var back := ParseAll(PrintAll(keys));
    var again := Updated(back, keys);
    FreshFile(keys);
    SplitUnlines(PrintAll(keys));
    JoinIsUnlines(PrintAll(again));
    forall l | l in PrintAll(again) ensures NoBreak(l) {
      var i :| 0 <= i < |again| && Print(again[i]) == l;
      AgainIsOneLine(keys, i);
    }
    SplitUnlines(PrintAll(again));
  }

  lemma AgainIsOneLine(keys: seq<KeyLine>, i: nat)
    requires OneLiners(keys) && i < |Updated(ParseAll(PrintAll(keys)), keys)|
    ensures NoBreak(Print(Updated(ParseAll(PrintAll(keys)), keys)[i]))
  {
    hide Parse, Print, NoBreak;
    var back := ParseAll(PrintAll(keys));
    var e := Updated(back, keys)[i];
    MissingIs(back, keys);
    if i < |back| {
      ReplacedByKey(back[i], keys);
      if e == back[i] {
        assert back[i] == Parse(Print(keys[i]), None) && keys[i] in keys;
        PrintKeepsLine(Print(keys[i]));
      }
    } else {
      assert e in Missing(back, keys);
    }
  }

  lemma {:induction false} ReplacedByKey(ent: KeyLine, keys: seq<KeyLine>)
    ensures Replaced(ent, keys) == ent || Replaced(ent, keys) in keys
    decreases |keys|
  {
    if keys != [] && Valid(ent) {
      ReplacedByKey(if keys[0].base64 == ent.base64 then keys[0] else ent, keys[1..]);
    }
  }

  lemma Holder(es: seq<KeyLine>, b: string) returns (j: nat)
    requires HasBase64(es, b)
    ensures j < |es| && Valid(es[j]) && es[j].base64 == b
  {
    var e :| e in es && Valid(e) && e.base64 == b;
    j :| 0 <= j < |es| && es[j] == e;
  }

  lemma PrintedAt(es: seq<KeyLine>, i: nat)
    requires i < |es|
    ensures PrintAll(es)[i] == Print(es[i])
  {
    hide Print;
  }

  lemma NoneIsMissing(back: seq<KeyLine>, keys: seq<KeyLine>)
    requires |Updated(back, keys)| == |back|
    ensures Missing(back, keys) == [] && forall i :: 0 <= i < |back| ==> Updated(back, keys)[i] == Replaced(back[i], keys)
  {
    hide Missing, Replaced;
  }

  lemma StableIsFindable(keys: seq<KeyLine>, i: nat)
    requires DistinctKeys(keys) && OneLiners(keys) && i < |keys|
    requires PrintAll(Updated(ParseAll(PrintAll(keys)), keys)) == PrintAll(keys)
    ensures Findable(keys[i])
  {
    hide Parse, Print, NoBreak, Replaced, Missing, HasBase64, Updated, PrintAll, ParseAll;
    var k, back := keys[i], ParseAll(PrintAll(keys));
    var again := Updated(back, keys);
    assert |again| == |PrintAll(again)| == |keys| by { PrintedLength(again); PrintedLength(keys); }
    assert |back| == |keys| by { PrintedLength(keys); }
    assert k in keys;
    NoneIsMissing(back, keys);
    MissingFrom(back, keys);
    var j := Holder(back, k.base64);
    ReplacedIs(back[j], keys);
    PrintedAt(again, j);
    PrintedAt(keys, j);
    assert Print(keys[j]) == Print(k);
    assert back[j] == Parse(Print(k), None);
  }

  lemma PrintedLength(es: seq<KeyLine>)
    ensures |PrintAll(es)| == |es|
  {
    hide Print;
  }

  /** Keys on one line each can be put into every file twice, with the same outcome as once,
      exactly when each of them is found again by its base64; an empty file already tells. */
  lemma FileUpdateIsIdempotentIff(keys: seq<KeyLine>)
    requires DistinctKeys(keys) && OneLiners(keys)
    ensures (forall text :: UpdatedText(UpdatedText(text, keys), keys) == UpdatedText(text, keys))
            <==> forall k :: k in keys ==> Findable(k)
  {
    hide UpdatedText, Findable, Print, NoBreak;
    if forall k :: k in keys ==> Findable(k) {
      forall text ensures UpdatedText(UpdatedText(text, keys), keys) == UpdatedText(text, keys) {
        FileUpdateIsIdempotent(text, keys);
      }
    }
    if UpdatedText(UpdatedText("", keys), keys) == UpdatedText("", keys) {
      SameLines(keys);
      forall k | k in keys ensures Findable(k) {
        var i :| 0 <= i < |keys| && keys[i] == k;
        StableIsFindable(keys, i);
      }
    }
  }

  /** The keys as they are set up: each is parsed, all with the same options. */
  function KeysOf(srcs: seq<string>, given: Option<string>): (keys: seq<KeyLine>)
    ensures |keys| == |srcs| && forall i :: 0 <= i < |srcs| ==> keys[i] == Parse(srcs[i], given)
  {
    seq(|srcs|, i requires 0 <= i < |srcs| => Parse(srcs[i], given))
  }

  /** Keys parsed from one line each: if a line can hold the options of all of them, setting
      them up twice is setting them up once, in every file. Without options of the caller's
      that is the only case. */
  lemma SetUpTwice(srcs: seq<string>, given: Option<string>)
    requires (forall src :: src in srcs ==> NoBreak(src)) && DistinctKeys(KeysOf(srcs, given))
    ensures var keys := KeysOf(srcs, given);
            var stable := forall text :: UpdatedText(UpdatedText(text, keys), keys) == UpdatedText(text, keys);
            && ((forall k :: k in keys ==> HoldsOptions(k, given)) ==> stable)
            && (given.None? && stable ==> forall k :: k in keys ==> HoldsOptions(k, None))
  {
    hide Parse, Print, NoBreak, UpdatedText, Storable, Findable, HoldsOptions;
    var keys := KeysOf(srcs, given);
    forall k | k in keys
      ensures HoldsOptions(k, given) ==> Findable(k)
      ensures given.None? ==> NoBreak(Print(k)) && (Findable(k) ==> HoldsOptions(k, given))
    {
      var i :| 0 <= i < |srcs| && keys[i] == k;
      assert srcs[i] in srcs;
      KeyOfIsFindable(srcs[i], given);
    }
    if forall k :: k in keys ==> HoldsOptions(k, given) {
      forall text ensures UpdatedText(UpdatedText(text, keys), keys) == UpdatedText(text, keys) {
        FileUpdateIsIdempotent(text, keys);
      }
    }
    if given.None? {
      FileUpdateIsIdempotentIff(keys);
    }
  }

  lemma KeyOfIsFindable(src: string, given: Option<string>)
    requires NoBreak(src) && Valid(Parse(src, given))
    ensures HoldsOptions(Parse(src, given), given) ==> Findable(Parse(src, given))
    ensures given.None? ==> NoBreak(Print(Parse(src, None))) && (Findable(Parse(src, None)) ==> HoldsOptions(Parse(src, None), None))
  {
    hide Parse, Print, NoBreak, StartsWith, GoodOptions;
    var k := Parse(src, given);
    ParsedIsStorableIff(src, given);
    if Storable(k) {
      StorableIsFindable(k);
    }
    if given.None? {
      PrintKeepsLine(src);
      RoundTripIff(src);
      NoKeyIsNotValid(Print(k));
    }
  }
}
