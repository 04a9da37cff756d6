/** The begin/part/end protocol that every run keeps. */
module PartHandlerLaws {
  import opened Options
  import opened Settings
  import opened PartHandlers

  ghost predicate NoDuplicates(mods: seq<Mod>) {
    forall i, j :: 0 <= i < j < |mods| ==> mods[i] != mods[j]
  }

  /** Every part that reached a handler reached it after its begin. */
  ghost predicate BeginsFirst(calls: seq<Call>) {
    forall i :: 0 <= i < |calls| && calls[i].Handle? ==> Begin(calls[i].mod) in calls[..i]
  }

  /** What holds while handlers are started and the message is walked: the started
      modules that run have had their begin. */
  ghost predicate Live(s: State, frequency: Frequency) {
    BegunIsKnown(s, frequency) && BeginsFirst(s.calls) && (forall m :: End(m) !in s.calls) && NoDuplicates(s.initialized)
  }

  ghost predicate BegunIsKnown(s: State, frequency: Frequency) {
    forall m :: m in s.initialized && Runs(m.c, frequency) ==> Begin(m) in s.calls
  }

  /** Every registered module has been started. */
  ghost predicate Started(s: State) {
    forall t :: t in s.registered ==> s.registered[t] in s.initialized
  }

  lemma CallsGrow(calls: seq<Call>, more: seq<Call>)
    requires BeginsFirst(calls)
    requires forall i :: 0 <= i < |more| && more[i].Handle? ==> Begin(more[i].mod) in calls
    ensures BeginsFirst(calls + more)
  {
    var all := calls + more;
    forall i | 0 <= i < |all| && all[i].Handle? ensures Begin(all[i].mod) in all[..i] {
      if i < |calls| {
        assert all[..i] == calls[..i];
      } else {
        assert all[i] == more[i - |calls|];
        assert calls <= all[..i];
      }
    }
  }

  lemma InitOneLive(s: State, mod: Mod, frequency: Frequency)
    requires Live(s, frequency)
    ensures Live(InitOne(s, mod, frequency), frequency)
  {
    if mod !in s.initialized {
      CallsGrow(s.calls, CallIf(mod, frequency, Begin(mod)));
    }
  }

  lemma AddHandlerLive(s: State, part: Part, frequency: Frequency)
    requires Live(s, frequency) && Started(s)
    ensures Live(AddHandler(s, part, frequency), frequency) && Started(AddHandler(s, part, frequency))
  {
    var i := Import(s, part);
    if i.Some? {
      CallsGrow(s.calls, CallIf(i.value, frequency, Begin(i.value)));
    }
  }

  lemma CallbackLive(s: State, part: Part, partnum: nat, excluded: set<string>, frequency: Frequency)
    requires Live(s, frequency) && Started(s)
    ensures var s' := Callback(s, part, partnum, excluded, frequency); Live(s', frequency) && Started(s')
  {
    if part.ctype !in excluded {
      if part.ctype == PART_HANDLER_TYPE {
        AddHandlerLive(s, part, frequency);
      } else if part.ctype in s.registered {
        var mod := s.registered[part.ctype];
        CallsGrow(s.calls, CallIf(mod, frequency, Handle(mod, part.ctype, partnum)));
      }
    }
  }

  // ---------------------------------------------------------------- the three phases

  /** A part handler's module is the one the interpreter has under its number. */
  ghost predicate Owned(m: Mod, imported: Cache) {
    m.id.PartHandler? ==> m.id.n in imported && imported[m.id.n] == m
  }

  /** The modules a run starts from. A file of the cloud directory may have the name of a
      part handler; the interpreter has then imported it under that name. */
  ghost predicate WellFormed(job: Job, cache: Cache) {
    && (forall m :: m in job.cloudDir ==> Owned(m, cache))
    && (forall m :: m in job.defaults ==> m.id.Default? && m.c.types.Some?)
  }

  lemma {:induction false} RegisterAllFrom(reg: Registry, mods: seq<Mod>, overwrite: bool, t: string)
    requires t in RegisterAll(reg, mods, overwrite)
    ensures (t in reg && RegisterAll(reg, mods, overwrite)[t] == reg[t]) || RegisterAll(reg, mods, overwrite)[t] in mods
  {
    if mods != [] {
      var init := mods[..|mods| - 1];
      if t in RegisterAll(reg, init, overwrite) {
        RegisterAllFrom(reg, init, overwrite, t);
      }
    }
  }

  lemma RegisteredFrom(job: Job, cache: Cache, t: string)
    requires WellFormed(job, cache) && t in Registered(job)
    ensures Registered(job)[t] in job.cloudDir || Registered(job)[t] in job.defaults
    ensures Owned(Registered(job)[t], cache)
  {
    hide Owned, RegisterAll;
    var reg := RegisterAll(map[], job.cloudDir, true);
    RegisterAllFrom(reg, job.defaults, false, t);
    if t in reg {
      RegisterAllFrom(map[], job.cloudDir, true, t);
    }
    DefaultIsOwned(Registered(job)[t], cache);
  }

  lemma DefaultIsOwned(m: Mod, cache: Cache)
    ensures m.id.Default? ==> Owned(m, cache)
  {
  }

  lemma {:induction false} InitAllLive(s: State, order: seq<string>, frequency: Frequency)
    requires Live(s, frequency)
    requires forall t :: t in order ==> t in s.registered
    ensures var s' := InitAll(s, order, frequency);
            && Live(s', frequency) && s'.registered == s.registered
            && (forall t :: t in order ==> s.registered[t] in s'.initialized)
  {
    hide Live;
    if order != [] {
      InitAllLive(s, order[..|order| - 1], frequency);
      var t := order[|order| - 1];
      assert t in order;
      InitOneLive(InitAll(s, order[..|order| - 1], frequency), s.registered[t], frequency);
    }
  }

  lemma InitializedLive(job: Job, cache: Cache, initOrder: seq<string>)
    requires Lists(initOrder, Registered(job))
    ensures var s := Initialized(job, cache, initOrder);
            Live(s, job.frequency) && Started(s) && s.registered == Registered(job)
  {
    InitAllLive(Starting(job, cache), initOrder, job.frequency);
  }

  lemma {:induction false} WalkLive(s: State, parts: seq<Part>, excluded: set<string>, frequency: Frequency)
    requires Live(s, frequency) && Started(s)
    ensures var s' := WalkVisited(s, parts, excluded, frequency); Live(s', frequency) && Started(s')
  {
    if parts != [] {
      WalkLive(s, parts[..|parts| - 1], excluded, frequency);
      CallbackLive(WalkVisited(s, parts[..|parts| - 1], excluded, frequency),
                   parts[|parts| - 1], |parts| - 1, excluded, frequency);
    }
  }

  lemma {:induction false} RemovedOnce(mods: seq<Mod>, mod: Mod)
    requires NoDuplicates(mods)
    ensures NoDuplicates(RemoveFirst(mods, mod))
    ensures forall m :: m in RemoveFirst(mods, mod) <==> m in mods && m != mod
  {
    if mods != [] {
      RemovedOnce(mods[1..], mod);
      assert mods[0] !in mods[1..];
    }
  }

  /** Part of the registry has been gone through: its started modules have had
      their end, once, and nobody else has. */
  ghost predicate Ending(start: State, s: State, order: seq<string>, ends: seq<Call>, frequency: Frequency) {
    && s.registered == start.registered && NoDuplicates(s.initialized)
    && (forall m :: m in s.initialized <==> m in start.initialized && !Listed(start.registered, order, m))
    && s.calls == start.calls + ends && Ends(ends, start.registered, order, frequency)
  }

  ghost predicate Listed(reg: Registry, order: seq<string>, m: Mod) {
    exists t :: t in order && t in reg && reg[t] == m
  }

  ghost predicate Ends(ends: seq<Call>, reg: Registry, order: seq<string>, frequency: Frequency) {
    && (forall c :: c in ends ==> c.End?)
    && (forall m :: EndedOnce(ends, reg, order, frequency, m))
  }

  ghost predicate EndedOnce(ends: seq<Call>, reg: Registry, order: seq<string>, frequency: Frequency, m: Mod) {
    multiset(ends)[End(m)] == if Listed(reg, order, m) && Runs(m.c, frequency) then 1 else 0
  }

  lemma {:induction false} FinalizeEnds(start: State, order: seq<string>, frequency: Frequency) returns (ends: seq<Call>)
    requires Started(start) && NoDuplicates(start.initialized)
    requires forall t :: t in order ==> t in start.registered
    ensures Ending(start, FinalizeAll(start, order, frequency), order, ends, frequency)
  {
    ends := [];
    if order == [] {
      assert start.calls == start.calls + [];
      assert forall m :: EndedOnce([], start.registered, order, frequency, m);
    } else {
      var init, t := order[..|order| - 1], order[|order| - 1];
      var before := FinalizeEnds(start, init, frequency);
      assert t in order && init + [t] == order;
      ends := FinalizeEndsOne(start, FinalizeAll(start, init, frequency), init, before, t, frequency);
    }
  }

  lemma ListedMore(reg: Registry, order: seq<string>, t: string)
    requires t in reg
    ensures forall m :: Listed(reg, order + [t], m) <==> Listed(reg, order, m) || m == reg[t]
  {
    forall m ensures Listed(reg, order + [t], m) <==> Listed(reg, order, m) || m == reg[t] {
      assert t in order + [t];
      if Listed(reg, order, m) {
        var u :| u in order && u in reg && reg[u] == m;
        assert u in order + [t];
      }
    }
  }

  lemma EndsMore(ends: seq<Call>, reg: Registry, order: seq<string>, t: string, frequency: Frequency)
    requires t in reg && Ends(ends, reg, order, frequency)
    ensures Listed(reg, order, reg[t]) ==> Ends(ends, reg, order + [t], frequency)
    ensures !Listed(reg, order, reg[t]) ==> Ends(ends + CallIf(reg[t], frequency, End(reg[t])), reg, order + [t], frequency)
  {
    var mod := reg[t];
    var more := CallIf(mod, frequency, End(mod));
    ListedMore(reg, order, t);
    forall m
      ensures Listed(reg, order, mod) ==> EndedOnce(ends, reg, order + [t], frequency, m)
      ensures !Listed(reg, order, mod) ==> EndedOnce(ends + more, reg, order + [t], frequency, m)
    {
      assert EndedOnce(ends, reg, order, frequency, m);
      assert multiset(ends + more) == multiset(ends) + multiset(more);
    }
  }

  lemma FinalizeEndsOne(start: State, s: State, order: seq<string>, ends: seq<Call>, t: string, frequency: Frequency)
    returns (ends': seq<Call>)
    requires Started(start) && t in start.registered
    requires Ending(start, s, order, ends, frequency)
    ensures Ending(start, FinalizeOne(s, start.registered[t], frequency), order + [t], ends', frequency)
  {
    var mod := start.registered[t];
    ListedMore(start.registered, order, t);
    EndsMore(ends, start.registered, order, t, frequency);
    ends' := ends;
    if mod in s.initialized {
      RemovedOnce(s.initialized, mod);
      ends' := ends + CallIf(mod, frequency, End(mod));
    }
  }

  // ---------------------------------------------------------------- begins

  ghost predicate BeginOnce(calls: seq<Call>) {
    forall m :: multiset(calls)[Begin(m)] <= 1
  }

  predicate AddsHandler(part: Part, excluded: set<string>) {
    part.ctype == PART_HANDLER_TYPE && part.ctype !in excluded
  }

  /** How far a run has come with its part handlers: the number of the next one, and
      the module it is stuck on, if it has imported one that it cannot register. */
  datatype Progress = Progress(count: nat, stuck: Option<Contents>)

  /** A part handler imports the module the interpreter has under its number and only
      failing that its own payload. */
  function Advance(p: Progress, cache: Cache, part: Part): Progress {
    if p.stuck.Some? then p
    else
      var c := if p.count in cache then Some(cache[p.count].c) else part.module_;
      if c.None? then p
      else if c.value.types.None? then p.(stuck := c)
      else p.(count := p.count + 1)
  }

  function ProgressOf(parts: seq<Part>, cache: Cache, excluded: set<string>): Progress {
    if parts == [] then Progress(0, None)
    else
      var before, last := ProgressOf(parts[..|parts| - 1], cache, excluded), parts[|parts| - 1];
      if AddsHandler(last, excluded) then Advance(before, cache, last) else before
  }

  ghost predicate RegisteredIn(reg: Registry, m: Mod) {
    exists t :: t in reg && reg[t] == m
  }

  /** The next part handler begins a module again that does run: the one the run is stuck
      on, or one of those it started with, imported under the part handler's name. */
  ghost predicate Again(p: Progress, cache: Cache, reg: Registry, frequency: Frequency) {
    if p.stuck.Some? then Runs(p.stuck.value, frequency)
    else p.count in cache && RegisteredIn(reg, cache[p.count]) && Runs(cache[p.count].c, frequency)
  }

  ghost predicate Restarts(parts: seq<Part>, cache: Cache, reg: Registry, excluded: set<string>, frequency: Frequency) {
    exists j :: 0 <= j < |parts| && RestartsAt(parts, j, cache, reg, excluded, frequency)
  }

  ghost predicate RestartsAt(parts: seq<Part>, j: nat, cache: Cache, reg: Registry, excluded: set<string>, frequency: Frequency)
    requires j < |parts|
  {
    AddsHandler(parts[j], excluded) && Again(ProgressOf(parts[..j], cache, excluded), cache, reg, frequency)
  }

  /** No module goes by two numbers, and one made for a part handler by its own. */
  ghost predicate GoodCache(cache: Cache) {
    && (forall n :: n in cache && cache[n].id.PartHandler? ==> cache[n].id.n == n)
    && (forall m, n :: m in cache && n in cache && cache[m] == cache[n] ==> m == n)
  }

  /** The state has come as far as `p` says. From the next number on the interpreter
      knows what it knew at the start, except for the module the run is stuck on. */
  ghost predicate Numbered(s: State, cache: Cache, reg: Registry, p: Progress, frequency: Frequency) {
    && s.count == p.count && GoodCache(s.imported)
    && (p.stuck.None? ==> KnownFrom(s.imported, cache, s.count))
    && (p.stuck.Some? ==>
          && s.count in s.imported && s.imported[s.count].c == p.stuck.value && p.stuck.value.types.None?
          && (Runs(p.stuck.value, frequency) ==> Begin(s.imported[s.count]) in s.calls))
    && BegunBelow(s.calls, reg, s.imported, if p.stuck.Some? then p.count + 1 else p.count)
    && StartBegun(s.calls, reg, frequency)
  }

  /** What runs of the modules of the start has been begun. */
  ghost predicate StartBegun(calls: seq<Call>, reg: Registry, frequency: Frequency) {
    forall m :: RegisteredIn(reg, m) && Runs(m.c, frequency) ==> Begin(m) in calls
  }

  ghost predicate KnownFrom(imported: Cache, cache: Cache, k: nat) {
    forall n: nat :: n >= k ==> (n in imported <==> n in cache) && (n in cache ==> imported[n] == cache[n])
  }

  /** Only modules of the start, and part handlers of lower numbers, have been begun. */
  ghost predicate BegunBelow(calls: seq<Call>, reg: Registry, imported: Cache, k: nat) {
    forall m :: Begin(m) in calls ==> RegisteredIn(reg, m) || ImportedBelow(m, imported, k)
  }

  ghost predicate ImportedBelow(m: Mod, imported: Cache, k: nat) {
    exists n :: n in imported && n < k && imported[n] == m
  }

  /** The modules of the start are the interpreter's own where they have such a name. */
  ghost predicate OwnedIn(reg: Registry, cache: Cache) {
    forall t :: t in reg ==> Owned(reg[t], cache)
  }

  lemma BegunMore(calls: seq<Call>, reg: Registry, a: Cache, k: nat, b: Cache, l: nat, more: seq<Call>, mod: Mod)
    requires BegunBelow(calls, reg, a, k) && Extends(a, b) && k <= l
    requires forall c :: c in more && c.Begin? ==> c.mod == mod
    requires ImportedBelow(mod, b, l)
    ensures BegunBelow(calls + more, reg, b, l)
  {
    forall m | Begin(m) in calls + more && !RegisteredIn(reg, m) ensures ImportedBelow(m, b, l) {
      if Begin(m) in calls {
        var n :| n in a && n < k && a[n] == m;
        assert n in b && b[n] == m;
      }
    }
  }

  ghost predicate Extends(cache: Cache, imported: Cache) {
    forall n :: n in cache ==> n in imported && imported[n] == cache[n]
  }

  lemma ImportGood(s: State, part: Part)
    requires GoodCache(s.imported) && Import(s, part).Some?
    ensures var mod := Import(s, part).value; var imported := s.imported[s.count := mod];
            GoodCache(imported) && Extends(s.imported, imported)
  {
  }

  lemma AddHandlerNumbered(s: State, cache: Cache, reg: Registry, p: Progress, part: Part, frequency: Frequency)
    requires Numbered(s, cache, reg, p, frequency)
    ensures Numbered(AddHandler(s, part, frequency), cache, reg, Advance(p, cache, part), frequency)
  {
    hide Numbered, AddHandler, Advance;
    if p.stuck.Some? {
      StaysStuck(s, cache, reg, p, part, frequency);
      AdvanceStuck(p, cache, part);
    } else {
      MovesOn(s, cache, reg, p, part, frequency);
    }
  }

  lemma AdvanceStuck(p: Progress, cache: Cache, part: Part)
    ensures p.stuck.Some? ==> Advance(p, cache, part) == p
  {
  }

  lemma StaysStuck(s: State, cache: Cache, reg: Registry, p: Progress, part: Part, frequency: Frequency)
    requires Numbered(s, cache, reg, p, frequency) && p.stuck.Some?
    ensures Numbered(AddHandler(s, part, frequency), cache, reg, p, frequency)
  {
    hide GoodCache, Extends, BegunBelow, ImportedBelow, Runs, KnownFrom, RegisteredIn, Register, StartBegun;
    var mod, s' := s.imported[s.count], AddHandler(s, part, frequency);
    var more := CallIf(mod, frequency, Begin(mod));
    ImportGood(s, part);
    ImportedAt(mod, s'.imported, s.count);
    BegunMore(s.calls, reg, s.imported, p.count + 1, s'.imported, p.count + 1, more, mod);
    StartBegunMore(s.calls, reg, more, frequency);
  }

  lemma MovesOn(s: State, cache: Cache, reg: Registry, p: Progress, part: Part, frequency: Frequency)
    requires Numbered(s, cache, reg, p, frequency) && p.stuck.None?
    ensures Numbered(AddHandler(s, part, frequency), cache, reg, Advance(p, cache, part), frequency)
  {
    hide GoodCache, Extends, BegunBelow, ImportedBelow, Runs, KnownFrom, RegisteredIn, Register, StartBegun;
    var s', i := AddHandler(s, part, frequency), Import(s, part);
    KnownAt(s.imported, cache, s.count);
    if i.Some? {
      ImportGood(s, part);
      var more := CallIf(i.value, frequency, Begin(i.value));
      ImportedAt(i.value, s'.imported, s.count);
      BegunMore(s.calls, reg, s.imported, p.count, s'.imported, s.count + 1, more, i.value);
      StartBegunMore(s.calls, reg, more, frequency);
      KnownAbove(s.imported, cache, s.count, i.value);
    }
  }

  lemma StartBegunMore(calls: seq<Call>, reg: Registry, more: seq<Call>, frequency: Frequency)
    requires StartBegun(calls, reg, frequency)
    ensures StartBegun(calls + more, reg, frequency)
  {
    hide RegisteredIn, Runs;
  }

  lemma KnownAt(imported: Cache, cache: Cache, k: nat)
    requires KnownFrom(imported, cache, k)
    ensures k in imported <==> k in cache
    ensures k in cache ==> imported[k] == cache[k]
  {
  }

  lemma KnownAbove(imported: Cache, cache: Cache, k: nat, mod: Mod)
    requires KnownFrom(imported, cache, k)
    ensures KnownFrom(imported[k := mod], cache, k + 1)
  {
  }

  lemma ImportedAt(m: Mod, imported: Cache, k: nat)
    requires k in imported && imported[k] == m
    ensures ImportedBelow(m, imported, k + 1)
  {
  }

  lemma CallbackNumbered(s: State, cache: Cache, reg: Registry, p: Progress, part: Part, partnum: nat, excluded: set<string>, frequency: Frequency)
    requires Numbered(s, cache, reg, p, frequency)
    ensures Numbered(Callback(s, part, partnum, excluded, frequency), cache, reg,
                     if AddsHandler(part, excluded) then Advance(p, cache, part) else p, frequency)
  {
    hide AddHandler, Advance, RegisteredIn, ImportedBelow;
    if AddsHandler(part, excluded) {
      AddHandlerNumbered(s, cache, reg, p, part, frequency);
    }
  }

  lemma {:induction false} WalkNumbered(s: State, cache: Cache, reg: Registry, parts: seq<Part>, excluded: set<string>, frequency: Frequency)
    requires Numbered(s, cache, reg, Progress(0, None), frequency)
    ensures Numbered(WalkVisited(s, parts, excluded, frequency), cache, reg, ProgressOf(parts, cache, excluded), frequency)
  {
    hide Numbered, Callback, Advance;
    if parts != [] {
      var init := parts[..|parts| - 1];
      WalkNumbered(s, cache, reg, init, excluded, frequency);
      CallbackNumbered(WalkVisited(s, init, excluded, frequency), cache, reg, ProgressOf(init, cache, excluded),
                       parts[|parts| - 1], |parts| - 1, excluded, frequency);
    }
  }

  lemma RestartsMore(parts: seq<Part>, cache: Cache, reg: Registry, excluded: set<string>, frequency: Frequency)
    requires parts != []
    ensures Restarts(parts, cache, reg, excluded, frequency)
            <==> || Restarts(parts[..|parts| - 1], cache, reg, excluded, frequency)
                 || RestartsAt(parts, |parts| - 1, cache, reg, excluded, frequency)
  {
    hide Again, ProgressOf, AddsHandler;
    var init := parts[..|parts| - 1];
    forall j | 0 <= j < |init|
      ensures RestartsAt(parts, j, cache, reg, excluded, frequency) == RestartsAt(init, j, cache, reg, excluded, frequency)
    {
      assert parts[..j] == init[..j];
    }
  }

  /** The module that the next part handler begins has been begun before exactly when that
      is to begin it again. */
  lemma BegunIff(s: State, cache: Cache, reg: Registry, p: Progress, part: Part, frequency: Frequency)
    requires Numbered(s, cache, reg, p, frequency) && OwnedIn(reg, cache)
    requires Import(s, part).Some? && Runs(Import(s, part).value.c, frequency)
    ensures Begin(Import(s, part).value) in s.calls <==> Again(p, cache, reg, frequency)
  {
    hide Runs, GoodCache, RegisteredIn, ImportedBelow, OwnedIn;
    var mod := Import(s, part).value;
    if p.stuck.None? {
      if p.count !in cache {
        assert mod == Mod(PartHandler(p.count), mod.c);
        NewIsNotBelow(mod, s.imported, p.count);
        NotRegistered(mod, reg, cache, p.count);
      } else {
        KnownIsNotBelow(s.imported, p.count);
      }
    }
  }

  /** A module made for this number has not been imported under a lower one. */
  lemma NewIsNotBelow(mod: Mod, imported: Cache, k: nat)
    requires GoodCache(imported) && mod.id == PartHandler(k)
    ensures !ImportedBelow(mod, imported, k)
  {
  }

  lemma KnownIsNotBelow(imported: Cache, k: nat)
    requires GoodCache(imported) && k in imported
    ensures !ImportedBelow(imported[k], imported, k)
  {
  }

  lemma NotRegistered(mod: Mod, reg: Registry, cache: Cache, k: nat)
    requires OwnedIn(reg, cache) && mod.id == PartHandler(k) && k !in cache
    ensures !RegisteredIn(reg, mod)
  {
  }

  lemma CallbackBegins(s: State, cache: Cache, reg: Registry, p: Progress, part: Part, partnum: nat, excluded: set<string>, frequency: Frequency)
    requires Numbered(s, cache, reg, p, frequency) && OwnedIn(reg, cache)
    ensures BeginOnce(Callback(s, part, partnum, excluded, frequency).calls)
            <==> BeginOnce(s.calls) && !(AddsHandler(part, excluded) && Again(p, cache, reg, frequency))
  {
    hide BeginOnce, BegunBelow, GoodCache, RegisteredIn, Runs, OwnedIn;
    if AddsHandler(part, excluded) && Import(s, part).Some? {
      var mod := Import(s, part).value;
      BeginsMore(s.calls, CallIf(mod, frequency, Begin(mod)));
      if Runs(mod.c, frequency) {
        BegunIff(s, cache, reg, p, part, frequency);
      }
    } else if part.ctype !in excluded && part.ctype in s.registered && part.ctype != PART_HANDLER_TYPE {
      var mod := s.registered[part.ctype];
      BeginsMore(s.calls, CallIf(mod, frequency, Handle(mod, part.ctype, partnum)));
    }
  }

  lemma BeginsMore(calls: seq<Call>, more: seq<Call>)
    requires |more| <= 1
    ensures BeginOnce(calls + more) <==> BeginOnce(calls) && (more != [] && more[0].Begin? ==> more[0] !in calls)
  {
    assert multiset(calls + more) == multiset(calls) + multiset(more);
    if more == [] {
      assert calls + more == calls;
    } else {
      assert more == [more[0]];
      forall m ensures multiset(calls + more)[Begin(m)] == multiset(calls)[Begin(m)] + if more[0] == Begin(m) then 1 else 0 {}
      if more[0].Begin? && more[0] in calls {
        assert multiset(calls + more)[Begin(more[0].mod)] >= 2;
      }
      if BeginOnce(calls + more) {
        forall m ensures multiset(calls)[Begin(m)] <= 1 {
          assert multiset(calls + more)[Begin(m)] <= 1;
        }
      }
    }
  }

  lemma {:induction false} WalkBegins(s: State, cache: Cache, reg: Registry, parts: seq<Part>, excluded: set<string>, frequency: Frequency)
    requires Numbered(s, cache, reg, Progress(0, None), frequency) && OwnedIn(reg, cache) && BeginOnce(s.calls)
    ensures BeginOnce(WalkVisited(s, parts, excluded, frequency).calls) <==> !Restarts(parts, cache, reg, excluded, frequency)
  {
    hide Numbered, Callback, Advance, BeginOnce, Restarts, Again, OwnedIn;
    if parts == [] {
      NoRestarts(cache, reg, excluded, frequency);
    } else {
      var init := parts[..|parts| - 1];
      WalkBegins(s, cache, reg, init, excluded, frequency);
      WalkNumbered(s, cache, reg, init, excluded, frequency);
      RestartsMore(parts, cache, reg, excluded, frequency);
      CallbackBegins(WalkVisited(s, init, excluded, frequency), cache, reg, ProgressOf(init, cache, excluded),
                     parts[|parts| - 1], |parts| - 1, excluded, frequency);
    }
  }

  lemma NoRestarts(cache: Cache, reg: Registry, excluded: set<string>, frequency: Frequency)
    ensures !Restarts([], cache, reg, excluded, frequency)
  {
  }

  /** While the registered modules are started, only they have been begun. */
  ghost predicate OnlyStarted(s: State) {
    && (forall m :: Begin(m) in s.calls ==> m in s.initialized)
    && (forall m :: m in s.initialized ==> RegisteredIn(s.registered, m))
  }

  lemma {:induction false} InitBegins(s: State, order: seq<string>, frequency: Frequency)
    requires OnlyStarted(s) && BeginOnce(s.calls)
    ensures var s' := InitAll(s, order, frequency);
            && OnlyStarted(s') && BeginOnce(s'.calls)
            && s'.registered == s.registered && s'.imported == s.imported && s'.count == s.count
  {
    hide BeginOnce, RegisteredIn;
    if order != [] {
      var init, t := order[..|order| - 1], order[|order| - 1];
      InitBegins(s, init, frequency);
      var before := InitAll(s, init, frequency);
      if t in before.registered {
        var mod := before.registered[t];
        RegisteredUnder(before.registered, t);
        BeginsMore(before.calls, CallIf(mod, frequency, Begin(mod)));
        assert forall c :: c in before.calls + CallIf(mod, frequency, Begin(mod)) ==> c in before.calls || c == Begin(mod);
      }
    }
  }

  lemma RegisteredUnder(reg: Registry, t: string)
    requires t in reg
    ensures RegisteredIn(reg, reg[t])
  {
  }

  // ---------------------------------------------------------------- whole runs

  /** A handler sees parts, and its end, only after its begin; nothing is called
      after an end but further ends. */
  ghost predicate Orderly(calls: seq<Call>) {
    && (forall i :: 0 <= i < |calls| && !calls[i].Begin? ==> Begin(calls[i].mod) in calls[..i])
    && (forall i, j :: 0 <= i < j < |calls| && calls[i].End? ==> calls[j].End?)
  }

  lemma OrderlyEnds(s: State, ends: seq<Call>, order: seq<string>, frequency: Frequency)
    requires Live(s, frequency) && Started(s) && Ends(ends, s.registered, order, frequency)
    ensures Orderly(s.calls + ends)
  {
    var calls := s.calls + ends;
    forall c | c in ends ensures Begin(c.mod) in s.calls {
      assert EndedOnce(ends, s.registered, order, frequency, c.mod);
      assert multiset(ends)[c] > 0;
    }
    forall i | 0 <= i < |calls| && !calls[i].Begin? ensures Begin(calls[i].mod) in calls[..i] {
      if i < |s.calls| {
        assert calls[..i] == s.calls[..i];
        assert calls[i] in s.calls;
      } else {
        assert calls[i] in ends && s.calls <= calls[..i];
      }
    }
    forall i, j | 0 <= i < j < |calls| && calls[i].End? ensures calls[j].End? {
      assert calls[i] !in s.calls;
      assert calls[j] in ends;
    }
  }

  /** Every run is orderly, whatever the interpreter has imported before, whatever the
      handlers claim and wherever the walk stops; and exactly the modules registered in
      the end are finalized, each of them once however many content types it has. */
  lemma RunIsOrderly(run: Run, cache: Cache)
    requires Possible(run, cache)
    ensures var calls := After(run, cache).calls;
            && Orderly(calls)
            && (forall m :: multiset(calls)[End(m)]
                  == if RegisteredIn(Walked(run.job, cache, run.initOrder).registered, m) && Runs(m.c, run.job.frequency)
                     then 1 else 0)
  {
    hide Live, Started, Orderly, Walked, FinalizeAll, NoDuplicates;
    var s, frequency := Walked(run.job, cache, run.initOrder), run.job.frequency;
    WalkedLive(run.job, cache, run.initOrder);
    var ends := FinalizeEnds(s, run.endOrder, frequency);
    OrderlyEnds(s, ends, run.endOrder, frequency);
    forall m ensures multiset(s.calls + ends)[End(m)] == if RegisteredIn(s.registered, m) && Runs(m.c, frequency) then 1 else 0 {
      assert EndedOnce(ends, s.registered, run.endOrder, frequency, m);
      assert multiset(s.calls + ends) == multiset(s.calls) + multiset(ends);
      assert RegisteredIn(s.registered, m) <==> Listed(s.registered, run.endOrder, m);
      NoEndYet(s, frequency, m);
    }
  }

  lemma NoEndYet(s: State, frequency: Frequency, m: Mod)
    requires Live(s, frequency)
    ensures multiset(s.calls)[End(m)] == 0
  {
  }

  lemma InitializedBegins(job: Job, cache: Cache, initOrder: seq<string>)
    requires GoodCache(cache) && Lists(initOrder, Registered(job))
    ensures var s := Initialized(job, cache, initOrder);
            BeginOnce(s.calls) && Numbered(s, cache, Registered(job), Progress(0, None), job.frequency)
  {
    hide Registered, InitAll, Lists, GoodCache;
    InitializedLive(job, cache, initOrder);
    InitBegins(Starting(job, cache), initOrder, job.frequency);
  }

  lemma RegisteredOwned(job: Job, cache: Cache)
    requires WellFormed(job, cache)
    ensures OwnedIn(Registered(job), cache)
  {
    hide Registered, WellFormed, Owned;
    forall t | t in Registered(job) ensures Owned(Registered(job)[t], cache) {
      RegisteredFrom(job, cache, t);
    }
  }

  lemma WalkedLive(job: Job, cache: Cache, initOrder: seq<string>)
    requires Lists(initOrder, Registered(job))
    ensures var s := Walked(job, cache, initOrder);
            Live(s, job.frequency) && Started(s) && NoDuplicates(s.initialized)
  {
    hide Lists, Started, Initialized, WalkVisited, Visited, Registered, NoDuplicates, BegunIsKnown, BeginsFirst;
    InitializedLive(job, cache, initOrder);
    WalkLive(Initialized(job, cache, initOrder), Visited(job.parts, job.excluded), job.excluded, job.frequency);
  }

  /** Each module gets its begin at most once, exactly unless a part handler comes when the
      run is stuck on a module that runs, or when the interpreter has, under the part
      handler's name, a module that runs and that the run has started with. What it gets
      stuck on is told from its parts and from what was imported before. */
  lemma BeginOnceIff(run: Run, cache: Cache)
    requires WellFormed(run.job, cache) && GoodCache(cache) && Possible(run, cache)
    ensures BeginOnce(After(run, cache).calls)
            <==> !Restarts(Visited(run.job.parts, run.job.excluded), cache, Registered(run.job), run.job.excluded, run.job.frequency)
  {
    hide Live, Started, BeginOnce, Restarts, Initialized, Registered, WalkVisited, FinalizeAll, Visited, WellFormed,
      NoDuplicates, Ends, Numbered, GoodCache, OwnedIn;
    var job := run.job;
    InitializedBegins(job, cache, run.initOrder);
    RegisteredOwned(job, cache);
    WalkBegins(Initialized(job, cache, run.initOrder), cache, Registered(job), Visited(job.parts, job.excluded), job.excluded, job.frequency);
    WalkedLive(job, cache, run.initOrder);
    var s := Walked(job, cache, run.initOrder);
    var ends := FinalizeEnds(s, run.endOrder, job.frequency);
    EndsAreEnds(ends, s.registered, run.endOrder, job.frequency);
    EndsAreNotBegins(s.calls, ends);
  }

  lemma EndsAreEnds(ends: seq<Call>, reg: Registry, order: seq<string>, frequency: Frequency)
    requires Ends(ends, reg, order, frequency)
    ensures forall c :: c in ends ==> c.End?
  {
    hide EndedOnce;
  }

  lemma EndsAreNotBegins(calls: seq<Call>, ends: seq<Call>)
    requires forall c :: c in ends ==> c.End?
    ensures BeginOnce(calls + ends) <==> BeginOnce(calls)
  {
    forall m ensures multiset(calls + ends)[Begin(m)] == multiset(calls)[Begin(m)] {
      assert multiset(calls + ends) == multiset(calls) + multiset(ends);
      assert Begin(m) !in ends;
    }
    if BeginOnce(calls + ends) {
      forall m ensures multiset(calls)[Begin(m)] <= 1 {
        assert multiset(calls + ends)[Begin(m)] <= 1;
      }
    }
  }

  // ---------------------------------------------------------------- the runs of a process

  ghost predicate AllOwned(s: State) {
    && GoodCache(s.imported)
    && OwnedIn(s.registered, s.imported)
    && (forall c :: c in s.calls ==> Owned(c.mod, s.imported))
  }

  lemma OwnedGrows(m: Mod, a: Cache, b: Cache)
    requires Owned(m, a) && Extends(a, b)
    ensures Owned(m, b)
  {
  }

  lemma ImportOwned(s: State, part: Part)
    requires GoodCache(s.imported) && Import(s, part).Some?
    ensures var mod := Import(s, part).value; Owned(mod, s.imported[s.count := mod])
  {
  }

  lemma AddHandlerOwned(s: State, part: Part, frequency: Frequency)
    requires AllOwned(s)
    ensures var s' := AddHandler(s, part, frequency); AllOwned(s') && Extends(s.imported, s'.imported)
  {
    hide Owned, Extends, GoodCache, Import, Runs;
    var s' := AddHandler(s, part, frequency);
    if Import(s, part).Some? {
      var mod := Import(s, part).value;
      ImportGood(s, part);
      ImportOwned(s, part);
      forall c | c in s'.calls ensures Owned(c.mod, s'.imported) {
        if c in s.calls {
          OwnedGrows(c.mod, s.imported, s'.imported);
        }
      }
      forall t | t in s'.registered ensures Owned(s'.registered[t], s'.imported) {
        if s'.registered[t] != mod {
          assert s'.registered[t] == s.registered[t];
          OwnedGrows(s.registered[t], s.imported, s'.imported);
        }
      }
    } else {
      ExtendsItself(s.imported);
    }
  }

  lemma ExtendsItself(a: Cache)
    ensures Extends(a, a)
  {
  }

  lemma CallbackOwned(s: State, part: Part, partnum: nat, excluded: set<string>, frequency: Frequency)
    requires AllOwned(s)
    ensures var s' := Callback(s, part, partnum, excluded, frequency); AllOwned(s') && Extends(s.imported, s'.imported)
  {
    hide Owned, Extends, AddHandler, GoodCache, Runs;
    ExtendsItself(s.imported);
    if part.ctype !in excluded && part.ctype == PART_HANDLER_TYPE {
      AddHandlerOwned(s, part, frequency);
    }
  }

  lemma {:induction false} WalkOwned(s: State, parts: seq<Part>, excluded: set<string>, frequency: Frequency)
    requires AllOwned(s)
    ensures var s' := WalkVisited(s, parts, excluded, frequency); AllOwned(s') && Extends(s.imported, s'.imported)
  {
    hide Callback, AllOwned;
    if parts != [] {
      WalkOwned(s, parts[..|parts| - 1], excluded, frequency);
      CallbackOwned(WalkVisited(s, parts[..|parts| - 1], excluded, frequency),
                    parts[|parts| - 1], |parts| - 1, excluded, frequency);
    }
  }

  lemma {:induction false} InitOwned(s: State, order: seq<string>, frequency: Frequency)
    requires AllOwned(s)
    ensures var s' := InitAll(s, order, frequency); AllOwned(s') && s'.imported == s.imported
  {
    if order != [] {
      InitOwned(s, order[..|order| - 1], frequency);
    }
  }

  lemma {:induction false} FinalizeOwned(s: State, order: seq<string>, frequency: Frequency)
    requires AllOwned(s)
    ensures var s' := FinalizeAll(s, order, frequency); AllOwned(s') && s'.imported == s.imported
  {
    if order != [] {
      FinalizeOwned(s, order[..|order| - 1], frequency);
    }
  }

  lemma RunOwned(run: Run, cache: Cache)
    requires WellFormed(run.job, cache) && GoodCache(cache)
    ensures var s := After(run, cache); AllOwned(s) && Extends(cache, s.imported)
  {
    hide InitAll, WalkVisited, FinalizeAll, Visited, Registered, WellFormed, GoodCache, Extends, OwnedIn;
    var job := run.job;
    RegisteredOwned(job, cache);
    assert AllOwned(Starting(job, cache));
    InitOwned(Starting(job, cache), run.initOrder, job.frequency);
    WalkOwned(Initialized(job, cache, run.initOrder), Visited(job.parts, job.excluded), job.excluded, job.frequency);
    FinalizeOwned(Walked(job, cache, run.initOrder), run.endOrder, job.frequency);
  }

  ghost predicate AllWellFormed(cache: Cache, runs: seq<Run>) {
    forall i :: 0 <= i < |runs| ==> WellFormed(runs[i].job, CacheAfter(cache, runs[..i]))
  }

  lemma ExtendsIsTransitive(a: Cache, b: Cache, c: Cache)
    ensures Extends(a, b) && Extends(b, c) ==> Extends(a, c)
  {
  }

  /** What the interpreter knows only grows over the runs of a process. */
  lemma {:induction false} CacheGrows(cache: Cache, runs: seq<Run>, i: nat, j: nat)
    requires AllWellFormed(cache, runs) && GoodCache(cache) && i <= j <= |runs|
    ensures GoodCache(CacheAfter(cache, runs[..j])) && Extends(CacheAfter(cache, runs[..i]), CacheAfter(cache, runs[..j]))
    decreases j
  {
    hide WellFormed, After, GoodCache, Extends, CacheAfter, AllOwned;
    ExtendsItself(CacheAfter(cache, runs[..i]));
    if j == 0 {
      NoRunsYet(cache, runs);
    } else {
      var known := CacheAfter(cache, runs[..j - 1]);
      CacheStep(cache, runs, j - 1);
      CacheGrows(cache, runs, if i < j then i else j - 1, j - 1);
      RunOwned(runs[j - 1], known);
      OwnedIsGood(After(runs[j - 1], known));
      ExtendsIsTransitive(CacheAfter(cache, runs[..i]), known, CacheAfter(cache, runs[..j]));
    }
  }

  lemma NoRunsYet(cache: Cache, runs: seq<Run>)
    ensures CacheAfter(cache, runs[..0]) == cache
  {
  }

  lemma CacheStep(cache: Cache, runs: seq<Run>, j: nat)
    requires j < |runs|
    ensures CacheAfter(cache, runs[..j + 1]) == After(runs[j], CacheAfter(cache, runs[..j])).imported
  {
    hide After;
    assert runs[..j + 1][..j] == runs[..j];
  }

  lemma OwnedIsGood(s: State)
    ensures AllOwned(s) ==> GoodCache(s.imported)
  {
    hide GoodCache, OwnedIn;
  }

  /** Every run of a process is orderly, and begins a module twice exactly when it would
      with the imports that the earlier runs leave. */
  lemma ProcessIsOrderly(cache: Cache, runs: seq<Run>, i: nat)
    requires AllWellFormed(cache, runs) && GoodCache(cache) && AllPossible(cache, runs) && i < |runs|
    ensures Orderly(CallsOfRun(cache, runs, i))
    ensures var job, known := runs[i].job, CacheAfter(cache, runs[..i]);
            BeginOnce(CallsOfRun(cache, runs, i))
            <==> !Restarts(Visited(job.parts, job.excluded), known, Registered(job), job.excluded, job.frequency)
  {
    hide WellFormed, After, Orderly, BeginOnce, Restarts, Visited, Possible, GoodCache, Registered;
    CacheGrows(cache, runs, 0, i);
    RunIsOrderly(runs[i], CacheAfter(cache, runs[..i]));
    BeginOnceIff(runs[i], CacheAfter(cache, runs[..i]));
  }

  /** Once some run has imported a part handler under a number, no later run of the
      process calls any other module under it: the payload of its own part handler of
      that number is never used. */
  lemma LaterRunsReuse(cache: Cache, runs: seq<Run>, i: nat, j: nat, c: Call)
    requires AllWellFormed(cache, runs) && GoodCache(cache) && i <= j < |runs|
    requires c in CallsOfRun(cache, runs, j) && c.mod.id.PartHandler?
    ensures var known := CacheAfter(cache, runs[..i]);
            c.mod.id.n in known ==> c.mod == known[c.mod.id.n]
  {
    hide WellFormed, After;
    CacheGrows(cache, runs, i, j);
    RunOwned(runs[j], CacheAfter(cache, runs[..j]));
  }

  // ---------------------------------------------------------------- modules begun twice

  predicate IsPartHandler(part: Part) {
    part.ctype == PART_HANDLER_TYPE && !part.multipart && !part.decodeFails && !part.writeFails
  }

  /** A run over two part handlers and nothing else. */
  function RunOfTwo(a: Part, b: Part): Run {
    Run(Job([], [], [a, b], {}, PerInstance), [], [])
  }

  lemma VisitsBoth(a: Part, b: Part)
    requires IsPartHandler(a) && IsPartHandler(b)
    ensures Visited([a, b], {}) == [a, b]
  {
    assert [a, b][1..] == [b] && [b][1..] == [];
    assert Visited([b], {}) == [b];
  }

  lemma WalkOfTwo(a: Part, b: Part, cache: Cache)
    requires IsPartHandler(a) && IsPartHandler(b)
    ensures var s := State(map[], [], 0, cache, []);
            Walked(RunOfTwo(a, b).job, cache, [])
            == Callback(Callback(s, a, 0, {}, PerInstance), b, 1, {}, PerInstance)
  {
    hide Callback;
    VisitsBoth(a, b);
    var s := State(map[], [], 0, cache, []);
    assert Starting(RunOfTwo(a, b).job, cache) == s;
    assert [a, b][..1] == [a] && [a][..0] == [];
    assert WalkVisited(s, [], {}, PerInstance) == s;
    assert WalkVisited(s, [a], {}, PerInstance) == Callback(s, a, 0, {}, PerInstance);
  }

  /** Whether the second of two part handlers begins a module again. */
  lemma RestartsOfTwo(a: Part, b: Part, cache: Cache)
    requires IsPartHandler(a) && IsPartHandler(b)
    ensures var stuck := Advance(Progress(0, None), cache, a).stuck;
            Restarts([a, b], cache, map[], {}, PerInstance) <==> stuck.Some? && Runs(stuck.value, PerInstance)
  {
    hide Advance, Runs;
    var parts := [a, b];
    assert parts[..0] == [] && parts[..1] == [a] && [a][..0] == [];
    assert ProgressOf([], cache, {}) == Progress(0, None);
    assert ProgressOf([a], cache, {}) == Advance(Progress(0, None), cache, a);
    assert !RestartsAt(parts, 0, cache, map[], {}, PerInstance);
    var stuck := Advance(Progress(0, None), cache, a).stuck;
    assert RestartsAt(parts, 1, cache, map[], {}, PerInstance) <==> stuck.Some? && Runs(stuck.value, PerInstance);
  }

  /** Runs in any process, and does not list its content types. */
  const UNREADABLE := Contents(None, PerAlways, 1)

  /** Runs in any process, and lists no content type at all. */
  const IDLE := Contents(Some({}), PerAlways, 1)

  function Handler(c: Contents): Part {
    Part(PART_HANDLER_TYPE, false, Some(c), false, false)
  }

  /** A run that gets stuck on the first of two part handlers registers nothing. */
  lemma StuckRegistersNothing(a: Part, b: Part, cache: Cache)
    requires IsPartHandler(a) && IsPartHandler(b) && GoodCache(cache)
    requires Advance(Progress(0, None), cache, a).stuck.Some?
    ensures Possible(RunOfTwo(a, b), cache)
  {
    WalkOfTwo(a, b, cache);
  }

  /** The smallest message for which a module gets two begins: a part handler whose
      content types cannot be read, and after it any part handler at all. */
  lemma TwoBegins(second: Part)
    requires IsPartHandler(second)
    ensures var run := RunOfTwo(Handler(UNREADABLE), second);
            Possible(run, map[]) && !BeginOnce(After(run, map[]).calls)
  {
    hide BeginOnce, After, Possible, Visited, Restarts;
    StuckRegistersNothing(Handler(UNREADABLE), second, map[]);
    VisitsBoth(Handler(UNREADABLE), second);
    RestartsOfTwo(Handler(UNREADABLE), second, map[]);
    BeginOnceIff(RunOfTwo(Handler(UNREADABLE), second), map[]);
  }

  /** A file of the cloud directory that has the name of the first part handler. */
  function NamedAlike(t: string): Mod {
    Mod(CloudDir("part-handler-000.py"), Contents(Some({t}), PerAlways, 1))
  }

  /** The run with that file and one part handler. */
  function RunNamedAlike(a: Part, t: string): Run {
    Run(Job([NamedAlike(t)], [], [a], {}, PerInstance), [t], [t])
  }

  lemma NamedAlikeIsRegistered(a: Part, t: string)
    ensures Registered(RunNamedAlike(a, t).job) == map[t := NamedAlike(t)]
  {
    var m := NamedAlike(t);
    assert [m][..0] == [];
    assert RegisterAll(map[], [m], true) == Register(RegisterAll(map[], [], true), m, true);
    assert Register(map[], m, true) == map[t := m];
  }

  /** The other cause of a second begin: any one part handler at all, when the cloud directory
      has a file of its name, which the interpreter then imports in its place. */
  lemma CloudDirBeginsTwice(a: Part, t: string)
    requires IsPartHandler(a)
    ensures var m := NamedAlike(t); var cache := map[0 := m];
            var run := RunNamedAlike(a, t);
            && WellFormed(run.job, cache) && GoodCache(cache) && Possible(run, cache)
            && !BeginOnce(After(run, cache).calls)
  {
    hide BeginOnce, After, Visited, Restarts, Registered, Possible;
    var m, run := NamedAlike(t), RunNamedAlike(a, t);
    var cache, reg := map[0 := m], map[t := m];
    NamedAlikeIsRegistered(a, t);
    VisitsOne(a);
    NamedAlikeIsPossible(a, t);
    assert [a][..0] == [];
    assert t in reg && reg[t] == m;
    RegisteredUnder(reg, t);
    assert RestartsAt([a], 0, cache, reg, {}, PerInstance);
    RestartsFirst(a, cache, reg);
    BeginOnceIff(run, cache);
  }

  lemma RestartsFirst(a: Part, cache: Cache, reg: Registry)
    requires RestartsAt([a], 0, cache, reg, {}, PerInstance)
    ensures Restarts([a], cache, reg, {}, PerInstance)
  {
  }

  lemma NamedAlikeIsPossible(a: Part, t: string)
    requires IsPartHandler(a)
    ensures Possible(RunNamedAlike(a, t), map[0 := NamedAlike(t)])
  {
    hide Runs;
    var m, job := NamedAlike(t), RunNamedAlike(a, t).job;
    var cache, reg := map[0 := m], map[t := m];
    NamedAlikeIsRegistered(a, t);
    VisitsOne(a);
    InitializedLive(job, cache, [t]);
    var s := Initialized(job, cache, [t]);
    assert [a][..0] == [] && WalkVisited(s, [], {}, PerInstance) == s;
    assert Walked(job, cache, [t]) == AddHandler(s, a, PerInstance);
    InitKeeps(Starting(job, cache), [t], PerInstance);
    assert Register(reg, m, true) == reg;
  }

  lemma {:induction false} InitKeeps(s: State, order: seq<string>, frequency: Frequency)
    ensures var s' := InitAll(s, order, frequency); s'.imported == s.imported && s'.count == s.count
  {
    if order != [] {
      InitKeeps(s, order[..|order| - 1], frequency);
    }
  }

  lemma VisitsOne(a: Part)
    requires IsPartHandler(a)
    ensures Visited([a], {}) == [a]
  {
    assert [a][1..] == [];
  }

  function RunOfOne(a: Part): Run {
    Run(Job([], [], [a], {}, PerInstance), [], [])
  }

  /** What a run over one part handler that lists no content types leaves behind. */
  lemma RunOfOneLeaves(c: Contents)
    requires c == UNREADABLE || c == IDLE
    ensures Possible(RunOfOne(Handler(c)), map[])
    ensures After(RunOfOne(Handler(c)), map[]).imported == map[0 := Mod(PartHandler(0), c)]
  {
    var a, s := Handler(c), State(map[], [], 0, map[], []);
    VisitsOne(a);
    assert [a][..0] == [] && WalkVisited(s, [], {}, PerInstance) == s;
    assert Starting(RunOfOne(a).job, map[]) == s;
    assert WalkVisited(s, [a], {}, PerInstance) == Callback(s, a, 0, {}, PerInstance);
    assert Walked(RunOfOne(a).job, map[], []) == Callback(s, a, 0, {}, PerInstance);
    var mod := Mod(PartHandler(0), c);
    assert Import(s, a) == Some(mod);
    assert Register(map[], mod, true) == map[];
  }

  lemma TwoRuns(first: Run, second: Run)
    ensures CacheAfter(map[], [first, second][..1]) == After(first, map[]).imported
    ensures CallsOfRun(map[], [first, second], 1) == After(second, After(first, map[]).imported).calls
    ensures Possible(first, map[]) && Possible(second, After(first, map[]).imported) ==> AllPossible(map[], [first, second])
  {
    hide After, Possible;
    var runs := [first, second];
    assert runs[..0] == [] && runs[..1] == [first] && [first][..0] == [];
    assert CacheAfter(map[], []) == map[];
  }

  /** User data with one part handler whose types cannot be read, then vendor data with
      two part handlers of any kind: the run over the vendor data begins the module of
      the user data twice, though by its own parts alone it would begin nothing twice. */
  lemma VendorDataBeginsTwice(a: Part, b: Part)
    requires IsPartHandler(a) && IsPartHandler(b) && a.module_.Some? && a.module_.value.types.Some?
    ensures var runs := [RunOfOne(Handler(UNREADABLE)), RunOfTwo(a, b)];
            && AllPossible(map[], runs) && !BeginOnce(CallsOfRun(map[], runs, 1))
            && !Restarts(Visited(runs[1].job.parts, {}), map[], map[], {}, PerInstance)
  {
    hide BeginOnce, After, Possible, Visited, Restarts;
    var known := map[0 := Mod(PartHandler(0), UNREADABLE)];
    RunOfOneLeaves(UNREADABLE);
    TwoRuns(RunOfOne(Handler(UNREADABLE)), RunOfTwo(a, b));
    StuckRegistersNothing(a, b, known);
    VisitsBoth(a, b);
    RestartsOfTwo(a, b, known);
    RestartsOfTwo(a, b, map[]);
    BeginOnceIff(RunOfTwo(a, b), known);
  }

  /** The other way round: a first part handler that the process has met before keeps
      one of the same number that cannot be read from being imported at all. */
  lemma UserDataShieldsVendorData()
    ensures var runs := [RunOfOne(Handler(IDLE)), RunOfTwo(Handler(UNREADABLE), Handler(UNREADABLE))];
            && AllPossible(map[], runs) && BeginOnce(CallsOfRun(map[], runs, 1))
            && Restarts(Visited(runs[1].job.parts, {}), map[], map[], {}, PerInstance)
  {
    hide BeginOnce, After, Visited, Restarts, Possible;
    var a := Handler(UNREADABLE);
    var known := map[0 := Mod(PartHandler(0), IDLE)];
    RunOfOneLeaves(IDLE);
    TwoRuns(RunOfOne(Handler(IDLE)), RunOfTwo(a, a));
    ShieldedRegistersNothing(known);
    VisitsBoth(a, a);
    RestartsOfTwo(a, a, known);
    RestartsOfTwo(a, a, map[]);
    BeginOnceIff(RunOfTwo(a, a), known);
  }

  lemma ShieldedRegistersNothing(known: Cache)
    requires known == map[0 := Mod(PartHandler(0), IDLE)]
    ensures Possible(RunOfTwo(Handler(UNREADABLE), Handler(UNREADABLE)), known)
  {
    var a := Handler(UNREADABLE);
    WalkOfTwo(a, a, known);
    assert Register(map[], known[0], true) == map[];
  }

  // ---------------------------------------------------------------- who gets a content type

  predicate Claims(m: Mod, t: string) {
    m.c.types.Some? && t in m.c.types.value
  }

  /** The last module that claims a type. */
  function LastClaiming(mods: seq<Mod>, t: string): Option<Mod> {
    if mods == [] then None
    else if Claims(mods[|mods| - 1], t) then Some(mods[|mods| - 1])
    else LastClaiming(mods[..|mods| - 1], t)
  }

  /** The first module that claims a type. */
  function FirstClaiming(mods: seq<Mod>, t: string): Option<Mod> {
    if mods == [] then None
    else
      var before := FirstClaiming(mods[..|mods| - 1], t);
      if before.Some? then before else if Claims(mods[|mods| - 1], t) then Some(mods[|mods| - 1]) else None
  }

  function Lookup(reg: Registry, t: string): Option<Mod> {
    if t in reg then Some(reg[t]) else None
  }

  lemma {:induction false} OverwritingRegistry(reg: Registry, mods: seq<Mod>, t: string)
    ensures Lookup(RegisterAll(reg, mods, true), t)
            == if LastClaiming(mods, t).Some? then LastClaiming(mods, t) else Lookup(reg, t)
  {
    if mods != [] {
      OverwritingRegistry(reg, mods[..|mods| - 1], t);
    }
  }

  lemma {:induction false} YieldingRegistry(reg: Registry, mods: seq<Mod>, t: string)
    ensures Lookup(RegisterAll(reg, mods, false), t) == if t in reg then Some(reg[t]) else FirstClaiming(mods, t)
  {
    if mods != [] {
      YieldingRegistry(reg, mods[..|mods| - 1], t);
    }
  }

  /** Default handlers never displace handlers of the cloud directory: a type goes
      to the last of those that claims it, and only failing that to the first
      default handler that does. */
  lemma DefaultsYield(job: Job, t: string)
    ensures Lookup(Registered(job), t)
            == if LastClaiming(job.cloudDir, t).Some? then LastClaiming(job.cloudDir, t) else FirstClaiming(job.defaults, t)
  {
    OverwritingRegistry(map[], job.cloudDir, t);
    YieldingRegistry(RegisterAll(map[], job.cloudDir, true), job.defaults, t);
  }

  // ---------------------------------------------------------------- what a handler is given

  ghost predicate AllClaimed(s: State, excluded: set<string>) {
    && (forall t :: t in s.registered ==> Claims(s.registered[t], t))
    && (forall c :: c in s.calls && c.Handle? ==> Claims(c.mod, c.ctype) && c.ctype !in excluded && c.ctype != PART_HANDLER_TYPE)
  }

  lemma CallbackClaimed(s: State, part: Part, partnum: nat, excluded: set<string>, frequency: Frequency)
    requires AllClaimed(s, excluded)
    ensures AllClaimed(Callback(s, part, partnum, excluded, frequency), excluded)
  {
    hide AddHandler, Claims;
    if part.ctype !in excluded && part.ctype == PART_HANDLER_TYPE {
      AddHandlerClaimed(s, part, excluded, frequency);
    }
  }

  lemma AddHandlerClaimed(s: State, part: Part, excluded: set<string>, frequency: Frequency)
    requires AllClaimed(s, excluded)
    ensures AllClaimed(AddHandler(s, part, frequency), excluded)
  {
    var s' := AddHandler(s, part, frequency);
    forall t | t in s'.registered ensures Claims(s'.registered[t], t) {
      assert t in s.registered && s'.registered[t] == s.registered[t] ==> Claims(s.registered[t], t);
    }
    forall c | c in s'.calls && c.Handle? ensures c in s.calls {
    }
  }

  lemma {:induction false} WalkClaimed(s: State, parts: seq<Part>, excluded: set<string>, frequency: Frequency)
    requires AllClaimed(s, excluded)
    ensures AllClaimed(WalkVisited(s, parts, excluded, frequency), excluded)
  {
    if parts != [] {
      WalkClaimed(s, parts[..|parts| - 1], excluded, frequency);
      CallbackClaimed(WalkVisited(s, parts[..|parts| - 1], excluded, frequency),
                      parts[|parts| - 1], |parts| - 1, excluded, frequency);
    }
  }

  lemma {:induction false} InitClaimed(s: State, order: seq<string>, excluded: set<string>, frequency: Frequency)
    requires AllClaimed(s, excluded)
    ensures AllClaimed(InitAll(s, order, frequency), excluded)
  {
    if order != [] {
      InitClaimed(s, order[..|order| - 1], excluded, frequency);
    }
  }

  /** A part goes only to a handler that claims its type, and never when the type
      is excluded. */
  lemma PartsGoToClaimants(job: Job, cache: Cache, initOrder: seq<string>)
    ensures AllClaimed(Walked(job, cache, initOrder), job.excluded)
  {
    forall t | t in Registered(job) ensures Claims(Registered(job)[t], t) {
      DefaultsYield(job, t);
      ClaimingClaims(job.cloudDir, t);
      ClaimingClaims(job.defaults, t);
    }
    InitClaimed(Starting(job, cache), initOrder, job.excluded, job.frequency);
    WalkClaimed(Initialized(job, cache, initOrder), Visited(job.parts, job.excluded), job.excluded, job.frequency);
  }

  lemma {:induction false} ClaimingClaims(mods: seq<Mod>, t: string)
    ensures LastClaiming(mods, t).Some? ==> Claims(LastClaiming(mods, t).value, t)
    ensures FirstClaiming(mods, t).Some? ==> Claims(FirstClaiming(mods, t).value, t)
  {
    if mods != [] {
      ClaimingClaims(mods[..|mods| - 1], t);
    }
  }
}
