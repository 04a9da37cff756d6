/** The registry of part handlers and the loops that drive them. */
module PartHandlerRun {
  import opened Options
  import opened Settings
  import opened PartHandlers

  class ContentHandlers {
    var registered: Registry
    var initialized: seq<Mod>

    constructor ()
      ensures registered == map[] && initialized == []
    {
      registered, initialized := map[], [];
    }

    /** Registers the types a module lists; false when listing them raises. */
    method Register(mod: Mod, initialize: bool, overwrite: bool) returns (ok: bool)
      modifies this
      ensures ok == mod.c.types.Some?
      ensures registered == PartHandlers.Register(old(registered), mod, overwrite)
      ensures initialized == if ok && initialize && mod !in old(initialized) then old(initialized) + [mod] else old(initialized)
    {
      if mod.c.types.None? {
        return false;
      }
      var types := TypesToTake(mod.c.types.value, overwrite);
      SetAll(types, mod);
      if initialize && mod !in initialized {
        initialized := initialized + [mod];
      }
      return true;
    }

    method SetAll(types: set<string>, mod: Mod)
      modifies this`registered
      ensures registered == old(registered) + map t | t in types :: mod
    {
      var todo := types;
      while todo != {}
        invariant todo <= types && registered.Keys == old(registered).Keys + (types - todo)
        invariant forall t :: t in registered ==>
                    registered[t] == if t in types - todo then mod else old(registered)[t]
      {
        var t :| t in todo;
        registered := registered[t := mod];
        todo := todo - {t};
      }
    }

    method TypesToTake(listed: set<string>, overwrite: bool) returns (types: set<string>)
      ensures types == set t | t in listed && (overwrite || t !in registered)
    {
      types := {};
      var todo := listed;
      while todo != {}
        invariant todo <= listed
        invariant types == set t | t in listed - todo && (overwrite || t !in registered)
      {
        var t :| t in todo;
        if overwrite {
          types := types + {t};
        } else if t !in registered {
          types := types + {t};
        }
        todo := todo - {t};
      }
    }

    /** The registered content types, in some order. */
    method Items() returns (order: seq<string>)
      ensures Lists(order, registered)
    {
      order := [];
      var todo := registered.Keys;
      while todo != {}
        invariant todo <= registered.Keys
        invariant forall t :: t in order <==> t in registered && t !in todo
        invariant forall i, j :: 0 <= i < j < |order| ==> order[i] != order[j]
      {
        var t :| t in todo;
        order := order + [t];
        todo := todo - {t};
      }
    }

    method Deinitialize(mod: Mod)
      modifies this`initialized
      ensures initialized == RemoveFirst(old(initialized), mod)
    {
      var i := 0;
      while i < |initialized| && initialized[i] != mod
        invariant 0 <= i <= |initialized| && initialized == old(initialized)
        invariant RemoveFirst(initialized, mod) == initialized[..i] + RemoveFirst(initialized[i..], mod)
      {
        assert initialized[i..][1..] == initialized[i + 1..];
        i := i + 1;
      }
      if i < |initialized| {
        assert initialized[i..][1..] == initialized[i + 1..];
        initialized := initialized[..i] + initialized[i + 1..];
      }
    }
  }

  /** What the callback has seen, and what it is still to see. */
  ghost predicate SeenSoFar(parts: seq<Part>, i: nat, seen: seq<Part>, excluded: set<string>) {
    i <= |parts| && Visited(parts, excluded) == seen + Visited(parts[i..], excluded)
  }

  lemma SeenAtFirst(parts: seq<Part>, excluded: set<string>)
    ensures SeenSoFar(parts, 0, [], excluded)
  {
    hide Visited;
    assert parts[0..] == parts;
  }

  lemma SeenStep(parts: seq<Part>, i: nat, seen: seq<Part>, excluded: set<string>)
    requires SeenSoFar(parts, i, seen, excluded) && i < |parts|
    ensures if Aborts(parts[i], excluded) then Visited(parts, excluded) == seen
            else SeenSoFar(parts, i + 1, if parts[i].multipart then seen else seen + [parts[i]], excluded)
  {
    hide Aborts;
    assert parts[i..][1..] == parts[i + 1..];
    if Aborts(parts[i], excluded) {
      assert seen + [] == seen;
    } else if !parts[i].multipart {
      assert seen + ([parts[i]] + Visited(parts[i + 1..], excluded)) == seen + [parts[i]] + Visited(parts[i + 1..], excluded);
    }
  }

  lemma SeenAll(parts: seq<Part>, seen: seq<Part>, excluded: set<string>)
    requires SeenSoFar(parts, |parts|, seen, excluded)
    ensures Visited(parts, excluded) == seen
  {
    assert parts[|parts|..] == [] && seen + [] == seen;
  }

  lemma AbortsMeans(part: Part, excluded: set<string>)
    ensures Aborts(part, excluded) <==>
              !part.multipart && (part.decodeFails || (part.writeFails && part.ctype == PART_HANDLER_TYPE && part.ctype !in excluded))
  {
  }

  lemma NothingWalked(s: State, excluded: set<string>, frequency: Frequency)
    ensures WalkVisited(s, [], excluded, frequency) == s
  {
  }

  lemma WalkStep(s: State, seen: seq<Part>, part: Part, excluded: set<string>, frequency: Frequency)
    ensures WalkVisited(s, seen + [part], excluded, frequency)
            == Callback(WalkVisited(s, seen, excluded, frequency), part, |seen|, excluded, frequency)
  {
    hide Callback;
    assert (seen + [part])[..|seen|] == seen;
  }

  /** One run over a message: the registry, the part-handler counter, the modules
      the interpreter has imported, and the calls made so far. */
  class Walker {
    const handlers: ContentHandlers
    const excluded: set<string>
    const frequency: Frequency
    var handlerCount: nat
    var imported: Cache
    var calls: seq<Call>

    constructor (excluded: set<string>, frequency: Frequency, imported: Cache)
      ensures fresh(handlers) && this.excluded == excluded && this.frequency == frequency
      ensures S() == State(map[], [], 0, imported, [])
    {
      this.excluded, this.frequency, this.imported := excluded, frequency, imported;
      handlers := new ContentHandlers();
      handlerCount, calls := 0, [];
    }

    ghost function S(): State
      reads this, handlers
    {
      State(handlers.registered, handlers.initialized, handlerCount, imported, calls)
    }

    method RunPart(mod: Mod, call: Call)
      modifies this`calls
      ensures calls == old(calls) + CallIf(mod, frequency, call)
    {
      if !(mod.c.frequency == PerAlways || (frequency == PerInstance && mod.c.frequency == PerInstance)) {
        return;
      }
      if 1 <= mod.c.version <= 3 {
        calls := calls + [call];
      }
    }

    method RegisterMods(mods: seq<Mod>, overwrite: bool)
      modifies handlers
      ensures handlers.registered == RegisterAll(old(handlers.registered), mods, overwrite)
      ensures handlers.initialized == old(handlers.initialized)
    {
      var i := 0;
      while i < |mods|
        invariant 0 <= i <= |mods| && handlers.initialized == old(handlers.initialized)
        invariant handlers.registered == RegisterAll(old(handlers.registered), mods[..i], overwrite)
      {
        assert mods[..i + 1][..i] == mods[..i];
        var _ := handlers.Register(mods[i], false, overwrite);
        i := i + 1;
      }
      assert mods[..i] == mods;
    }

    method InitHandlers() returns (ghost order: seq<string>)
      modifies this, handlers
      ensures Lists(order, old(handlers.registered)) && S() == InitAll(old(S()), order, frequency)
    {
      var items := handlers.Items();
      order := items;
      var i := 0;
      while i < |items|
        invariant 0 <= i <= |items| && handlers.registered == old(handlers.registered)
        invariant S() == InitAll(old(S()), items[..i], frequency)
      {
        assert items[..i + 1][..i] == items[..i];
        assert items[i] in handlers.registered;
        var mod := handlers.registered[items[i]];
        if mod !in handlers.initialized {
          RunPart(mod, Begin(mod));
          handlers.initialized := handlers.initialized + [mod];
        }
        i := i + 1;
      }
      assert items[..i] == items;
    }

    method HandleHandler(part: Part)
      modifies this, handlers
      ensures S() == AddHandler(old(S()), part, frequency)
    {
      var mod := Import(State(handlers.registered, handlers.initialized, handlerCount, imported, calls), part);
      if mod.None? {
        return;
      }
      imported := imported[handlerCount := mod.value];
      RunPart(mod.value, Begin(mod.value));
      var ok := handlers.Register(mod.value, true, true);
      if ok {
        handlerCount := handlerCount + 1;
      }
    }

    method WalkerCallback(part: Part, partnum: nat)
      modifies this, handlers
      ensures S() == Callback(old(S()), part, partnum, excluded, frequency)
    {
      if part.ctype in excluded {
        return;
      }
      if part.ctype == PART_HANDLER_TYPE {
        HandleHandler(part);
      } else if part.ctype in handlers.registered {
        var mod := handlers.registered[part.ctype];
        RunPart(mod, Handle(mod, part.ctype, partnum));
      }
    }

    /** Walks the message; `ok` is false when a part raised and the walk stopped. */
    method Walk(parts: seq<Part>) returns (ok: bool)
      modifies this, handlers
      ensures S() == WalkVisited(old(S()), Visited(parts, excluded), excluded, frequency)
      ensures ok <==> forall p :: p in parts ==> !Aborts(p, excluded)
    {
      hide Visited, WalkVisited, Callback, Aborts, SeenSoFar;
      var partnum := 0;
      var i := 0;
      ghost var seen: seq<Part> := [];
      SeenAtFirst(parts, excluded);
      NothingWalked(S(), excluded, frequency);
      while i < |parts|
        invariant 0 <= i <= |parts| && partnum == |seen|
        invariant SeenSoFar(parts, i, seen, excluded)
        invariant S() == WalkVisited(old(S()), seen, excluded, frequency)
        invariant forall j :: 0 <= j < i ==> !Aborts(parts[j], excluded)
      {
        SeenStep(parts, i, seen, excluded);
        AbortsMeans(parts[i], excluded);
        if !parts[i].multipart {
          if parts[i].decodeFails || (parts[i].writeFails && parts[i].ctype == PART_HANDLER_TYPE && parts[i].ctype !in excluded) {
            return false;
          }
          WalkStep(old(S()), seen, parts[i], excluded, frequency);
          WalkerCallback(parts[i], partnum);
          seen := seen + [parts[i]];
          partnum := partnum + 1;
        }
        i := i + 1;
      }
      SeenAll(parts, seen, excluded);
      return true;
    }

    method FinalizeHandler(mod: Mod)
      modifies this, handlers
      ensures S() == FinalizeOne(old(S()), mod, frequency)
    {
      if mod in handlers.initialized {
        handlers.Deinitialize(mod);
        RunPart(mod, End(mod));
      }
    }

    method FinalizeHandlers() returns (ghost order: seq<string>)
      modifies this, handlers
      ensures Lists(order, old(handlers.registered)) && S() == FinalizeAll(old(S()), order, frequency)
    {
      var items := handlers.Items();
      order := items;
      var i := 0;
      while i < |items|
        invariant 0 <= i <= |items| && handlers.registered == old(handlers.registered)
        invariant S() == FinalizeAll(old(S()), items[..i], frequency)
      {
        assert items[..i + 1][..i] == items[..i];
        assert items[i] in handlers.registered;
        FinalizeHandler(handlers.registered[items[i]]);
        i := i + 1;
      }
      assert items[..i] == items;
    }
  }

  /** A whole run, by a process that has imported some part handlers before. Every
      handler is finalized even when the walk raised. */
  method RunHandlers(job: Job, imported: Cache) returns (calls: seq<Call>, known: Cache, ok: bool, ghost run: Run)
    ensures run.job == job && Possible(run, imported)
    ensures calls == After(run, imported).calls && known == After(run, imported).imported
    ensures ok <==> forall p :: p in job.parts ==> !Aborts(p, job.excluded)
  {
    hide InitAll, WalkVisited, FinalizeAll, Visited, Lists;
    var w := new Walker(job.excluded, job.frequency, imported);
    w.RegisterMods(job.cloudDir, true);
    w.RegisterMods(job.defaults, false);
    ghost var initOrder := w.InitHandlers();
    ok := w.Walk(job.parts);
    ghost var endOrder := w.FinalizeHandlers();
    calls, known := w.calls, w.imported;
    run := Run(job, initOrder, endOrder);
    assert w.S() == After(run, imported);
  }

  /** The user data and then, in the same process, the vendor data if there is any to
      be consumed. An exception from the first keeps the second from being consumed. */
  method ConsumeData(user: Job, vendor: Option<Job>, imported: Cache)
    returns (userCalls: seq<Call>, vendorCalls: seq<Call>, ok: bool, ghost runs: seq<Run>)
    ensures 1 <= |runs| <= 2 && AllPossible(imported, runs) && runs[0].job == user
    ensures userCalls == CallsOfRun(imported, runs, 0)
    ensures |runs| == 2 <==> vendor.Some? && forall p :: p in user.parts ==> !Aborts(p, user.excluded)
    ensures if |runs| == 2 then Some(runs[1].job) == vendor && vendorCalls == CallsOfRun(imported, runs, 1) else vendorCalls == []
    ensures ok <==> (forall p :: p in user.parts ==> !Aborts(p, user.excluded))
                    && (vendor.Some? ==> forall p :: p in vendor.value.parts ==> !Aborts(p, vendor.value.excluded))
  {
    hide After, Possible, Aborts;
    var known;
    ghost var first;
    vendorCalls := [];
    userCalls, known, ok, first := RunHandlers(user, imported);
    runs := [first];
    FirstRun(imported, runs);
    if !ok || vendor.None? {
      return;
    }
    ghost var second;
    vendorCalls, known, ok, second := RunHandlers(vendor.value, known);
    runs := [first, second];
    FirstRun(imported, runs);
    SecondRun(imported, runs);
  }

  lemma FirstRun(imported: Cache, runs: seq<Run>)
    requires |runs| >= 1
    ensures CallsOfRun(imported, runs, 0) == After(runs[0], imported).calls && CacheAfter(imported, runs[..0]) == imported
  {
  }

  lemma SecondRun(imported: Cache, runs: seq<Run>)
    requires |runs| >= 2
    ensures CacheAfter(imported, runs[..1]) == After(runs[0], imported).imported
  {
    hide After;
    assert runs[..1][..0] == [] && runs[..1][0] == runs[0];
  }
}
