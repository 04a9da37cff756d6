/** Which parts are handed to which handler, over a whole run. */
module PartHandlerDelivery {
  import opened Options
  import opened Settings
  import opened PartHandlers
  import opened PartHandlerLaws

  // ---------------------------------------------------------------- what is to be delivered

  /** The module a part handler is taken on as: the one the interpreter has under its
      number, or else its payload, unless either says nothing of its types. */
  function TakenOn(p: Progress, cache: Cache, part: Part): Option<Mod> {
    var m := if p.count in cache then Some(cache[p.count])
             else if part.module_.Some? then Some(Mod(PartHandler(p.count), part.module_.value)) else None;
    if p.stuck.Some? || m.None? || m.value.c.types.None? then None else m
  }

  /** The part handlers among some parts that are taken on, in order. */
  function Joined(parts: seq<Part>, cache: Cache, excluded: set<string>): seq<Mod> {
    if parts == [] then []
    else
      var init, last := parts[..|parts| - 1], parts[|parts| - 1];
      var m := if AddsHandler(last, excluded) then TakenOn(ProgressOf(init, cache, excluded), cache, last) else None;
      Joined(init, cache, excluded) + if m.Some? then [m.value] else []
  }

  /** Who has a type after some parts: the last part handler that claims it, then the last
      handler of the cloud directory, and then the first default handler. */
  function Claimant(job: Job, cache: Cache, parts: seq<Part>, t: string): Option<Mod> {
    var late := LastClaiming(Joined(parts, cache, job.excluded), t);
    var own := LastClaiming(job.cloudDir, t);
    if late.Some? then late else if own.Some? then own else FirstClaiming(job.defaults, t)
  }

  /** One delivery for each part that has a claimant which runs, with the part's number. */
  function Deliveries(job: Job, cache: Cache, parts: seq<Part>): seq<Call> {
    if parts == [] then []
    else
      var init, last := parts[..|parts| - 1], parts[|parts| - 1];
      var to := Claimant(job, cache, init, last.ctype);
      Deliveries(job, cache, init)
      + if last.ctype !in job.excluded && last.ctype != "text/part-handler" && to.Some? && Runs(to.value.c, job.frequency)
        then [Handle(to.value, last.ctype, |init|)] else []
  }

  function HandlesOf(calls: seq<Call>): seq<Call> {
    if calls == [] then []
    else
      var last := calls[|calls| - 1];
      HandlesOf(calls[..|calls| - 1]) + if last.Handle? then [last] else []
  }

  lemma {:induction false} HandlesOfBoth(a: seq<Call>, b: seq<Call>)
    ensures HandlesOf(a + b) == HandlesOf(a) + HandlesOf(b)
  {
    if b == [] {
      assert a + b == a;
    } else {
      assert (a + b)[..|a + b| - 1] == a + b[..|b| - 1];
      HandlesOfBoth(a, b[..|b| - 1]);
    }
  }

  lemma HandlesOfOne(calls: seq<Call>, more: seq<Call>)
    requires |more| <= 1
    ensures HandlesOf(calls + more) == HandlesOf(calls) + if more != [] && more[0].Handle? then more else []
  {
    HandlesOfBoth(calls, more);
    assert more == [] || (more == [more[0]] && more[..0] == []);
    assert HandlesOf([]) == [];
  }

  // ---------------------------------------------------------------- the walk

  /** The state has come as far with its part handlers as `p` says. */
  ghost predicate CameTo(s: State, cache: Cache, p: Progress) {
    && s.count == p.count
    && (p.stuck.None? ==> KnownFrom(s.imported, cache, s.count))
    && (p.stuck.Some? ==> s.count in s.imported && s.imported[s.count].c.types.None?)
  }

  /** Every type is with its claimant. */
  ghost predicate Placed(s: State, job: Job, cache: Cache, parts: seq<Part>) {
    forall t :: Lookup(s.registered, t) == Claimant(job, cache, parts, t)
  }

  lemma AddHandlerComes(s: State, cache: Cache, p: Progress, part: Part, frequency: Frequency)
    requires CameTo(s, cache, p)
    ensures CameTo(AddHandler(s, part, frequency), cache, Advance(p, cache, part))
    ensures AddHandler(s, part, frequency).registered
            == if TakenOn(p, cache, part).Some? then Register(s.registered, TakenOn(p, cache, part).value, true) else s.registered
    ensures HandlesOf(AddHandler(s, part, frequency).calls) == HandlesOf(s.calls)
  {
    hide Register, KnownFrom, Runs, HandlesOf;
    if p.stuck.None? {
      KnownAt(s.imported, cache, s.count);
    }
    var i := Import(s, part);
    if i.Some? {
      HandlesOfOne(s.calls, CallIf(i.value, frequency, Begin(i.value)));
      if p.stuck.None? {
        KnownAbove(s.imported, cache, s.count, i.value);
      }
    }
  }

  lemma JoinedMore(parts: seq<Part>, part: Part, cache: Cache, excluded: set<string>)
    ensures var m := TakenOn(ProgressOf(parts, cache, excluded), cache, part);
            Joined(parts + [part], cache, excluded)
            == Joined(parts, cache, excluded) + if AddsHandler(part, excluded) && m.Some? then [m.value] else []
    ensures var p := ProgressOf(parts, cache, excluded);
            ProgressOf(parts + [part], cache, excluded) == if AddsHandler(part, excluded) then Advance(p, cache, part) else p
  {
    hide TakenOn, Advance;
    assert (parts + [part])[..|parts|] == parts;
  }

  lemma LastClaimingMore(mods: seq<Mod>, m: Mod, t: string)
    ensures LastClaiming(mods + [m], t) == if Claims(m, t) then Some(m) else LastClaiming(mods, t)
  {
    assert (mods + [m])[..|mods|] == mods;
  }

  lemma RegisterLookup(reg: Registry, m: Mod, t: string)
    requires m.c.types.Some?
    ensures Lookup(Register(reg, m, true), t) == if Claims(m, t) then Some(m) else Lookup(reg, t)
  {
  }

  lemma CallbackPlaces(s: State, job: Job, cache: Cache, parts: seq<Part>, part: Part)
    requires CameTo(s, cache, ProgressOf(parts, cache, job.excluded)) && Placed(s, job, cache, parts)
    ensures var s' := Callback(s, part, |parts|, job.excluded, job.frequency);
            CameTo(s', cache, ProgressOf(parts + [part], cache, job.excluded)) && Placed(s', job, cache, parts + [part])
  {
    hide AddHandler, Register, Advance, ProgressOf, Joined, TakenOn, Runs, LastClaiming, FirstClaiming;
    var p := ProgressOf(parts, cache, job.excluded);
    JoinedMore(parts, part, cache, job.excluded);
    if AddsHandler(part, job.excluded) {
      AddHandlerComes(s, cache, p, part, job.frequency);
      var m := TakenOn(p, cache, part);
      var s' := Callback(s, part, |parts|, job.excluded, job.frequency);
      forall t ensures Lookup(s'.registered, t) == Claimant(job, cache, parts + [part], t) {
        assert Lookup(s.registered, t) == Claimant(job, cache, parts, t);
        if m.Some? {
          TakenOnSays(p, cache, part);
          RegisterLookup(s.registered, m.value, t);
          LastClaimingMore(Joined(parts, cache, job.excluded), m.value, t);
        } else {
          assert Joined(parts, cache, job.excluded) + [] == Joined(parts, cache, job.excluded);
        }
      }
    } else {
      assert Joined(parts, cache, job.excluded) + [] == Joined(parts, cache, job.excluded);
    }
  }

  lemma TakenOnSays(p: Progress, cache: Cache, part: Part)
    ensures TakenOn(p, cache, part).Some? ==> TakenOn(p, cache, part).value.c.types.Some?
  {
  }

  lemma CallbackDelivers(s: State, job: Job, cache: Cache, parts: seq<Part>, part: Part)
    requires CameTo(s, cache, ProgressOf(parts, cache, job.excluded)) && Placed(s, job, cache, parts)
    requires HandlesOf(s.calls) == Deliveries(job, cache, parts)
    ensures HandlesOf(Callback(s, part, |parts|, job.excluded, job.frequency).calls) == Deliveries(job, cache, parts + [part])
  {
    hide AddHandler, Claimant, ProgressOf, Runs, HandlesOf;
    assert (parts + [part])[..|parts|] == parts;
    if AddsHandler(part, job.excluded) {
      AddHandlerComes(s, cache, ProgressOf(parts, cache, job.excluded), part, job.frequency);
    } else if part.ctype !in job.excluded {
      assert Lookup(s.registered, part.ctype) == Claimant(job, cache, parts, part.ctype);
      if part.ctype in s.registered {
        var mod := s.registered[part.ctype];
        HandlesOfOne(s.calls, CallIf(mod, job.frequency, Handle(mod, part.ctype, |parts|)));
      }
    }
  }

  lemma {:induction false} WalkDelivers(s: State, job: Job, cache: Cache, parts: seq<Part>)
    requires CameTo(s, cache, Progress(0, None)) && Placed(s, job, cache, []) && HandlesOf(s.calls) == []
    ensures var s' := WalkVisited(s, parts, job.excluded, job.frequency);
            && CameTo(s', cache, ProgressOf(parts, cache, job.excluded)) && Placed(s', job, cache, parts)
            && HandlesOf(s'.calls) == Deliveries(job, cache, parts)
  {
    hide CameTo, Placed, Callback, HandlesOf, Advance;
    if parts != [] {
      var init, last := parts[..|parts| - 1], parts[|parts| - 1];
      WalkDelivers(s, job, cache, init);
      var before := WalkVisited(s, init, job.excluded, job.frequency);
      CallbackPlaces(before, job, cache, init, last);
      CallbackDelivers(before, job, cache, init, last);
      assert init + [last] == parts;
    }
  }

  // ---------------------------------------------------------------- a whole run

  lemma {:induction false} InitDeliversNothing(s: State, order: seq<string>, frequency: Frequency)
    ensures var s' := InitAll(s, order, frequency);
            && HandlesOf(s'.calls) == HandlesOf(s.calls) && s'.registered == s.registered
            && s'.imported == s.imported && s'.count == s.count
  {
    hide Runs, HandlesOf;
    if order != [] {
      var t := order[|order| - 1];
      InitDeliversNothing(s, order[..|order| - 1], frequency);
      if t in s.registered {
        var mod := s.registered[t];
        HandlesOfOne(InitAll(s, order[..|order| - 1], frequency).calls, CallIf(mod, frequency, Begin(mod)));
      }
    }
  }

  lemma {:induction false} FinalizeDeliversNothing(s: State, order: seq<string>, frequency: Frequency)
    ensures HandlesOf(FinalizeAll(s, order, frequency).calls) == HandlesOf(s.calls)
  {
    hide Runs, HandlesOf, RemoveFirst;
    if order != [] {
      var t := order[|order| - 1];
      var before := FinalizeAll(s, order[..|order| - 1], frequency);
      FinalizeDeliversNothing(s, order[..|order| - 1], frequency);
      if t in s.registered {
        var mod := s.registered[t];
        HandlesOfOne(before.calls, CallIf(mod, frequency, End(mod)));
      }
    }
  }

  lemma StartIsPlaced(job: Job, cache: Cache, s: State)
    requires s.registered == Registered(job) && s.imported == cache && s.count == 0
    ensures CameTo(s, cache, Progress(0, None)) && Placed(s, job, cache, [])
  {
    hide Registered, LastClaiming, FirstClaiming, Claims;
    forall t ensures Lookup(s.registered, t) == Claimant(job, cache, [], t) {
      DefaultsYield(job, t);
      NobodyJoined(cache, job.excluded, t);
    }
  }

  lemma NobodyJoined(cache: Cache, excluded: set<string>, t: string)
    ensures Joined([], cache, excluded) == [] && LastClaiming([], t) == None
  {
  }

  /** What a run hands over: exactly one call for each part the walk gets to whose type is not
      excluded, is not that of part handlers, and has a claimant that runs, in order and with the
      number of the part. Who the claimant is, and which part handlers have joined by then, is
      told from the job, the parts before and what was imported before the run. */
  lemma RunDelivers(run: Run, cache: Cache)
    ensures HandlesOf(After(run, cache).calls)
            == Deliveries(run.job, cache, Visited(run.job.parts, run.job.excluded))
  {
    hide InitAll, WalkVisited, FinalizeAll, Visited, Registered, HandlesOf, CameTo, Placed;
    var job := run.job;
    var s := Initialized(job, cache, run.initOrder);
    InitDeliversNothing(Starting(job, cache), run.initOrder, job.frequency);
    StartIsPlaced(job, cache, s);
    NoCallsNoHandles();
    WalkDelivers(s, job, cache, Visited(job.parts, job.excluded));
    FinalizeDeliversNothing(Walked(job, cache, run.initOrder), run.endOrder, job.frequency);
  }

  lemma NoCallsNoHandles()
    ensures HandlesOf([]) == []
  {
  }

  // ---------------------------------------------------------------- which parts the walk gets to

  predicate Stopped(parts: seq<Part>, excluded: set<string>) {
    exists p :: p in parts && Aborts(p, excluded)
  }

  lemma StoppedFirst(parts: seq<Part>, excluded: set<string>)
    requires parts != []
    ensures Stopped(parts, excluded) <==> Aborts(parts[0], excluded) || Stopped(parts[1..], excluded)
  {
    hide Aborts;
    assert parts == [parts[0]] + parts[1..];
  }

  lemma VisitedFirst(p: Part, rest: seq<Part>, excluded: set<string>)
    ensures Visited([p] + rest, excluded)
            == if Aborts(p, excluded) then [] else (if p.multipart then [] else [p]) + Visited(rest, excluded)
  {
    hide Aborts;
    assert ([p] + rest)[1..] == rest;
  }

  lemma {:induction false} VisitedBoth(a: seq<Part>, b: seq<Part>, excluded: set<string>)
    ensures Visited(a + b, excluded) == Visited(a, excluded) + if Stopped(a, excluded) then [] else Visited(b, excluded)
  {
    hide Aborts, Stopped, Visited;
    if a == [] {
      assert a + b == b;
      NothingVisited(excluded);
    } else {
      var init := a[1..];
      assert a + b == [a[0]] + (init + b) && a == [a[0]] + init;
      VisitedFirst(a[0], init + b, excluded);
      VisitedFirst(a[0], init, excluded);
      StoppedFirst(a, excluded);
      VisitedBoth(init, b, excluded);
    }
  }

  lemma NothingVisited(excluded: set<string>)
    ensures Visited([], excluded) == [] && !Stopped([], excluded)
  {
  }

  /** A container is passed over. A part that cannot be decoded ends the walk, and so does a part
      handler that cannot be written, unless its type is excluded; any other part is got to. */
  lemma VisitedThrough(a: seq<Part>, p: Part, b: seq<Part>, excluded: set<string>)
    ensures p.multipart ==> Visited(a + [p] + b, excluded) == Visited(a + b, excluded)
    ensures !p.multipart && (p.decodeFails || (p.ctype == "text/part-handler" && p.ctype !in excluded && p.writeFails)) ==>
              Visited(a + [p] + b, excluded) == Visited(a, excluded)
    ensures !p.multipart && !p.decodeFails && (p.ctype == "text/part-handler" && p.ctype !in excluded ==> !p.writeFails)
            && (forall x :: x in a ==> x.multipart || !(x.decodeFails || x.writeFails)) ==>
              Visited(a + [p] + b, excluded) == Visited(a, excluded) + [p] + Visited(b, excluded)
  {
    hide Aborts, Stopped, Visited;
    assert a + [p] + b == a + ([p] + b);
    VisitedFirst(p, b, excluded);
    VisitedBoth(a, [p] + b, excluded);
    VisitedBoth(a, b, excluded);
    AbortsWhen(p, excluded);
    assert Visited(a, excluded) + [] == Visited(a, excluded) && [] + Visited(b, excluded) == Visited(b, excluded);
    if forall x :: x in a ==> x.multipart || !(x.decodeFails || x.writeFails) {
      NeverStopped(a, excluded);
      assert Visited(a, excluded) + ([p] + Visited(b, excluded)) == Visited(a, excluded) + [p] + Visited(b, excluded);
    }
  }

  lemma NeverStopped(parts: seq<Part>, excluded: set<string>)
    requires forall x :: x in parts ==> x.multipart || !(x.decodeFails || x.writeFails)
    ensures !Stopped(parts, excluded)
  {
  }

  lemma AbortsWhen(p: Part, excluded: set<string>)
    ensures Aborts(p, excluded) <==>
              !p.multipart && (p.decodeFails || (p.ctype == "text/part-handler" && p.ctype !in excluded && p.writeFails))
  {
  }

  // ---------------------------------------------------------------- when a module runs

  /** A module is called exactly if its version is one of the three known and it is to run
      always, or once for an instance in a run of that kind. */
  lemma RunsIff(frequency: Frequency, own: Frequency, types: Option<set<string>>, version: int)
    ensures Runs(Contents(types, own, version), frequency) <==>
              && version in {1, 2, 3}
              && match own
                 case PerAlways => true
                 case PerInstance => frequency == PerInstance
                 case _ => false
  {
  }

  /** In a run over every boot no module is called that is meant for new instances only, and
      whatever is called then would be called in a run for a new instance as well. */
  lemma RunsAlwaysRunsOnce(c: Contents)
    ensures Runs(c, PerAlways) <==> Runs(c, PerInstance) && c.frequency.PerAlways?
  {
  }
}
