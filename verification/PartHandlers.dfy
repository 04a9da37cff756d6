/** The life cycle of part handlers: which handler is called, and when, while the
    parts of a message are walked and new handlers may join on the way. */
module PartHandlers {
  import opened Options
  import opened Settings

  /** What a handler module says of itself; `types` is `None` when asking for its
      content types raises. */
  datatype Contents = Contents(types: Option<set<string>>, frequency: Frequency, version: int)

  /** Where a module came from, which is also its identity. A part handler is
      imported by its number, `part-handler-%03d`. */
  datatype ModId = CloudDir(file: string) | Default(name: string) | PartHandler(n: nat)

  datatype Mod = Mod(id: ModId, c: Contents)

  datatype Call = Begin(mod: Mod) | Handle(mod: Mod, ctype: string, partnum: nat) | End(mod: Mod)

  const PART_HANDLER_TYPE := "text/part-handler"

  /** One part of the message. `module_` is what a part handler's payload imports
      as, `None` when that raises; the two flags say which steps before that raise. */
  datatype Part = Part(ctype: string, multipart: bool, module_: Option<Contents>, decodeFails: bool, writeFails: bool)

  type Registry = map<string, Mod>

  datatype State = State(registered: Registry, initialized: seq<Mod>, count: nat, imported: map<nat, Mod>, calls: seq<Call>)

  /** Whether `run_part` gets as far as calling the module. */
  predicate Runs(c: Contents, frequency: Frequency) {
    && (c.frequency == PerAlways || (frequency == PerInstance && c.frequency == PerInstance))
    && 1 <= c.version <= 3
  }

  function CallIf(mod: Mod, frequency: Frequency, call: Call): seq<Call> {
    if Runs(mod.c, frequency) then [call] else []
  }

  // ---------------------------------------------------------------- registration

  function Register(reg: Registry, mod: Mod, overwrite: bool): Registry {
    match mod.c.types
    case None => reg
    case Some(types) => reg + map t | t in types && (overwrite || t !in reg) :: mod
  }

  function RegisterAll(reg: Registry, mods: seq<Mod>, overwrite: bool): Registry {
    if mods == [] then reg
    else Register(RegisterAll(reg, mods[..|mods| - 1], overwrite), mods[|mods| - 1], overwrite)
  }

  // ---------------------------------------------------------------- the phases

  /** Some order in which a registry lists its content types. */
  ghost predicate Lists(order: seq<string>, reg: Registry) {
    && (forall t :: t in order <==> t in reg)
    && (forall i, j :: 0 <= i < j < |order| ==> order[i] != order[j])
  }

  function InitOne(s: State, mod: Mod, frequency: Frequency): State {
    if mod in s.initialized then s
    else s.(initialized := s.initialized + [mod], calls := s.calls + CallIf(mod, frequency, Begin(mod)))
  }

  ghost function InitAll(s: State, order: seq<string>, frequency: Frequency): State {
    if order == [] then s
    else
      var t := order[|order| - 1];
      var before := InitAll(s, order[..|order| - 1], frequency);
      if t in s.registered then InitOne(before, s.registered[t], frequency) else before
  }

  /** The module that importing the next part handler gives. A module imported
      under the same number before is found again, whatever the file now holds. */
  function Import(s: State, part: Part): Option<Mod> {
    if s.count in s.imported then Some(s.imported[s.count])
    else match part.module_ case None => None case Some(c) => Some(Mod(PartHandler(s.count), c))
  }

  function AddHandler(s: State, part: Part, frequency: Frequency): State {
    match Import(s, part)
    case None => s
    case Some(mod) =>
      var begun := s.(imported := s.imported[s.count := mod], calls := s.calls + CallIf(mod, frequency, Begin(mod)));
      if mod.c.types.None? then begun
      else
        begun.(registered := Register(s.registered, mod, true),
               initialized := if mod in s.initialized then s.initialized else s.initialized + [mod],
               count := s.count + 1)
  }

  function Callback(s: State, part: Part, partnum: nat, excluded: set<string>, frequency: Frequency): State {
    if part.ctype in excluded then s
    else if part.ctype == PART_HANDLER_TYPE then AddHandler(s, part, frequency)
    else if part.ctype in s.registered then
      var mod := s.registered[part.ctype];
      s.(calls := s.calls + CallIf(mod, frequency, Handle(mod, part.ctype, partnum)))
    else s
  }

  /** Whether a part ends the walk with an exception. */
  predicate Aborts(part: Part, excluded: set<string>) {
    !part.multipart && (part.decodeFails || (part.writeFails && part.ctype == PART_HANDLER_TYPE && part.ctype !in excluded))
  }

  /** The parts the callback sees: up to the first that aborts, without containers. */
  function Visited(parts: seq<Part>, excluded: set<string>): seq<Part> {
    if parts == [] || Aborts(parts[0], excluded) then []
    else (if parts[0].multipart then [] else [parts[0]]) + Visited(parts[1..], excluded)
  }

  function WalkVisited(s: State, parts: seq<Part>, excluded: set<string>, frequency: Frequency): State {
    if parts == [] then s
    else Callback(WalkVisited(s, parts[..|parts| - 1], excluded, frequency), parts[|parts| - 1], |parts| - 1, excluded, frequency)
  }

  function RemoveFirst(mods: seq<Mod>, mod: Mod): seq<Mod> {
    if mods == [] then [] else if mods[0] == mod then mods[1..] else [mods[0]] + RemoveFirst(mods[1..], mod)
  }

  function FinalizeOne(s: State, mod: Mod, frequency: Frequency): State {
    if mod !in s.initialized then s
    else s.(initialized := RemoveFirst(s.initialized, mod), calls := s.calls + CallIf(mod, frequency, End(mod)))
  }

  ghost function FinalizeAll(s: State, order: seq<string>, frequency: Frequency): State {
    if order == [] then s
    else
      var t := order[|order| - 1];
      var before := FinalizeAll(s, order[..|order| - 1], frequency);
      if t in s.registered then FinalizeOne(before, s.registered[t], frequency) else before
  }

  datatype Job = Job(cloudDir: seq<Mod>, defaults: seq<Mod>, parts: seq<Part>, excluded: set<string>, frequency: Frequency)

  function Registered(job: Job): Registry {
    RegisterAll(RegisterAll(map[], job.cloudDir, true), job.defaults, false)
  }

  /** The part handlers the interpreter has imported, by number. A process keeps them
      from one run to the next, while each run numbers its part handlers from zero. */
  type Cache = map<nat, Mod>

  function Starting(job: Job, cache: Cache): State {
    State(Registered(job), [], 0, cache, [])
  }

  ghost function Initialized(job: Job, cache: Cache, initOrder: seq<string>): State {
    InitAll(Starting(job, cache), initOrder, job.frequency)
  }

  ghost function Walked(job: Job, cache: Cache, initOrder: seq<string>): State {
    WalkVisited(Initialized(job, cache, initOrder), Visited(job.parts, job.excluded), job.excluded, job.frequency)
  }

  /** A whole run, for some order in which the registry is gone through at the
      start and at the end. Handlers are finalized even when the walk aborts. */
  ghost function DoHandlers(job: Job, cache: Cache, initOrder: seq<string>, endOrder: seq<string>): State {
    FinalizeAll(Walked(job, cache, initOrder), endOrder, job.frequency)
  }

  // ---------------------------------------------------------------- the runs of a process

  /** One run, with the orders in which its registry happened to be listed. */
  datatype Run = Run(job: Job, initOrder: seq<string>, endOrder: seq<string>)

  ghost function After(run: Run, cache: Cache): State {
    DoHandlers(run.job, cache, run.initOrder, run.endOrder)
  }

  ghost function CacheAfter(cache: Cache, runs: seq<Run>): Cache {
    if runs == [] then cache else After(runs[|runs| - 1], CacheAfter(cache, runs[..|runs| - 1])).imported
  }

  /** The calls of the i-th run of a process. */
  ghost function CallsOfRun(cache: Cache, runs: seq<Run>, i: nat): seq<Call>
    requires i < |runs|
  {
    After(runs[i], CacheAfter(cache, runs[..i])).calls
  }

  /** The orders are orders in which the registry can be listed. */
  ghost predicate Possible(run: Run, cache: Cache) {
    && Lists(run.initOrder, Registered(run.job))
    && Lists(run.endOrder, Walked(run.job, cache, run.initOrder).registered)
  }

  ghost predicate AllPossible(cache: Cache, runs: seq<Run>) {
    forall i :: 0 <= i < |runs| ==> Possible(runs[i], CacheAfter(cache, runs[..i]))
  }
}
