/** The gRPC front end's state machine (server/service.cpp): configuration
    loading, provider sessions with exclusive device ownership, signals that
    providers may not write, and the generation counter that runs one engine
    tick once every active provider has submitted its signals. Every handler
    runs under one mutex, so each is modelled as one sequential method. */
module Service {
  import opened Types
  import opened GraphSpecs
  import opened Namespaces
  import opened SignalStores
  import opened Transforms
  import opened Compiler
  import opened Engines
  import opened TopologicalOrder

  /** How long a session may stay silent before another call evicts it, in ms. */
  const SESSION_TIMEOUT_MS: nat := 5000

  /** A registered provider: its devices, when it was last heard from (in ms
      of a monotonic clock) and the last generation it submitted signals for. */
  datatype Session = Session(providerId: string, deviceIds: seq<string>, lastUpdate: int, lastTickGeneration: Option<nat>)

  /** Why a configuration was refused: the loader threw, or the compiler did. */
  datatype ConfigError = LoadFailed(message: string) | CompileFailed(error: CompileError)

  /** The non-OK statuses the handlers return, with their messages; a store or
      engine exception that escapes a handler is `Raised`. */
  datatype Status =
    | FailedPrecondition(message: string)
    | InvalidArgument(message: string)
    | InvalidConfig(reason: ConfigError)
    | AlreadyExists(message: string)
    | Unauthenticated(message: string)
    | PermissionDenied(message: string)
    | Raised(error: EngineError)

  /** One signal value a provider submits. */
  datatype SignalUpdate = SignalUpdate(path: string, value: real, unit: string)

  /** UpdateSignals' reply: this call ran the tick and carries the caller's
      commands, or the caller waits for generation `generation` to complete. */
  datatype TickReply = Ticked(commands: seq<Command>) | Waiting(generation: nat)

  // ---------------------------------------------------------------------------
  // Sessions

  predicate Stale(s: Session, now: int) {
    now - s.lastUpdate > SESSION_TIMEOUT_MS
  }

  /** The sessions kept by a prune on behalf of `active`. */
  function Pruned(sessions: map<string, Session>, active: string, now: int): (r: map<string, Session>)
    ensures r.Keys <= sessions.Keys && forall id :: id in r ==> r[id] == sessions[id]
    ensures active in sessions ==> active in r
    ensures forall id :: id in sessions && id != active ==> (id in r <==> !Stale(sessions[id], now))
  {
    map id | id in sessions && (id == active || !Stale(sessions[id], now)) :: sessions[id]
  }

  /** prune_stale_sessions_locked: evicts every session other than `active`
      that has been silent for longer than the timeout, and only those. */
  method PruneStaleSessions(sessions: map<string, Session>, active: string, now: int) returns (kept: map<string, Session>)
    ensures kept.Keys <= sessions.Keys && forall id :: id in kept ==> kept[id] == sessions[id]
    ensures active in sessions ==> active in kept
    ensures forall id :: id in sessions && id != active ==> (id in kept <==> !Stale(sessions[id], now))
    ensures kept == Pruned(sessions, active, now)
  {
    kept := sessions;
    var pending := sessions.Keys;
    while pending != {}
      invariant pending <= sessions.Keys
      invariant kept.Keys <= sessions.Keys && forall id :: id in kept ==> kept[id] == sessions[id]
      invariant forall id :: id in pending ==> id in kept
      invariant forall id :: id in sessions && id !in pending ==> (id in kept <==> id == active || !Stale(sessions[id], now))
      decreases pending
    {
      var id :| id in pending;
      if id != active && Stale(kept[id], now) {
        kept := kept - {id};
      }
      pending := pending - {id};
    }
  }

  /** Pruning twice at the same moment evicts nothing more. */
  lemma PruneIdempotent(sessions: map<string, Session>, active: string, now: int)
    ensures Pruned(Pruned(sessions, active, now), active, now) == Pruned(sessions, active, now)
  {
    var once := Pruned(sessions, active, now);
    assert Pruned(once, active, now).Keys == once.Keys;
  }

  predicate Owns(s: Session, device: string) {
    device in s.deviceIds
  }

  /** No device is owned by two sessions, and no provider id is held twice. */
  ghost predicate Exclusive(sessions: map<string, Session>) {
    && (forall a, b, d :: a in sessions && b in sessions && a != b && Owns(sessions[a], d) ==> !Owns(sessions[b], d))
    && (forall a, b :: a in sessions && b in sessions && a != b ==> sessions[a].providerId != sessions[b].providerId)
  }

  /** Dropping sessions or changing their clocks keeps ownership exclusive. */
  lemma ExclusiveKept(a: map<string, Session>, b: map<string, Session>)
    requires Exclusive(a) && b.Keys <= a.Keys
    requires forall id :: id in b ==> b[id].deviceIds == a[id].deviceIds && b[id].providerId == a[id].providerId
    ensures Exclusive(b)
  {
    forall x, y, d | x in b && y in b && x != y && Owns(b[x], d)
      ensures !Owns(b[y], d)
    {
      assert Owns(a[x], d);
    }
    forall x, y | x in b && y in b && x != y
      ensures b[x].providerId != b[y].providerId
    {
      assert a[x].providerId != a[y].providerId;
    }
  }

  /** `s` already holds the provider id or one of the devices. */
  predicate ConflictsWith(s: Session, providerId: string, deviceIds: seq<string>) {
    s.providerId == providerId || exists d :: d in deviceIds && Owns(s, d)
  }

  predicate Conflicts(sessions: map<string, Session>, providerId: string, deviceIds: seq<string>) {
    exists id :: id in sessions && ConflictsWith(sessions[id], providerId, deviceIds)
  }

  /** `std::string`'s `<`, the order `std::map` keeps its sessions in:
      lexicographic by character, a proper prefix first. */
  predicate Less(a: string, b: string)
    decreases |a|
  {
    if |a| == 0 then |b| > 0
    else if |b| == 0 then false
    else a[0] < b[0] || (a[0] == b[0] && Less(a[1..], b[1..]))
  }

  lemma {:induction false} LessIrreflexive(a: string)
    ensures !Less(a, a)
    decreases |a|
  {
    if |a| > 0 {
      LessIrreflexive(a[1..]);
    }
  }

  lemma {:induction false} LessTransitive(a: string, b: string, c: string)
    requires Less(a, b) && Less(b, c)
    ensures Less(a, c)
    decreases |a|
  {
    if |a| > 0 && a[0] == b[0] && b[0] == c[0] {
      LessTransitive(a[1..], b[1..], c[1..]);
    }
  }

  /** `sessions.begin()` of what is left: a key no other key precedes. */
  method FirstKey<V>(m: map<string, V>) returns (key: string)
    requires m != map[]
    ensures key in m && forall x :: x in m ==> !Less(x, key)
  {
    var rest := m.Keys;
    key :| key in rest;
    LessIrreflexive(key);
    rest := rest - {key};
    while rest != {}
      invariant rest <= m.Keys && key in m
      invariant forall x :: x in m && x !in rest ==> !Less(x, key)
      decreases |rest|
    {
      var y :| y in rest;
      if Less(y, key) {
        forall x | x in m && x !in rest ensures !Less(x, y) {
          if Less(x, y) {
            LessTransitive(x, y, key);
          }
        }
        LessIrreflexive(y);
        key := y;
      }
      rest := rest - {y};
    }
  }

  /** The first device of `deviceIds` that `s` owns; "" when none is. */
  function FirstOwned(s: Session, deviceIds: seq<string>): string {
    if deviceIds == [] then ""
    else if Owns(s, deviceIds[0]) then deviceIds[0]
    else FirstOwned(s, deviceIds[1..])
  }

  /** A device that `s` owns, with none owned before it, is the first owned. */
  lemma {:induction false} FirstOwnedAt(s: Session, deviceIds: seq<string>, j: nat)
    requires j < |deviceIds| && Owns(s, deviceIds[j])
    requires forall k :: 0 <= k < j ==> !Owns(s, deviceIds[k])
    ensures FirstOwned(s, deviceIds) == deviceIds[j]
  {
    if j > 0 {
      FirstOwnedAt(s, deviceIds[1..], j - 1);
    }
  }

  /** What the scan reports for a session in conflict: the provider id when
      it holds it, otherwise the first requested device it owns. */
  function ConflictStatus(s: Session, providerId: string, deviceIds: seq<string>): Status {
    if s.providerId == providerId then AlreadyExists("provider_id already registered: " + providerId)
    else AlreadyExists("device_id already owned by another provider: " + FirstOwned(s, deviceIds))
  }

  /** `e` is the status for the first session, in key order, in conflict. */
  ghost predicate FirstConflict(sessions: map<string, Session>, providerId: string, deviceIds: seq<string>, e: Status) {
    exists id ::
      && id in sessions && ConflictsWith(sessions[id], providerId, deviceIds)
      && (forall other :: other in sessions && Less(other, id) ==> !ConflictsWith(sessions[other], providerId, deviceIds))
      && e == ConflictStatus(sessions[id], providerId, deviceIds)
  }

  /** RegisterProvider's ownership scan over the sessions in key order:
      refuses a provider id some session already holds, or a device some
      session already owns, naming the first conflict it meets. */
  method FindConflict(sessions: map<string, Session>, providerId: string, deviceIds: seq<string>)
    returns (outcome: Outcome<Status>)
    ensures outcome.Pass? <==> !Conflicts(sessions, providerId, deviceIds)
    ensures outcome.Fail? ==> FirstConflict(sessions, providerId, deviceIds, outcome.error)
  {
    var pending := sessions;
    while pending != map[]
      invariant pending.Keys <= sessions.Keys
      invariant forall id :: id in pending ==> pending[id] == sessions[id]
      invariant forall id :: id in sessions && id !in pending ==> !ConflictsWith(sessions[id], providerId, deviceIds)
      decreases |pending|
    {
      var id := FirstKey(pending);
      var s := sessions[id];
      assert forall other :: other in sessions && Less(other, id) ==> other !in pending;
      if s.providerId == providerId {
        return Fail(AlreadyExists("provider_id already registered: " + providerId));
      }
      var j := 0;
      while j < |deviceIds|
        invariant 0 <= j <= |deviceIds|
        invariant forall k :: 0 <= k < j ==> !Owns(s, deviceIds[k])
      {
        if deviceIds[j] in s.deviceIds {
          FirstOwnedAt(s, deviceIds, j);
          assert ConflictsWith(sessions[id], providerId, deviceIds) by { assert Owns(s, deviceIds[j]); }
          return Fail(AlreadyExists("device_id already owned by another provider: " + deviceIds[j]));
        }
        j := j + 1;
      }
      pending := pending - {id};
    }
    outcome := Pass;
  }

  /** Every session has submitted signals for `generation` or a later one. */
  predicate Submitted(s: Session, generation: nat) {
    s.lastTickGeneration.Some? && s.lastTickGeneration.value >= generation
  }

  predicate AllSubmitted(sessions: map<string, Session>, generation: nat) {
    |sessions| > 0 && forall id :: id in sessions ==> Submitted(sessions[id], generation)
  }

  /** UpdateSignals' readiness scan: ready exactly when there is a session
      and none has yet to submit for `generation`. */
  method AllReady(sessions: map<string, Session>, generation: nat) returns (ready: bool)
    ensures ready <==> AllSubmitted(sessions, generation)
  {
    ready := |sessions| > 0;
    var pending := sessions.Keys;
    while pending != {}
      invariant pending <= sessions.Keys
      invariant ready <==> |sessions| > 0 && forall id :: id in sessions && id !in pending ==> Submitted(sessions[id], generation)
      decreases pending
    {
      var id :| id in pending;
      if !Submitted(sessions[id], generation) {
        return false;
      }
      pending := pending - {id};
    }
  }

  // ---------------------------------------------------------------------------
  // Command routing

  /** The device name a command is routed by; "" for an id never handed out. */
  function DeviceName(names: map<DeviceId, string>, id: DeviceId): string {
    if id in names then names[id] else ""
  }

  /** The commands whose device is among `devices`, in queue order. */
  function OwnedCommands(commands: seq<Command>, devices: seq<string>, names: map<DeviceId, string>): seq<Command> {
    if commands == [] then []
    else
      var last := commands[|commands| - 1];
      OwnedCommands(commands[..|commands| - 1], devices, names)
        + (if DeviceName(names, last.device) in devices then [last] else [])
  }

  /** filter_commands_for_session_locked: the caller's commands, none for an
      unknown session or one without devices. */
  method FilterCommands(sessions: map<string, Session>, sessionId: string, commands: seq<Command>,
                        funcNs: FunctionNamespace) returns (filtered: seq<Command>)
    requires funcNs.Valid()
    ensures sessionId !in sessions ==> filtered == []
    ensures sessionId in sessions ==> filtered == OwnedCommands(commands, sessions[sessionId].deviceIds, funcNs.deviceReverse)
  {
    if sessionId !in sessions {
      return [];
    }
    var devices := sessions[sessionId].deviceIds;
    if |devices| == 0 {
      NoDevicesNoCommands(commands, funcNs.deviceReverse);
      return [];
    }
    filtered := [];
    var i := 0;
    while i < |commands|
      invariant 0 <= i <= |commands|
      invariant filtered == OwnedCommands(commands[..i], devices, funcNs.deviceReverse)
    {
      assert commands[..i + 1][..i] == commands[..i];
      var name := funcNs.LookupDevice(commands[i].device);
      var j := 0;
      while j < |devices|
        invariant 0 <= j <= |devices|
        invariant forall k :: 0 <= k < j ==> devices[k] != name
      {
        if name == devices[j] {
          filtered := filtered + [commands[i]];
          break;
        }
        j := j + 1;
      }
      i := i + 1;
    }
    assert commands[..i] == commands;
  }

  lemma {:induction false} NoDevicesNoCommands(commands: seq<Command>, names: map<DeviceId, string>)
    ensures OwnedCommands(commands, [], names) == []
    decreases |commands|
  {
    if commands != [] {
      NoDevicesNoCommands(commands[..|commands| - 1], names);
    }
  }

  /** A command reaches a session exactly when the session owns its device. */
  lemma {:induction false} OwnedCommandsMembers(commands: seq<Command>, devices: seq<string>,
                                                names: map<DeviceId, string>, c: Command)
    ensures c in OwnedCommands(commands, devices, names) <==> c in commands && DeviceName(names, c.device) in devices
    decreases |commands|
  {
    if commands != [] {
      var front := commands[..|commands| - 1];
      OwnedCommandsMembers(front, devices, names, c);
      assert commands == front + [commands[|commands| - 1]];
    }
  }

  /** With exclusive ownership, no command is routed to two sessions. */
  lemma RoutedOnce(sessions: map<string, Session>, a: string, b: string, commands: seq<Command>,
                   names: map<DeviceId, string>, c: Command)
    requires Exclusive(sessions) && a in sessions && b in sessions && a != b
    ensures !(c in OwnedCommands(commands, sessions[a].deviceIds, names)
              && c in OwnedCommands(commands, sessions[b].deviceIds, names))
  {
    OwnedCommandsMembers(commands, sessions[a].deviceIds, names, c);
    OwnedCommandsMembers(commands, sessions[b].deviceIds, names, c);
    var d := DeviceName(names, c.device);
    if Owns(sessions[a], d) {
      assert !Owns(sessions[b], d);
    }
  }

  // ---------------------------------------------------------------------------
  // Signal writes from providers

  function ResolvedIn(ids: map<string, SignalId>, path: string): SignalId {
    if path in ids then ids[path] else INVALID_SIGNAL
  }

  /** UpdateSignals' write loop over the first `k` updates: an unknown path or
      a protected signal stops it with an error, and so does a refused write;
      the writes before the stop stay in the store. */
  function UpdatesRun(updates: seq<SignalUpdate>, k: nat, t: Tables, ids: map<string, SignalId>,
                      protectedIds: set<SignalId>): (r: (Tables, Option<Status>))
    requires k <= |updates|
    decreases k
  {
    if k == 0 then (t, None)
    else
      var prev := UpdatesRun(updates, k - 1, t, ids, protectedIds);
      if prev.1.Some? then prev
      else
        var u := updates[k - 1];
        var id := ResolvedIn(ids, u.path);
        if id == INVALID_SIGNAL then (prev.0, Some(InvalidArgument("Unknown signal: " + u.path)))
        else if id in protectedIds then (prev.0, Some(PermissionDenied("Write denied for protected signal: " + u.path)))
        else match Written(prev.0, id, u.value, u.unit)
          case Err(e) => (prev.0, Some(Raised(StoreFailure(e))))
          case Ok(t') => (t', None)
  }

  /** Providers never change a protected signal, whatever they submit. */
  lemma {:induction false} UpdatesSpareProtected(updates: seq<SignalUpdate>, k: nat, t: Tables,
                                                 ids: map<string, SignalId>, protectedIds: set<SignalId>)
    requires k <= |updates|
    ensures var r := UpdatesRun(updates, k, t, ids, protectedIds);
      forall id :: id in protectedIds ==>
        && (id in r.0.signals <==> id in t.signals)
        && (id in t.signals ==> r.0.signals[id] == t.signals[id])
    ensures UpdatesRun(updates, k, t, ids, protectedIds).0.driven == t.driven
    decreases k
  {
    if k > 0 {
      UpdatesSpareProtected(updates, k - 1, t, ids, protectedIds);
    }
  }

    /** An update the service refuses outright: its path is unknown or names a protected signal. */
  predicate Refused(ids: map<string, SignalId>, protectedIds: set<SignalId>, u: SignalUpdate) {
    ResolvedIn(ids, u.path) == INVALID_SIGNAL || ResolvedIn(ids, u.path) in protectedIds
  }

  /** A batch holding a refused update is rejected. */
  lemma {:induction false} UpdatesRejected(updates: seq<SignalUpdate>, k: nat, t: Tables,
                                           ids: map<string, SignalId>, protectedIds: set<SignalId>, i: nat)
    requires i < k <= |updates| && Refused(ids, protectedIds, updates[i])
    ensures UpdatesRun(updates, k, t, ids, protectedIds).1.Some?
    decreases k
  {
    if i < k - 1 {
      UpdatesRejected(updates, k - 1, t, ids, protectedIds, i);
    }
  }

  /** A rejection that is not the store's own refusal points at a refused update. */
  lemma {:induction false} UpdatesRejectedWhy(updates: seq<SignalUpdate>, k: nat, t: Tables,
                                              ids: map<string, SignalId>, protectedIds: set<SignalId>)
    requires k <= |updates|
    ensures var r := UpdatesRun(updates, k, t, ids, protectedIds);
      r.1.Some? && !r.1.value.Raised? ==> exists i :: 0 <= i < k && Refused(ids, protectedIds, updates[i])
    decreases k
  {
    if k > 0 {
      UpdatesRejectedWhy(updates, k - 1, t, ids, protectedIds);
    }
  }

  // ---------------------------------------------------------------------------
  // Write authority

  /** The temperature path a model spec declares, when it is a thermal mass
      whose "temp_signal" parameter is a string. */
  function TempPath(m: ModelSpec): Option<string> {
    if m.typeName == "thermal_mass" && "temp_signal" in m.params && m.params["temp_signal"].VString?
    then Some(m.params["temp_signal"].s) else None
  }

  /** The resolved ids of every edge target path. */
  function EdgeTargetIds(edges: seq<EdgeSpec>, ids: map<string, SignalId>): set<SignalId> {
    if edges == [] then {}
    else
      var id := ResolvedIn(ids, edges[|edges| - 1].targetPath);
      EdgeTargetIds(edges[..|edges| - 1], ids) + (if id != INVALID_SIGNAL then {id} else {})
  }

  /** The resolved ids of every thermal-mass temperature path. */
  function TempIds(models: seq<ModelSpec>, ids: map<string, SignalId>): set<SignalId> {
    if models == [] then {}
    else
      var p := TempPath(models[|models| - 1]);
      var id := if p.Some? then ResolvedIn(ids, p.value) else INVALID_SIGNAL;
      TempIds(models[..|models| - 1], ids) + (if id != INVALID_SIGNAL then {id} else {})
  }

  lemma {:induction false} EdgeTargetIdsMembers(edges: seq<EdgeSpec>, ids: map<string, SignalId>, i: nat)
    requires i < |edges| && ResolvedIn(ids, edges[i].targetPath) != INVALID_SIGNAL
    ensures ResolvedIn(ids, edges[i].targetPath) in EdgeTargetIds(edges, ids)
    decreases |edges|
  {
    if i < |edges| - 1 {
      EdgeTargetIdsMembers(edges[..|edges| - 1], ids, i);
    }
  }

  /** Every edge of a compiled program writes a protected signal: a provider
      can never overwrite an edge's output. */
  lemma CompiledTargetsProtected(specs: seq<EdgeSpec>, ids: map<string, SignalId>, edges: seq<CompiledEdge>)
    requires OrderedFrom(specs, ids, edges)
    ensures forall i :: 0 <= i < |edges| && edges[i].target != INVALID_SIGNAL ==> edges[i].target in EdgeTargetIds(specs, ids)
  {
    var unsorted, order :| && EdgesCompiled(specs, ids, unsorted)
                           && IsPermutation(order, |specs|) && edges == Reorder(unsorted, order);
    forall i | 0 <= i < |edges| && edges[i].target != INVALID_SIGNAL
      ensures edges[i].target in EdgeTargetIds(specs, ids)
    {
      var k := order[i];
      assert edges[i] == CompiledFrom(specs[k], ids);
      EdgeTargetIdsMembers(specs, ids, k);
    }
  }

  /** Compiled rules carry one argument map per action, as the engine needs. */
  lemma CompiledRulesWellFormed(specs: seq<RuleSpec>, ids: map<string, SignalId>, devices: map<string, nat>,
                                 functions: map<string, nat>, syntax: ConditionSyntax, rules: seq<CompiledRule>)
    requires RulesFrom(specs, ids, devices, functions, syntax, rules)
    ensures WellFormed(rules)
  {
    forall i | 0 <= i < |rules|
      ensures |rules[i].deviceFunctions| == |rules[i].argsList|
    {
      ArgsOfCompiled(specs[i], ids, devices, functions, syntax, rules[i]);
    }
  }

  // ---------------------------------------------------------------------------
  // The tick barrier

  /** The sessions after UpdateSignals refreshes the caller's clock and prunes. */
  function Touched(sessions: map<string, Session>, sessionId: string, now: int): map<string, Session>
    requires sessionId in sessions
  {
    Pruned(sessions[sessionId := sessions[sessionId].(lastUpdate := now)], sessionId, now)
  }

  /** The sessions after the caller is recorded as having submitted for `generation`. */
  function Marked(sessions: map<string, Session>, sessionId: string, generation: nat): map<string, Session>
    requires sessionId in sessions
  {
    sessions[sessionId := sessions[sessionId].(lastTickGeneration := Some(generation))]
  }

  /** No session has submitted for a generation beyond `generation`. */
  predicate SubmittedAtMost(sessions: map<string, Session>, generation: nat) {
    forall id :: id in sessions && sessions[id].lastTickGeneration.Some? ==> sessions[id].lastTickGeneration.value <= generation
  }

  /** The caller's submission completes the barrier exactly when every other
      active session has already submitted for the same generation. */
  lemma BarrierOpens(sessions: map<string, Session>, sessionId: string, generation: nat)
    requires sessionId in sessions
    ensures AllSubmitted(Marked(sessions, sessionId, generation), generation)
        <==> forall id :: id in sessions && id != sessionId ==> Submitted(sessions[id], generation)
  {
    var marked := Marked(sessions, sessionId, generation);
    assert marked.Keys == sessions.Keys;
    if forall id :: id in sessions && id != sessionId ==> Submitted(sessions[id], generation) {
      assert forall id :: id in marked ==> Submitted(marked[id], generation);
    }
  }

  /** Once the generation advances, no session counts as submitted: every
      provider has to submit again before the next tick. */
  lemma NextGenerationAwaitsAll(sessions: map<string, Session>, generation: nat)
    requires SubmittedAtMost(sessions, generation)
    ensures forall id :: id in sessions ==> !Submitted(sessions[id], generation + 1)
    ensures !AllSubmitted(sessions, generation + 1)
  {
    if |sessions| > 0 {
      var id :| id in sessions;
      assert !Submitted(sessions[id], generation + 1);
    }
  }

  /** A new session that conflicts with no active one keeps ownership exclusive. */
  lemma ExclusiveAdd(sessions: map<string, Session>, sessionId: string, s: Session)
    requires Exclusive(sessions) && !Conflicts(sessions, s.providerId, s.deviceIds)
    ensures Exclusive(sessions[sessionId := s])
  {
    var after := sessions[sessionId := s];
    forall x, y, d | x in after && y in after && x != y && Owns(after[x], d)
      ensures !Owns(after[y], d)
    {
      if x == sessionId {
        assert !ConflictsWith(sessions[y], s.providerId, s.deviceIds);
      } else if y == sessionId {
        assert !ConflictsWith(sessions[x], s.providerId, s.deviceIds);
      }
    }
    forall x, y | x in after && y in after && x != y
      ensures after[x].providerId != after[y].providerId
    {
      if x == sessionId {
        assert !ConflictsWith(sessions[y], s.providerId, s.deviceIds);
      } else if y == sessionId {
        assert !ConflictsWith(sessions[x], s.providerId, s.deviceIds);
      }
    }
  }

  /** A tick never clears a physics-driven mark. */
  lemma TickKeepsDriven(edges: seq<CompiledEdge>, models: seq<ThermalMass>, rules: seq<CompiledRule>,
                        queue: seq<Command>, t: Tables, dt: real, num: Numerics,
                        heat: (ThermalMass, real, real, real) -> real)
    requires WellFormed(rules)
    ensures t.driven <= TickResult(edges, models, rules, queue, t, dt, num, heat).tables.driven
  {
    var snap := Snapshots(edges, t.signals);
    var er := EdgesRun(snap, |snap|, t, dt, num);
    ModelsRunKeepsDriven(models, |models|, er.tables, dt, heat);
  }

  lemma EdgeTargetIdsSnoc(edges: seq<EdgeSpec>, i: nat, ids: map<string, SignalId>)
    requires i < |edges|
    ensures var id := ResolvedIn(ids, edges[i].targetPath);
      EdgeTargetIds(edges[..i + 1], ids) == EdgeTargetIds(edges[..i], ids) + (if id != INVALID_SIGNAL then {id} else {})
  {
    assert edges[..i + 1][..i] == edges[..i];
  }

  lemma TempIdsSnoc(models: seq<ModelSpec>, i: nat, ids: map<string, SignalId>)
    requires i < |models|
    ensures var p := TempPath(models[i]);
      var id := if p.Some? then ResolvedIn(ids, p.value) else INVALID_SIGNAL;
      TempIds(models[..i + 1], ids) == TempIds(models[..i], ids) + (if id != INVALID_SIGNAL then {id} else {})
  {
    assert models[..i + 1][..i] == models[..i];
  }

  /** LoadConfig's first write-authority loop: the ids of the edge targets. */
  method ProtectEdgeTargets(edges: seq<EdgeSpec>, ns: SignalNamespace) returns (ids: set<SignalId>)
    requires ns.Valid()
    ensures ids == EdgeTargetIds(edges, ns.pathToId)
  {
    ids := {};
    var i := 0;
    while i < |edges|
      invariant 0 <= i <= |edges|
      invariant ids == EdgeTargetIds(edges[..i], ns.pathToId)
    {
      var target := ns.Resolve(edges[i].targetPath);
      EdgeTargetIdsSnoc(edges, i, ns.pathToId);
      if target != INVALID_SIGNAL {
        ids := ids + {target};
      }
      i := i + 1;
    }
    assert edges[..i] == edges;
  }

  /** LoadConfig's second write-authority loop: every thermal-mass temperature
      signal is taken over by physics and marked physics-driven in `store`. */
  method MarkTemperatures(models: seq<ModelSpec>, ns: SignalNamespace, store: SignalStore) returns (owned: set<SignalId>)
    requires ns.Valid() && store.Valid()
    modifies store
    ensures store.Valid() && owned == TempIds(models, ns.pathToId)
    ensures store.signals == old(store.signals) && store.declaredUnits == old(store.declaredUnits)
    ensures store.physicsDriven == old(store.physicsDriven) + owned
  {
    owned := {};
    var i := 0;
    while i < |models|
      invariant 0 <= i <= |models|
      invariant store.Valid() && owned == TempIds(models[..i], ns.pathToId)
      invariant store.signals == old(store.signals) && store.declaredUnits == old(store.declaredUnits)
      invariant store.physicsDriven == old(store.physicsDriven) + owned
    {
      var path := TempPath(models[i]);
      TempIdsSnoc(models, i, ns.pathToId);
      if path.Some? {
        var temp := ns.Resolve(path.value);
        if temp != INVALID_SIGNAL {
          owned := owned + {temp};
          store.MarkPhysicsDriven(temp, true);
        }
      }
      i := i + 1;
    }
    assert models[..i] == models;
  }

  /** LoadConfig's write-authority pass over a fresh store: the protected
      edge targets, and the model outputs, which are also marked physics-driven. */
  method Authority(spec: GraphSpec, ns: SignalNamespace, store: SignalStore) returns (targets: set<SignalId>, owned: set<SignalId>)
    requires ns.Valid()
    modifies store
    ensures store.Valid()
    ensures targets == EdgeTargetIds(spec.edges, ns.pathToId) && owned == TempIds(spec.models, ns.pathToId)
    ensures store.signals == map[] && store.declaredUnits == map[] && store.physicsDriven == owned
  {
    store.Reinit();
    targets := ProtectEdgeTargets(spec.edges, ns);
    owned := MarkTemperatures(spec.models, ns, store);
  }

  /** Once the write loop has stopped, later updates change nothing. */
  lemma {:induction false} UpdatesRunStops(updates: seq<SignalUpdate>, j: nat, k: nat, t: Tables,
                                           ids: map<string, SignalId>, protectedIds: set<SignalId>)
    requires j <= k <= |updates|
    requires UpdatesRun(updates, j, t, ids, protectedIds).1.Some?
    ensures UpdatesRun(updates, k, t, ids, protectedIds) == UpdatesRun(updates, j, t, ids, protectedIds)
    decreases k
  {
    if k > j {
      UpdatesRunStops(updates, j, k - 1, t, ids, protectedIds);
    }
  }

  /** Reset's re-marking loop: every id of `ids` becomes physics-driven again. */
  method MarkDriven(ids: set<SignalId>, store: SignalStore)
    requires store.Valid()
    modifies store
    ensures store.Valid()
    ensures store.signals == old(store.signals) && store.declaredUnits == old(store.declaredUnits)
    ensures store.physicsDriven == old(store.physicsDriven) + ids
  {
    var pending := ids;
    while pending != {}
      invariant pending <= ids && store.Valid()
      invariant store.signals == old(store.signals) && store.declaredUnits == old(store.declaredUnits)
      invariant store.physicsDriven == old(store.physicsDriven) + (ids - pending)
      decreases pending
    {
      var id :| id in pending;
      store.MarkPhysicsDriven(id, true);
      pending := pending - {id};
    }
  }

  /** Reset's session loop: every session must submit again. */
  method ClearSubmissions(sessions: map<string, Session>) returns (cleared: map<string, Session>)
    ensures cleared.Keys == sessions.Keys
    ensures forall id :: id in cleared ==> cleared[id].lastTickGeneration == None
    ensures forall id :: id in cleared ==> cleared[id] == sessions[id].(lastTickGeneration := None)
  {
    cleared := sessions;
    var pending := sessions.Keys;
    while pending != {}
      invariant pending <= sessions.Keys && cleared.Keys == sessions.Keys
      invariant forall id :: id in cleared && id in pending ==> cleared[id] == sessions[id]
      invariant forall id :: id in cleared && id !in pending ==> cleared[id] == sessions[id].(lastTickGeneration := None)
      decreases pending
    {
      var id :| id in pending;
      cleared := cleared[id := cleared[id].(lastTickGeneration := None)];
      pending := pending - {id};
    }
  }

  // ---------------------------------------------------------------------------
  // The service

  class FluxGraphService {
    const engine: Engine
    const store: SignalStore
    const signalNs: SignalNamespace
    const funcNs: FunctionNamespace
    const dt: real
    var loaded: bool
    var configHash: string
    /** Signals providers may not write: edge targets and model outputs. */
    var protectedSignals: set<SignalId>
    /** Model outputs, re-marked physics-driven after every reset. */
    var physicsOwned: set<SignalId>
    var simTime: real
    var tickGeneration: nat
    var lastCompletedGeneration: nat
    var lastCompletedSimTime: real
    var lastCompletedCommands: seq<Command>
    var sessions: map<string, Session>

    /** Both interning tables are consistent. */
    ghost predicate NamesValid()
      reads signalNs, funcNs
    {
      signalNs.Valid() && funcNs.Valid()
    }

    ghost predicate Valid()
      reads this, engine, store, signalNs, funcNs
    {
      && store.Valid() && NamesValid()
      && WellFormed(engine.rules) && loaded == engine.loaded
      && engine.commandQueue == []
      && physicsOwned <= protectedSignals && physicsOwned <= store.physicsDriven
      && lastCompletedGeneration == tickGeneration
      && Exclusive(sessions) && SubmittedAtMost(sessions, tickGeneration)
    }

    /** Everything but the sessions is as it was. */
    twostate predicate KeepsAllButSessions()
      reads this
    {
      && loaded == old(loaded) && configHash == old(configHash)
      && protectedSignals == old(protectedSignals) && physicsOwned == old(physicsOwned)
      && simTime == old(simTime) && tickGeneration == old(tickGeneration)
      && lastCompletedGeneration == old(lastCompletedGeneration)
      && lastCompletedSimTime == old(lastCompletedSimTime)
      && lastCompletedCommands == old(lastCompletedCommands)
    }

    /** The loaded configuration and its write authority are as they were. */
    twostate predicate KeepsConfig()
      reads this
    {
      && loaded == old(loaded) && configHash == old(configHash)
      && protectedSignals == old(protectedSignals) && physicsOwned == old(physicsOwned)
    }

    constructor (dt: real)
      ensures Valid() && this.dt == dt
      ensures fresh(engine) && fresh(store) && fresh(signalNs) && fresh(funcNs)
      ensures !loaded && configHash == "" && protectedSignals == {} && physicsOwned == {}
      ensures tickGeneration == 0 && lastCompletedCommands == [] && sessions == map[]
    {
      engine := new Engine();
      store := new SignalStore();
      signalNs := new SignalNamespace();
      funcNs := new FunctionNamespace();
      this.dt := dt;
      loaded := false;
      configHash := "";
      protectedSignals := {};
      physicsOwned := {};
      simTime := 0.0;
      tickGeneration := 0;
      lastCompletedGeneration := 0;
      lastCompletedSimTime := 0.0;
      lastCompletedCommands := [];
      sessions := map[];
    }
    /** Generation, simulated time and the completed-tick snapshot back to zero. */
    method RestartClock()
      requires Valid() && SubmittedAtMost(sessions, 0)
      modifies this
      ensures Valid() && KeepsConfig() && sessions == old(sessions)
      ensures simTime == 0.0 && tickGeneration == 0 && lastCompletedGeneration == 0
      ensures lastCompletedSimTime == 0.0 && lastCompletedCommands == []
    {
      simTime, lastCompletedSimTime := 0.0, 0.0;
      tickGeneration, lastCompletedGeneration, lastCompletedCommands := 0, 0, [];
    }

    /** The engine runs `spec` compiled against the namespaces: its models,
        its rules, and its edges in a valid schedule. */
    ghost predicate Runs(spec: GraphSpec, syntax: ConditionSyntax)
      reads engine, signalNs, funcNs
    {
      && ModelsFrom(spec.models, signalNs.pathToId, engine.models)
      && RulesFrom(spec.rules, signalNs.pathToId, funcNs.deviceMap, funcNs.functionMap, syntax, engine.rules)
      && OrderedFrom(spec.edges, signalNs.pathToId, engine.edges)
      && Scheduled(engine.edges, engine.models)
    }

    /** Write authority as a successful load of `spec` leaves it: edge
        targets and model outputs are protected, model outputs are
        physics-driven, and the store holds nothing else. */
    ghost predicate Authorized(spec: GraphSpec)
      reads this, store, signalNs
    {
      && physicsOwned == TempIds(spec.models, signalNs.pathToId)
      && protectedSignals == EdgeTargetIds(spec.edges, signalNs.pathToId) + physicsOwned
      && store.signals == map[] && store.declaredUnits == map[] && store.physicsDriven == physicsOwned
    }

    /** The sessions, generation and completed-tick snapshot start afresh. */
    ghost predicate Started()
      reads this
    {
      sessions == map[] && tickGeneration == 0 && simTime == 0.0 && lastCompletedCommands == []
    }

    /** The session and tick-barrier fields are as they were. */
    twostate predicate KeepsBarrier()
      reads this
    {
      && sessions == old(sessions) && simTime == old(simTime) && tickGeneration == old(tickGeneration)
      && lastCompletedGeneration == old(lastCompletedGeneration)
      && lastCompletedSimTime == old(lastCompletedSimTime)
      && lastCompletedCommands == old(lastCompletedCommands)
    }

    /** Rebuilds write authority for `spec` over a store reset to its defaults. */
    method Authorize(spec: GraphSpec)
      requires Valid()
      modifies this, store
      ensures Valid() && Authorized(spec) && KeepsBarrier()
      ensures loaded == old(loaded) && configHash == old(configHash)
    {
      var targets, owned := Authority(spec, signalNs, store);
      protectedSignals, physicsOwned := targets + owned, owned;
    }

    /** Every session is dropped, the clock restarts and write authority is
        rebuilt for `spec`. */
    method Restart(spec: GraphSpec)
      requires Valid()
      modifies this, store
      ensures Valid() && Authorized(spec) && Started()
      ensures loaded == old(loaded) && configHash == old(configHash)
    {
      sessions := map[];
      RestartClock();
      Authorize(spec);
    }

    /** The engine takes the compiled program and `hash` becomes the loaded configuration. */
    method Activate(spec: GraphSpec, hash: string, program: Program)
      requires Valid() && WellFormed(program.rules) && Authorized(spec) && Started()
      modifies this, engine
      ensures Valid() && loaded && configHash == hash && Authorized(spec) && Started()
      ensures engine.edges == program.edges && engine.models == program.models && engine.rules == program.rules
    {
      engine.Load(program);
      configHash, loaded := hash, true;
    }

    /** The part of LoadConfig after a successful compile. */
    method Install(spec: GraphSpec, hash: string, program: Program)
      requires Valid() && WellFormed(program.rules)
      modifies this, engine, store
      ensures Valid() && loaded && configHash == hash && Authorized(spec) && Started()
      ensures engine.edges == program.edges && engine.models == program.models && engine.rules == program.rules
    {
      Restart(spec);
      Activate(spec, hash, program);
    }

    /** LoadConfig: a matching non-empty hash is a no-op; otherwise the
        document is loaded, the namespaces are cleared and the graph compiled
        into them, and on success the engine takes the program, the store and
        every session start afresh, and write authority is rebuilt. */
    method LoadConfig(hash: string, format: string, parsed: Result<GraphSpec, string>, syntax: ConditionSyntax)
      returns (r: Result<bool, Status>)
      requires Valid()
      modifies this, engine, store, signalNs, funcNs
      ensures Valid()
      ensures hash != "" && hash == old(configHash) ==> r == Ok(false) && unchanged(this, engine, store, signalNs, funcNs)
      ensures !(hash != "" && hash == old(configHash)) && format != "yaml" && format != "json" ==>
        r == Err(InvalidArgument("Unknown format: " + format + " (must be 'yaml' or 'json')"))
        && unchanged(this, engine, store, signalNs, funcNs)
      ensures !(hash != "" && hash == old(configHash)) && (format == "yaml" || format == "json") && parsed.Err? ==>
        r == Err(InvalidConfig(LoadFailed(parsed.error))) && unchanged(this, engine, store, signalNs, funcNs)
      ensures !(hash != "" && hash == old(configHash)) && (format == "yaml" || format == "json") && parsed.Ok? ==>
        && (r == Ok(true) <==> Accepts(parsed.value, signalNs.pathToId, dt, syntax))
        && (r == Ok(true) ==> loaded && configHash == hash && Runs(parsed.value, syntax) && Authorized(parsed.value) && Started())
        && (r != Ok(true) ==>
              && r.Err? && r.error.InvalidConfig? && r.error.reason.CompileFailed?
              && Rejects(parsed.value, signalNs.pathToId, dt, syntax, r.error.reason.error)
              && unchanged(this, engine, store))
    {
      if hash != "" && hash == configHash {
        return Ok(false);
      }
      if format != "yaml" && format != "json" {
        return Err(InvalidArgument("Unknown format: " + format + " (must be 'yaml' or 'json')"));
      }
      if parsed.Err? {
        return Err(InvalidConfig(LoadFailed(parsed.error)));
      }
      signalNs.Clear();
      funcNs.Clear();
      var program := Compile(parsed.value, signalNs, funcNs, dt, syntax);
      if program.Err? {
        return Err(InvalidConfig(CompileFailed(program.error)));
      }
      CompiledRulesWellFormed(parsed.value.rules, signalNs.pathToId, funcNs.deviceMap, funcNs.functionMap, syntax,
                              program.value.rules);
      Install(parsed.value, hash, program.value);
      r := Ok(true);
    }
    /** RegisterProvider: once a configuration is loaded, evicts stale
        sessions and registers a provider whose id and devices no remaining
        session holds, under `sessionId`; it starts out not having submitted. */
    method RegisterProvider(providerId: string, deviceIds: seq<string>, now: int, sessionId: string)
      returns (r: Result<string, Status>)
      requires Valid()
      modifies this
      ensures Valid() && KeepsAllButSessions()
      ensures !old(loaded) ==>
        r == Err(FailedPrecondition("Config not loaded - call LoadConfig first")) && sessions == old(sessions)
      ensures old(loaded) && providerId == "" ==>
        r == Err(InvalidArgument("provider_id must be non-empty")) && sessions == old(sessions)
      ensures old(loaded) && providerId != "" ==>
        var active := Pruned(old(sessions), "", now);
        && (r.Err? <==> Conflicts(active, providerId, deviceIds))
        && (r.Err? ==> FirstConflict(active, providerId, deviceIds, r.error) && sessions == active)
        && (r.Ok? ==> r.value == sessionId && sessions == active[sessionId := Session(providerId, deviceIds, now, None)])
    {
      if !loaded {
        return Err(FailedPrecondition("Config not loaded - call LoadConfig first"));
      }
      if providerId == "" {
        return Err(InvalidArgument("provider_id must be non-empty"));
      }
      var active := PruneStaleSessions(sessions, "", now);
      ExclusiveKept(sessions, active);
      var conflict := FindConflict(active, providerId, deviceIds);
      if conflict.Fail? {
        sessions := active;
        return Err(conflict.error);
      }
      var session := Session(providerId, deviceIds, now, None);
      ExclusiveAdd(active, sessionId, session);
      sessions := active[sessionId := session];
      r := Ok(sessionId);
    }

    /** UnregisterProvider: ends a known session. */
    method UnregisterProvider(sessionId: string) returns (r: Outcome<Status>)
      requires Valid()
      modifies this
      ensures Valid() && KeepsAllButSessions()
      ensures sessionId == "" ==> r == Fail(InvalidArgument("session_id must be non-empty")) && sessions == old(sessions)
      ensures sessionId != "" && sessionId !in old(sessions) ==>
        r == Fail(Unauthenticated("Unknown session_id")) && sessions == old(sessions)
      ensures sessionId != "" && sessionId in old(sessions) ==> r == Pass && sessions == old(sessions) - {sessionId}
    {
      if sessionId == "" {
        return Fail(InvalidArgument("session_id must be non-empty"));
      }
      if sessionId !in sessions {
        return Fail(Unauthenticated("Unknown session_id"));
      }
      ExclusiveKept(sessions, sessions - {sessionId});
      sessions := sessions - {sessionId};
      r := Pass;
    }

    /** UpdateSignals, first step: the caller is heard from now, and every
        other stale session is evicted. */
    method Touch(sessionId: string, now: int)
      requires Valid() && sessionId in sessions
      modifies this
      ensures Valid() && KeepsAllButSessions()
      ensures sessions == Touched(old(sessions), sessionId, now)
    {
      var kept := PruneStaleSessions(sessions[sessionId := sessions[sessionId].(lastUpdate := now)], sessionId, now);
      ExclusiveKept(sessions, kept);
      sessions := kept;
    }

    /** UpdateSignals, second step: the provider's values are written in
        order until an unknown path, a protected signal or a refused write. */
    method WriteUpdates(updates: seq<SignalUpdate>) returns (failure: Option<Status>)
      requires Valid()
      modifies store
      ensures Valid()
      ensures var run := UpdatesRun(updates, |updates|, old(TablesOf(store)), signalNs.pathToId, protectedSignals);
        TablesOf(store) == run.0 && failure == run.1
    {
      ghost var t0 := TablesOf(store);
      var i := 0;
      while i < |updates|
        invariant 0 <= i <= |updates| && store.Valid()
        invariant UpdatesRun(updates, i, t0, signalNs.pathToId, protectedSignals) == (TablesOf(store), None)
      {
        var u := updates[i];
        var id := signalNs.Resolve(u.path);
        if id == INVALID_SIGNAL {
          UpdatesRunStops(updates, i + 1, |updates|, t0, signalNs.pathToId, protectedSignals);
          UpdatesSpareProtected(updates, |updates|, t0, signalNs.pathToId, protectedSignals);
          return Some(InvalidArgument("Unknown signal: " + u.path));
        }
        if id in protectedSignals {
          UpdatesRunStops(updates, i + 1, |updates|, t0, signalNs.pathToId, protectedSignals);
          UpdatesSpareProtected(updates, |updates|, t0, signalNs.pathToId, protectedSignals);
          return Some(PermissionDenied("Write denied for protected signal: " + u.path));
        }
        var outcome := WriteStore(store, id, u.value, u.unit);
        if outcome.Fail? {
          UpdatesRunStops(updates, i + 1, |updates|, t0, signalNs.pathToId, protectedSignals);
          UpdatesSpareProtected(updates, |updates|, t0, signalNs.pathToId, protectedSignals);
          return Some(Raised(StoreFailure(outcome.error)));
        }
        i := i + 1;
      }
      UpdatesSpareProtected(updates, |updates|, t0, signalNs.pathToId, protectedSignals);
      failure := None;
    }

    /** UpdateSignals, third step: the caller has submitted for `generation`. */
    method MarkSubmitted(sessionId: string, generation: nat)
      requires Valid() && sessionId in sessions && generation <= tickGeneration
      modifies this
      ensures Valid() && KeepsAllButSessions()
      ensures sessions == Marked(old(sessions), sessionId, generation)
    {
      ExclusiveKept(sessions, Marked(sessions, sessionId, generation));
      sessions := Marked(sessions, sessionId, generation);
    }

    /** One engine tick over the store; the commands it queued are drained. */
    method RunTick(num: Numerics, heat: (ThermalMass, real, real, real) -> real)
      returns (outcome: Outcome<EngineError>, drained: seq<Command>)
      requires Valid() && loaded
      modifies engine, store
      ensures Valid()
      ensures var res := TickResult(old(engine.edges), old(engine.models), old(engine.rules), [], old(TablesOf(store)), dt, num, heat);
        && engine.edges == res.edges && engine.models == res.models && TablesOf(store) == res.tables
        && outcome == res.outcome && (outcome.Pass? ==> drained == res.queue)
    {
      TickKeepsDriven(engine.edges, engine.models, engine.rules, [], TablesOf(store), dt, num, heat);
      outcome := engine.Tick(dt, store, num, heat);
      drained := engine.DrainCommands();
    }

    /** A completed tick: the generation and simulated time advance and the
        tick's commands become the snapshot waiting providers are sent. */
    method Advance(commands: seq<Command>)
      requires Valid()
      modifies this
      ensures Valid() && KeepsConfig() && sessions == old(sessions)
      ensures tickGeneration == old(tickGeneration) + 1 && simTime == old(simTime) + dt
      ensures lastCompletedCommands == commands
    {
      simTime := simTime + dt;
      tickGeneration := tickGeneration + 1;
      lastCompletedGeneration := tickGeneration;
      lastCompletedSimTime := simTime;
      lastCompletedCommands := commands;
    }

    /** UpdateSignals, last step for the provider that completes the barrier:
        one engine tick; if it succeeds the generation and simulated time
        advance, the queue is drained into the completed-tick snapshot and the
        caller gets the commands for its devices. */
    method CompleteTick(sessionId: string, num: Numerics, heat: (ThermalMass, real, real, real) -> real)
      returns (r: Result<TickReply, Status>)
      requires Valid() && loaded && sessionId in sessions
      modifies this, engine, store
      ensures Valid() && KeepsConfig() && sessions == old(sessions)
      ensures var res := TickResult(old(engine.edges), old(engine.models), old(engine.rules), [], old(TablesOf(store)), dt, num, heat);
        && engine.edges == res.edges && engine.models == res.models && TablesOf(store) == res.tables
        && (res.outcome.Fail? ==>
              && r == Err(Raised(res.outcome.error)) && tickGeneration == old(tickGeneration)
              && simTime == old(simTime) && lastCompletedCommands == old(lastCompletedCommands))
        && (res.outcome.Pass? ==>
              && tickGeneration == old(tickGeneration) + 1 && simTime == old(simTime) + dt
              && lastCompletedCommands == res.queue
              && r == Ok(Ticked(OwnedCommands(res.queue, sessions[sessionId].deviceIds, funcNs.deviceReverse))))
    {
      var outcome, drained := RunTick(num, heat);
      if outcome.Fail? {
        return Err(Raised(outcome.error));
      }
      Advance(drained);
      var commands := FilterCommands(sessions, sessionId, drained, funcNs);
      r := Ok(Ticked(commands));
    }

    /** UpdateSignals: a known session's values are written; if every active
        session has now submitted for the current generation, this call runs
        the tick and gets its commands, otherwise it waits for the generation
        to complete. */
    method UpdateSignals(sessionId: string, updates: seq<SignalUpdate>, now: int, num: Numerics,
                         heat: (ThermalMass, real, real, real) -> real) returns (r: Result<TickReply, Status>)
      requires Valid()
      modifies this, engine, store
      ensures Valid() && KeepsConfig()
      ensures !old(loaded) ==> r == Err(FailedPrecondition("Config not loaded")) && unchanged(this, engine, store)
      ensures old(loaded) && sessionId !in old(sessions) ==>
        r == Err(Unauthenticated("Invalid session_id - call RegisterProvider first")) && unchanged(this, engine, store)
      ensures old(loaded) && sessionId in old(sessions) ==>
        var written := UpdatesRun(updates, |updates|, old(TablesOf(store)), signalNs.pathToId, protectedSignals);
        written.1.Some? ==>
          && r == Err(written.1.value) && sessions == Touched(old(sessions), sessionId, now)
          && TablesOf(store) == written.0 && unchanged(engine) && tickGeneration == old(tickGeneration)
      ensures old(loaded) && sessionId in old(sessions) ==>
        var written := UpdatesRun(updates, |updates|, old(TablesOf(store)), signalNs.pathToId, protectedSignals);
        var marked := Marked(Touched(old(sessions), sessionId, now), sessionId, old(tickGeneration));
        written.1.None? && !AllSubmitted(marked, old(tickGeneration)) ==>
          && r == Ok(Waiting(old(tickGeneration))) && sessions == marked
          && TablesOf(store) == written.0 && unchanged(engine) && tickGeneration == old(tickGeneration)
      ensures old(loaded) && sessionId in old(sessions) ==>
        var written := UpdatesRun(updates, |updates|, old(TablesOf(store)), signalNs.pathToId, protectedSignals);
        var marked := Marked(Touched(old(sessions), sessionId, now), sessionId, old(tickGeneration));
        var res := TickResult(old(engine.edges), old(engine.models), old(engine.rules), [], written.0, dt, num, heat);
        written.1.None? && AllSubmitted(marked, old(tickGeneration)) ==>
          && sessions == marked
          && engine.edges == res.edges && engine.models == res.models && TablesOf(store) == res.tables
          && (res.outcome.Fail? ==> r == Err(Raised(res.outcome.error)) && tickGeneration == old(tickGeneration))
          && (res.outcome.Pass? ==>
                && tickGeneration == old(tickGeneration) + 1 && lastCompletedCommands == res.queue
                && r == Ok(Ticked(OwnedCommands(res.queue, marked[sessionId].deviceIds, funcNs.deviceReverse))))
    {
      if !loaded {
        return Err(FailedPrecondition("Config not loaded"));
      }
      if sessionId !in sessions {
        return Err(Unauthenticated("Invalid session_id - call RegisterProvider first"));
      }
      Touch(sessionId, now);
      var generation := tickGeneration;
      var failure := WriteUpdates(updates);
      if failure.Some? {
        return Err(failure.value);
      }
      MarkSubmitted(sessionId, generation);
      var ready := AllReady(sessions, generation);
      if !ready {
        return Ok(Waiting(generation));
      }
      r := CompleteTick(sessionId, num, heat);
    }

    /** What a provider waiting on `generation` is sent once woken: the
        completed tick's commands for its devices, or nothing when the
        generation has not completed (the wait timed out). */
    method WakeReply(sessionId: string, generation: nat) returns (reply: Option<seq<Command>>)
      requires Valid()
      ensures tickGeneration <= generation ==> reply == None
      ensures tickGeneration > generation && sessionId in sessions ==>
        reply == Some(OwnedCommands(lastCompletedCommands, sessions[sessionId].deviceIds, funcNs.deviceReverse))
      ensures tickGeneration > generation && sessionId !in sessions ==> reply == Some([])
    {
      if tickGeneration <= generation {
        return None;
      }
      var commands := FilterCommands(sessions, sessionId, lastCompletedCommands, funcNs);
      reply := Some(commands);
    }

    /** Reset: with a configuration loaded, the engine returns to its initial
        state, the store forgets its values (not its declared units) and
        re-marks model outputs as physics-driven, the generation restarts at
        zero and every session must submit again. */
    method Reset() returns (r: Outcome<Status>)
      requires Valid()
      modifies this, engine, store
      ensures Valid()
      ensures !old(loaded) ==> r == Fail(FailedPrecondition("Config not loaded")) && unchanged(this, engine, store)
      ensures old(loaded) ==>
        && r == Pass && KeepsConfig()
        && |engine.models| == |old(engine.models)|
        && (forall i :: 0 <= i < |engine.models| ==> engine.models[i] == ResetModel(old(engine.models)[i]))
        && |engine.edges| == |old(engine.edges)|
        && (forall i :: 0 <= i < |engine.edges| ==> engine.edges[i] == ResetEdge(old(engine.edges)[i]))
        && store.signals == map[] && store.declaredUnits == old(store.declaredUnits) && store.physicsDriven == physicsOwned
        && tickGeneration == 0 && simTime == 0.0 && lastCompletedCommands == []
        && sessions.Keys == old(sessions).Keys
        && (forall id :: id in sessions ==> sessions[id] == old(sessions)[id].(lastTickGeneration := None))
    {
      if !loaded {
        return Fail(FailedPrecondition("Config not loaded"));
      }
      engine.Reset();
      store.Clear();
      MarkDriven(physicsOwned, store);
      var cleared := ClearSubmissions(sessions);
      ExclusiveKept(sessions, cleared);
      sessions := cleared;
      RestartClock();
      r := Pass;
    }
  }
}
