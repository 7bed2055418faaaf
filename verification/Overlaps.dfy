/**
 Overlapping credential calls. Each of them reads a connection or a handle, waits for a remote
 party, and then writes back its own copy (src/accretion/enterprise_auth.py, token_broker.py,
 connections.py): a call is a begin step and a commit step, and anything may happen in between.
 */
module Overlaps {
  import opened Sequences
  import opened Enterprise
  import Serial = EnterpriseRuns

  // ---------------------------------------------------------------- calls in flight

  datatype Means = ByToken(refreshToken: string) | ByReacquirer(connector: Connector)

  /** A call between its two steps, with the copies it has read. */
  datatype Flight =
    | Acquiring(connector: Connector, owner: Owner, own: Option<nat>, copy: Connection)
    | Renewing(h: nat, handle: Handle, means: Means)
    | Revoking(c: nat, copy: Connection, held: Option<Handle>)
    | Ended

  datatype System = System(store: Store, flights: seq<Flight>)

  const START := System(EMPTY, [])

  datatype Step =
    | BeginEnsure(connector: Connector, principalId: string, workspaceId: string)
    | BeginRenew(h: nat, definition: Option<Connector>)
    | BeginRevoke(c: nat, principalId: string)
    | Commit(i: nat, world: World)
    | Die(i: nat)
    | Retain(principalId: string, assertion: Assertion)
    | Forget(principalId: string)
    | Share(owner: Owner)

  function Launched(s: System, flight: Flight): System {
    s.(flights := s.flights + [flight])
  }

  /** `_connection_for`: refuse a revoked connection, else go on with a copy of it, or with a fresh one. */
  function StartEnsure(s: System, connector: Connector, owner: Owner): System {
    var own := FindOwn(s.store.connections, owner);
    if own.Some? && s.store.connections[own.value].status == ConnectionRevoked
    then s.(store := Noted(s.store, owner, RefusedRevoked))
    else
      var copy := if own.Some? then s.store.connections[own.value]
                  else Connection(owner, true, ConnectionPending, None, []);
      Launched(s, Acquiring(connector, owner, own, copy))
  }

  /** `get_access_material` on an ACTIVE handle, up to the remote party that renews it. */
  function StartRenew(settings: Settings, s: System, h: nat, definition: Option<Connector>): System
    requires h < |s.store.handles|
  {
    var handle := s.store.handles[h];
    if handle.status != TokenActive || Open(s.store, h).None? then s
    else if Open(s.store, h).value.refreshToken != "" then
      if handle.owner.connectorId !in settings.clients then s
      else Launched(s, Renewing(h, handle, ByToken(Open(s.store, h).value.refreshToken)))
    else if handle.owner.connectorId !in settings.audiences then s.(store := Marked(s.store, h, TokenExpired))
    else
      match LeaveFor(s.store, h, definition)
      case MayReacquire => Launched(s, Renewing(h, handle, ByReacquirer(definition.value)))
      case Refused(None) => s.(store := Marked(s.store, h, TokenExpired))
      case Refused(Some(outcome)) => s.(store := Marked(Noted(s.store, handle.owner, outcome), h, TokenExpired))
  }

  function StartRevoke(s: System, c: nat, principalId: string): System {
    if c >= |s.store.connections| || s.store.connections[c].owner.principalId != principalId then s
    else
      var copy := s.store.connections[c];
      var held := if copy.handle.Some? && copy.handle.value < |s.store.handles|
                  then Some(s.store.handles[copy.handle.value]) else None;
      Launched(s, Revoking(c, copy, held))
  }

  // ---------------------------------------------------------------- writing back

  /** What a write from a stale copy amounts to: the copy is put back first. */
  function WithConnection(s: Store, c: Option<nat>, copy: Connection): Store {
    if c.Some? && c.value < |s.connections| then s.(connections := s.connections[c.value := copy]) else s
  }

  function WithHandle(s: Store, h: nat, copy: Handle): Store {
    if h < |s.handles| then s.(handles := s.handles[h := copy]) else s
  }

  function CommitEnsure(settings: Settings, s: Store, f: Flight, w: World): Store
    requires f.Acquiring? && (f.own.Some? ==> f.own.value < |s.connections|)
  {
    var a := Acquired(settings, s, f.connector, f.owner, w, false);
    AcquiredFrame(settings, s, f.connector, f.owner, w, false);
    if a.response.None? then a.store
    else Installed(WithConnection(a.store, f.own, f.copy), f.connector, f.owner, f.own, a.response.value).store
  }

  /** The remote party's answer to a renewal, and the store it leaves. */
  function RenewalAnswer(settings: Settings, s: Store, f: Flight, w: World): Acquisition
    requires f.Renewing?
  {
    match f.means
    case ByToken(refreshToken) =>
      Acquisition(s, if w.refresh.Answered? then Some(Keeping(w.refresh.response, refreshToken)) else None)
    case ByReacquirer(connector) => Acquired(settings, s, connector, f.handle.owner, w, true)
  }

  lemma RenewalAnswerFrame(settings: Settings, s: Store, f: Flight, w: World)
    requires f.Renewing?
    ensures var t := RenewalAnswer(settings, s, f, w).store;
            t == s.(assertions := t.assertions, rows := t.rows, contacts := t.contacts)
  {
    if f.means.ByReacquirer? { AcquiredFrame(settings, s, f.means.connector, f.handle.owner, w, true); }
  }

  function CommitRenew(settings: Settings, s: Store, f: Flight, w: World): Store
    requires f.Renewing? && f.h < |s.handles|
  {
    var a := RenewalAnswer(settings, s, f, w);
    RenewalAnswerFrame(settings, s, f, w);
    var t := WithHandle(a.store, f.h, f.handle);
    if a.response.Some? then Resealed(t, f.h, a.response.value)
    else Marked(t, f.h, if f.means.ByToken? then TokenError else TokenExpired)
  }

  function CommitRevoke(s: Store, f: Flight): Store
    requires f.Revoking?
  {
    var t := WithConnection(s, Some(f.c), f.copy);
    var u := if f.held.Some? && f.copy.handle.Some? then WithHandle(t, f.copy.handle.value, f.held.value) else t;
    Revoked(u, f.c, f.copy.owner.principalId)
  }

  function Next(settings: Settings, s: System, step: Step): System {
    match step
    case BeginEnsure(connector, principalId, workspaceId) =>
      StartEnsure(s, connector, Owner(connector.connectorId, principalId, workspaceId))
    case BeginRenew(h, definition) => if h < |s.store.handles| then StartRenew(settings, s, h, definition) else s
    case BeginRevoke(c, principalId) => StartRevoke(s, c, principalId)
    case Commit(i, w) => if i < |s.flights| then Committed(settings, s, i, w) else s
    case Die(i) => if i < |s.flights| then s.(flights := s.flights[i := Ended]) else s
    case Retain(principalId, assertion) =>
      s.(store := s.store.(assertions := s.store.assertions[principalId := assertion]))
    case Forget(principalId) => s.(store := s.store.(assertions := s.store.assertions - {principalId}))
    case Share(owner) =>
      s.(store := s.store.(connections := s.store.connections + [Connection(owner, false, ConnectionActive, None, [])]))
  }

  function CommitStore(settings: Settings, s: Store, f: Flight, w: World): Store {
    if f.Acquiring? && (f.own.Some? ==> f.own.value < |s.connections|) then CommitEnsure(settings, s, f, w)
    else if f.Renewing? && f.h < |s.handles| then CommitRenew(settings, s, f, w)
    else if f.Revoking? then CommitRevoke(s, f)
    else s
  }

  function Committed(settings: Settings, s: System, i: nat, w: World): System
    requires i < |s.flights|
  {
    System(CommitStore(settings, s.store, s.flights[i], w), s.flights[i := Ended])
  }

  function Run(settings: Settings, s: System, steps: seq<Step>): System {
    if steps == [] then s else Next(settings, Run(settings, s, steps[..|steps| - 1]), steps[|steps| - 1])
  }

  // ---------------------------------------------------------------- what every interleaving keeps

  predicate KeyOk(s: Store, handle: Handle) {
    handle.secretKey < s.nextSecret
  }

  /** Copies belong to the rows they were read from. */
  predicate FlightOk(s: Store, f: Flight) {
    match f
    case Acquiring(connector, owner, own, copy) =>
      && copy.owner == owner && copy.userScope
      && (own.Some? ==> own.value < |s.connections| && Own(s.connections[own.value], owner))
    case Renewing(h, handle, _) => h < |s.handles| && s.handles[h].owner == handle.owner && KeyOk(s, handle)
    case Revoking(c, copy, held) =>
      && c < |s.connections| && s.connections[c].owner == copy.owner && s.connections[c].userScope == copy.userScope
      && PointerOk(s, copy)
      && (held.Some? ==> copy.handle.Some? && copy.handle.value < |s.handles| && KeyOk(s, held.value) &&
                         s.handles[copy.handle.value].owner == held.value.owner)
    case Ended => true
  }

  ghost predicate Sound(s: System) {
    && RowsOk(s.store)
    && (forall i :: 0 <= i < |s.flights| ==> FlightOk(s.store, s.flights[i]))
  }

  /** Rows keep their place and their owner, and secret keys are only ever added. */
  ghost predicate Grows(s: Store, t: Store) {
    && |s.connections| <= |t.connections| && |s.handles| <= |t.handles| && s.nextSecret <= t.nextSecret
    && (forall c :: 0 <= c < |s.connections| ==>
                      && t.connections[c].owner == s.connections[c].owner
                      && t.connections[c].userScope == s.connections[c].userScope)
    && (forall h :: 0 <= h < |s.handles| ==> t.handles[h].owner == s.handles[h].owner)
    && RowsOk(t)
  }

  predicate PointerOk(s: Store, connection: Connection) {
    connection.handle.Some? ==> connection.handle.value < |s.handles|
  }

  ghost predicate RowsOk(s: Store) {
    && (forall h :: 0 <= h < |s.handles| ==> KeyOk(s, s.handles[h]))
    && (forall c :: 0 <= c < |s.connections| ==> PointerOk(s, s.connections[c]))
  }

  /** The store as an acquisition leaves it before anything is stored for the owner. */
  predicate Beside(s: Store, a: Store) {
    a == s.(assertions := a.assertions, rows := a.rows, contacts := a.contacts)
  }

  lemma InstallGrows(s: Store, f: Flight, a: Store, response: Response)
    requires f.Acquiring? && FlightOk(s, f) && RowsOk(s) && Beside(s, a)
    ensures Grows(s, Installed(WithConnection(a, f.own, f.copy), f.connector, f.owner, f.own, response).store)
  {
  }

  lemma EnsureGrows(settings: Settings, s: Store, f: Flight, w: World)
    requires f.Acquiring? && FlightOk(s, f) && RowsOk(s)
    ensures Grows(s, CommitEnsure(settings, s, f, w))
  {
    AcquiredFrame(settings, s, f.connector, f.owner, w, false);
    var a := Acquired(settings, s, f.connector, f.owner, w, false);
    if a.response.Some? { InstallGrows(s, f, a.store, a.response.value); }
  }

  lemma RenewGrows(settings: Settings, s: Store, f: Flight, w: World)
    requires f.Renewing? && FlightOk(s, f) && RowsOk(s)
    ensures Grows(s, CommitRenew(settings, s, f, w))
  {
    RenewalAnswerFrame(settings, s, f, w);
  }

  lemma RevokeGrows(s: Store, f: Flight)
    requires f.Revoking? && FlightOk(s, f) && RowsOk(s)
    ensures Grows(s, CommitRevoke(s, f))
  {
  }

  lemma StartEnsureGrows(s: System, connector: Connector, owner: Owner)
    requires RowsOk(s.store)
    ensures Grows(s.store, StartEnsure(s, connector, owner).store)
  {
  }

  lemma StartRenewGrows(settings: Settings, s: System, h: nat, definition: Option<Connector>)
    requires RowsOk(s.store) && h < |s.store.handles|
    ensures Grows(s.store, StartRenew(settings, s, h, definition).store)
  {
  }

  lemma StepGrows(settings: Settings, s: System, step: Step)
    requires Sound(s)
    ensures Grows(s.store, Next(settings, s, step).store)
  {
    if step.BeginEnsure? {
      var owner := Owner(step.connector.connectorId, step.principalId, step.workspaceId);
      StartEnsureGrows(s, step.connector, owner);
    } else if step.BeginRenew? && step.h < |s.store.handles| {
      StartRenewGrows(settings, s, step.h, step.definition);
    } else if step.Commit? && step.i < |s.flights| {
      assert FlightOk(s.store, s.flights[step.i]);
      var f := s.flights[step.i];
      match f
      case Acquiring(_, _, _, _) => EnsureGrows(settings, s.store, f, step.world);
      case Renewing(_, _, _) => RenewGrows(settings, s.store, f, step.world);
      case Revoking(_, _, _) => RevokeGrows(s.store, f);
      case Ended =>
    }
  }

  lemma GrowthKeepsFlight(s: Store, t: Store, f: Flight)
    requires FlightOk(s, f) && Grows(s, t)
    ensures FlightOk(t, f)
  {
  }

  lemma StepKeepsSound(settings: Settings, s: System, step: Step)
    requires Sound(s)
    ensures Sound(Next(settings, s, step))
  {
    StepGrows(settings, s, step);
    var t := Next(settings, s, step);
    forall i | 0 <= i < |t.flights| ensures FlightOk(t.store, t.flights[i]) {
      if i < |s.flights| { GrowthKeepsFlight(s.store, t.store, s.flights[i]); }
    }
  }

  lemma {:induction false} RunKeepsSound(settings: Settings, s: System, steps: seq<Step>)
    requires Sound(s)
    ensures Sound(Run(settings, s, steps))
  {
    if steps != [] {
      RunKeepsSound(settings, s, steps[..|steps| - 1]);
      StepKeepsSound(settings, Run(settings, s, steps[..|steps| - 1]), steps[|steps| - 1]);
    }
  }

  // ---------------------------------------------------------------- what can undo a revocation

  /** The handle yields material as it stands. */
  predicate Usable(s: Store, h: nat) {
    h < |s.handles| && s.handles[h].status == TokenActive && Open(s, h).Some?
  }

  /** The commit of a flight is a success: something is stored for its owner. */
  predicate Succeeds(settings: Settings, s: Store, f: Flight, w: World) {
    match f
    case Acquiring(connector, owner, _, _) => Acquired(settings, s, connector, owner, w, false).response.Some?
    case Renewing(_, _, _) => RenewalAnswer(settings, s, f, w).response.Some?
    case _ => false
  }

  lemma InstallUsable(s: Store, f: Flight, a: Store, response: Response)
    requires f.Acquiring? && FlightOk(s, f) && RowsOk(s) && Beside(s, a)
    ensures var t := Installed(WithConnection(a, f.own, f.copy), f.connector, f.owner, f.own, response).store;
            && (forall h :: 0 <= h < |s.handles| && Usable(t, h) ==> Usable(s, h)) && |t.handles| == |s.handles| + 1
            && Usable(t, |s.handles|) && t.handles[|s.handles|].owner == f.owner
  {
  }

  lemma EnsureUsable(settings: Settings, s: Store, f: Flight, w: World)
    requires f.Acquiring? && FlightOk(s, f) && RowsOk(s)
    ensures var t := CommitEnsure(settings, s, f, w);
            && (forall h :: 0 <= h < |s.handles| && Usable(t, h) ==> Usable(s, h))
            && |t.handles| == |s.handles| + (if Succeeds(settings, s, f, w) then 1 else 0)
            && (Succeeds(settings, s, f, w) ==> Usable(t, |s.handles|) && t.handles[|s.handles|].owner == f.owner)
  {
    AcquiredFrame(settings, s, f.connector, f.owner, w, false);
    var a := Acquired(settings, s, f.connector, f.owner, w, false);
    if a.response.Some? { InstallUsable(s, f, a.store, a.response.value); }
  }

  lemma RenewUsable(settings: Settings, s: Store, f: Flight, w: World)
    requires f.Renewing? && FlightOk(s, f) && RowsOk(s)
    ensures var t := CommitRenew(settings, s, f, w);
            && |t.handles| == |s.handles| && t.connections == s.connections
            && (forall h :: 0 <= h < |s.handles| && h != f.h && Usable(t, h) ==> Usable(s, h))
            && (Usable(t, f.h) <==> Succeeds(settings, s, f, w))
  {
    RenewalAnswerFrame(settings, s, f, w);
  }

  lemma RevokeUsable(s: Store, f: Flight)
    requires f.Revoking? && FlightOk(s, f) && RowsOk(s)
    ensures var t := CommitRevoke(s, f);
            && |t.handles| == |s.handles| && (forall h :: 0 <= h < |s.handles| && Usable(t, h) ==> Usable(s, h))
            && t.connections[f.c].status == ConnectionRevoked
            && (forall c :: 0 <= c < |s.connections| && c != f.c ==> t.connections[c] == s.connections[c])
  {
  }

  /** Only the successful commit of an acquisition or of a renewal makes a handle usable. */
  lemma OnlySuccessesOpen(settings: Settings, s: System, step: Step, h: nat)
    requires Sound(s)
    ensures var t := Next(settings, s, step);
            Usable(t.store, h) && !Usable(s.store, h) ==>
              && step.Commit? && step.i < |s.flights| && Succeeds(settings, s.store, s.flights[step.i], step.world)
              && match s.flights[step.i]
                 case Acquiring(_, owner, _, _) => h == |s.store.handles| && t.store.handles[h].owner == owner
                 case Renewing(g, _, _) => h == g
                 case _ => false
  {
    if step.Commit? && step.i < |s.flights| {
      var f := s.flights[step.i];
      assert FlightOk(s.store, f);
      match f
      case Acquiring(_, _, _, _) => EnsureUsable(settings, s.store, f, step.world);
      case Renewing(_, _, _) => RenewUsable(settings, s.store, f, step.world);
      case Revoking(_, _, _) => RevokeUsable(s.store, f);
      case Ended =>
    }
  }

  /** Only the successful commit of an acquisition takes a connection out of REVOKED. */
  lemma OnlyAcquisitionsRevive(settings: Settings, s: System, step: Step, c: nat)
    requires Sound(s) && c < |s.store.connections| && s.store.connections[c].status == ConnectionRevoked
    ensures var t := Next(settings, s, step);
            c < |t.store.connections| &&
            (t.store.connections[c].status != ConnectionRevoked ==>
               && step.Commit? && step.i < |s.flights| && Succeeds(settings, s.store, s.flights[step.i], step.world)
               && s.flights[step.i].Acquiring? && s.flights[step.i].own == Some(c))
  {
    StepGrows(settings, s, step);
    if step.Commit? && step.i < |s.flights| {
      var f := s.flights[step.i];
      assert FlightOk(s.store, f);
      match f
      case Acquiring(connector, owner, _, _) => AcquiredFrame(settings, s.store, connector, owner, step.world, false);
      case Renewing(_, _, _) => RenewUsable(settings, s.store, f, step.world);
      case Revoking(_, _, _) => RevokeUsable(s.store, f);
      case Ended =>
    }
  }

  // ---------------------------------------------------------------- exactly what undoes a revocation

  predicate IsRevoked(s: Store, c: nat) {
    c < |s.connections| && s.connections[c].status == ConnectionRevoked
  }

  /** The connection is the one `_connection_for` finds for its owner. */
  predicate LeadsOwner(s: Store, c: nat)
    requires c < |s.connections|
  {
    FindOwn(s.connections, s.connections[c].owner) == Some(c)
  }

  /** How much a revocation is held to: its connection and the handle it points to, or all its owner holds. */
  datatype Scope = ItsOwn | ItsOwners

  predicate Holds(s: Store, c: nat, scope: Scope) {
    IsRevoked(s, c) && (scope.ItsOwners? ==> LeadsOwner(s, c))
  }

  predicate HandleIn(base: Store, c: nat, scope: Scope, h: nat, owner: Owner)
    requires c < |base.connections|
  {
    match scope
    case ItsOwn => base.connections[c].handle == Some(h)
    case ItsOwners => owner == base.connections[c].owner
  }

  /** The connection is no longer REVOKED, or a handle in scope yields material that did not. */
  ghost predicate Reopened(base: Store, c: nat, scope: Scope, t: Store)
    requires c < |base.connections|
  {
    || (c < |t.connections| && t.connections[c].status != ConnectionRevoked)
    || exists h :: && 0 <= h < |t.handles| && HandleIn(base, c, scope, h, t.handles[h].owner)
                   && Usable(t, h) && !Usable(base, h)
  }

  /** An acquisition for the connection or the owner, or the renewal of a handle in scope that yields nothing. */
  predicate Dangling(base: Store, c: nat, scope: Scope, f: Flight)
    requires c < |base.connections|
  {
    match f
    case Acquiring(_, owner, own, _) =>
      own == Some(c) || (scope.ItsOwners? && owner == base.connections[c].owner)
    case Renewing(h, handle, _) => HandleIn(base, c, scope, h, handle.owner) && !Usable(base, h)
    case _ => false
  }

  /** The step commits, with success, a dangling call that was already in flight at the base state. */
  predicate Undoes(settings: Settings, base: System, c: nat, scope: Scope, s: System, step: Step)
    requires c < |base.store.connections|
  {
    && step.Commit? && step.i < |base.flights| && step.i < |s.flights| && s.flights[step.i] == base.flights[step.i]
    && Dangling(base.store, c, scope, base.flights[step.i])
    && Succeeds(settings, s.store, s.flights[step.i], step.world)
  }

  /** Calls in flight before the revocation go on or end; later ones are harmless. */
  ghost predicate FlightsHarmless(base: System, c: nat, scope: Scope, s: System)
    requires c < |base.store.connections|
  {
    && |base.flights| <= |s.flights|
    && (forall i :: 0 <= i < |base.flights| ==> s.flights[i] == base.flights[i] || s.flights[i] == Ended)
    && (forall i :: |base.flights| <= i < |s.flights| ==> !Dangling(base.store, c, scope, s.flights[i]))
  }

  ghost predicate Quiet(base: System, c: nat, scope: Scope, s: System)
    requires c < |base.store.connections|
  {
    && Holds(s.store, c, scope) && s.store.connections[c].owner == base.store.connections[c].owner
    && FlightsHarmless(base, c, scope, s) && !Reopened(base.store, c, scope, s.store)
  }

  lemma {:induction false} FindOwnStays(a: seq<Connection>, b: seq<Connection>, owner: Owner, c: nat)
    requires FindOwn(a, owner) == Some(c) && |a| <= |b|
    requires forall i :: 0 <= i < |a| ==> b[i].owner == a[i].owner && b[i].userScope == a[i].userScope
    ensures FindOwn(b, owner) == Some(c)
  {
    assert Own(b[c], owner);
    assert forall i :: 0 <= i < c ==> !Own(b[i], owner);
  }

  /** What a begin step launches is not dangling. */
  lemma LaunchedHarmless(settings: Settings, base: System, c: nat, scope: Scope, s: System, step: Step)
    requires Sound(s) && c < |base.store.connections| && Quiet(base, c, scope, s)
    ensures var t := Next(settings, s, step);
            |t.flights| > |s.flights| ==>
              && t.flights[..|s.flights|] == s.flights && |t.flights| == |s.flights| + 1
              && !Dangling(base.store, c, scope, t.flights[|s.flights|])
  {
    if step.BeginRenew? && step.h < |s.store.handles| && Usable(s.store, step.h) &&
       HandleIn(base.store, c, scope, step.h, s.store.handles[step.h].owner) {
      assert Usable(base.store, step.h);
    }
  }

  lemma StepKeepsFlights(settings: Settings, base: System, c: nat, scope: Scope, s: System, step: Step)
    requires Sound(s) && c < |base.store.connections| && Quiet(base, c, scope, s)
    ensures FlightsHarmless(base, c, scope, Next(settings, s, step))
  {
    var t := Next(settings, s, step);
    LaunchedHarmless(settings, base, c, scope, s, step);
    if |t.flights| > |s.flights| {
      assert forall i :: 0 <= i < |s.flights| ==> t.flights[i] == t.flights[..|s.flights|][i];
    }
  }

  lemma HandleStaysShut(settings: Settings, base: System, c: nat, scope: Scope, s: System, step: Step, h: nat)
    requires Sound(s) && c < |base.store.connections| && Quiet(base, c, scope, s)
    requires PointerOk(base.store, base.store.connections[c]) && |base.store.handles| <= |s.store.handles|
    requires !Undoes(settings, base, c, scope, s, step)
    requires var t := Next(settings, s, step).store;
             h < |t.handles| && HandleIn(base.store, c, scope, h, t.handles[h].owner) && Usable(t, h)
    ensures Usable(base.store, h)
  {
    StepGrows(settings, s, step);
    OnlySuccessesOpen(settings, s, step, h);
    if !Usable(s.store, h) {
      var f := s.flights[step.i];
      assert FlightOk(s.store, f);
      assert !Dangling(base.store, c, scope, f);
    }
  }

  lemma StepStaysQuiet(settings: Settings, base: System, c: nat, scope: Scope, s: System, step: Step)
    requires Sound(s) && c < |base.store.connections| && Quiet(base, c, scope, s)
    requires PointerOk(base.store, base.store.connections[c]) && |base.store.handles| <= |s.store.handles|
    requires !Undoes(settings, base, c, scope, s, step)
    ensures Quiet(base, c, scope, Next(settings, s, step))
  {
    var t := Next(settings, s, step);
    var owner := base.store.connections[c].owner;
    StepGrows(settings, s, step);
    StepKeepsFlights(settings, base, c, scope, s, step);
    OnlyAcquisitionsRevive(settings, s, step, c);
    if step.Commit? && step.i < |s.flights| { assert FlightOk(s.store, s.flights[step.i]); }
    if scope.ItsOwners? { FindOwnStays(s.store.connections, t.store.connections, owner, c); }
    forall h: nat | h < |t.store.handles| && HandleIn(base.store, c, scope, h, t.store.handles[h].owner) &&
                    Usable(t.store, h)
      ensures Usable(base.store, h)
    {
      HandleStaysShut(settings, base, c, scope, s, step, h);
    }
  }

  ghost predicate SomeStepUndoes(settings: Settings, base: System, c: nat, scope: Scope, steps: seq<Step>)
    requires c < |base.store.connections|
  {
    exists n :: 0 <= n < |steps| && Undoes(settings, base, c, scope, Run(settings, base, steps[..n]), steps[n])
  }

  lemma {:induction false} RunStaysQuiet(settings: Settings, base: System, c: nat, scope: Scope, steps: seq<Step>)
    requires Sound(base) && Holds(base.store, c, scope) && !SomeStepUndoes(settings, base, c, scope, steps)
    ensures Quiet(base, c, scope, Run(settings, base, steps))
  {
    if steps != [] {
      var n := |steps| - 1;
      var rest := steps[..n];
      assert !SomeStepUndoes(settings, base, c, scope, rest) by {
        forall m | 0 <= m < |rest| ensures !Undoes(settings, base, c, scope, Run(settings, base, rest[..m]), rest[m]) {
          assert rest[..m] == steps[..m] && rest[m] == steps[m];
        }
      }
      RunStaysQuiet(settings, base, c, scope, rest);
      RunKeepsSound(settings, base, rest);
      RunGrows(settings, base, rest);
      assert !Undoes(settings, base, c, scope, Run(settings, base, steps[..n]), steps[n]);
      StepStaysQuiet(settings, base, c, scope, Run(settings, base, rest), steps[n]);
    }
  }

  lemma {:induction false} RunGrows(settings: Settings, s: System, steps: seq<Step>)
    requires Sound(s)
    ensures var t := Run(settings, s, steps); |s.store.handles| <= |t.store.handles|
  {
    if steps != [] {
      RunGrows(settings, s, steps[..|steps| - 1]);
      RunKeepsSound(settings, s, steps[..|steps| - 1]);
      StepGrows(settings, Run(settings, s, steps[..|steps| - 1]), steps[|steps| - 1]);
    }
  }

  /** A successful acquisition leaves the connection it read ACTIVE. */
  lemma EnsureActivates(settings: Settings, s: Store, f: Flight, w: World)
    requires f.Acquiring? && FlightOk(s, f) && Succeeds(settings, s, f, w) && f.own.Some?
    ensures var t := CommitEnsure(settings, s, f, w);
            f.own.value < |t.connections| && t.connections[f.own.value].status == ConnectionActive
  {
    AcquiredFrame(settings, s, f.connector, f.owner, w, false);
  }

  /** Committing a dangling call does undo the revocation. */
  lemma UndoingReopens(settings: Settings, base: System, c: nat, scope: Scope, s: System, step: Step)
    requires Sound(s) && c < |base.store.connections| && |base.store.handles| <= |s.store.handles|
    requires Undoes(settings, base, c, scope, s, step)
    ensures Reopened(base.store, c, scope, Next(settings, s, step).store)
  {
    var f, t := s.flights[step.i], Next(settings, s, step);
    assert FlightOk(s.store, f);
    StepGrows(settings, s, step);
    if f.Renewing? {
      RenewUsable(settings, s.store, f, step.world);
      assert Usable(t.store, f.h);
    } else if f.own == Some(c) {
      EnsureActivates(settings, s.store, f, step.world);
    } else {
      EnsureUsable(settings, s.store, f, step.world);
      assert Usable(t.store, |s.store.handles|);
    }
  }

  ghost predicate ReopenedBy(settings: Settings, base: System, c: nat, scope: Scope, steps: seq<Step>, n: nat)
    requires c < |base.store.connections|
  {
    n <= |steps| && Reopened(base.store, c, scope, Run(settings, base, steps[..n]).store)
  }

  lemma ReopenedWasUndone(settings: Settings, base: System, c: nat, scope: Scope, steps: seq<Step>, n: nat)
    requires Sound(base) && Holds(base.store, c, scope) && ReopenedBy(settings, base, c, scope, steps, n)
    ensures SomeStepUndoes(settings, base, c, scope, steps)
  {
    var part := steps[..n];
    if SomeStepUndoes(settings, base, c, scope, part) {
      var m :| 0 <= m < n && Undoes(settings, base, c, scope, Run(settings, base, part[..m]), part[m]);
      assert part[..m] == steps[..m] && part[m] == steps[m];
    } else {
      RunStaysQuiet(settings, base, c, scope, part);
    }
  }

  lemma UndoneIsReopened(settings: Settings, base: System, c: nat, scope: Scope, steps: seq<Step>, n: nat)
    requires Sound(base) && IsRevoked(base.store, c) && n < |steps|
    requires Undoes(settings, base, c, scope, Run(settings, base, steps[..n]), steps[n])
    ensures ReopenedBy(settings, base, c, scope, steps, n + 1)
  {
    RunKeepsSound(settings, base, steps[..n]);
    RunGrows(settings, base, steps[..n]);
    UndoingReopens(settings, base, c, scope, Run(settings, base, steps[..n]), steps[n]);
    var part := steps[..n + 1];
    assert part[..n] == steps[..n] && part[n] == steps[n] && |part| - 1 == n;
  }

  lemma UndoneExactly(settings: Settings, past: seq<Step>, c: nat, scope: Scope, steps: seq<Step>)
    requires Holds(Run(settings, START, past).store, c, scope)
    ensures var base := Run(settings, START, past);
            (exists n :: ReopenedBy(settings, base, c, scope, steps, n)) <==>
            SomeStepUndoes(settings, base, c, scope, steps)
  {
    RunKeepsSound(settings, START, past);
    var base := Run(settings, START, past);
    if n :| ReopenedBy(settings, base, c, scope, steps, n) {
      ReopenedWasUndone(settings, base, c, scope, steps, n);
    }
    if SomeStepUndoes(settings, base, c, scope, steps) {
      var n :| 0 <= n < |steps| && Undoes(settings, base, c, scope, Run(settings, base, steps[..n]), steps[n]);
      UndoneIsReopened(settings, base, c, scope, steps, n);
    }
  }

  /**
   From any state of any interleaving, for every REVOKED connection: at some point of what follows
   it leaves REVOKED, or the handle it points to yields material that did not, if and only if an
   acquisition that has read this connection, or a renewal of this handle, that was already in
   flight commits with success.
   */
  lemma RevocationUndoneExactly(settings: Settings, past: seq<Step>, c: nat, steps: seq<Step>)
    requires IsRevoked(Run(settings, START, past).store, c)
    ensures var base := Run(settings, START, past);
            (exists n :: ReopenedBy(settings, base, c, ItsOwn, steps, n)) <==>
            SomeStepUndoes(settings, base, c, ItsOwn, steps)
  {
    UndoneExactly(settings, past, c, ItsOwn, steps);
  }

  /**
   The same for all its owner holds, where the REVOKED connection is the one its owner is known by:
   it leaves REVOKED, or any handle of the owner yields material that did not, if and only if an
   acquisition for the owner, or a renewal of such a handle, already in flight commits with success.
   */
  lemma OwnerReopenedExactly(settings: Settings, past: seq<Step>, c: nat, steps: seq<Step>)
    requires var s := Run(settings, START, past).store; IsRevoked(s, c) && LeadsOwner(s, c)
    ensures var base := Run(settings, START, past);
            (exists n :: ReopenedBy(settings, base, c, ItsOwners, steps, n)) <==>
            SomeStepUndoes(settings, base, c, ItsOwners, steps)
  {
    UndoneExactly(settings, past, c, ItsOwners, steps);
  }

  /** A revocation with no dangling call beside it is final, whatever follows. */
  lemma FinalUnlessDangling(settings: Settings, past: seq<Step>, c: nat, scope: Scope, steps: seq<Step>, n: nat)
    requires var base := Run(settings, START, past);
             && Holds(base.store, c, scope)
             && forall i :: 0 <= i < |base.flights| ==> !Dangling(base.store, c, scope, base.flights[i])
    ensures !ReopenedBy(settings, Run(settings, START, past), c, scope, steps, n)
  {
    UndoneExactly(settings, past, c, scope, steps);
  }

  // ---------------------------------------------------------------- what a commit writes

  /** A revocation writes back the rows it read: what happened to them in between is overwritten. */
  lemma RevocationWritesItsCopy(s: Store, f: Flight)
    requires f.Revoking? && FlightOk(s, f)
    ensures var t := CommitRevoke(s, f);
            && t.connections == s.connections[f.c := f.copy.(status := ConnectionRevoked, scopes := [])]
            && (f.held.Some? ==>
                  var h := f.copy.handle.value;
                  && t.handles == s.handles[h := f.held.value.(status := TokenRevoked)]
                  && t.secrets == s.secrets - {f.held.value.secretKey})
  {
  }

  /** So does a renewal, with the answer under a new key or with the reason it failed. */
  lemma RenewalWritesItsCopy(settings: Settings, s: Store, f: Flight, w: World)
    requires f.Renewing? && FlightOk(s, f)
    ensures var t, answer := CommitRenew(settings, s, f, w), RenewalAnswer(settings, s, f, w).response;
            && t.connections == s.connections && |t.handles| == |s.handles|
            && (forall h :: 0 <= h < |s.handles| && h != f.h ==> t.handles[h] == s.handles[h])
            && if answer.Some? then
                 var scopes := if answer.value.scopes == [] then f.handle.scopes else answer.value.scopes;
                 && t.handles[f.h] == f.handle.(secretKey := s.nextSecret, scopes := scopes, status := TokenActive,
                                                expiresAt := answer.value.expiresAt, refreshed := true)
                 && t.secrets == s.secrets[s.nextSecret := Secret(f.h, answer.value.(scopes := scopes))]
               else
                 && t.handles[f.h] == f.handle.(status := if f.means.ByToken? then TokenError else TokenExpired)
                 && t.secrets == s.secrets
  {
    RenewalAnswerFrame(settings, s, f, w);
  }

  /** And an acquisition: it repoints the connection as it read it, and revokes the handle that one pointed to. */
  lemma AcquisitionWritesItsCopy(settings: Settings, s: Store, f: Flight, w: World)
    requires f.Acquiring? && FlightOk(s, f) && RowsOk(s) && Succeeds(settings, s, f, w)
    ensures var t, h := CommitEnsure(settings, s, f, w), |s.handles|;
            var c := if f.own.Some? then f.own.value else |s.connections|;
            && |t.handles| == h + 1 && w.grant.Answered? && Open(t, h) == Some(w.grant.response)
            && c < |t.connections|
            && (f.own.Some? ==> t.connections[c] == f.copy.(handle := Some(h), status := ConnectionActive,
                                                            scopes := w.grant.response.scopes))
            && (f.own.Some? && f.copy.handle.Some? && f.copy.handle.value < h ==>
                  t.handles[f.copy.handle.value].status == TokenRevoked)
  {
    AcquiredFrame(settings, s, f.connector, f.owner, w, false);
    AnswerIsTheGrant(settings, s, f.connector, f.owner, w);
    InstallUsable(s, f, Acquired(settings, s, f.connector, f.owner, w, false).store, w.grant.response);
  }

  lemma AnswerIsTheGrant(settings: Settings, s: Store, connector: Connector, owner: Owner, w: World)
    requires Acquired(settings, s, connector, owner, w, false).response.Some?
    ensures w.grant == Answered(Acquired(settings, s, connector, owner, w, false).response.value)
  {
  }

  // ---------------------------------------------------------------- one call after another

  /** A whole call is its begin step and, if that launches anything, its commit step. */
  lemma WholeEnsure(
    settings: Settings, s: System, connector: Connector, principalId: string, workspaceId: string, w: World
  )
    ensures var begun := Next(settings, s, BeginEnsure(connector, principalId, workspaceId));
            Next(settings, begun, Commit(|s.flights|, w)).store ==
            Serial.Next(settings, s.store, Serial.Ensure(connector, principalId, workspaceId, w))
  {
    var owner := Owner(connector.connectorId, principalId, workspaceId);
    AcquiredFrame(settings, s.store, connector, owner, w, false);
    var own := FindOwn(s.store.connections, owner);
    if own.Some? {
      assert s.store.connections[own.value := s.store.connections[own.value]] == s.store.connections;
    }
  }

  lemma WholeRenew(settings: Settings, s: System, h: nat, definition: Option<Connector>, w: World)
    requires h < |s.store.handles| && s.store.handles[h].status == TokenActive
    ensures var begun := Next(settings, s, BeginRenew(h, definition));
            Next(settings, begun, Commit(|s.flights|, w)).store ==
            Serial.Next(settings, s.store, Serial.Renew(h, definition, w))
  {
    assert s.store.handles[h := s.store.handles[h]] == s.store.handles;
    ReacquiredFrame(settings, s.store, h, definition, w);
  }

  lemma WholeRevoke(settings: Settings, s: System, c: nat, principalId: string, w: World)
    ensures var begun := Next(settings, s, BeginRevoke(c, principalId));
            Next(settings, begun, Commit(|s.flights|, w)).store ==
            Serial.Next(settings, s.store, Serial.Revoke(c, principalId))
  {
    if c < |s.store.connections| {
      var copy := s.store.connections[c];
      assert s.store.connections[c := copy] == s.store.connections;
      if copy.handle.Some? && copy.handle.value < |s.store.handles| {
        assert s.store.handles[copy.handle.value := s.store.handles[copy.handle.value]] == s.store.handles;
      }
    }
  }
}
