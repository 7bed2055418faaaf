/**
 Interleavings in which no two calls for one owner overlap: everything proved of calls one after
 another holds of them, however the calls of different owners are mixed.
 */
module OrderlyCalls {
  import opened Sequences
  import opened Enterprise
  import opened Overlaps
  import Serial = EnterpriseRuns

  function OwnerIn(f: Flight): Option<Owner> {
    match f
    case Acquiring(_, owner, _, _) => Some(owner)
    case Renewing(_, handle, _) => Some(handle.owner)
    case Revoking(_, copy, _) => Some(copy.owner)
    case Ended => None
  }

  ghost predicate Busy(s: System, owner: Owner) {
    exists i :: 0 <= i < |s.flights| && OwnerIn(s.flights[i]) == Some(owner)
  }

  /** No call begins for an owner that has one in flight. */
  ghost predicate Orderly(s: System, step: Step) {
    match step
    case BeginEnsure(connector, principalId, workspaceId) =>
      !Busy(s, Owner(connector.connectorId, principalId, workspaceId))
    case BeginRenew(h, _) => h < |s.store.handles| ==> !Busy(s, s.store.handles[h].owner)
    case BeginRevoke(c, _) => c < |s.store.connections| ==> !Busy(s, s.store.connections[c].owner)
    case _ => true
  }

  ghost predicate OrderlyRun(settings: Settings, steps: seq<Step>) {
    forall n :: 0 <= n < |steps| ==> Orderly(Run(settings, START, steps[..n]), steps[n])
  }

  /** The call's copies are what is stored. */
  predicate Current(s: Store, f: Flight) {
    match f
    case Acquiring(_, owner, own, copy) =>
      && own == FindOwn(s.connections, owner) && (own.Some? ==> copy == s.connections[own.value])
      && copy.status != ConnectionRevoked
    case Renewing(h, handle, _) => h < |s.handles| && handle == s.handles[h] && Serial.Live(s, h)
    case Revoking(c, copy, held) =>
      && c < |s.connections| && copy == s.connections[c]
      && (copy.handle.Some? ==> copy.handle.value < |s.handles| && held == Some(s.handles[copy.handle.value]))
      && (copy.handle.None? ==> held == None)
    case Ended => true
  }

  ghost predicate OwnersApart(flights: seq<Flight>) {
    forall i, j :: 0 <= i < j < |flights| && OwnerIn(flights[i]).Some? ==> OwnerIn(flights[i]) != OwnerIn(flights[j])
  }

  ghost predicate Kept(s: System) {
    && Serial.Inv(s.store) && OwnersApart(s.flights)
    && forall i :: 0 <= i < |s.flights| ==> Current(s.store, s.flights[i])
  }

  // ---------------------------------------------------------------- what one owner's step leaves alone

  /** Rows of every other owner are as they were, and no connection of theirs has appeared. */
  ghost predicate OnlyFor(s: Store, t: Store, owner: Owner) {
    && |s.connections| <= |t.connections| && |s.handles| <= |t.handles|
    && (forall c :: 0 <= c < |s.connections| ==>
                      && t.connections[c].owner == s.connections[c].owner
                      && t.connections[c].userScope == s.connections[c].userScope)
    && (forall c :: 0 <= c < |s.connections| && s.connections[c].owner != owner ==>
          t.connections[c] == s.connections[c])
    && (forall c :: |s.connections| <= c < |t.connections| && t.connections[c].userScope ==>
          t.connections[c].owner == owner)
    && (forall h :: 0 <= h < |s.handles| && s.handles[h].owner != owner ==> t.handles[h] == s.handles[h])
  }

  lemma FindOwnFor(a: seq<Connection>, b: seq<Connection>, owner: Owner, other: Owner)
    requires |a| <= |b| && owner != other
    requires forall c :: 0 <= c < |a| ==> b[c].owner == a[c].owner && b[c].userScope == a[c].userScope
    requires forall c :: |a| <= c < |b| && b[c].userScope ==> b[c].owner == owner
    ensures FindOwn(b, other) == FindOwn(a, other)
  {
    forall c | 0 <= c < |b| ensures Own(b[c], other) <==> c < |a| && Own(a[c], other) {
    }
    SameFirst(a, b, other);
  }

  lemma SameFirst(a: seq<Connection>, b: seq<Connection>, owner: Owner)
    requires |a| <= |b| && forall c :: 0 <= c < |b| ==> (Own(b[c], owner) <==> c < |a| && Own(a[c], owner))
    ensures FindOwn(b, owner) == FindOwn(a, owner)
  {
    var x, y := FindOwn(a, owner), FindOwn(b, owner);
    if x.Some? { assert Own(b[x.value], owner); }
    if y.Some? { assert Own(a[y.value], owner); }
  }

  lemma StaysCurrent(s: Store, t: Store, owner: Owner, f: Flight)
    requires Serial.Inv(s) && OnlyFor(s, t, owner) && Current(s, f) && OwnerIn(f) != Some(owner)
    ensures Current(t, f)
  {
    match f
    case Acquiring(_, other, _, _) => FindOwnFor(s.connections, t.connections, owner, other);
    case Renewing(h, _, _) =>
    case Revoking(c, copy, _) => assert Serial.ConnectionOk(s, s.connections[c]);
    case Ended =>
  }

  // ---------------------------------------------------------------- commits

  lemma EnsureKept(settings: Settings, s: Store, f: Flight, w: World)
    requires f.Acquiring? && FlightOk(s, f) && Current(s, f) && Serial.Inv(s)
    ensures Serial.Inv(CommitEnsure(settings, s, f, w)) && OnlyFor(s, CommitEnsure(settings, s, f, w), f.owner)
  {
    var a := Acquired(settings, s, f.connector, f.owner, w, false);
    AcquiredFrame(settings, s, f.connector, f.owner, w, false);
    Serial.InvFrame(s, a.store);
    if a.response.Some? {
      if f.own.Some? {
        assert a.store.connections[f.own.value := f.copy] == a.store.connections;
        assert Serial.ConnectionOk(s, s.connections[f.own.value]);
      }
      Serial.InstallKeepsInv(a.store, f.connector, f.owner, f.own, a.response.value);
    }
  }

  lemma RenewKept(settings: Settings, s: Store, f: Flight, w: World)
    requires f.Renewing? && FlightOk(s, f) && Current(s, f) && Serial.Inv(s)
    ensures Serial.Inv(CommitRenew(settings, s, f, w)) && OnlyFor(s, CommitRenew(settings, s, f, w), f.handle.owner)
  {
    var a := RenewalAnswer(settings, s, f, w);
    RenewalAnswerFrame(settings, s, f, w);
    Serial.InvFrame(s, a.store);
    assert a.store.handles[f.h := f.handle] == a.store.handles;
    match a.response
    case Some(response) => Serial.ResealKeepsInv(a.store, f.h, response);
    case None => Serial.MarkKeepsInv(a.store, f.h, if f.means.ByToken? then TokenError else TokenExpired);
  }

  lemma RevokeKept(s: Store, f: Flight)
    requires f.Revoking? && FlightOk(s, f) && Current(s, f) && Serial.Inv(s)
    ensures Serial.Inv(CommitRevoke(s, f)) && OnlyFor(s, CommitRevoke(s, f), f.copy.owner)
  {
    assert s.connections[f.c := f.copy] == s.connections;
    assert Serial.ConnectionOk(s, s.connections[f.c]);
    if f.copy.handle.Some? {
      assert s.handles[f.copy.handle.value := s.handles[f.copy.handle.value]] == s.handles;
    }
    Serial.RevokeKeepsInv(s, f.c, f.copy.owner.principalId);
  }

  lemma FlightKept(settings: Settings, s: Store, f: Flight, w: World)
    requires FlightOk(s, f) && Current(s, f) && Serial.Inv(s)
    ensures Serial.Inv(CommitStore(settings, s, f, w))
    ensures OwnerIn(f).Some? ==> OnlyFor(s, CommitStore(settings, s, f, w), OwnerIn(f).value)
  {
    match f
    case Acquiring(_, _, _, _) => EnsureKept(settings, s, f, w);
    case Renewing(_, _, _) => RenewKept(settings, s, f, w);
    case Revoking(_, _, _) => RevokeKept(s, f);
    case Ended =>
  }

  lemma EndKept(s: System, i: nat, store: Store, owner: Owner)
    requires Kept(s) && i < |s.flights| && OwnerIn(s.flights[i]) == Some(owner)
    requires Serial.Inv(store) && OnlyFor(s.store, store, owner)
    ensures Kept(System(store, s.flights[i := Ended]))
  {
    var t := System(store, s.flights[i := Ended]);
    forall j | 0 <= j < |t.flights| ensures Current(t.store, t.flights[j]) {
      assert Current(s.store, s.flights[j]);
      if j != i { StaysCurrent(s.store, store, owner, s.flights[j]); }
    }
  }

  lemma CommitKept(settings: Settings, s: System, i: nat, w: World)
    requires Sound(s) && Kept(s) && i < |s.flights|
    ensures Kept(Committed(settings, s, i, w))
  {
    var f := s.flights[i];
    assert FlightOk(s.store, f) && Current(s.store, f);
    FlightKept(settings, s.store, f, w);
    match OwnerIn(f)
    case Some(owner) => EndKept(s, i, CommitStore(settings, s.store, f, w), owner);
    case None => assert s.flights[i := Ended] == s.flights;
  }

  // ---------------------------------------------------------------- the other steps

  lemma LaunchKept(s: System, f: Flight, owner: Owner)
    requires Kept(s) && OwnerIn(f) == Some(owner) && !Busy(s, owner) && Current(s.store, f)
    ensures Kept(Launched(s, f))
  {
    var t := Launched(s, f);
    forall j | 0 <= j < |t.flights| ensures Current(t.store, t.flights[j]) {
      if j < |s.flights| { assert Current(s.store, s.flights[j]); }
    }
  }

  /** A step that changes rows of an owner without calls in flight keeps every call's copies current. */
  lemma StoreKept(s: System, store: Store, owner: Owner)
    requires Kept(s) && Serial.Inv(store) && OnlyFor(s.store, store, owner) && !Busy(s, owner)
    ensures Kept(s.(store := store))
  {
    forall j | 0 <= j < |s.flights| ensures Current(store, s.flights[j]) {
      assert Current(s.store, s.flights[j]);
      StaysCurrent(s.store, store, owner, s.flights[j]);
    }
  }

  lemma QuietStoreKept(s: System, store: Store)
    requires Kept(s) && Serial.Inv(store)
    requires store.connections == s.store.connections && store.handles == s.store.handles
    ensures Kept(s.(store := store))
  {
    forall j | 0 <= j < |s.flights| ensures Current(store, s.flights[j]) { assert Current(s.store, s.flights[j]); }
  }

  lemma StartRenewKept(settings: Settings, s: System, h: nat, definition: Option<Connector>)
    requires Kept(s) && h < |s.store.handles| && !Busy(s, s.store.handles[h].owner)
    ensures Kept(StartRenew(settings, s, h, definition))
  {
    var t, handle := StartRenew(settings, s, h, definition), s.store.handles[h];
    if t.flights != s.flights {
      LaunchKept(s, t.flights[|s.flights|], handle.owner);
    } else if t.store != s.store {
      var noted := s.store.(rows := t.store.rows);
      Serial.InvFrame(s.store, noted);
      Serial.MarkKeepsInv(noted, h, TokenExpired);
      StoreKept(s, t.store, handle.owner);
    }
  }

  lemma StartRevokeKept(s: System, c: nat, principalId: string)
    requires Kept(s) && (c < |s.store.connections| ==> !Busy(s, s.store.connections[c].owner))
    ensures Kept(StartRevoke(s, c, principalId))
  {
    if c < |s.store.connections| && s.store.connections[c].owner.principalId == principalId {
      assert Serial.ConnectionOk(s.store, s.store.connections[c]);
      var t := StartRevoke(s, c, principalId);
      LaunchKept(s, t.flights[|s.flights|], s.store.connections[c].owner);
    }
  }

  lemma StartEnsureKept(s: System, connector: Connector, owner: Owner)
    requires Kept(s) && !Busy(s, owner)
    ensures Kept(StartEnsure(s, connector, owner))
  {
    var t := StartEnsure(s, connector, owner);
    if t.flights != s.flights {
      LaunchKept(s, t.flights[|s.flights|], owner);
    } else {
      Serial.InvFrame(s.store, t.store);
      QuietStoreKept(s, t.store);
    }
  }

  lemma ShareKept(s: System, owner: Owner)
    requires Kept(s)
    ensures var shared := Connection(owner, false, ConnectionActive, None, []);
            Kept(s.(store := s.store.(connections := s.store.connections + [shared])))
  {
    var shared := Connection(owner, false, ConnectionActive, None, []);
    var t := s.store.(connections := s.store.connections + [shared]);
    Serial.ShareKeepsInv(s.store, owner);
    forall j | 0 <= j < |s.flights| ensures Current(t, s.flights[j]) {
      assert Current(s.store, s.flights[j]);
      if s.flights[j].Acquiring? { FindOwnShared(s.store.connections, shared, s.flights[j].owner); }
    }
  }

  lemma FindOwnShared(a: seq<Connection>, shared: Connection, owner: Owner)
    requires !shared.userScope
    ensures FindOwn(a + [shared], owner) == FindOwn(a, owner)
  {
    assert (a + [shared])[..|a|] == a;
  }

  lemma StepKept(settings: Settings, s: System, step: Step)
    requires Sound(s) && Kept(s) && Orderly(s, step)
    ensures Kept(Next(settings, s, step))
  {
    var t := Next(settings, s, step);
    match step
    case BeginEnsure(connector, principalId, workspaceId) =>
      StartEnsureKept(s, connector, Owner(connector.connectorId, principalId, workspaceId));
    case BeginRenew(h, definition) => if h < |s.store.handles| { StartRenewKept(settings, s, h, definition); }
    case BeginRevoke(c, principalId) => StartRevokeKept(s, c, principalId);
    case Commit(i, w) => if i < |s.flights| { CommitKept(settings, s, i, w); }
    case Die(i) =>
      if i < |s.flights| {
        forall j | 0 <= j < |t.flights| ensures Current(t.store, t.flights[j]) {
          assert Current(s.store, s.flights[j]);
        }
      }
    case Share(owner) => ShareKept(s, owner);
    case _ =>
      Serial.InvFrame(s.store, t.store);
      QuietStoreKept(s, t.store);
  }

  lemma {:induction false} RunKept(settings: Settings, steps: seq<Step>)
    requires OrderlyRun(settings, steps)
    ensures Kept(Run(settings, START, steps))
  {
    if steps != [] {
      var n := |steps| - 1;
      var rest := steps[..n];
      assert OrderlyRun(settings, rest) by {
        forall m | 0 <= m < n ensures Orderly(Run(settings, START, rest[..m]), rest[m]) {
          assert rest[..m] == steps[..m] && rest[m] == steps[m];
        }
      }
      RunKept(settings, rest);
      RunKeepsSound(settings, START, rest);
      StepKept(settings, Run(settings, START, rest), steps[n]);
    }
  }

  /**
   In every interleaving in which no two calls of one owner overlap, an owner has at most one
   unrevoked handle, the one its connection points to, and nothing opens under a revoked connection.
   */
  lemma OneLiveHandleWhenOrderly(settings: Settings, steps: seq<Step>, g: nat, h: nat)
    requires OrderlyRun(settings, steps)
    requires var s := Run(settings, START, steps).store;
             && g < |s.handles| && h < |s.handles| && Serial.Live(s, g) && Serial.Live(s, h)
             && s.handles[g].owner == s.handles[h].owner
    ensures g == h
    ensures var s := Run(settings, START, steps).store;
            var own := FindOwn(s.connections, s.handles[h].owner);
            own.Some? && Serial.PointsTo(s.connections[own.value], s, h)
  {
    RunKept(settings, steps);
    var s := Run(settings, START, steps).store;
    Serial.LiveIsPointed(s, g);
    Serial.LiveIsPointed(s, h);
  }

  /** In such a state no call is in flight that could undo the revocation of its owner's connection. */
  lemma NothingDangles(s: System, c: nat, f: Flight)
    requires Kept(s) && c < |s.store.connections| && Serial.IsRevoked(s.store.connections[c]) && f in s.flights
    ensures !Dangling(s.store, c, ItsOwners, f)
  {
    var owner := s.store.connections[c].owner;
    var i :| 0 <= i < |s.flights| && s.flights[i] == f;
    assert Current(s.store, s.flights[i]);
    match f
    case Acquiring(_, _, own, _) =>
      assert Own(s.store.connections[c], s.store.connections[c].owner);
    case Renewing(h, handle, _) =>
      if handle.owner == owner { Serial.DeadUnderRevoked(s.store, c, h); }
    case _ =>
  }

  /**
   Where no two calls of one owner have overlapped up to a revocation, it is final, whatever
   follows and however that is interleaved.
   */
  lemma RevocationFinalWhenOrderly(settings: Settings, past: seq<Step>, c: nat, steps: seq<Step>, n: nat)
    requires OrderlyRun(settings, past)
    requires var s := Run(settings, START, past).store; c < |s.connections| && Serial.IsRevoked(s.connections[c])
    ensures !ReopenedBy(settings, Run(settings, START, past), c, ItsOwners, steps, n)
  {
    RunKept(settings, past);
    NothingDanglesAtAll(Run(settings, START, past), c);
    FinalUnlessDangling(settings, past, c, ItsOwners, steps, n);
  }

  lemma NothingDanglesAtAll(s: System, c: nat)
    requires Kept(s) && c < |s.store.connections| && Serial.IsRevoked(s.store.connections[c])
    ensures Holds(s.store, c, ItsOwners)
    ensures forall i :: 0 <= i < |s.flights| ==> !Dangling(s.store, c, ItsOwners, s.flights[i])
  {
    assert Own(s.store.connections[c], s.store.connections[c].owner);
    forall i | 0 <= i < |s.flights| ensures !Dangling(s.store, c, ItsOwners, s.flights[i]) {
      NothingDangles(s, c, s.flights[i]);
    }
  }
}
