/**
 What holds in every state the enterprise credential operations can reach when calls follow one
 another. What overlapping calls do is in `Overlaps`.
 */
module EnterpriseRuns {
  import opened Sequences
  import opened Enterprise

  datatype Step =
    | Ensure(connector: Connector, principalId: string, workspaceId: string, world: World)
    | Renew(h: nat, definition: Option<Connector>, world: World)
    | Revoke(c: nat, principalId: string)
    | Retain(principalId: string, assertion: Assertion)
    | Forget(principalId: string)
    | Share(owner: Owner)

  function Next(settings: Settings, s: Store, step: Step): Store {
    match step
    case Ensure(connector, principalId, workspaceId, w) =>
      EnsuredAccess(settings, s, connector, principalId, workspaceId, w).store
    case Renew(h, definition, w) => if h < |s.handles| then Renewed(settings, s, h, definition, w) else s
    case Revoke(c, principalId) => Revoked(s, c, principalId)
    case Retain(principalId, assertion) => s.(assertions := s.assertions[principalId := assertion])
    case Forget(principalId) => s.(assertions := s.assertions - {principalId})
    case Share(owner) => s.(connections := s.connections + [Connection(owner, false, ConnectionActive, None, [])])
  }

  function Run(settings: Settings, s: Store, steps: seq<Step>): Store {
    if steps == [] then s else Next(settings, Run(settings, s, steps[..|steps| - 1]), steps[|steps| - 1])
  }

  // ---------------------------------------------------------------- the invariant

  predicate Live(s: Store, h: nat)
    requires h < |s.handles|
  {
    s.handles[h].status != TokenRevoked
  }

  predicate PointsTo(c: Connection, s: Store, h: nat)
    requires h < |s.handles|
  {
    c.userScope && c.handle == Some(h) && c.owner == s.handles[h].owner && c.status != ConnectionRevoked
  }

  ghost predicate Pointed(s: Store, h: nat)
    requires h < |s.handles|
  {
    exists c :: 0 <= c < |s.connections| && PointsTo(s.connections[c], s, h)
  }

  ghost predicate LeftBehind(s: Store, h: nat)
    requires h < |s.handles|
  {
    exists key :: key in s.secrets && s.secrets[key].handle == h && key != s.handles[h].secretKey
  }

  ghost predicate HandleOk(s: Store, h: nat)
    requires h < |s.handles|
  {
    var key := s.handles[h].secretKey;
    && key < s.nextSecret
    && (Live(s, h) ==> key in s.secrets && s.secrets[key].handle == h && Pointed(s, h))
    && (!Live(s, h) ==> key !in s.secrets)
    && (s.handles[h].refreshed <==> LeftBehind(s, h))
  }

  predicate ConnectionOk(s: Store, c: Connection) {
    && (c.handle.Some? ==> c.userScope && c.handle.value < |s.handles| && s.handles[c.handle.value].owner == c.owner)
    && (c.status == ConnectionRevoked && c.handle.Some? ==> s.handles[c.handle.value].status == TokenRevoked)
  }

  ghost predicate OneOwn(connections: seq<Connection>) {
    forall i, j :: 0 <= i < j < |connections| && connections[i].userScope && connections[j].userScope ==>
                     connections[i].owner != connections[j].owner
  }

  ghost predicate SecretsOk(s: Store) {
    forall key :: key in s.secrets ==> key < s.nextSecret && s.secrets[key].handle < |s.handles|
  }

  ghost predicate Inv(s: Store) {
    && (forall h :: 0 <= h < |s.handles| ==> HandleOk(s, h))
    && (forall c :: 0 <= c < |s.connections| ==> ConnectionOk(s, s.connections[c]))
    && OneOwn(s.connections) && SecretsOk(s)
  }

  /** The invariant speaks of connections, handles and secrets only. */
  lemma InvFrame(s: Store, t: Store)
    requires Inv(s) && t == s.(assertions := t.assertions, rows := t.rows, contacts := t.contacts)
    ensures Inv(t)
  {
    forall h | 0 <= h < |t.handles| ensures HandleOk(t, h) {
      assert HandleOk(s, h);
      if Live(s, h) {
        var c :| 0 <= c < |s.connections| && PointsTo(s.connections[c], s, h);
        assert PointsTo(t.connections[c], t, h);
      }
    }
    forall c | 0 <= c < |t.connections| ensures ConnectionOk(t, t.connections[c]) {
      assert ConnectionOk(s, s.connections[c]);
    }
  }

  // ---------------------------------------------------------------- one handle at a time

  /** A handle whose secrets and pointing connection are as they were stays well formed. */
  lemma Untouched(s: Store, t: Store, h: nat)
    requires h < |s.handles| && h < |t.handles| && HandleOk(s, h) && t.handles[h] == s.handles[h]
    requires s.nextSecret <= t.nextSecret
    requires forall key :: key in s.secrets && s.secrets[key].handle == h ==>
              key in t.secrets && t.secrets[key] == s.secrets[key]
    requires forall key :: key in t.secrets && t.secrets[key].handle == h ==> key in s.secrets
    requires forall key :: key in t.secrets && key in s.secrets ==> t.secrets[key] == s.secrets[key]
    requires forall key :: key in t.secrets && key !in s.secrets ==> key >= s.nextSecret
    requires forall c :: 0 <= c < |s.connections| && s.connections[c].handle == Some(h) ==>
                           c < |t.connections| && t.connections[c] == s.connections[c]
    ensures HandleOk(t, h)
  {
    if Live(s, h) {
      var c :| 0 <= c < |s.connections| && PointsTo(s.connections[c], s, h);
      assert PointsTo(t.connections[c], t, h);
    }
    if LeftBehind(s, h) {
      var key :| key in s.secrets && s.secrets[key].handle == h && key != s.handles[h].secretKey;
      assert key in t.secrets;
    }
  }

  /** Revoking a handle deletes its current secret and no other. */
  lemma RevokedKeeps(s: Store, t: Store, h: nat)
    requires h < |s.handles| && HandleOk(s, h) && h < |t.handles|
    requires t.handles[h] == s.handles[h].(status := TokenRevoked)
    requires s.nextSecret <= t.nextSecret
    requires forall key :: key in s.secrets && key != s.handles[h].secretKey ==>
              key in t.secrets && t.secrets[key] == s.secrets[key]
    requires forall key :: key in t.secrets && key !in s.secrets ==> t.secrets[key].handle != h && key >= s.nextSecret
    requires s.handles[h].secretKey !in t.secrets
    requires forall key :: key in t.secrets && key in s.secrets ==> t.secrets[key] == s.secrets[key]
    ensures HandleOk(t, h)
  {
    if LeftBehind(s, h) {
      var key :| key in s.secrets && s.secrets[key].handle == h && key != s.handles[h].secretKey;
      assert key in t.secrets;
    }
  }

  lemma MarkKeepsInv(s: Store, h: nat, status: TokenStatus)
    requires Inv(s) && h < |s.handles| && Live(s, h) && status != TokenRevoked
    ensures Inv(Marked(s, h, status))
  {
    var t := Marked(s, h, status);
    forall g | 0 <= g < |t.handles| ensures HandleOk(t, g) {
      assert HandleOk(s, g);
      if g != h {
        Untouched(s, t, g);
      } else {
        var c :| 0 <= c < |s.connections| && PointsTo(s.connections[c], s, h);
        assert PointsTo(t.connections[c], t, h);
        assert LeftBehind(s, h) <==> LeftBehind(t, h);
      }
    }
    forall c | 0 <= c < |t.connections| ensures ConnectionOk(t, t.connections[c]) {
      assert ConnectionOk(s, s.connections[c]);
    }
  }

  lemma ResealKeepsInv(s: Store, h: nat, response: Response)
    requires Inv(s) && h < |s.handles| && Live(s, h)
    ensures Inv(Resealed(s, h, response))
  {
    var t := Resealed(s, h, response);
    forall g | 0 <= g < |t.handles| ensures HandleOk(t, g) {
      assert HandleOk(s, g);
      if g != h {
        Untouched(s, t, g);
      } else {
        var c :| 0 <= c < |s.connections| && PointsTo(s.connections[c], s, h);
        assert PointsTo(t.connections[c], t, h);
        var key := s.handles[h].secretKey;
        assert key in t.secrets && t.secrets[key].handle == h && key != t.handles[h].secretKey;
      }
    }
    forall c | 0 <= c < |t.connections| ensures ConnectionOk(t, t.connections[c]) {
      assert ConnectionOk(s, s.connections[c]);
    }
  }

  lemma OpenIsLive(s: Store, h: nat)
    requires Inv(s) && h < |s.handles|
    ensures Open(s, h).Some? <==> Live(s, h)
  {
    assert HandleOk(s, h);
  }

  lemma RenewKeepsInv(settings: Settings, s: Store, h: nat, definition: Option<Connector>, w: World)
    requires Inv(s) && h < |s.handles|
    ensures Inv(Renewed(settings, s, h, definition, w))
  {
    OpenIsLive(s, h);
    if Open(s, h).Some? {
      if Open(s, h).value.refreshToken != "" {
        match w.refresh
        case GrantRefused => MarkKeepsInv(s, h, TokenError);
        case Answered(response) => ResealKeepsInv(s, h, Keeping(response, Open(s, h).value.refreshToken));
      } else if s.handles[h].owner.connectorId !in settings.audiences {
        MarkKeepsInv(s, h, TokenExpired);
      } else {
        var a := Reacquired(settings, s, h, definition, w);
        ReacquiredFrame(settings, s, h, definition, w);
        InvFrame(s, a.store);
        match a.response
        case None => MarkKeepsInv(a.store, h, TokenExpired);
        case Some(response) => ResealKeepsInv(a.store, h, response);
      }
    }
  }

  lemma RevokeKeepsInv(s: Store, c: nat, principalId: string)
    requires Inv(s)
    ensures Inv(Revoked(s, c, principalId))
  {
    var t := Revoked(s, c, principalId);
    if c < |s.connections| && s.connections[c].owner.principalId == principalId {
      assert ConnectionOk(s, s.connections[c]);
      if s.connections[c].handle.Some? { assert HandleOk(s, s.connections[c].handle.value); }
      forall g | 0 <= g < |t.handles| ensures HandleOk(t, g) {
        assert HandleOk(s, g);
        if s.connections[c].handle == Some(g) {
          RevokedKeeps(s, t, g);
        } else {
          Untouched(s, t, g);
        }
      }
      forall d | 0 <= d < |t.connections| ensures ConnectionOk(t, t.connections[d]) {
        assert ConnectionOk(s, s.connections[d]);
      }
    }
  }

  /** What installing does to the tables: `past` is the superseded handle, `c` the connection. */
  ghost predicate Supersedes(s: Store, t: Store, owner: Owner, c: nat, past: Option<nat>, response: Response) {
    var h, key := |s.handles|, s.nextSecret;
    && (past.Some? ==> past.value < h)
    && |t.handles| == h + 1 && t.handles[h].owner == owner && t.handles[h].status == TokenActive
    && t.handles[h].secretKey == key && !t.handles[h].refreshed && t.nextSecret == key + 1
    && (forall g :: 0 <= g < h ==>
          t.handles[g] == if past == Some(g) then s.handles[g].(status := TokenRevoked) else s.handles[g])
    && t.secrets == s.secrets[key := Secret(h, response)] -
                    (if past.Some? then {s.handles[past.value].secretKey} else {})
    && c <= |s.connections| && |t.connections| == (if c < |s.connections| then |s.connections| else c + 1)
    && (forall d :: 0 <= d < |s.connections| && d != c ==> t.connections[d] == s.connections[d])
    && t.connections[c].owner == owner && t.connections[c].userScope && t.connections[c].handle == Some(h)
    && t.connections[c].status == ConnectionActive
  }

  lemma InstallSupersedes(s: Store, connector: Connector, owner: Owner, own: Option<nat>, response: Response)
    requires Inv(s) && own == FindOwn(s.connections, owner)
    ensures var c := if own.Some? then own.value else |s.connections|;
            var past := if own.Some? then s.connections[own.value].handle else None;
            Supersedes(s, Installed(s, connector, owner, own, response).store, owner, c, past, response)
  {
    if own.Some? { assert ConnectionOk(s, s.connections[own.value]); }
    var t := Installed(s, connector, owner, own, response).store;
    var c := if own.Some? then own.value else |s.connections|;
    assert t.connections[c].handle == Some(|s.handles|);
    if own.Some? && s.connections[own.value].handle.Some? {
      assert HandleOk(s, s.connections[own.value].handle.value);
    }
  }

  lemma SupersedeKeepsHandles(s: Store, t: Store, owner: Owner, c: nat, past: Option<nat>, response: Response, g: nat)
    requires Inv(s) && Supersedes(s, t, owner, c, past, response) && g < |t.handles|
    requires c < |s.connections| ==> s.connections[c].handle == past
    ensures HandleOk(t, g)
  {
    var h := |s.handles|;
    if past.Some? { assert HandleOk(s, past.value); }
    if g < h {
      assert HandleOk(s, g);
      if past == Some(g) { RevokedKeeps(s, t, g); } else { Untouched(s, t, g); }
    } else {
      assert PointsTo(t.connections[c], t, h);
      assert forall key :: key in t.secrets && t.secrets[key].handle == h ==> key == s.nextSecret;
      assert t.secrets[s.nextSecret].handle == h;
    }
  }

  lemma SupersedeKeepsConnections(
    s: Store, t: Store, owner: Owner, c: nat, past: Option<nat>, response: Response, d: nat
  )
    requires Inv(s) && Supersedes(s, t, owner, c, past, response) && d < |t.connections|
    ensures ConnectionOk(t, t.connections[d])
  {
    if d != c { assert ConnectionOk(s, s.connections[d]); }
  }

  lemma InstallKeepsInv(s: Store, connector: Connector, owner: Owner, own: Option<nat>, response: Response)
    requires Inv(s) && own == FindOwn(s.connections, owner)
    ensures Inv(Installed(s, connector, owner, own, response).store)
  {
    var t := Installed(s, connector, owner, own, response).store;
    var c := if own.Some? then own.value else |s.connections|;
    var past := if own.Some? then s.connections[own.value].handle else None;
    InstallSupersedes(s, connector, owner, own, response);
    forall g: nat | g < |t.handles| ensures HandleOk(t, g) { SupersedeKeepsHandles(s, t, owner, c, past, response, g); }
    forall d: nat | d < |t.connections| ensures ConnectionOk(t, t.connections[d]) {
      SupersedeKeepsConnections(s, t, owner, c, past, response, d);
    }
    assert OneOwn(t.connections) by {
      if own.Some? { assert t.connections[c].owner == s.connections[c].owner; }
    }
  }

  lemma StepKeepsInv(settings: Settings, s: Store, step: Step)
    requires Inv(s)
    ensures Inv(Next(settings, s, step))
  {
    match step
    case Ensure(connector, principalId, workspaceId, w) =>
      var owner := Owner(connector.connectorId, principalId, workspaceId);
      var own := FindOwn(s.connections, owner);
      if own.Some? && s.connections[own.value].status == ConnectionRevoked {
        InvFrame(s, Noted(s, owner, RefusedRevoked));
      } else {
        var a := Acquired(settings, s, connector, owner, w, false);
        AcquiredFrame(settings, s, connector, owner, w, false);
        InvFrame(s, a.store);
        if a.response.Some? { InstallKeepsInv(a.store, connector, owner, own, a.response.value); }
      }
    case Renew(h, definition, w) => if h < |s.handles| { RenewKeepsInv(settings, s, h, definition, w); }
    case Revoke(c, principalId) => RevokeKeepsInv(s, c, principalId);
    case Retain(_, _) => InvFrame(s, Next(settings, s, step));
    case Forget(_) => InvFrame(s, Next(settings, s, step));
    case Share(owner) => ShareKeepsInv(s, owner);
  }

  lemma ShareKeepsInv(s: Store, owner: Owner)
    requires Inv(s)
    ensures Inv(s.(connections := s.connections + [Connection(owner, false, ConnectionActive, None, [])]))
  {
    var t := s.(connections := s.connections + [Connection(owner, false, ConnectionActive, None, [])]);
    forall h | 0 <= h < |t.handles| ensures HandleOk(t, h) {
      assert HandleOk(s, h);
      Untouched(s, t, h);
    }
    forall c | 0 <= c < |t.connections| ensures ConnectionOk(t, t.connections[c]) {
      if c < |s.connections| { assert ConnectionOk(s, s.connections[c]); }
    }
  }

  lemma {:induction false} RunKeepsInv(settings: Settings, s: Store, steps: seq<Step>)
    requires Inv(s)
    ensures Inv(Run(settings, s, steps))
  {
    if steps != [] {
      RunKeepsInv(settings, s, steps[..|steps| - 1]);
      StepKeepsInv(settings, Run(settings, s, steps[..|steps| - 1]), steps[|steps| - 1]);
    }
  }

  // ---------------------------------------------------------------- the main results

  /** A live handle is the one its owner's connection points to, so an owner has at most one. */
  lemma OneLiveHandle(settings: Settings, steps: seq<Step>, g: nat, h: nat)
    requires var s := Run(settings, EMPTY, steps);
             && g < |s.handles| && h < |s.handles| && Live(s, g) && Live(s, h)
             && s.handles[g].owner == s.handles[h].owner
    ensures g == h
    ensures var s := Run(settings, EMPTY, steps);
            var own := FindOwn(s.connections, s.handles[h].owner);
            own.Some? && PointsTo(s.connections[own.value], s, h)
  {
    RunKeepsInv(settings, EMPTY, steps);
    var s := Run(settings, EMPTY, steps);
    LiveIsPointed(s, g);
    LiveIsPointed(s, h);
  }

  lemma LiveIsPointed(s: Store, h: nat)
    requires Inv(s) && h < |s.handles| && Live(s, h)
    ensures var own := FindOwn(s.connections, s.handles[h].owner);
            own.Some? && PointsTo(s.connections[own.value], s, h)
  {
    assert HandleOk(s, h);
    var c :| 0 <= c < |s.connections| && PointsTo(s.connections[c], s, h);
    assert Own(s.connections[c], s.handles[h].owner);
    assert FindOwn(s.connections, s.handles[h].owner) == Some(c);
  }

  /** A handle can be opened exactly while it is not revoked. */
  lemma RevokedHandlesHoldNothing(settings: Settings, steps: seq<Step>, h: nat)
    requires h < |Run(settings, EMPTY, steps).handles|
    ensures var s := Run(settings, EMPTY, steps);
            && (Live(s, h) <==> s.handles[h].secretKey in s.secrets)
            && (Live(s, h) <==> Open(s, h).Some?)
  {
    RunKeepsInv(settings, EMPTY, steps);
    assert HandleOk(Run(settings, EMPTY, steps), h);
  }

  lemma RenewKeepsConnections(settings: Settings, s: Store, h: nat, definition: Option<Connector>, w: World)
    requires h < |s.handles|
    ensures Renewed(settings, s, h, definition, w).connections == s.connections
  {
    ReacquiredFrame(settings, s, h, definition, w);
  }

  lemma EnsureKeepsRevoked(settings: Settings, s: Store, connector: Connector, owner: Owner, w: World, c: nat)
    requires owner.connectorId == connector.connectorId && c < |s.connections| && IsRevoked(s.connections[c])
    requires OneOwn(s.connections)
    ensures var t := EnsuredAccess(settings, s, connector, owner.principalId, owner.workspaceId, w).store;
            c < |t.connections| && t.connections[c] == s.connections[c]
  {
    AcquiredFrame(settings, s, connector, owner, w, false);
    var own := FindOwn(s.connections, owner);
    if own.Some? && own.value == c { assert s.connections[c].owner == owner; }
  }

  predicate IsRevoked(c: Connection) {
    c.userScope && c.status == ConnectionRevoked
  }

  lemma StepKeepsRevoked(settings: Settings, s: Store, step: Step, c: nat)
    requires Inv(s) && c < |s.connections| && IsRevoked(s.connections[c])
    ensures var t := Next(settings, s, step);
            c < |t.connections| && IsRevoked(t.connections[c]) && t.connections[c].owner == s.connections[c].owner
  {
    match step
    case Ensure(connector, principalId, workspaceId, w) =>
      EnsureKeepsRevoked(settings, s, connector, Owner(connector.connectorId, principalId, workspaceId), w, c);
    case Renew(h, definition, w) =>
      if h < |s.handles| { RenewKeepsConnections(settings, s, h, definition, w); }
    case _ =>
  }

  /**
   Revocation is final: whatever follows, the connection stays REVOKED and every handle its owner
   ever held is dead, so nothing can be opened on the owner's behalf again.
   */
  lemma {:induction false} RevocationIsFinal(settings: Settings, s: Store, steps: seq<Step>, c: nat)
    requires Inv(s) && c < |s.connections| && s.connections[c].userScope && s.connections[c].status == ConnectionRevoked
    ensures var t := Run(settings, s, steps);
            && c < |t.connections| && t.connections[c].status == ConnectionRevoked
            && t.connections[c].userScope && t.connections[c].owner == s.connections[c].owner
            && forall h :: 0 <= h < |t.handles| && t.handles[h].owner == s.connections[c].owner ==>
                             !Live(t, h) && Open(t, h).None?
  {
    var t := Run(settings, s, steps);
    RunKeepsInv(settings, s, steps);
    if steps != [] {
      RevocationIsFinal(settings, s, steps[..|steps| - 1], c);
      RunKeepsInv(settings, s, steps[..|steps| - 1]);
      StepKeepsRevoked(settings, Run(settings, s, steps[..|steps| - 1]), steps[|steps| - 1], c);
    }
    forall h | 0 <= h < |t.handles| && t.handles[h].owner == s.connections[c].owner
      ensures !Live(t, h) && Open(t, h).None?
    {
      DeadUnderRevoked(t, c, h);
    }
  }

  lemma DeadUnderRevoked(s: Store, c: nat, h: nat)
    requires Inv(s) && c < |s.connections| && s.connections[c].userScope && s.connections[c].status == ConnectionRevoked
    requires h < |s.handles| && s.handles[h].owner == s.connections[c].owner
    ensures !Live(s, h) && Open(s, h).None?
  {
    assert HandleOk(s, h);
    forall d | 0 <= d < |s.connections| ensures !PointsTo(s.connections[d], s, h) {
      assert d == c || !s.connections[d].userScope || s.connections[d].owner != s.connections[c].owner;
    }
  }

  /**
   Revoking a connection is meant to destroy all of its credential material. It does exactly when
   the handle was never renewed: a renewal seals under a new key and leaves the old secret behind.
   */
  lemma MaterialDestroyedExactly(settings: Settings, steps: seq<Step>, c: nat)
    requires var s := Run(settings, EMPTY, steps); c < |s.connections| && s.connections[c].handle.Some?
    ensures var s := Run(settings, EMPTY, steps);
            var h := s.connections[c].handle.value;
            var t := Revoked(s, c, s.connections[c].owner.principalId);
            && h < |s.handles|
            && ((forall key :: key in t.secrets ==> t.secrets[key].handle != h) <==> !s.handles[h].refreshed)
  {
    RunKeepsInv(settings, EMPTY, steps);
    var s := Run(settings, EMPTY, steps);
    assert ConnectionOk(s, s.connections[c]);
    var h := s.connections[c].handle.value;
    RevokeKeepsInv(s, c, s.connections[c].owner.principalId);
    var t := Revoked(s, c, s.connections[c].owner.principalId);
    assert HandleOk(t, h);
    assert !Live(t, h) && t.handles[h].refreshed == s.handles[h].refreshed;
    if LeftBehind(t, h) {
      var key :| key in t.secrets && t.secrets[key].handle == h && key != t.handles[h].secretKey;
    }
  }
}
