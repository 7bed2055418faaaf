/**
 What acquiring, renewing and revoking a credential does to the stored rows (src/accretion/
 enterprise_auth.py, token_broker.py, connections.py), told row by row on the store.
 */
module CredentialRules {
  import opened Sequences
  import opened Enterprise
  import opened EnterpriseRuns
  import opened AccessMaterial
  import AcquisitionGates

  /** Everything but the rows named here is as it was. */
  ghost predicate OnlyChanges(s: Store, t: Store, connection: Option<nat>, handle: Option<nat>) {
    && |s.connections| <= |t.connections| && |s.handles| <= |t.handles|
    && (forall c :: 0 <= c < |s.connections| && connection != Some(c) ==> t.connections[c] == s.connections[c])
    && (forall h :: 0 <= h < |s.handles| && handle != Some(h) ==> t.handles[h] == s.handles[h])
  }

  /**
   A granted acquisition seals the authorization server's answer of this call under a new handle,
   points the owner's first connection to it, or a new one, and revokes the handle that held before.
   */
  lemma GrantIsSealed(
    settings: Settings, s: Store, connector: Connector, principalId: string, workspaceId: string, w: World
  )
    requires Inv(s)
    requires EnsuredAccess(settings, s, connector, principalId, workspaceId, w).connection.Some?
    ensures var owner := Owner(connector.connectorId, principalId, workspaceId);
            var access := EnsuredAccess(settings, s, connector, principalId, workspaceId, w);
            var t, c, h := access.store, access.connection.value, |s.handles|;
            var own := FindOwn(s.connections, owner);
            var past := if own.Some? then s.connections[own.value].handle else None;
            && c == (if own.Some? then own.value else |s.connections|)
            && w.grant.Answered? && |t.handles| == h + 1 && Open(t, h) == Some(w.grant.response)
            && t.handles[h].owner == owner && t.handles[h].status == TokenActive && !t.handles[h].refreshed
            && t.handles[h].scopes == w.grant.response.scopes && t.handles[h].expiresAt == w.grant.response.expiresAt
            && t.handles[h].issuer ==
               (if connector.authorizationServer == "" then connector.connectorId else connector.authorizationServer)
            && t.handles[h].audience == (if connector.resourceServer == "" then [] else [connector.resourceServer])
            && c < |t.connections|
            && t.connections[c] == Connection(owner, true, ConnectionActive, Some(h), w.grant.response.scopes)
            && (past.Some? ==>
                  past.value < h && t.handles[past.value].status == TokenRevoked && Open(t, past.value).None?)
            && OnlyChanges(s, t, own, past)
  {
    var owner := Owner(connector.connectorId, principalId, workspaceId);
    var a := Acquired(settings, s, connector, owner, w, false);
    AcquiredFrame(settings, s, connector, owner, w, false);
    GrantIsTheAnswer(settings, s, connector, owner, w);
    InvFrame(s, a.store);
    InstalledRows(a.store, connector, owner, FindOwn(s.connections, owner), a.response.value);
  }

  lemma GrantIsTheAnswer(settings: Settings, s: Store, connector: Connector, owner: Owner, w: World)
    requires Acquired(settings, s, connector, owner, w, false).response.Some?
    ensures w.grant == Answered(Acquired(settings, s, connector, owner, w, false).response.value)
  {
  }

  lemma InstalledRows(s: Store, connector: Connector, owner: Owner, own: Option<nat>, response: Response)
    requires Inv(s) && own == FindOwn(s.connections, owner)
    ensures var access := Installed(s, connector, owner, own, response);
            var t, c, h := access.store, if own.Some? then own.value else |s.connections|, |s.handles|;
            var past := if own.Some? then s.connections[own.value].handle else None;
            && access.connection == Some(c) && |t.handles| == h + 1 && Open(t, h) == Some(response)
            && t.handles[h] == Handle(owner,
                 if connector.authorizationServer == "" then connector.connectorId else connector.authorizationServer,
                 response.scopes, if connector.resourceServer == "" then [] else [connector.resourceServer],
                 response.expiresAt, s.nextSecret, TokenActive, false)
            && c < |t.connections|
            && t.connections[c] == Connection(owner, true, ConnectionActive, Some(h), response.scopes)
            && (past.Some? ==>
                  past.value < h && t.handles[past.value].status == TokenRevoked && Open(t, past.value).None?)
            && OnlyChanges(s, t, own, past)
  {
    if own.Some? {
      assert ConnectionOk(s, s.connections[own.value]);
      if s.connections[own.value].handle.Some? { assert HandleOk(s, s.connections[own.value].handle.value); }
    }
    InstalledSecret(s, connector, owner, own, response);
  }

  /** A renewal that is not granted leaves the secret, and says on the handle why it ended. */
  lemma RefusedRenewal(settings: Settings, s: Store, h: nat, d: Option<Connector>, w: World)
    requires Inv(s) && h < |s.handles| && Open(s, h).Some?
    requires !RenewalGranted(settings, s, h, Open(s, h).value, d, w)
    ensures var t := Renewed(settings, s, h, d, w);
            && t.secrets == s.secrets && t.connections == s.connections && |t.handles| == |s.handles|
            && OnlyChanges(s, t, None, Some(h))
            && t.handles[h] == s.handles[h].(
                 status := if Open(s, h).value.refreshToken == "" then TokenExpired
                           else if s.handles[h].owner.connectorId in settings.clients then TokenError
                           else s.handles[h].status)
  {
    OpenIsLive(s, h);
    ReacquiredExactly(settings, s, h, d, w);
    ReacquiredFrame(settings, s, h, d, w);
  }

  /** Renewing records REFRESHED where acquiring goes on to record GRANTED, and is otherwise the same. */
  lemma RenewalRecords(settings: Settings, s: Store, connector: Connector, owner: Owner, w: World)
    ensures var a := Acquired(settings, s, connector, owner, w, false);
            Acquired(settings, s, connector, owner, w, true) ==
            if a.response.None? then a
            else Acquisition(a.store.(rows := a.store.rows + [GrantRow(owner, Refreshed)]), a.response)
  {
  }

  /** What re-acquiring a live handle records and whom it contacts. */
  lemma ReacquiringRecords(settings: Settings, s: Store, h: nat, d: Option<Connector>, w: World)
    requires Inv(s) && h < |s.handles| && s.handles[h].status != TokenRevoked
    ensures var t, owner := Reacquired(settings, s, h, d, w).store, s.handles[h].owner;
            if d == None then t.rows == s.rows && t.contacts == s.contacts
            else if !d.value.managed then
              t.rows == s.rows + [GrantRow(owner, RefusedConfiguration)] && t.contacts == s.contacts
            else
              var told := AcquisitionGates.Outcome(settings, s, d.value, owner, w);
              && t.rows == s.rows + (if told.granted then [GrantRow(owner, Refreshed)] else told.rows)
              && t.contacts == s.contacts + told.contacts
  {
    LiveIsPointed(s, h);
    if d.Some? && d.value.managed {
      AcquisitionGates.AcquiredFollowsTheGates(settings, s, d.value, s.handles[h].owner, w);
      RenewalRecords(settings, s, d.value, s.handles[h].owner, w);
    }
  }

  /** An assertion is dropped exactly when a configured acquisition finds it expired. */
  lemma ExpiredAssertionIsDropped(settings: Settings, s: Store, connector: Connector, owner: Owner, w: World, r: bool)
    ensures var configured :=
              && settings.enabled && AcquisitionGates.WithoutSlashes(connector.authorizationServer) != ""
              && connector.connectorId in settings.audiences && settings.audiences[connector.connectorId] != "";
            var expired := owner.principalId in s.assertions && s.assertions[owner.principalId].expiresAt <= w.now;
            Acquired(settings, s, connector, owner, w, r).store.assertions ==
            if configured && expired then s.assertions - {owner.principalId} else s.assertions
  {
    AcquisitionGates.NameIsLeft(connector.authorizationServer);
  }

  /** Only the principal a connection belongs to revokes it, and nothing but it and its handle is touched. */
  lemma RevokesExactly(s: Store, c: nat, principalId: string)
    requires Inv(s)
    ensures var t := Revoked(s, c, principalId);
            if c < |s.connections| && s.connections[c].owner.principalId == principalId then
              && |t.connections| == |s.connections| && |t.handles| == |s.handles|
              && t.connections[c] == s.connections[c].(status := ConnectionRevoked, scopes := [])
              && OnlyChanges(s, t, Some(c), s.connections[c].handle)
              && (s.connections[c].handle.Some? ==>
                    var h := s.connections[c].handle.value;
                    h < |s.handles| && t.handles[h] == s.handles[h].(status := TokenRevoked) && Open(t, h).None?)
            else t == s
  {
    if c < |s.connections| { assert ConnectionOk(s, s.connections[c]); }
  }
}
