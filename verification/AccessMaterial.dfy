/**
 Who is handed access material (src/accretion/token_broker.py), what exactly is handed out, and
 whether it covers what was asked for: the checks are made on the handle as it was before a renewal.
 */
module AccessMaterial {
  import opened Sequences
  import opened Enterprise
  import opened EnterpriseRuns
  import AcquisitionGates

  // ---------------------------------------------------------------- what a handle stands for

  /** The secret of a live handle holds what the handle says, and is the last one sealed for it. */
  ghost predicate Faithful(s: Store, h: nat)
    requires h < |s.handles|
  {
    var handle := s.handles[h];
    handle.status != TokenRevoked ==>
      && handle.secretKey in s.secrets
      && s.secrets[handle.secretKey].response.scopes == handle.scopes
      && s.secrets[handle.secretKey].response.expiresAt == handle.expiresAt
      && forall key :: key in s.secrets && s.secrets[key].handle == h ==> key <= handle.secretKey
  }

  ghost predicate AllFaithful(s: Store) {
    forall h :: 0 <= h < |s.handles| ==> Faithful(s, h)
  }

  /** A handle stays as it stands where its row is kept or revoked and its secrets are left alone. */
  lemma StaysFaithful(s: Store, t: Store, h: nat)
    requires h < |s.handles| && h < |t.handles| && Faithful(s, h)
    requires t.handles[h] == s.handles[h] || t.handles[h] == s.handles[h].(status := TokenRevoked)
    requires t.handles[h].status != TokenRevoked && s.handles[h].secretKey in s.secrets ==>
               var key := s.handles[h].secretKey; key in t.secrets && t.secrets[key] == s.secrets[key]
    requires forall key :: key in t.secrets && t.secrets[key].handle == h ==>
                             key in s.secrets && t.secrets[key] == s.secrets[key]
    ensures Faithful(t, h)
  {
  }

  lemma MarkFaithful(s: Store, h: nat, status: TokenStatus)
    requires AllFaithful(s) && h < |s.handles| && Live(s, h)
    ensures AllFaithful(Marked(s, h, status))
  {
    var t := Marked(s, h, status);
    forall g | 0 <= g < |t.handles| ensures Faithful(t, g) { assert Faithful(s, g); }
  }

  lemma ResealFaithful(s: Store, h: nat, response: Response)
    requires Inv(s) && AllFaithful(s) && h < |s.handles|
    ensures AllFaithful(Resealed(s, h, response))
  {
    var t := Resealed(s, h, response);
    forall g | 0 <= g < |t.handles| ensures Faithful(t, g) {
      assert Faithful(s, g) && HandleOk(s, g);
      if g != h { StaysFaithful(s, t, g); }
    }
  }

  lemma RevokeFaithful(s: Store, c: nat, principalId: string)
    requires Inv(s) && AllFaithful(s)
    ensures AllFaithful(Revoked(s, c, principalId))
  {
    var t := Revoked(s, c, principalId);
    forall g | 0 <= g < |t.handles| ensures Faithful(t, g) {
      assert Faithful(s, g) && HandleOk(s, g);
      if c < |s.connections| && s.connections[c].handle.Some? && s.connections[c].handle.value < |s.handles| {
        assert HandleOk(s, s.connections[c].handle.value);
      }
      StaysFaithful(s, t, g);
    }
  }

  lemma InstallFaithful(s: Store, connector: Connector, owner: Owner, own: Option<nat>, response: Response)
    requires Inv(s) && AllFaithful(s) && own == FindOwn(s.connections, owner)
    ensures AllFaithful(Installed(s, connector, owner, own, response).store)
  {
    var t := Installed(s, connector, owner, own, response).store;
    var past := if own.Some? then s.connections[own.value].handle else None;
    if own.Some? { assert ConnectionOk(s, s.connections[own.value]); }
    if past.Some? { assert HandleOk(s, past.value); }
    forall g | 0 <= g < |t.handles| ensures Faithful(t, g) {
      if g < |s.handles| {
        assert Faithful(s, g) && HandleOk(s, g);
        StaysFaithful(s, t, g);
      } else {
        InstalledSecret(s, connector, owner, own, response);
      }
    }
  }

  /** The new handle is sealed with the response, under a key no secret had before. */
  lemma InstalledSecret(s: Store, connector: Connector, owner: Owner, own: Option<nat>, response: Response)
    requires Inv(s) && own == FindOwn(s.connections, owner)
    ensures var t := Installed(s, connector, owner, own, response).store;
            var h := |s.handles|;
            && |t.handles| == h + 1 && t.handles[h].secretKey == s.nextSecret
            && t.handles[h].status == TokenActive && t.handles[h].owner == owner
            && t.handles[h].scopes == response.scopes && t.handles[h].expiresAt == response.expiresAt
            && s.nextSecret in t.secrets && t.secrets[s.nextSecret] == Secret(h, response)
            && forall key :: key in t.secrets ==> key <= s.nextSecret
  {
    if own.Some? {
      assert ConnectionOk(s, s.connections[own.value]);
      if s.connections[own.value].handle.Some? { assert HandleOk(s, s.connections[own.value].handle.value); }
    }
  }

  lemma SameTables(s: Store, t: Store)
    requires AllFaithful(s) && t.handles == s.handles && t.secrets == s.secrets
    ensures AllFaithful(t)
  {
    forall h | 0 <= h < |t.handles| ensures Faithful(t, h) { assert Faithful(s, h); }
  }

  lemma RenewFaithful(settings: Settings, s: Store, h: nat, definition: Option<Connector>, w: World)
    requires Inv(s) && AllFaithful(s) && h < |s.handles|
    ensures AllFaithful(Renewed(settings, s, h, definition, w))
  {
    OpenIsLive(s, h);
    if Open(s, h).Some? {
      if Open(s, h).value.refreshToken != "" {
        match w.refresh
        case GrantRefused => MarkFaithful(s, h, TokenError);
        case Answered(response) => ResealFaithful(s, h, Keeping(response, Open(s, h).value.refreshToken));
      } else if s.handles[h].owner.connectorId !in settings.audiences {
        MarkFaithful(s, h, TokenExpired);
      } else {
        var a := Reacquired(settings, s, h, definition, w);
        ReacquiredFrame(settings, s, h, definition, w);
        InvFrame(s, a.store);
        SameTables(s, a.store);
        match a.response
        case None => MarkFaithful(a.store, h, TokenExpired);
        case Some(response) => ResealFaithful(a.store, h, response);
      }
    }
  }

  lemma StepFaithful(settings: Settings, s: Store, step: Step)
    requires Inv(s) && AllFaithful(s)
    ensures AllFaithful(Next(settings, s, step))
  {
    match step
    case Ensure(connector, principalId, workspaceId, w) =>
      var owner := Owner(connector.connectorId, principalId, workspaceId);
      var own := FindOwn(s.connections, owner);
      if own.Some? && s.connections[own.value].status == ConnectionRevoked {
        SameTables(s, Noted(s, owner, RefusedRevoked));
      } else {
        var a := Acquired(settings, s, connector, owner, w, false);
        AcquiredFrame(settings, s, connector, owner, w, false);
        InvFrame(s, a.store);
        SameTables(s, a.store);
        if a.response.Some? { InstallFaithful(a.store, connector, owner, own, a.response.value); }
      }
    case Renew(h, definition, w) => if h < |s.handles| { RenewFaithful(settings, s, h, definition, w); }
    case Revoke(c, principalId) => RevokeFaithful(s, c, principalId);
    case _ => SameTables(s, Next(settings, s, step));
  }

  /** In every state that calls one after another reach, every live handle stands for its last secret. */
  lemma {:induction false} RunFaithful(settings: Settings, steps: seq<Step>)
    ensures Inv(Run(settings, EMPTY, steps)) && AllFaithful(Run(settings, EMPTY, steps))
  {
    RunKeepsInv(settings, EMPTY, steps);
    if steps != [] {
      RunFaithful(settings, steps[..|steps| - 1]);
      StepFaithful(settings, Run(settings, EMPTY, steps[..|steps| - 1]), steps[|steps| - 1]);
    }
  }

  /** What the remote party answered, on the path a renewal of the handle takes. */
  function Answer(sealed: Response, w: World): GrantAnswer {
    if sealed.refreshToken != "" then w.refresh else w.grant
  }

  /** A renewal either seals the answer under a new key or leaves the secret alone. */
  lemma RenewalOutcome(settings: Settings, s: Store, h: nat, definition: Option<Connector>, w: World)
    requires Inv(s) && h < |s.handles|
    ensures var t := Renewed(settings, s, h, definition, w);
            && |t.handles| == |s.handles|
            && (t.handles[h].secretKey != s.handles[h].secretKey ==>
                  && Open(s, h).Some? && Answer(Open(s, h).value, w).Answered?
                  && t.handles[h].status == TokenActive && Open(t, h).Some?
                  && var granted := Answer(Open(s, h).value, w).response.scopes;
                     t.handles[h].scopes == (if granted == [] then s.handles[h].scopes else granted))
  {
    assert HandleOk(s, h);
    RenewedFrame(settings, s, h, definition, w);
    ReacquiredFrame(settings, s, h, definition, w);
    var a := Reacquired(settings, s, h, definition, w);
    ReacquiredAnswer(settings, s, h, definition, w);
    assert s.handles[h].secretKey != s.nextSecret;
    if Open(s, h).Some? {
      if Open(s, h).value.refreshToken != "" {
        if w.refresh.Answered? { ResealedOpens(s, h, Keeping(w.refresh.response, Open(s, h).value.refreshToken)); }
      } else if a.response.Some? {
        ResealedOpens(a.store, h, a.response.value);
      }
    }
  }

  lemma ReacquiredAnswer(settings: Settings, s: Store, h: nat, definition: Option<Connector>, w: World)
    requires h < |s.handles|
    ensures var a := Reacquired(settings, s, h, definition, w);
            a.response.Some? ==> w.grant == Answered(a.response.value)
  {
  }

  lemma ResealedOpens(s: Store, h: nat, response: Response)
    requires h < |s.handles|
    ensures var t := Resealed(s, h, response);
            && |t.handles| == |s.handles| && t.handles[h].secretKey == s.nextSecret
            && t.handles[h].status == TokenActive
            && Open(t, h).Some?
            && t.handles[h].scopes == if response.scopes == [] then s.handles[h].scopes else response.scopes
  {
  }

  /** The renewal of this call is answered with scopes that no longer cover what is asked for. */
  ghost predicate Narrowed(s: Store, h: nat, ask: Ask, w: World)
    requires h < |s.handles|
  {
    && Stale(s.handles[h], w.now) && Open(s, h).Some? && Answer(Open(s, h).value, w).Answered?
    && var granted := Answer(Open(s, h).value, w).response.scopes;
       granted != [] && !(ask.scopes <= Elements(granted))
  }

  /**
   Material is handed out only from a live, ACTIVE handle that covered the request when the call
   came in. The handle it comes from still covers the requested scopes exactly when the call did
   not renew it to a narrower grant: scopes are not looked at again after a renewal.
   */
  lemma MaterialCoversExactly(
    settings: Settings, steps: seq<Step>, h: nat, ask: Ask, definition: Option<Connector>, w: World
  )
    requires h < |Run(settings, EMPTY, steps).handles|
    requires Handed(settings, Run(settings, EMPTY, steps), h, ask, definition, w).response.Some?
    ensures var s := Run(settings, EMPTY, steps);
            var t := Handed(settings, s, h, ask, definition, w).store;
            && Live(s, h) && CoversAsk(s.handles[h], ask)
            && |t.handles| == |s.handles| && t.handles[h].status == TokenActive
            && (ask.scopes <= Elements(t.handles[h].scopes) <==> !Narrowed(s, h, ask, w))
  {
    RunKeepsInv(settings, EMPTY, steps);
    HandedCovers(settings, Run(settings, EMPTY, steps), h, ask, definition, w);
  }

  lemma HandedCovers(settings: Settings, s: Store, h: nat, ask: Ask, definition: Option<Connector>, w: World)
    requires Inv(s) && h < |s.handles| && Handed(settings, s, h, ask, definition, w).response.Some?
    ensures var t := Handed(settings, s, h, ask, definition, w).store;
            && Live(s, h) && CoversAsk(s.handles[h], ask)
            && |t.handles| == |s.handles| && t.handles[h].status == TokenActive
            && (ask.scopes <= Elements(t.handles[h].scopes) <==> !Narrowed(s, h, ask, w))
  {
    RenewalOutcome(settings, s, h, definition, w);
  }

  /** After a revocation, in every later state, no handle of the owner yields material to anyone. */
  lemma NothingAfterRevocation(
    settings: Settings, s: Store, steps: seq<Step>, c: nat, h: nat, ask: Ask, definition: Option<Connector>, w: World
  )
    requires Inv(s) && c < |s.connections| && s.connections[c].userScope && s.connections[c].status == ConnectionRevoked
    requires var t := Run(settings, s, steps); h < |t.handles| && t.handles[h].owner == s.connections[c].owner
    ensures var t := Run(settings, s, steps); Handed(settings, t, h, ask, definition, w) == Material(t, None)
  {
    RevocationIsFinal(settings, s, steps, c);
  }

  // ---------------------------------------------------------------- what is handed out

  /** The handle is ACTIVE, of the expected issuer, and lists every audience and scope asked for. */
  ghost predicate Covered(handle: Handle, ask: Ask) {
    && handle.status == TokenActive
    && (ask.expectedIssuer == None || ask.expectedIssuer == Some(handle.issuer))
    && (forall a :: a in ask.audience ==> a in handle.audience)
    && (forall x :: x in ask.scopes ==> x in handle.scopes)
  }

  /** The handle expires within two minutes, or has expired. */
  predicate ExpiresSoon(handle: Handle, now: int) {
    handle.expiresAt.Some? && handle.expiresAt.value <= now + 120
  }

  /** The secret sealed last for the handle. */
  ghost predicate SealedLast(s: Store, h: nat, key: nat) {
    && key in s.secrets && s.secrets[key].handle == h
    && forall other :: other in s.secrets && s.secrets[other].handle == h ==> other <= key
  }

  /** An answer as it is sealed: without scopes it keeps the handle's, without refresh token the one in hand. */
  function AsSealed(answer: Response, handle: Handle, sealed: Response): Response {
    Response(answer.accessToken, if answer.refreshToken == "" then sealed.refreshToken else answer.refreshToken,
             if answer.scopes == [] then handle.scopes else answer.scopes, answer.expiresAt)
  }

  lemma CoveredIs(handle: Handle, ask: Ask)
    ensures Covered(handle, ask) <==> CoversAsk(handle, ask)
  {
    assert forall a :: a in Elements(handle.audience) <==> a in handle.audience;
    assert forall x :: x in Elements(handle.scopes) <==> x in handle.scopes;
  }

  lemma LastSecret(s: Store, h: nat)
    requires Inv(s) && AllFaithful(s) && h < |s.handles| && s.handles[h].status != TokenRevoked
    ensures SealedLast(s, h, s.handles[h].secretKey)
    ensures Open(s, h) == Some(s.secrets[s.handles[h].secretKey].response)
  {
    assert HandleOk(s, h) && Faithful(s, h);
  }

  /** A handle that is not about to expire yields the response sealed last for it, and nothing changes. */
  lemma HandsOutTheLast(settings: Settings, steps: seq<Step>, h: nat, ask: Ask, definition: Option<Connector>, w: World)
    requires h < |Run(settings, EMPTY, steps).handles|
    requires !ExpiresSoon(Run(settings, EMPTY, steps).handles[h], w.now)
    ensures var s := Run(settings, EMPTY, steps);
            var m := Handed(settings, s, h, ask, definition, w);
            && m.store == s && (m.response.Some? <==> Covered(s.handles[h], ask))
            && (m.response.Some? ==> exists key :: SealedLast(s, h, key) && m.response == Some(s.secrets[key].response))
            && (m.response.Some? ==> m.response.value.scopes == s.handles[h].scopes &&
                                     m.response.value.expiresAt == s.handles[h].expiresAt)
  {
    var s := Run(settings, EMPTY, steps);
    RunFaithful(settings, steps);
    CoveredIs(s.handles[h], ask);
    if Covered(s.handles[h], ask) {
      LastSecret(s, h);
      assert Faithful(s, h);
    }
  }

  /** Whether the remote party that renews the handle grants anything in this call. */
  ghost predicate RenewalGranted(settings: Settings, s: Store, h: nat, sealed: Response, d: Option<Connector>, w: World)
    requires h < |s.handles|
  {
    var owner := s.handles[h].owner;
    if sealed.refreshToken != "" then owner.connectorId in settings.clients && w.refresh.Answered?
    else
      && owner.connectorId in settings.audiences && d.Some? && d.value.managed
      && AcquisitionGates.Outcome(settings, s, d.value, owner, w).granted
  }

  /** What it answered. */
  function RemoteAnswer(sealed: Response, w: World): Option<Response> {
    match if sealed.refreshToken != "" then w.refresh else w.grant
    case GrantRefused => None
    case Answered(response) => Some(response)
  }

  lemma SameWithRenewal(settings: Settings, s: Store, connector: Connector, owner: Owner, w: World)
    ensures Acquired(settings, s, connector, owner, w, true).response ==
            Acquired(settings, s, connector, owner, w, false).response
  {
  }

  lemma ReacquiredExactly(settings: Settings, s: Store, h: nat, d: Option<Connector>, w: World)
    requires Inv(s) && h < |s.handles| && Live(s, h)
    ensures Reacquired(settings, s, h, d, w).response.Some? <==>
              && d.Some? && d.value.managed
              && AcquisitionGates.Outcome(settings, s, d.value, s.handles[h].owner, w).granted
    ensures Reacquired(settings, s, h, d, w).response.Some? ==>
              w.grant == Answered(Reacquired(settings, s, h, d, w).response.value)
  {
    LiveIsPointed(s, h);
    ReacquiredAnswer(settings, s, h, d, w);
    if d.Some? && d.value.managed {
      var owner := s.handles[h].owner;
      SameWithRenewal(settings, s, d.value, owner, w);
      AcquisitionGates.AcquiredFollowsTheGates(settings, s, d.value, owner, w);
    }
  }

  /**
   A handle about to expire yields material exactly when its renewal is granted in this very call,
   and then it is the remote party's answer, sealed under a new key.
   */
  lemma HandsOutTheAnswer(settings: Settings, steps: seq<Step>, h: nat, ask: Ask, d: Option<Connector>, w: World)
    requires h < |Run(settings, EMPTY, steps).handles|
    requires ExpiresSoon(Run(settings, EMPTY, steps).handles[h], w.now)
    requires Covered(Run(settings, EMPTY, steps).handles[h], ask)
    ensures var s := Run(settings, EMPTY, steps);
            var handle, m := s.handles[h], Handed(settings, s, h, ask, d, w);
            && SealedLast(s, h, handle.secretKey)
            && var sealed := s.secrets[handle.secretKey].response;
               && (m.response.Some? <==> RenewalGranted(settings, s, h, sealed, d, w))
               && (m.response.Some? ==>
                     var answer := RemoteAnswer(sealed, w);
                     && answer.Some? && m.response == Some(AsSealed(answer.value, handle, sealed))
                     && |m.store.handles| == |s.handles|
                     && m.store.handles[h] == handle.(secretKey := s.nextSecret, scopes := m.response.value.scopes,
                                                      expiresAt := m.response.value.expiresAt, refreshed := true))
  {
    var s := Run(settings, EMPTY, steps);
    RunFaithful(settings, steps);
    CoveredIs(s.handles[h], ask);
    LastSecret(s, h);
    RenewedExactly(settings, s, h, d, w);
  }

  lemma RenewedExactly(settings: Settings, s: Store, h: nat, d: Option<Connector>, w: World)
    requires Inv(s) && h < |s.handles| && s.handles[h].status == TokenActive && Open(s, h).Some?
    ensures var handle, sealed, t := s.handles[h], Open(s, h).value, Renewed(settings, s, h, d, w);
            && |t.handles| == |s.handles|
            && if RenewalGranted(settings, s, h, sealed, d, w) then
                 var answer := RemoteAnswer(sealed, w);
                 && answer.Some? && Open(t, h) == Some(AsSealed(answer.value, handle, sealed))
                 && t.handles[h] == handle.(secretKey := s.nextSecret, scopes := Open(t, h).value.scopes,
                                            expiresAt := Open(t, h).value.expiresAt, refreshed := true)
               else t.handles[h].secretKey == handle.secretKey
    ensures Renewed(settings, s, h, d, w).handles[h].secretKey != s.handles[h].secretKey <==>
              RenewalGranted(settings, s, h, Open(s, h).value, d, w)
  {
    assert HandleOk(s, h);
    ReacquiredExactly(settings, s, h, d, w);
    ReacquiredFrame(settings, s, h, d, w);
  }
}
