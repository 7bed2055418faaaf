/**
 What one enterprise acquisition (src/accretion/enterprise_auth.py) records and whom it contacts,
 told as a row of gates: each must be open before the call gets any further.
 */
module AcquisitionGates {
  import opened Sequences
  import opened Enterprise

  /** A closed gate ends the call: with a row naming the refusal, or, without one, by raising. */
  datatype Gate = Gate(open: bool, refusal: Option<GrantOutcome>)

  datatype Way = Clear | Closed(refusal: Option<GrantOutcome>)

  function FirstClosed(gates: seq<Gate>): (way: Way)
    ensures way == Clear <==> forall i :: 0 <= i < |gates| ==> gates[i].open
  {
    if gates == [] then Clear else if !gates[0].open then Closed(gates[0].refusal) else FirstClosed(gates[1..])
  }

  /** A token must parse, then name the issuer, then the audience, then lie before its expiry. */
  function TokenGates(token: Option<Token>, issuer: string, audience: Option<string>, now: int): seq<Gate> {
    var claims := if token.Some? && token.value.Readable? then token.value.claims else Claims(None, {}, None);
    [Gate(token.Some? && token.value.Readable?, None),
     Gate(claims.issuer == Some(issuer), Some(RefusedIssuer)),
     Gate(audience.Some? ==> audience.value in claims.audiences, Some(RefusedAudience)),
     Gate(claims.expiresAt.Some? && claims.expiresAt.value > now, Some(RefusedExpired))]
  }

  function Retained(s: Store, owner: Owner): Assertion {
    if owner.principalId in s.assertions then s.assertions[owner.principalId] else Assertion("", 0, None)
  }

  /** A server's name without the slashes it ends with. */
  function WithoutSlashes(name: string): string {
    if name != "" && name[|name| - 1] == '/' then WithoutSlashes(name[..|name| - 1]) else name
  }

  lemma {:induction false} NameIsLeft(name: string)
    ensures WithoutSlashes(name) != "" <==> exists i :: 0 <= i < |name| && name[i] != '/'
  {
    if name != "" && name[|name| - 1] == '/' {
      NameIsLeft(name[..|name| - 1]);
      if i :| 0 <= i < |name| && name[i] != '/' { assert name[..|name| - 1][i] != '/'; }
    }
  }

  /** Revocation, configuration and the retained assertion. */
  function AssertionGates(settings: Settings, s: Store, connector: Connector, owner: Owner, now: int): seq<Gate> {
    var own := FindOwn(s.connections, owner);
    var assertion := Retained(s, owner);
    [Gate(own.Some? ==> s.connections[own.value].status != ConnectionRevoked, Some(RefusedRevoked)),
     Gate(settings.enabled, Some(RefusedDisabled)),
     Gate(connector.connectorId in settings.audiences && settings.audiences[connector.connectorId] != "",
          Some(RefusedAudience)),
     Gate(WithoutSlashes(connector.authorizationServer) != "", Some(RefusedConfiguration)),
     Gate(owner.principalId in s.assertions, Some(RefusedMissing)),
     Gate(assertion.expiresAt > now, Some(RefusedExpired)),
     Gate(assertion.material.Some?, Some(RefusedMissing))] +
    TokenGates(assertion.material, if settings.oidcIssuer != "" then settings.oidcIssuer else assertion.issuer,
               if settings.clientId != "" then Some(settings.clientId) else None, now)
  }

  /** What must hold before the identity provider may hear of the call. */
  function LocalGates(settings: Settings, s: Store, connector: Connector, owner: Owner, w: World): seq<Gate> {
    AssertionGates(settings, s, connector, owner, w.now) + [Gate(w.exchange != ExchangeDisabled, Some(RefusedDisabled))]
  }

  /** What must hold of the assertion grant before the authorization server may see it. */
  function GrantGates(settings: Settings, s: Store, connector: Connector, owner: Owner, w: World): seq<Gate> {
    var grant := if w.exchange.Issued? then Some(w.exchange.grant) else None;
    [Gate(w.exchange.Issued?, Some(RefusedUpstream))] +
    TokenGates(grant, Retained(s, owner).issuer, Some(AudienceFor(settings, connector.connectorId)), w.now)
  }

  // ---------------------------------------------------------------- gates and checks agree

  lemma {:induction false} Stop(gates: seq<Gate>, n: nat)
    requires n < |gates| && !gates[n].open && forall i :: 0 <= i < n ==> gates[i].open
    ensures FirstClosed(gates) == Closed(gates[n].refusal)
  {
    if n > 0 {
      assert gates[0].open && gates[1..][n - 1] == gates[n];
      Stop(gates[1..], n - 1);
    }
  }

  lemma {:induction false} Skip(gates: seq<Gate>, n: nat)
    requires n <= |gates| && forall i :: 0 <= i < n ==> gates[i].open
    ensures FirstClosed(gates) == FirstClosed(gates[n..])
  {
    if n > 0 {
      assert gates[0].open && gates[1..][n - 1..] == gates[n..];
      Skip(gates[1..], n - 1);
    } else {
      assert gates[0..] == gates;
    }
  }

  lemma {:induction false} Append(gates: seq<Gate>, last: Gate)
    ensures FirstClosed(gates + [last]) ==
            if FirstClosed(gates) != Clear then FirstClosed(gates)
            else if last.open then Clear
            else Closed(last.refusal)
  {
    if gates == [] {
      assert gates + [last] == [last];
    } else {
      assert (gates + [last])[1..] == gates[1..] + [last];
      Append(gates[1..], last);
    }
  }

  function AsVerdict(way: Way): Verdict {
    match way
    case Clear => Pass
    case Closed(None) => CannotParse
    case Closed(Some(outcome)) => Refuse(outcome)
  }

  lemma TokenVerdict(token: Token, issuer: string, audience: Option<string>, now: int)
    ensures CheckClaims(token, issuer, audience, now) ==
            AsVerdict(FirstClosed(TokenGates(Some(token), issuer, audience, now)))
  {
    var g := TokenGates(Some(token), issuer, audience, now);
    if !g[0].open { Stop(g, 0); }
    else if !g[1].open { Stop(g, 1); }
    else if !g[2].open { Stop(g, 2); }
    else if !g[3].open { Stop(g, 3); }
  }

  predicate NotRevoked(s: Store, owner: Owner) {
    var own := FindOwn(s.connections, owner);
    own.Some? ==> s.connections[own.value].status != ConnectionRevoked
  }

  lemma AssertionVerdict(settings: Settings, s: Store, connector: Connector, owner: Owner, now: int)
    requires NotRevoked(s, owner)
    ensures Admit(settings, s, connector, owner, now) ==
            AsVerdict(FirstClosed(AssertionGates(settings, s, connector, owner, now)))
  {
    var g := AssertionGates(settings, s, connector, owner, now);
    NameIsLeft(connector.authorizationServer);
    if !g[1].open { Stop(g, 1); }
    else if !g[2].open { Stop(g, 2); }
    else if !g[3].open { Stop(g, 3); }
    else if !g[4].open { Stop(g, 4); }
    else if !g[5].open { Stop(g, 5); }
    else if !g[6].open { Stop(g, 6); }
    else {
      var assertion := s.assertions[owner.principalId];
      var issuer := if settings.oidcIssuer != "" then settings.oidcIssuer else assertion.issuer;
      var client := if settings.clientId != "" then Some(settings.clientId) else None;
      Skip(g, 7);
      assert g[7..] == TokenGates(assertion.material, issuer, client, now);
      TokenVerdict(assertion.material.value, issuer, client, now);
    }
  }

  lemma GrantVerdict(settings: Settings, s: Store, connector: Connector, owner: Owner, w: World)
    requires w.exchange.Issued?
    ensures var issuer, audience := Retained(s, owner).issuer, AudienceFor(settings, connector.connectorId);
            ValidateGrant(w.exchange.grant, issuer, audience, w.now) ==
            AsVerdict(FirstClosed(GrantGates(settings, s, connector, owner, w)))
  {
    var g := GrantGates(settings, s, connector, owner, w);
    var issuer, audience := Retained(s, owner).issuer, AudienceFor(settings, connector.connectorId);
    Skip(g, 1);
    assert g[1..] == TokenGates(Some(w.exchange.grant), issuer, Some(audience), w.now);
    TokenVerdict(w.exchange.grant, issuer, Some(audience), w.now);
  }

  // ---------------------------------------------------------------- one call

  datatype Told = Told(rows: seq<GrantRow>, contacts: seq<Contact>, granted: bool)

  function Turned(owner: Owner, refusal: Option<GrantOutcome>, contacts: seq<Contact>): Told {
    Told(match refusal case None => [] case Some(outcome) => [GrantRow(owner, outcome)], contacts, false)
  }

  /** What one call records and whom it contacts, told by the gates alone. */
  function Outcome(settings: Settings, s: Store, connector: Connector, owner: Owner, w: World): Told {
    var material := Retained(s, owner).material;
    var exchange := if material.Some?
                    then [Exchange(material.value, AudienceFor(settings, connector.connectorId))] else [];
    var present := if w.exchange.Issued? then [Present(connector.connectorId, w.exchange.grant)] else [];
    match FirstClosed(LocalGates(settings, s, connector, owner, w))
    case Closed(refusal) => Turned(owner, refusal, [])
    case Clear =>
      match FirstClosed(GrantGates(settings, s, connector, owner, w))
      case Closed(refusal) => Turned(owner, refusal, exchange)
      case Clear =>
        if w.grant.Answered? then Told([GrantRow(owner, Granted)], exchange + present, true)
        else Turned(owner, Some(RefusedUpstream), exchange + present)
  }

  /** The part of the call up to the response, for a connection that is not revoked. */
  lemma AcquiredFollowsTheGates(settings: Settings, s: Store, connector: Connector, owner: Owner, w: World)
    requires NotRevoked(s, owner)
    ensures var a := Acquired(settings, s, connector, owner, w, false);
            var told := Outcome(settings, s, connector, owner, w);
            && a.store.rows == s.rows + (if told.granted then [] else told.rows)
            && a.store.contacts == s.contacts + told.contacts
            && (a.response.Some? <==> told.granted)
            && (told.granted ==> told.rows == [GrantRow(owner, Granted)])
  {
    var gates := AssertionGates(settings, s, connector, owner, w.now);
    Append(gates, Gate(w.exchange != ExchangeDisabled, Some(RefusedDisabled)));
    AssertionVerdict(settings, s, connector, owner, w.now);
    if FirstClosed(gates) == Clear && w.exchange != ExchangeDisabled {
      if w.exchange.Issued? {
        GrantVerdict(settings, s, connector, owner, w);
      } else {
        Stop(GrantGates(settings, s, connector, owner, w), 0);
      }
    }
  }

  /**
   Every call of `ensure_access` ends at the first closed gate, or is granted. It records exactly
   one row, the refusal or GRANTED, unless the gate is a token that does not parse, and then none.
   The identity provider is contacted only once every local gate is open, and the authorization
   server only once the gates on the assertion grant are open too.
   */
  lemma AcquisitionFollowsTheGates(
    settings: Settings, s: Store, connector: Connector, principalId: string, workspaceId: string, w: World
  )
    ensures var owner := Owner(connector.connectorId, principalId, workspaceId);
            var access := EnsuredAccess(settings, s, connector, principalId, workspaceId, w);
            var told := Outcome(settings, s, connector, owner, w);
            && access.store.rows == s.rows + told.rows
            && access.store.contacts == s.contacts + told.contacts
            && (access.connection.Some? <==> told.granted)
  {
    var owner := Owner(connector.connectorId, principalId, workspaceId);
    if NotRevoked(s, owner) {
      AcquiredFollowsTheGates(settings, s, connector, owner, w);
    } else {
      var gates := AssertionGates(settings, s, connector, owner, w.now);
      Stop(gates, 0);
      Append(gates, Gate(w.exchange != ExchangeDisabled, Some(RefusedDisabled)));
    }
  }

  // ---------------------------------------------------------------- what that means for the store

  ghost predicate AllOpen(gates: seq<Gate>) {
    forall i :: 0 <= i < |gates| ==> gates[i].open
  }

  /** The retained assertion is read once the gates before its content are open, and does not parse. */
  ghost predicate AssertionUnreadable(settings: Settings, s: Store, connector: Connector, owner: Owner, w: World) {
    && AllOpen(AssertionGates(settings, s, connector, owner, w.now)[..7])
    && Retained(s, owner).material == Some(Unreadable)
  }

  /** The assertion grant is read once every local gate is open and it was issued, and does not parse. */
  ghost predicate GrantUnreadable(settings: Settings, s: Store, connector: Connector, owner: Owner, w: World) {
    AllOpen(LocalGates(settings, s, connector, owner, w)) && w.exchange == Issued(Unreadable)
  }

  ghost predicate TokenUnreadable(settings: Settings, s: Store, connector: Connector, owner: Owner, w: World) {
    AssertionUnreadable(settings, s, connector, owner, w) || GrantUnreadable(settings, s, connector, owner, w)
  }

  /** Of gates that all but one name their refusal, the way ends without one exactly at that one. */
  lemma {:induction false} RaisesAt(gates: seq<Gate>, p: nat)
    requires p < |gates| && gates[p].refusal.None?
    requires forall i :: 0 <= i < |gates| && i != p ==> gates[i].refusal.Some?
    ensures FirstClosed(gates) == Closed(None) <==> !gates[p].open && AllOpen(gates[..p])
  {
    if p == 0 {
      if gates[0].open && FirstClosed(gates) == Closed(None) { ClosesWithARow(gates[1..]); }
    } else {
      assert gates[1..][p - 1] == gates[p] && gates[1..][..p - 1] == gates[1..p];
      RaisesAt(gates[1..], p - 1);
      if AllOpen(gates[..p]) {
        assert gates[..p][0].open;
        assert forall i :: 0 <= i < p - 1 ==> gates[1..p][i] == gates[..p][i + 1];
      }
      if gates[0].open && AllOpen(gates[1..p]) {
        assert forall i :: 1 <= i < p ==> gates[..p][i] == gates[1..p][i - 1];
      }
    }
  }

  lemma {:induction false} ClosesWithARow(gates: seq<Gate>)
    requires forall i :: 0 <= i < |gates| ==> gates[i].refusal.Some?
    ensures FirstClosed(gates) != Closed(None)
  {
    if gates != [] { ClosesWithARow(gates[1..]); }
  }

  lemma LocalRaises(settings: Settings, s: Store, connector: Connector, owner: Owner, w: World)
    ensures FirstClosed(LocalGates(settings, s, connector, owner, w)) == Closed(None) <==>
              AssertionUnreadable(settings, s, connector, owner, w)
  {
    var gates := LocalGates(settings, s, connector, owner, w);
    RaisesAt(gates, 7);
    assert gates[..7] == AssertionGates(settings, s, connector, owner, w.now)[..7];
    var assertion := Retained(s, owner);
    if AllOpen(gates[..7]) { assert gates[..7][6].open; }
  }

  lemma GrantRaises(settings: Settings, s: Store, connector: Connector, owner: Owner, w: World)
    ensures FirstClosed(GrantGates(settings, s, connector, owner, w)) == Closed(None) <==>
              w.exchange == Issued(Unreadable)
  {
    var gates := GrantGates(settings, s, connector, owner, w);
    RaisesAt(gates, 1);
    if AllOpen(gates[..1]) { assert gates[..1][0].open; }
  }

  /**
   Every call adds exactly one row, for its owner, and GRANTED exactly when it grants access, unless
   a token it has to look at does not parse, and then none. A new contact with the identity provider
   means that every local gate was open, and with the authorization server that every gate was.
   */
  lemma RowsAndContacts(
    settings: Settings, s: Store, connector: Connector, principalId: string, workspaceId: string, w: World
  )
    ensures var owner := Owner(connector.connectorId, principalId, workspaceId);
            var access := EnsuredAccess(settings, s, connector, principalId, workspaceId, w);
            var rows := access.store.rows;
            if TokenUnreadable(settings, s, connector, owner, w)
            then rows == s.rows && access.connection.None?
            else && |rows| == |s.rows| + 1 && s.rows <= rows && rows[|s.rows|].owner == owner
                 && (rows[|s.rows|].outcome == Granted <==> access.connection.Some?)
    ensures var owner := Owner(connector.connectorId, principalId, workspaceId);
            var contacts := EnsuredAccess(settings, s, connector, principalId, workspaceId, w).store.contacts;
            && s.contacts <= contacts
            && forall i :: |s.contacts| <= i < |contacts| ==>
                 && AllOpen(LocalGates(settings, s, connector, owner, w))
                 && (contacts[i].Present? ==> AllOpen(GrantGates(settings, s, connector, owner, w)))
  {
    var owner := Owner(connector.connectorId, principalId, workspaceId);
    AcquisitionFollowsTheGates(settings, s, connector, principalId, workspaceId, w);
    RowsTold(settings, s, connector, owner, w);
    ContactsTold(settings, s, connector, owner, w);
  }

  lemma RowsTold(settings: Settings, s: Store, connector: Connector, owner: Owner, w: World)
    ensures var told := Outcome(settings, s, connector, owner, w);
            if TokenUnreadable(settings, s, connector, owner, w)
            then told.rows == [] && !told.granted
            else && |told.rows| == 1 && told.rows[0].owner == owner
                 && (told.rows[0].outcome == Granted <==> told.granted)
  {
    LocalRaises(settings, s, connector, owner, w);
    GrantRaises(settings, s, connector, owner, w);
    NeverRefusedAsGranted(settings, s, connector, owner, w);
  }

  lemma ContactsTold(settings: Settings, s: Store, connector: Connector, owner: Owner, w: World)
    ensures var contacts := Outcome(settings, s, connector, owner, w).contacts;
            forall i :: 0 <= i < |contacts| ==>
                          && AllOpen(LocalGates(settings, s, connector, owner, w))
                          && (contacts[i].Present? ==> AllOpen(GrantGates(settings, s, connector, owner, w)))
  {
    var local, grant := LocalGates(settings, s, connector, owner, w), GrantGates(settings, s, connector, owner, w);
    assert FirstClosed(local) == Clear <==> AllOpen(local);
    assert FirstClosed(grant) == Clear <==> AllOpen(grant);
  }

  /** No gate names GRANTED as its refusal. */
  lemma {:induction false} RefusalIsNotGranted(gates: seq<Gate>)
    requires forall i :: 0 <= i < |gates| ==> gates[i].refusal != Some(Granted)
    ensures FirstClosed(gates) != Closed(Some(Granted))
  {
    if gates != [] { RefusalIsNotGranted(gates[1..]); }
  }

  lemma NeverRefusedAsGranted(settings: Settings, s: Store, connector: Connector, owner: Owner, w: World)
    ensures FirstClosed(LocalGates(settings, s, connector, owner, w)) != Closed(Some(Granted))
    ensures FirstClosed(GrantGates(settings, s, connector, owner, w)) != Closed(Some(Granted))
  {
    RefusalIsNotGranted(LocalGates(settings, s, connector, owner, w));
    RefusalIsNotGranted(GrantGates(settings, s, connector, owner, w));
  }
}
