/**
 Enterprise-managed credentials (src/accretion/enterprise_auth.py, token_broker.py and
 connections.py): acquiring access from a retained identity assertion by token exchange and a
 JWT bearer grant (section 2.1 of RFC 8693, section 2.1 of RFC 7523), renewing it, revoking it.
 Identifiers are positions: a new connection or handle takes the next one, and every seal mints a
 new secret key.
 */
module Enterprise {
  import opened Sequences

  // ---------------------------------------------------------------- records

  datatype Owner = Owner(connectorId: string, principalId: string, workspaceId: string)

  datatype ConnectionStatus =
    ConnectionPending | ConnectionActive | ConnectionDegraded | ConnectionReauthRequired | ConnectionRevoked
  datatype Connection = Connection(
    owner: Owner, userScope: bool, status: ConnectionStatus, handle: Option<nat>, scopes: seq<string>
  )

  datatype TokenStatus = TokenActive | TokenExpired | TokenRevoked | TokenError
  datatype Handle = Handle(
    owner: Owner, issuer: string, scopes: seq<string>, audience: seq<string>, expiresAt: Option<int>,
    secretKey: nat, status: TokenStatus, refreshed: bool
  )

  /** A token endpoint's answer; an empty refresh token is none. */
  datatype Response = Response(
    accessToken: string, refreshToken: string, scopes: seq<string>, expiresAt: Option<int>
  )

  /** A sealed response, openable only under the handle it was sealed for. */
  datatype Secret = Secret(handle: nat, response: Response)

  datatype Claims = Claims(issuer: Option<string>, audiences: set<string>, expiresAt: Option<int>)
  datatype Token = Readable(claims: Claims) | Unreadable

  /** `material` is None when the sealed token is gone or cannot be opened. */
  datatype Assertion = Assertion(issuer: string, expiresAt: int, material: Option<Token>)

  datatype Connector = Connector(
    connectorId: string, managed: bool, authorizationServer: string, resourceServer: string
  )

  datatype GrantOutcome =
    Granted | Refreshed | RefusedDisabled | RefusedAudience | RefusedConfiguration | RefusedMissing |
    RefusedExpired | RefusedIssuer | RefusedUpstream | RefusedRevoked

  datatype GrantRow = GrantRow(owner: Owner, outcome: GrantOutcome)

  datatype Contact = Exchange(subject: Token, audience: string) | Present(connectorId: string, grant: Token)

  datatype Settings = Settings(
    enabled: bool, audiences: map<string, string>, oidcIssuer: string, clientId: string, clients: set<string>
  )

  /** What the clock and the remote parties answer during one call; a client without an endpoint asks nobody. */
  datatype ExchangeAnswer = ExchangeDisabled | ExchangeRefused | Issued(grant: Token)
  datatype GrantAnswer = GrantRefused | Answered(response: Response)
  datatype World = World(now: int, exchange: ExchangeAnswer, grant: GrantAnswer, refresh: GrantAnswer)

  datatype Store = Store(
    connections: seq<Connection>,
    handles: seq<Handle>,
    secrets: map<nat, Secret>,
    nextSecret: nat,
    assertions: map<string, Assertion>,
    rows: seq<GrantRow>,
    contacts: seq<Contact>
  )

  const EMPTY := Store([], [], map[], 0, map[], [], [])

  // ---------------------------------------------------------------- local checks

  datatype Verdict = Pass | Refuse(outcome: GrantOutcome) | CannotParse

  /** The checks both tokens share: issuer, then audience, then expiry. */
  function CheckClaims(token: Token, issuer: string, audience: Option<string>, now: int): (v: Verdict)
    ensures v == CannotParse <==> token == Unreadable
    ensures v == Pass <==>
              && token.Readable? && token.claims.issuer == Some(issuer)
              && (audience.Some? ==> audience.value in token.claims.audiences)
              && token.claims.expiresAt.Some? && token.claims.expiresAt.value > now
  {
    if token.Unreadable? then CannotParse
    else if token.claims.issuer != Some(issuer) then Refuse(RefusedIssuer)
    else if audience.Some? && audience.value !in token.claims.audiences then Refuse(RefusedAudience)
    else if token.claims.expiresAt.None? then Refuse(RefusedExpired)
    else if token.claims.expiresAt.value <= now then Refuse(RefusedExpired)
    else Pass
  }

  function ValidateAssertion(settings: Settings, token: Token, retainedIssuer: string, now: int): Verdict {
    CheckClaims(token, if settings.oidcIssuer != "" then settings.oidcIssuer else retainedIssuer,
                if settings.clientId != "" then Some(settings.clientId) else None, now)
  }

  function ValidateGrant(token: Token, issuer: string, audience: string, now: int): Verdict {
    CheckClaims(token, issuer, Some(audience), now)
  }

  /** `token_endpoint_for` strips trailing slashes; nothing may be left of the server's name. */
  predicate NamesServer(connector: Connector) {
    exists i :: 0 <= i < |connector.authorizationServer| && connector.authorizationServer[i] != '/'
  }

  function AudienceFor(settings: Settings, connectorId: string): string {
    if connectorId in settings.audiences then settings.audiences[connectorId] else ""
  }

  // ---------------------------------------------------------------- token broker, on values

  function Sealed(s: Store, h: nat, response: Response): Store {
    s.(secrets := s.secrets[s.nextSecret := Secret(h, response)], nextSecret := s.nextSecret + 1)
  }

  function Authorized(s: Store, connector: Connector, owner: Owner, response: Response): Store {
    var handle := Handle(
      owner, if connector.authorizationServer != "" then connector.authorizationServer else connector.connectorId,
      response.scopes, if connector.resourceServer != "" then [connector.resourceServer] else [],
      response.expiresAt, s.nextSecret, TokenActive, false);
    Sealed(s, |s.handles|, response).(handles := s.handles + [handle])
  }

  function Marked(s: Store, h: nat, status: TokenStatus): Store
    requires h < |s.handles|
  {
    s.(handles := s.handles[h := s.handles[h].(status := status)])
  }

  /** The superseded secret stays in the store. */
  function Resealed(s: Store, h: nat, response: Response): Store
    requires h < |s.handles|
  {
    var scopes := if response.scopes == [] then s.handles[h].scopes else response.scopes;
    var handle := s.handles[h].(
      secretKey := s.nextSecret, scopes := scopes, expiresAt := response.expiresAt,
      status := TokenActive, refreshed := true);
    Sealed(s, h, response.(scopes := scopes)).(handles := s.handles[h := handle])
  }

  function RevokedHandle(s: Store, h: nat): Store
    requires h < |s.handles|
  {
    Marked(s.(secrets := s.secrets - {s.handles[h].secretKey}), h, TokenRevoked)
  }

  function Open(s: Store, h: nat): Option<Response>
    requires h < |s.handles|
  {
    var key := s.handles[h].secretKey;
    if key in s.secrets && s.secrets[key].handle == h then Some(s.secrets[key].response) else None
  }

  // ---------------------------------------------------------------- acquisition, on values

  function Noted(s: Store, owner: Owner, outcome: GrantOutcome): Store {
    s.(rows := s.rows + [GrantRow(owner, outcome)])
  }

  predicate Own(c: Connection, owner: Owner) {
    c.owner == owner && c.userScope
  }

  /** The first of the principal's own connections for the connector. */
  function FindOwn(connections: seq<Connection>, owner: Owner): (r: Option<nat>)
    ensures r.None? <==> forall i :: 0 <= i < |connections| ==> !Own(connections[i], owner)
    ensures r.Some? ==> r.value < |connections| && Own(connections[r.value], owner)
    ensures r.Some? ==> forall i :: 0 <= i < r.value ==> !Own(connections[i], owner)
  {
    if connections == [] then None
    else
      var n := |connections| - 1;
      match FindOwn(connections[..n], owner)
      case Some(i) => Some(i)
      case None => if Own(connections[n], owner) then Some(n) else None
  }

  /** The checks before anything travels, in order: what the id token must survive. */
  function Admit(settings: Settings, s: Store, connector: Connector, owner: Owner, now: int): Verdict {
    if !settings.enabled then Refuse(RefusedDisabled)
    else if AudienceFor(settings, connector.connectorId) == "" then Refuse(RefusedAudience)
    else if !NamesServer(connector) then Refuse(RefusedConfiguration)
    else if owner.principalId !in s.assertions then Refuse(RefusedMissing)
    else
      var assertion := s.assertions[owner.principalId];
      if assertion.expiresAt <= now then Refuse(RefusedExpired)
      else if assertion.material.None? then Refuse(RefusedMissing)
      else ValidateAssertion(settings, assertion.material.value, assertion.issuer, now)
  }

  /** An expired assertion is marked, and no longer counts as retained. */
  function Lapsed(s: Store, principalId: string, now: int): Store {
    if principalId in s.assertions && s.assertions[principalId].expiresAt <= now
    then s.(assertions := s.assertions - {principalId}) else s
  }

  predicate Configured(settings: Settings, connector: Connector) {
    settings.enabled && AudienceFor(settings, connector.connectorId) != "" && NamesServer(connector)
  }

  datatype Acquisition = Acquisition(store: Store, response: Option<Response>)

  function Redeemed(
    s: Store, connector: Connector, owner: Owner, issuer: string, audience: string, w: World, renewal: bool
  ): Acquisition
    requires w.exchange.Issued?
  {
    match ValidateGrant(w.exchange.grant, issuer, audience, w.now)
    case CannotParse => Acquisition(s, None)
    case Refuse(outcome) => Acquisition(Noted(s, owner, outcome), None)
    case Pass =>
      var s1 := s.(contacts := s.contacts + [Present(connector.connectorId, w.exchange.grant)]);
      match w.grant
      case GrantRefused => Acquisition(Noted(s1, owner, RefusedUpstream), None)
      case Answered(response) => Acquisition(if renewal then Noted(s1, owner, Refreshed) else s1, Some(response))
  }

  function Acquired(
    settings: Settings, s: Store, connector: Connector, owner: Owner, w: World, renewal: bool
  ): Acquisition {
    var audience := AudienceFor(settings, connector.connectorId);
    match Admit(settings, s, connector, owner, w.now)
    case CannotParse => Acquisition(s, None)
    case Refuse(outcome) =>
      var lapsed := if Configured(settings, connector) then Lapsed(s, owner.principalId, w.now) else s;
      Acquisition(Noted(lapsed, owner, outcome), None)
    case Pass =>
      var assertion := s.assertions[owner.principalId];
      var s1 := s.(contacts := s.contacts + [Exchange(assertion.material.value, audience)]);
      match w.exchange
      case ExchangeDisabled => Acquisition(Noted(s, owner, RefusedDisabled), None)
      case ExchangeRefused => Acquisition(Noted(s1, owner, RefusedUpstream), None)
      case Issued(_) => Redeemed(s1, connector, owner, assertion.issuer, audience, w, renewal)
  }

  datatype Access = Access(store: Store, connection: Option<nat>)

  /** Storing a granted response: new handle, the superseded one revoked, the connection repointed. */
  function Installed(s: Store, connector: Connector, owner: Owner, own: Option<nat>, response: Response): Access
    requires own.Some? ==> own.value < |s.connections|
  {
    var h := |s.handles|;
    var s1 := Authorized(s, connector, owner, response);
    var connection := if own.Some? then s.connections[own.value]
                      else Connection(owner, true, ConnectionPending, None, []);
    var s2 := if connection.handle.Some? && connection.handle.value < h
              then RevokedHandle(s1, connection.handle.value) else s1;
    var active := connection.(handle := Some(h), scopes := response.scopes, status := ConnectionActive);
    var s3 := if own.Some? then s2.(connections := s2.connections[own.value := active])
              else s2.(connections := s2.connections + [active]);
    Access(Noted(s3, owner, Granted), Some(if own.Some? then own.value else |s.connections|))
  }

  function EnsuredAccess(
    settings: Settings, s: Store, connector: Connector, principalId: string, workspaceId: string, w: World
  ): Access {
    var owner := Owner(connector.connectorId, principalId, workspaceId);
    var own := FindOwn(s.connections, owner);
    if own.Some? && s.connections[own.value].status == ConnectionRevoked then
      Access(Noted(s, owner, RefusedRevoked), None)
    else
      var a := Acquired(settings, s, connector, owner, w, false);
      AcquiredFrame(settings, s, connector, owner, w, false);
      if a.response.None? then Access(a.store, None)
      else Installed(a.store, connector, owner, own, a.response.value)
  }

  /** Acquisition itself touches assertions, rows and contacts only. */
  lemma AcquiredFrame(settings: Settings, s: Store, connector: Connector, owner: Owner, w: World, renewal: bool)
    ensures var t := Acquired(settings, s, connector, owner, w, renewal).store;
            t == s.(assertions := t.assertions, rows := t.rows, contacts := t.contacts)
  {
  }

  // ---------------------------------------------------------------- renewal and revocation, on values

  /** Why a handle may not be re-acquired, if it may not: with a row, or by raising. */
  datatype Leave = MayReacquire | Refused(outcome: Option<GrantOutcome>)

  /** The checks of `reacquire`; `connector` is the registered definition, if there is one. */
  function LeaveFor(s: Store, h: nat, connector: Option<Connector>): Leave
    requires h < |s.handles|
  {
    var own := FindOwn(s.connections, s.handles[h].owner);
    if connector.None? then Refused(None)
    else if !connector.value.managed then Refused(Some(RefusedConfiguration))
    else if own.Some? && s.connections[own.value].status == ConnectionRevoked then Refused(Some(RefusedRevoked))
    else if own.None? || s.connections[own.value].handle != Some(h) then Refused(Some(RefusedConfiguration))
    else MayReacquire
  }

  function Reacquired(settings: Settings, s: Store, h: nat, connector: Option<Connector>, w: World): Acquisition
    requires h < |s.handles|
  {
    var owner := s.handles[h].owner;
    match LeaveFor(s, h, connector)
    case Refused(None) => Acquisition(s, None)
    case Refused(Some(outcome)) => Acquisition(Noted(s, owner, outcome), None)
    case MayReacquire => Acquired(settings, s, connector.value, owner, w, true)
  }

  /** `refresh`: by refresh token where there is one, else by the registered re-acquirer. */
  function Renewed(settings: Settings, s: Store, h: nat, connector: Option<Connector>, w: World): Store
    requires h < |s.handles|
  {
    match Open(s, h)
    case None => s
    case Some(sealed) =>
      var connectorId := s.handles[h].owner.connectorId;
      if sealed.refreshToken == "" then
        if connectorId !in settings.audiences then Marked(s, h, TokenExpired)
        else
          var a := Reacquired(settings, s, h, connector, w);
          ReacquiredFrame(settings, s, h, connector, w);
          if a.response.None? then Marked(a.store, h, TokenExpired) else Resealed(a.store, h, a.response.value)
      else if connectorId !in settings.clients then s
      else
        match w.refresh
        case GrantRefused => Marked(s, h, TokenError)
        case Answered(response) => Resealed(s, h, Keeping(response, sealed.refreshToken))
  }

  /** A refresh often leaves out the refresh token; the one in hand is kept. */
  function Keeping(response: Response, refreshToken: string): Response {
    if response.refreshToken == "" then response.(refreshToken := refreshToken) else response
  }

  lemma ReacquiredFrame(settings: Settings, s: Store, h: nat, connector: Option<Connector>, w: World)
    requires h < |s.handles|
    ensures var t := Reacquired(settings, s, h, connector, w).store;
            t == s.(assertions := t.assertions, rows := t.rows, contacts := t.contacts)
  {
    if connector.Some? { AcquiredFrame(settings, s, connector.value, s.handles[h].owner, w, true); }
  }

  // ---------------------------------------------------------------- handing out access material

  const REFRESH_SKEW := 120

  predicate Stale(handle: Handle, now: int) {
    handle.expiresAt.Some? && handle.expiresAt.value - REFRESH_SKEW <= now
  }

  datatype Ask = Ask(audience: set<string>, scopes: set<string>, expectedIssuer: Option<string>)

  /** The handle is ACTIVE and can be shown to cover what is asked for. */
  predicate CoversAsk(handle: Handle, ask: Ask) {
    && handle.status == TokenActive
    && (ask.expectedIssuer.Some? ==> handle.issuer == ask.expectedIssuer.value)
    && ask.audience <= Elements(handle.audience)
    && ask.scopes <= Elements(handle.scopes)
  }

  datatype Material = Material(store: Store, response: Option<Response>)

  /** `get_access_material`: the checks come first, then the renewal of a stale handle. */
  function Handed(settings: Settings, s: Store, h: nat, ask: Ask, definition: Option<Connector>, w: World): Material
    requires h < |s.handles|
  {
    if !CoversAsk(s.handles[h], ask) then Material(s, None)
    else if !Stale(s.handles[h], w.now) then Material(s, Open(s, h))
    else
      var t := Renewed(settings, s, h, definition, w);
      RenewedFrame(settings, s, h, definition, w);
      Material(t, if t.handles[h].secretKey == s.handles[h].secretKey then None else Open(t, h))
  }

  /** A renewal keeps every handle in its place; it has succeeded when the handle's secret is a new one. */
  lemma RenewedFrame(settings: Settings, s: Store, h: nat, definition: Option<Connector>, w: World)
    requires h < |s.handles|
    ensures |Renewed(settings, s, h, definition, w).handles| == |s.handles|
  {
    ReacquiredFrame(settings, s, h, definition, w);
  }

  /** `ConnectionService.revoke`: refused, without effect, for anyone but the owner. */
  function Revoked(s: Store, c: nat, principalId: string): Store {
    if c >= |s.connections| || s.connections[c].owner.principalId != principalId then s
    else
      var connection := s.connections[c];
      var s1 := if connection.handle.Some? && connection.handle.value < |s.handles|
                then RevokedHandle(s, connection.handle.value) else s;
      s1.(connections := s1.connections[c := connection.(status := ConnectionRevoked, scopes := [])])
  }

  lemma NothingCovers(wanted: set<string>, held: seq<string>)
    requires wanted != {}
    ensures held == [] ==> !(wanted <= Elements(held))
  {
    var x :| x in wanted;
    assert held == [] ==> x !in Elements(held);
  }

  // ---------------------------------------------------------------- the services

  /** The stored tables, and the operations that update them row by row. */
  class Services {
    const settings: Settings
    var connections: seq<Connection>
    var handles: seq<Handle>
    var secrets: map<nat, Secret>
    var nextSecret: nat
    var assertions: map<string, Assertion>
    var rows: seq<GrantRow>
    var contacts: seq<Contact>

    constructor (settings: Settings)
      ensures this.settings == settings && Contents() == EMPTY
    {
      this.settings := settings;
      connections, handles, secrets, nextSecret := [], [], map[], 0;
      assertions, rows, contacts := map[], [], [];
    }

    ghost function Contents(): Store
      reads this
    {
      Store(connections, handles, secrets, nextSecret, assertions, rows, contacts)
    }

    method Record(owner: Owner, outcome: GrantOutcome)
      modifies this`rows
      ensures Contents() == Noted(old(Contents()), owner, outcome)
    {
      rows := rows + [GrantRow(owner, outcome)];
    }

    method Seal(h: nat, response: Response) returns (key: nat)
      modifies this`secrets, this`nextSecret
      ensures Contents() == Sealed(old(Contents()), h, response) && key == old(nextSecret)
    {
      key := nextSecret;
      secrets := secrets[key := Secret(h, response)];
      nextSecret := nextSecret + 1;
    }

    method StoreAuthorization(connector: Connector, owner: Owner, response: Response) returns (h: nat)
      modifies this`secrets, this`nextSecret, this`handles
      ensures Contents() == Authorized(old(Contents()), connector, owner, response) && h == |old(handles)|
    {
      h := |handles|;
      var key := Seal(h, response);
      var issuer := if connector.authorizationServer != "" then connector.authorizationServer
                    else connector.connectorId;
      var audience := if connector.resourceServer != "" then [connector.resourceServer] else [];
      var handle := Handle(owner, issuer, response.scopes, audience, response.expiresAt, key, TokenActive, false);
      handles := handles + [handle];
    }

    method Mark(h: nat, status: TokenStatus)
      requires h < |handles|
      modifies this`handles
      ensures Contents() == Marked(old(Contents()), h, status)
    {
      handles := handles[h := handles[h].(status := status)];
    }

    method Reseal(h: nat, response: Response)
      requires h < |handles|
      modifies this`secrets, this`nextSecret, this`handles
      ensures Contents() == Resealed(old(Contents()), h, response)
    {
      var scopes := if response.scopes == [] then handles[h].scopes else response.scopes;
      var key := Seal(h, response.(scopes := scopes));
      handles := handles[h := handles[h].(
        secretKey := key, scopes := scopes, expiresAt := response.expiresAt, status := TokenActive, refreshed := true)];
    }

    method RevokeHandle(h: nat)
      requires h < |handles|
      modifies this`secrets, this`handles
      ensures Contents() == RevokedHandle(old(Contents()), h)
    {
      secrets := secrets - {handles[h].secretKey};
      Mark(h, TokenRevoked);
    }

    /** The search of `_connection_for`; refusing a revoked match is left to the callers. */
    method ConnectionFor(owner: Owner) returns (own: Option<nat>)
      ensures own == FindOwn(connections, owner)
    {
      for i := 0 to |connections|
        invariant forall j :: 0 <= j < i ==> !Own(connections[j], owner)
      {
        if Own(connections[i], owner) {
          return Some(i);
        }
      }
      return None;
    }

    method Acquire(connector: Connector, owner: Owner, w: World, renewal: bool) returns (response: Option<Response>)
      modifies this`assertions, this`rows, this`contacts
      ensures Acquisition(Contents(), response) == Acquired(settings, old(Contents()), connector, owner, w, renewal)
    {
      if !settings.enabled {
        Record(owner, RefusedDisabled);
        return None;
      }
      var audience := AudienceFor(settings, connector.connectorId);
      if audience == "" {
        Record(owner, RefusedAudience);
        return None;
      }
      if !NamesServer(connector) {
        Record(owner, RefusedConfiguration);
        return None;
      }
      if owner.principalId !in assertions {
        Record(owner, RefusedMissing);
        return None;
      }
      var assertion := assertions[owner.principalId];
      if assertion.expiresAt <= w.now {
        assertions := assertions - {owner.principalId};
        Record(owner, RefusedExpired);
        return None;
      }
      if assertion.material.None? {
        Record(owner, RefusedMissing);
        return None;
      }
      var verdict := ValidateAssertion(settings, assertion.material.value, assertion.issuer, w.now);
      if verdict.CannotParse? {
        return None;
      }
      if verdict.Refuse? {
        Record(owner, verdict.outcome);
        return None;
      }
      if w.exchange.ExchangeDisabled? {
        Record(owner, RefusedDisabled);
        return None;
      }
      contacts := contacts + [Exchange(assertion.material.value, audience)];
      if w.exchange.ExchangeRefused? {
        Record(owner, RefusedUpstream);
        return None;
      }
      response := Redeem(connector, owner, assertion.issuer, audience, w, renewal);
    }

    /** The second half of `_acquire`: check the assertion grant, then present it. */
    method Redeem(connector: Connector, owner: Owner, issuer: string, audience: string, w: World, renewal: bool)
      returns (response: Option<Response>)
      requires w.exchange.Issued?
      modifies this`rows, this`contacts
      ensures Acquisition(Contents(), response) ==
                Redeemed(old(Contents()), connector, owner, issuer, audience, w, renewal)
    {
      var grant := w.exchange.grant;
      var verdict := ValidateGrant(grant, issuer, audience, w.now);
      if verdict.CannotParse? {
        return None;
      }
      if verdict.Refuse? {
        Record(owner, verdict.outcome);
        return None;
      }
      contacts := contacts + [Present(connector.connectorId, grant)];
      if w.grant.GrantRefused? {
        Record(owner, RefusedUpstream);
        return None;
      }
      if renewal {
        Record(owner, Refreshed);
      }
      return Some(w.grant.response);
    }

    method EnsureAccess(connector: Connector, principalId: string, workspaceId: string, w: World)
      returns (c: Option<nat>)
      modifies this
      ensures Access(Contents(), c) == EnsuredAccess(settings, old(Contents()), connector, principalId, workspaceId, w)
    {
      var owner := Owner(connector.connectorId, principalId, workspaceId);
      var own := ConnectionFor(owner);
      if own.Some? && connections[own.value].status == ConnectionRevoked {
        Record(owner, RefusedRevoked);
        return None;
      }
      var response := Acquire(connector, owner, w, false);
      if response.None? {
        return None;
      }
      c := Install(connector, owner, own, response.value);
    }

    method Install(connector: Connector, owner: Owner, own: Option<nat>, response: Response) returns (c: Option<nat>)
      requires own.Some? ==> own.value < |connections|
      modifies this
      ensures Access(Contents(), c) == Installed(old(Contents()), connector, owner, own, response)
    {
      var connection := Connection(owner, true, ConnectionPending, None, []);
      if own.Some? {
        connection := connections[own.value];
      }
      var superseded := connection.handle;
      var h := StoreAuthorization(connector, owner, response);
      if superseded.Some? && superseded.value < h {
        RevokeHandle(superseded.value);
      }
      var active := connection.(handle := Some(h), scopes := response.scopes, status := ConnectionActive);
      if own.Some? {
        connections := connections[own.value := active];
        c := own;
      } else {
        c := Some(|connections|);
        connections := connections + [active];
      }
      Record(owner, Granted);
    }

    method Reacquire(h: nat, connector: Option<Connector>, w: World) returns (response: Option<Response>)
      requires h < |handles|
      modifies this`assertions, this`rows, this`contacts
      ensures Acquisition(Contents(), response) == Reacquired(settings, old(Contents()), h, connector, w)
    {
      var owner := handles[h].owner;
      if connector.None? {
        return None;
      }
      if !connector.value.managed {
        Record(owner, RefusedConfiguration);
        return None;
      }
      var own := ConnectionFor(owner);
      if own.Some? && connections[own.value].status == ConnectionRevoked {
        Record(owner, RefusedRevoked);
        return None;
      }
      if own.None? || connections[own.value].handle != Some(h) {
        Record(owner, RefusedConfiguration);
        return None;
      }
      response := Acquire(connector.value, owner, w, true);
    }

    method Refresh(h: nat, connector: Option<Connector>, w: World)
      requires h < |handles|
      modifies this
      ensures Contents() == Renewed(settings, old(Contents()), h, connector, w)
    {
      var key := handles[h].secretKey;
      if key !in secrets || secrets[key].handle != h {
        return;
      }
      var connectorId := handles[h].owner.connectorId;
      var refreshToken := secrets[key].response.refreshToken;
      if refreshToken != "" {
        if connectorId in settings.clients {
          match w.refresh
          case GrantRefused => Mark(h, TokenError);
          case Answered(response) => Reseal(h, Keeping(response, refreshToken));
        }
      } else if connectorId !in settings.audiences {
        Mark(h, TokenExpired);
      } else {
        var response := Reacquire(h, connector, w);
        if response.None? {
          Mark(h, TokenExpired);
        } else {
          Reseal(h, response.value);
        }
      }
    }

    method GetAccessMaterial(h: nat, ask: Ask, definition: Option<Connector>, w: World)
      returns (response: Option<Response>)
      requires h < |handles|
      modifies this
      ensures Material(Contents(), response) == Handed(settings, old(Contents()), h, ask, definition, w)
    {
      var handle := handles[h];
      if handle.status != TokenActive {
        return None;
      }
      if ask.expectedIssuer.Some? && handle.issuer != ask.expectedIssuer.value {
        return None;
      }
      if ask.audience != {} && (handle.audience == [] || !(ask.audience <= Elements(handle.audience))) {
        NothingCovers(ask.audience, handle.audience);
        return None;
      }
      if ask.scopes != {} && !(ask.scopes <= Elements(handle.scopes)) {
        return None;
      }
      if Stale(handle, w.now) {
        Refresh(h, definition, w);
        RenewedFrame(settings, old(Contents()), h, definition, w);
        if handles[h].secretKey == handle.secretKey {
          return None;
        }
      }
      var key := handles[h].secretKey;
      if key !in secrets || secrets[key].handle != h {
        return None;
      }
      return Some(secrets[key].response);
    }

    method Revoke(c: nat, principalId: string)
      modifies this`connections, this`secrets, this`handles
      ensures Contents() == Revoked(old(Contents()), c, principalId)
    {
      if c >= |connections| || connections[c].owner.principalId != principalId {
        return;
      }
      var connection := connections[c];
      if connection.handle.Some? && connection.handle.value < |handles| {
        RevokeHandle(connection.handle.value);
      }
      connections := connections[c := connection.(status := ConnectionRevoked, scopes := [])];
    }
  }
}
