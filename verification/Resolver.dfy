/**
 Connection-aware capability resolution (src/accretion/resolver.py): which binding and whose
 connection serve a call. Everything here only reads.
 */
module Resolver {
  import opened Sequences
  import opened Strings

  // ---------------------------------------------------------------- records

  datatype Scope = UserScope | WorkspaceScope
  datatype Status = Pending | Active | Degraded | ReauthRequired | Revoked

  datatype Connection = Connection(
    connectionId: string, connectorId: string, workspaceId: string, principalId: Option<string>, scope: Scope,
    status: Status, shareable: bool, hasToken: bool, grantedScopes: set<string>
  )

  datatype Connector = Connector(connectorId: string, needsCredential: bool, defaultScopes: set<string>)

  datatype ServerState = Ready | ServerDegraded | AuthRequired | OtherState
  datatype Server = Server(enabled: bool, state: ServerState, circuitOpen: bool)

  datatype Backend = Mcp(serverRef: string) | OtherBackend
  datatype Binding = Binding(bindingId: string, connectorId: string, backend: Backend, enabled: bool)

  datatype Outcome = Ok | NoConnectorRequired | Disabled | NoConnection | RequireReauth
  datatype Resolution = Resolution(outcome: Outcome, binding: Option<Binding>, connection: Option<Connection>)

  datatype PluginVerdict = Passes | IsDisabled | NeedsSetup

  /** What the resolver reads; `pluginGate` is the verdict of the plugin check on a binding. */
  datatype Store = Store(
    bindings: seq<Binding>, connectors: map<string, Connector>, servers: map<string, Server>,
    pluginGate: Binding -> PluginVerdict, connections: seq<Connection>
  )

  datatype Caller = Caller(principalId: Option<string>, workspaceId: Option<string>)

  predicate Usable(c: Connection) {
    c.status == Active || c.status == Degraded
  }

  // ---------------------------------------------------------------- choosing a connection

  /** `sorted(pool, key=id)[0]`. */
  function Least(pool: seq<Connection>): Connection
    requires pool != []
  {
    if |pool| == 1 then pool[0]
    else
      var best, last := Least(pool[..|pool| - 1]), pool[|pool| - 1];
      if Before(last.connectionId, best.connectionId) then last else best
  }

  function Best(connections: seq<Connection>): Connection
    requires connections != []
  {
    var usable := Filter(connections, (c: Connection) => Usable(c));
    Least(if usable != [] then usable else connections)
  }

  predicate Candidate(connector: Connector, caller: Caller, c: Connection) {
    c.connectorId == connector.connectorId && (caller.workspaceId.Some? ==> c.workspaceId == caller.workspaceId.value)
  }

  predicate OfUser(caller: Caller, c: Connection) {
    c.scope == UserScope && caller.principalId.Some? && c.principalId == caller.principalId
  }

  predicate OfWorkspace(c: Connection) {
    c.scope == WorkspaceScope && c.shareable
  }

  predicate Unowned(c: Connection) {
    c.principalId.None? && !c.hasToken
  }

  function SelectConnection(connector: Connector, caller: Caller, connections: seq<Connection>): Option<Connection> {
    var candidates := Filter(connections, (c: Connection) => Candidate(connector, caller, c));
    var own := Filter(candidates, (c: Connection) => OfUser(caller, c));
    if own != [] then Some(Best(own))
    else
      var shared := Filter(candidates, (c: Connection) => OfWorkspace(c));
      if shared != [] then Some(Best(shared))
      else if caller.principalId.None? && !connector.needsCredential then
        var unowned := Filter(candidates, (c: Connection) => Unowned(c));
        if unowned != [] then Some(Best(unowned)) else None
      else None
  }

  /** The caller's own connections come first, then shared ones, then unowned ones; no others serve. */
  function Tier(connector: Connector, caller: Caller, c: Connection): Option<nat> {
    if c.connectorId != connector.connectorId then None
    else if caller.workspaceId != None && caller.workspaceId != Some(c.workspaceId) then None
    else if c.scope == UserScope && c.principalId != None && c.principalId == caller.principalId then Some(0)
    else if c.scope == WorkspaceScope && c.shareable then Some(1)
    else if caller.principalId == None && !connector.needsCredential && c.principalId == None && !c.hasToken
    then Some(2)
    else None
  }

  predicate Works(c: Connection) {
    c.status in {Active, Degraded}
  }

  /** Within a tier, working connections before others, and then by identifier. */
  predicate Precedes(connector: Connector, caller: Caller, c: Connection, d: Connection) {
    var s, t := Tier(connector, caller, c), Tier(connector, caller, d);
    s.Some? && t.Some? &&
    (s.value < t.value ||
     (s == t && ((Works(c) && !Works(d)) ||
                 (Works(c) == Works(d) &&
                   (c.connectionId == d.connectionId || Before(c.connectionId, d.connectionId))))))
  }

  lemma {:induction false} LeastIsLeast(pool: seq<Connection>)
    requires pool != []
    ensures Least(pool) in pool
    ensures forall c :: c in pool ==> !Before(c.connectionId, Least(pool).connectionId)
  {
    if |pool| > 1 {
      var rest, last := pool[..|pool| - 1], pool[|pool| - 1];
      assert pool == rest + [last];
      LeastIsLeast(rest);
      BeforeIsTotal(last.connectionId, last.connectionId);
      var best := Least(rest);
      if Before(last.connectionId, best.connectionId) {
        forall c | c in rest ensures !Before(c.connectionId, last.connectionId) {
          if Before(c.connectionId, last.connectionId) {
            BeforeIsTransitive(c.connectionId, last.connectionId, best.connectionId);
          }
        }
      }
    } else {
      BeforeIsTotal(pool[0].connectionId, pool[0].connectionId);
      assert forall c :: c in pool ==> c == pool[0];
    }
  }

  lemma BestIsBest(connections: seq<Connection>)
    requires connections != []
    ensures var b := Best(connections);
            b in connections &&
            forall c :: c in connections ==>
                          || (Usable(b) && !Usable(c))
                          || (Usable(b) == Usable(c) &&
                            (b.connectionId == c.connectionId || Before(b.connectionId, c.connectionId)))
  {
    var usable := Filter(connections, (c: Connection) => Usable(c));
    FilterMembers(connections, (c: Connection) => Usable(c));
    var pool := if usable != [] then usable else connections;
    LeastIsLeast(pool);
    Nonempty(usable);
    var b := Best(connections);
    forall c | c in connections
      ensures || (Usable(b) && !Usable(c))
              || (Usable(b) == Usable(c) &&
                (b.connectionId == c.connectionId || Before(b.connectionId, c.connectionId)))
    {
      BeforeIsTotal(b.connectionId, c.connectionId);
    }
  }

  /** Selection is the least eligible connection in one total order, and none only when none is eligible. */
  lemma SelectsTheLeast(connector: Connector, caller: Caller, connections: seq<Connection>)
    ensures match SelectConnection(connector, caller, connections)
            case None => forall d :: d in connections ==> Tier(connector, caller, d) == None
            case Some(c) =>
              && c in connections && Tier(connector, caller, c).Some?
              && forall d :: d in connections && Tier(connector, caller, d).Some? ==> Precedes(connector, caller, c, d)
  {
    var candidates := Filter(connections, (c: Connection) => Candidate(connector, caller, c));
    FilterMembers(connections, (c: Connection) => Candidate(connector, caller, c));
    var own := Filter(candidates, (c: Connection) => OfUser(caller, c));
    var shared := Filter(candidates, (c: Connection) => OfWorkspace(c));
    var unowned := Filter(candidates, (c: Connection) => Unowned(c));
    FilterMembers(candidates, (c: Connection) => OfUser(caller, c));
    FilterMembers(candidates, (c: Connection) => OfWorkspace(c));
    FilterMembers(candidates, (c: Connection) => Unowned(c));
    if own != [] {
      BestOfTier(connector, caller, connections, own, 0);
    } else if shared != [] {
      assert forall d :: d in connections ==> d !in own;
      BestOfTier(connector, caller, connections, shared, 1);
    } else if caller.principalId.None? && !connector.needsCredential && unowned != [] {
      assert forall d :: d in connections ==> d !in own && d !in shared;
      BestOfTier(connector, caller, connections, unowned, 2);
    }
  }

  lemma BestOfTier(connector: Connector, caller: Caller, connections: seq<Connection>, some: seq<Connection>, t: nat)
    requires some != [] && forall c :: c in some ==> c in connections && Tier(connector, caller, c) == Some(t)
    requires forall c :: c in connections && Tier(connector, caller, c).Some? ==>
                           c in some || Tier(connector, caller, c).value > t
    ensures var c := Best(some);
            && c in connections && Tier(connector, caller, c).Some?
            && forall d :: d in connections && Tier(connector, caller, d).Some? ==> Precedes(connector, caller, c, d)
  {
    BestIsBest(some);
    var c := Best(some);
    forall d | d in connections && Tier(connector, caller, d).Some? ensures Precedes(connector, caller, c, d) {
    }
  }

  // ---------------------------------------------------------------- resolving

  function ServerFor(store: Store, backend: Backend): Option<Server> {
    if backend.Mcp? && backend.serverRef != "" && backend.serverRef in store.servers
    then Some(store.servers[backend.serverRef]) else None
  }

  predicate ServerReady(server: Option<Server>) {
    && server.Some? && server.value.enabled && !server.value.circuitOpen
    && (server.value.state == Ready || server.value.state == ServerDegraded)
  }

  function ResolveBinding(store: Store, binding: Binding, caller: Caller): Resolution {
    var server := ServerFor(store, binding.backend);
    var verdict := store.pluginGate(binding);
    if verdict != Passes then Resolution(if verdict == NeedsSetup then NoConnection else Disabled, Some(binding), None)
    else if binding.backend.Mcp? && !ServerReady(server) then
      var waits := server.Some? && server.value.state == AuthRequired;
      Resolution(if waits then RequireReauth else Disabled, Some(binding), None)
    else if binding.connectorId !in store.connectors then Resolution(NoConnection, Some(binding), None)
    else
      var connector := store.connectors[binding.connectorId];
      match SelectConnection(connector, caller, store.connections)
      case None => Resolution(NoConnection, Some(binding), None)
      case Some(c) =>
        if !Usable(c) then Resolution(RequireReauth, Some(binding), Some(c))
        else if connector.defaultScopes - c.grantedScopes != {} then Resolution(RequireReauth, Some(binding), Some(c))
        else Resolution(Ok, Some(binding), Some(c))
  }

  function FirstOk(store: Store, bindings: seq<Binding>, caller: Caller): Option<Resolution> {
    if bindings == [] then None
    else if ResolveBinding(store, bindings[0], caller).outcome == Ok then
      Some(ResolveBinding(store, bindings[0], caller))
    else FirstOk(store, bindings[1..], caller)
  }

  function Enabled(store: Store): seq<Binding> {
    Filter(store.bindings, (b: Binding) => b.enabled)
  }

  function ResolveCapability(store: Store, enabled: bool, caller: Caller): Resolution {
    var bindings := Enabled(store);
    if !enabled then Resolution(Disabled, None, None)
    else if store.bindings == [] then Resolution(NoConnectorRequired, None, None)
    else if bindings == [] then Resolution(Disabled, None, None)
    else
      match FirstOk(store, bindings, caller)
      case Some(resolution) => resolution
      case None => ResolveBinding(store, bindings[0], caller)
  }

  // ---------------------------------------------------------------- which binding answers

  lemma {:induction false} FirstOkExactly(store: Store, bindings: seq<Binding>, caller: Caller)
    ensures FirstOk(store, bindings, caller).None? <==>
              forall i :: 0 <= i < |bindings| ==> ResolveBinding(store, bindings[i], caller).outcome != Ok
    ensures FirstOk(store, bindings, caller).Some? ==>
              exists i :: 0 <= i < |bindings| && IsFirstOk(store, bindings, caller, i) &&
                          FirstOk(store, bindings, caller).value == ResolveBinding(store, bindings[i], caller)
  {
    if bindings != [] {
      if ResolveBinding(store, bindings[0], caller).outcome == Ok {
        assert IsFirstOk(store, bindings, caller, 0);
      } else {
        var rest := bindings[1..];
        FirstOkExactly(store, rest, caller);
        assert forall i :: 1 <= i < |bindings| ==> bindings[i] == rest[i - 1];
        if FirstOk(store, rest, caller).Some? {
          var i :| 0 <= i < |rest| && IsFirstOk(store, rest, caller, i) &&
                   FirstOk(store, rest, caller).value == ResolveBinding(store, rest[i], caller);
          assert IsFirstOk(store, bindings, caller, i + 1);
        } else {
          forall i | 0 <= i < |bindings| ensures ResolveBinding(store, bindings[i], caller).outcome != Ok {
            if i > 0 { assert ResolveBinding(store, rest[i - 1], caller).outcome != Ok; }
          }
        }
      }
    }
  }

  ghost predicate IsFirstOk(store: Store, bindings: seq<Binding>, caller: Caller, i: nat) {
    && i < |bindings| && ResolveBinding(store, bindings[i], caller).outcome == Ok
    && forall j :: 0 <= j < i ==> ResolveBinding(store, bindings[j], caller).outcome != Ok
  }

  lemma AnswersFromEnabled(store: Store, enabled: bool, caller: Caller)
    ensures var r := ResolveCapability(store, enabled, caller);
            r.outcome == Ok <==> enabled && FirstOk(store, Enabled(store), caller).Some?
    ensures var r := ResolveCapability(store, enabled, caller);
            r.outcome == Ok ==> FirstOk(store, Enabled(store), caller) == Some(r)
  {
    var bindings := Enabled(store);
    FirstOkExactly(store, bindings, caller);
    if bindings != [] && FirstOk(store, bindings, caller).None? {
      assert ResolveBinding(store, bindings[0], caller).outcome != Ok;
    }
    assert store.bindings == [] ==> bindings == [];
  }

  // ---------------------------------------------------------------- told on the records

  /** The server a binding calls is registered, enabled, READY or DEGRADED, and its circuit is closed. */
  predicate ServerUp(store: Store, ref: string) {
    && ref != "" && ref in store.servers && store.servers[ref].enabled
    && store.servers[ref].state in {Ready, ServerDegraded} && !store.servers[ref].circuitOpen
  }

  /** Nothing stands in the way before a connection is looked for. */
  predicate Connectable(store: Store, b: Binding) {
    && store.pluginGate(b) == Passes
    && (match b.backend case Mcp(ref) => ServerUp(store, ref) case OtherBackend => true)
    && b.connectorId in store.connectors
  }

  /** The first of the connections the caller may use, in the order of tier, status and id. */
  ghost predicate LeastEligible(connector: Connector, caller: Caller, connections: seq<Connection>, c: Connection) {
    && c in connections && Tier(connector, caller, c).Some?
    && forall d :: d in connections && Tier(connector, caller, d).Some? ==> Precedes(connector, caller, c, d)
  }

  ghost predicate NoneEligible(connector: Connector, caller: Caller, connections: seq<Connection>) {
    forall d :: d in connections ==> Tier(connector, caller, d) == None
  }

  /** The connection serves the binding: it is the caller's least, it works, and it grants every default scope. */
  ghost predicate Serves(store: Store, b: Binding, caller: Caller, c: Connection) {
    && Connectable(store, b)
    && var connector := store.connectors[b.connectorId];
       && LeastEligible(connector, caller, store.connections, c)
       && (c.status == Active || c.status == Degraded)
       && forall scope :: scope in connector.defaultScopes ==> scope in c.grantedScopes
  }

  ghost predicate Served(store: Store, b: Binding, caller: Caller) {
    exists c :: Serves(store, b, caller, c)
  }

  lemma SelectedIsLeast(connector: Connector, caller: Caller, connections: seq<Connection>, c: Connection)
    requires UniqueIds(connections)
    ensures SelectConnection(connector, caller, connections) == Some(c) <==>
              LeastEligible(connector, caller, connections, c)
  {
    SelectsTheLeast(connector, caller, connections);
    var x := SelectConnection(connector, caller, connections);
    if LeastEligible(connector, caller, connections, c) && x.Some? {
      assert Precedes(connector, caller, x.value, c) && Precedes(connector, caller, c, x.value);
      BeforeIsTotal(x.value.connectionId, c.connectionId);
    }
  }

  /** A binding resolves exactly when some connection serves it, and to that connection. */
  lemma BindingServes(store: Store, b: Binding, caller: Caller, c: Connection)
    requires UniqueIds(store.connections)
    ensures ResolveBinding(store, b, caller) == Resolution(Ok, Some(b), Some(c)) <==> Serves(store, b, caller, c)
  {
    if b.connectorId in store.connectors {
      var connector := store.connectors[b.connectorId];
      SelectedIsLeast(connector, caller, store.connections, c);
      assert connector.defaultScopes - c.grantedScopes == {} <==>
             forall scope :: scope in connector.defaultScopes ==> scope in c.grantedScopes by {
        assert forall scope :: scope in connector.defaultScopes && scope !in c.grantedScopes ==>
                                 scope in connector.defaultScopes - c.grantedScopes;
      }
    }
  }

  lemma BindingServed(store: Store, b: Binding, caller: Caller)
    requires UniqueIds(store.connections)
    ensures ResolveBinding(store, b, caller).outcome == Ok <==> Served(store, b, caller)
  {
    var r := ResolveBinding(store, b, caller);
    if r.outcome == Ok { BindingServes(store, b, caller, r.connection.value); }
    if c :| Serves(store, b, caller, c) { BindingServes(store, b, caller, c); }
  }

  lemma {:induction false} FirstOkAppend(store: Store, a: seq<Binding>, b: Binding, caller: Caller)
    ensures FirstOk(store, a + [b], caller) ==
            if FirstOk(store, a, caller).Some? then FirstOk(store, a, caller)
            else if ResolveBinding(store, b, caller).outcome == Ok then Some(ResolveBinding(store, b, caller)) else None
  {
    if a == [] {
      assert a + [b] == [b];
    } else {
      assert (a + [b])[1..] == a[1..] + [b];
      FirstOkAppend(store, a[1..], b, caller);
    }
  }

  predicate Resolves(store: Store, b: Binding, caller: Caller) {
    b.enabled && ResolveBinding(store, b, caller).outcome == Ok
  }

  ghost predicate FirstResolving(store: Store, bindings: seq<Binding>, caller: Caller, i: nat) {
    && i < |bindings| && Resolves(store, bindings[i], caller)
    && forall j :: 0 <= j < i ==> !Resolves(store, bindings[j], caller)
  }

  lemma EnabledStep(store: Store, bindings: seq<Binding>, caller: Caller)
    requires bindings != []
    ensures var keep, n := (b: Binding) => b.enabled, |bindings| - 1;
            var before := FirstOk(store, Filter(bindings[..n], keep), caller);
            FirstOk(store, Filter(bindings, keep), caller) ==
            if before.Some? then before
            else if Resolves(store, bindings[n], caller) then Some(ResolveBinding(store, bindings[n], caller)) else None
  {
    var keep, n := (b: Binding) => b.enabled, |bindings| - 1;
    FirstOkAppend(store, Filter(bindings[..n], keep), bindings[n], caller);
    assert Filter(bindings[..n], keep) + [] == Filter(bindings[..n], keep);
  }

  lemma {:induction false} NoneResolves(store: Store, bindings: seq<Binding>, caller: Caller)
    requires forall i :: 0 <= i < |bindings| ==> !Resolves(store, bindings[i], caller)
    ensures FirstOk(store, Filter(bindings, (b: Binding) => b.enabled), caller).None?
  {
    if bindings != [] {
      EnabledStep(store, bindings, caller);
      NoneResolves(store, bindings[..|bindings| - 1], caller);
    }
  }

  /** Leaving out disabled bindings does not change which one is the first to resolve. */
  lemma {:induction false} FirstOkFrom(store: Store, bindings: seq<Binding>, caller: Caller, i: nat)
    requires FirstResolving(store, bindings, caller, i)
    ensures FirstOk(store, Filter(bindings, (b: Binding) => b.enabled), caller) ==
            Some(ResolveBinding(store, bindings[i], caller))
  {
    EnabledStep(store, bindings, caller);
    var rest := bindings[..|bindings| - 1];
    if i < |rest| {
      assert FirstResolving(store, rest, caller, i);
      FirstOkFrom(store, rest, caller, i);
    } else {
      NoneResolves(store, rest, caller);
    }
  }

  lemma {:induction false} FindFirst(store: Store, bindings: seq<Binding>, caller: Caller, k: nat) returns (i: nat)
    requires k < |bindings| && Resolves(store, bindings[k], caller)
    ensures FirstResolving(store, bindings, caller, i)
  {
    if j :| 0 <= j < k && Resolves(store, bindings[j], caller) {
      i := FindFirst(store, bindings, caller, j);
    } else {
      i := k;
    }
  }

  /** The first enabled binding that is served, in the listed order. */
  ghost predicate FirstServed(store: Store, caller: Caller, i: nat) {
    && i < |store.bindings| && store.bindings[i].enabled && Served(store, store.bindings[i], caller)
    && forall j :: 0 <= j < i && store.bindings[j].enabled ==> !Served(store, store.bindings[j], caller)
  }

  lemma FirstServedIs(store: Store, caller: Caller, i: nat)
    requires UniqueIds(store.connections)
    ensures FirstServed(store, caller, i) <==> FirstResolving(store, store.bindings, caller, i)
  {
    forall j | 0 <= j < |store.bindings|
      ensures Resolves(store, store.bindings[j], caller) <==>
                store.bindings[j].enabled && Served(store, store.bindings[j], caller)
    {
      BindingServed(store, store.bindings[j], caller);
    }
  }

  /**
   A capability resolves if and only if it is enabled and some enabled binding is served; then by
   the first such binding, to the connection that serves it.
   */
  lemma ResolvesExactly(store: Store, enabled: bool, caller: Caller)
    requires UniqueIds(store.connections)
    ensures ResolveCapability(store, enabled, caller).outcome == Ok <==>
              enabled && exists i: nat :: FirstServed(store, caller, i)
  {
    AnswersFromEnabled(store, enabled, caller);
    if i: nat :| FirstServed(store, caller, i) {
      FirstServedIs(store, caller, i);
      FirstOkFrom(store, store.bindings, caller, i);
    } else if k :| 0 <= k < |store.bindings| && Resolves(store, store.bindings[k], caller) {
      var i := FindFirst(store, store.bindings, caller, k);
      FirstServedIs(store, caller, i);
    } else {
      NoneResolves(store, store.bindings, caller);
    }
  }

  lemma OkByTheFirst(store: Store, caller: Caller, i: nat, c: Connection)
    requires UniqueIds(store.connections) && FirstServed(store, caller, i)
    requires Serves(store, store.bindings[i], caller, c)
    ensures ResolveCapability(store, true, caller) == Resolution(Ok, Some(store.bindings[i]), Some(c))
  {
    AnswersFromEnabled(store, true, caller);
    FirstServedIs(store, caller, i);
    FirstOkFrom(store, store.bindings, caller, i);
    BindingServes(store, store.bindings[i], caller, c);
  }

  /** Why a binding that is not served is refused. */
  ghost function Refusal(store: Store, b: Binding, caller: Caller): Outcome {
    if store.pluginGate(b) == IsDisabled then Disabled
    else if store.pluginGate(b) == NeedsSetup then NoConnection
    else if b.backend.Mcp? && !ServerUp(store, b.backend.serverRef) then
      if b.backend.serverRef != "" && b.backend.serverRef in store.servers &&
         store.servers[b.backend.serverRef].state == AuthRequired
      then RequireReauth else Disabled
    else if b.connectorId !in store.connectors then NoConnection
    else if NoneEligible(store.connectors[b.connectorId], caller, store.connections) then NoConnection
    else RequireReauth
  }

  lemma UnservedIsRefused(store: Store, b: Binding, caller: Caller)
    requires UniqueIds(store.connections) && !Served(store, b, caller)
    ensures var r := ResolveBinding(store, b, caller);
            && r.outcome == Refusal(store, b, caller) && r.binding == Some(b)
            && (r.connection.Some? <==>
                  Connectable(store, b) && !NoneEligible(store.connectors[b.connectorId], caller, store.connections))
            && (r.connection.Some? ==>
                  LeastEligible(store.connectors[b.connectorId], caller, store.connections, r.connection.value))
  {
    BindingServed(store, b, caller);
    if b.connectorId in store.connectors {
      SelectsTheLeast(store.connectors[b.connectorId], caller, store.connections);
    }
  }

  /** The first enabled binding, in the listed order. */
  ghost predicate FirstEnabled(store: Store, i: nat) {
    i < |store.bindings| && store.bindings[i].enabled && forall j :: 0 <= j < i ==> !store.bindings[j].enabled
  }

  /** No enabled binding is served. */
  ghost predicate Unserved(store: Store, caller: Caller) {
    forall i :: 0 <= i < |store.bindings| && store.bindings[i].enabled ==> !Served(store, store.bindings[i], caller)
  }

  lemma NothingResolves(store: Store, caller: Caller)
    requires UniqueIds(store.connections) && Unserved(store, caller)
    ensures FirstOk(store, Enabled(store), caller).None?
  {
    forall i | 0 <= i < |store.bindings| ensures !Resolves(store, store.bindings[i], caller) {
      BindingServed(store, store.bindings[i], caller);
    }
    NoneResolves(store, store.bindings, caller);
  }

  /** When nothing serves, the first enabled binding says why. */
  lemma RefusedByTheFirst(store: Store, caller: Caller, i: nat)
    requires UniqueIds(store.connections) && Unserved(store, caller) && FirstEnabled(store, i)
    ensures var r := ResolveCapability(store, true, caller);
            r.outcome == Refusal(store, store.bindings[i], caller) && r.binding == Some(store.bindings[i])
  {
    var keep := (b: Binding) => b.enabled;
    assert Enabled(store) == Filter(store.bindings, keep);
    FilterHead(store.bindings, keep, i);
    NothingResolves(store, caller);
    UnservedIsRefused(store, store.bindings[i], caller);
  }

  /** A disabled capability is DISABLED, one without bindings needs no connector, disabled bindings disable. */
  lemma RefusedWithoutBinding(store: Store, enabled: bool, caller: Caller)
    requires !enabled || forall i :: 0 <= i < |store.bindings| ==> !store.bindings[i].enabled
    ensures ResolveCapability(store, enabled, caller) ==
            Resolution(if enabled && store.bindings == [] then NoConnectorRequired else Disabled, None, None)
  {
    var keep := (b: Binding) => b.enabled;
    assert Enabled(store) == Filter(store.bindings, keep);
    if enabled { FilterNone(store.bindings, keep); }
  }

  // ---------------------------------------------------------------- what it depends on

  ghost predicate UniqueIds(connections: seq<Connection>) {
    forall c, d :: c in connections && d in connections && c.connectionId == d.connectionId ==> c == d
  }

  /** Another principal's USER connection. */
  predicate Foreign(caller: Caller, c: Connection) {
    c.scope == UserScope && c.principalId.Some? && c.principalId != caller.principalId
  }

  /** The same connections but for other principals' USER connections, in any order. */
  ghost predicate SameForCaller(caller: Caller, a: seq<Connection>, b: seq<Connection>) {
    forall c :: !Foreign(caller, c) ==> (c in a <==> c in b)
  }

  lemma SelectionIgnoresForeigners(connector: Connector, caller: Caller, a: seq<Connection>, b: seq<Connection>)
    requires UniqueIds(a) && UniqueIds(b) && SameForCaller(caller, a, b)
    ensures SelectConnection(connector, caller, a) == SelectConnection(connector, caller, b)
  {
    SelectsTheLeast(connector, caller, a);
    SelectsTheLeast(connector, caller, b);
    var x, y := SelectConnection(connector, caller, a), SelectConnection(connector, caller, b);
    if x.Some? {
      assert x.value in b;
      assert Tier(connector, caller, x.value).Some?;
    }
    if y.Some? {
      assert y.value in a;
    }
    if x.Some? && y.Some? {
      assert Precedes(connector, caller, x.value, y.value) && Precedes(connector, caller, y.value, x.value);
      BeforeIsTotal(x.value.connectionId, y.value.connectionId);
    }
  }

  /**
   Isolation: what a caller is resolved to is unchanged by whatever other principals do with their
   own USER connections, and by the order connections are listed in.
   */
  lemma ResolutionIgnoresForeigners(store: Store, other: seq<Connection>, enabled: bool, caller: Caller)
    requires UniqueIds(store.connections) && UniqueIds(other) && SameForCaller(caller, store.connections, other)
    ensures ResolveCapability(store.(connections := other), enabled, caller) ==
              ResolveCapability(store, enabled, caller)
  {
    var t := store.(connections := other);
    forall b ensures ResolveBinding(t, b, caller) == ResolveBinding(store, b, caller) {
      if b.connectorId in store.connectors {
        SelectionIgnoresForeigners(store.connectors[b.connectorId], caller, store.connections, other);
      }
    }
    FirstOkSame(store, t, Enabled(store), caller);
  }

  lemma {:induction false} FirstOkSame(s: Store, t: Store, bindings: seq<Binding>, caller: Caller)
    requires forall b :: ResolveBinding(t, b, caller) == ResolveBinding(s, b, caller)
    ensures FirstOk(t, bindings, caller) == FirstOk(s, bindings, caller)
  {
    if bindings != [] { FirstOkSame(s, t, bindings[1..], caller); }
  }
}
