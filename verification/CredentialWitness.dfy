/**
 Runs that show the failing sides of the credential results to be reachable: revocations undone by
 calls in flight, two live handles, a renewed handle whose old secret survives its revocation, and
 a renewal that narrows the scopes of the material handed out.
 */
module CredentialWitness {
  import opened Sequences
  import opened Enterprise
  import Overlaps
  import Serial = EnterpriseRuns
  import AccessMaterial

  const OWNER := Owner("connector", "principal", "workspace")
  const CONNECTOR := Connector("connector", true, "server", "resource")
  const SETTINGS := Settings(true, map["connector" := "audience"], "", "", {"connector"})
  const ASSERTION := Assertion("issuer", 100, Some(Readable(Claims(Some("issuer"), {}, Some(100)))))
  const GRANT := Readable(Claims(Some("issuer"), {"audience"}, Some(100)))

  /** Every party answers, with this response. */
  function Answering(response: Response): World {
    World(0, Issued(GRANT), Answered(response), Answered(response))
  }

  lemma Acquires(s: Store, response: Response, renewal: bool)
    requires "principal" in s.assertions && s.assertions["principal"] == ASSERTION
    ensures Acquired(SETTINGS, s, CONNECTOR, OWNER, Answering(response), renewal).response == Some(response)
  {
    assert CONNECTOR.authorizationServer[0] == 's';
    assert NamesServer(CONNECTOR);
    assert AudienceFor(SETTINGS, "connector") == "audience";
    assert Admit(SETTINGS, s, CONNECTOR, OWNER, 0) == Pass;
  }

  // ---------------------------------------------------------------- overlapping calls

  function Opening(response: Response): seq<Overlaps.Step> {
    [Overlaps.Retain("principal", ASSERTION), Overlaps.BeginEnsure(CONNECTOR, "principal", "workspace"),
     Overlaps.Commit(0, Answering(response))]
  }

  lemma RunSnoc(s: Overlaps.System, steps: seq<Overlaps.Step>, step: Overlaps.Step)
    ensures Overlaps.Run(SETTINGS, s, steps + [step]) == Overlaps.Next(SETTINGS, Overlaps.Run(SETTINGS, s, steps), step)
  {
    assert (steps + [step])[..|steps|] == steps;
  }

  /** One connection with one live handle, and nothing in flight. */
  ghost predicate Opened(s: Overlaps.System, response: Response) {
    && |s.store.connections| == 1 && |s.store.handles| == 1 && s.flights == [Overlaps.Ended]
    && s.store.connections[0] == Connection(OWNER, true, ConnectionActive, Some(0), response.scopes)
    && s.store.handles[0].owner == OWNER && s.store.handles[0].status == TokenActive
    && s.store.handles[0].secretKey == 0 && s.store.handles[0].scopes == response.scopes
    && s.store.handles[0].expiresAt == response.expiresAt
    && s.store.nextSecret == 1 && s.store.secrets == map[0 := Secret(0, response)]
    && "principal" in s.store.assertions && s.store.assertions["principal"] == ASSERTION
  }

  lemma OpeningOpens(response: Response)
    ensures Opened(Overlaps.Run(SETTINGS, Overlaps.START, Opening(response)), response)
  {
    var steps := Opening(response);
    assert steps[..2] == [steps[0], steps[1]] && steps[..2][..1] == [steps[0]] && [steps[0]][..0] == [];
    var s1 := Overlaps.Next(SETTINGS, Overlaps.START, steps[0]);
    var s2 := Overlaps.Next(SETTINGS, s1, steps[1]);
    assert Overlaps.Run(SETTINGS, Overlaps.START, [steps[0]]) == s1;
    assert Overlaps.Run(SETTINGS, Overlaps.START, steps[..2]) == s2;
    Acquires(s2.store, response, false);
    AcquiredFrame(SETTINGS, s2.store, CONNECTOR, OWNER, Answering(response), false);
  }

  function AcquisitionDuringRevocation(response: Response): seq<Overlaps.Step> {
    Opening(response) + [Overlaps.BeginEnsure(CONNECTOR, "principal", "workspace")] +
    [Overlaps.BeginRevoke(0, "principal")] + [Overlaps.Commit(2, Answering(response))]
  }

  lemma RunThree(steps: seq<Overlaps.Step>, a: Overlaps.Step, b: Overlaps.Step, c: Overlaps.Step)
    ensures var s := Overlaps.Run(SETTINGS, Overlaps.START, steps);
            Overlaps.Run(SETTINGS, Overlaps.START, steps + [a] + [b] + [c]) ==
            Overlaps.Next(SETTINGS, Overlaps.Next(SETTINGS, Overlaps.Next(SETTINGS, s, a), b), c)
  {
    RunSnoc(Overlaps.START, steps, a);
    RunSnoc(Overlaps.START, steps + [a], b);
    RunSnoc(Overlaps.START, steps + [a] + [b], c);
  }

  lemma AcquiringAndRevoking(s: Overlaps.System, response: Response)
    requires Opened(s, response)
    ensures var t := Overlaps.Next(SETTINGS, s, Overlaps.BeginEnsure(CONNECTOR, "principal", "workspace"));
            var u := Overlaps.Next(SETTINGS, t, Overlaps.BeginRevoke(0, "principal"));
            var c, h := s.store.connections[0], s.store.handles[0];
            u == Overlaps.System(s.store, [Overlaps.Ended, Overlaps.Acquiring(CONNECTOR, OWNER, Some(0), c),
                                           Overlaps.Revoking(0, c, Some(h))])
  {
    assert FindOwn(s.store.connections, OWNER) == Some(0);
  }

  lemma AcquisitionCommitted(s: Overlaps.System, copy: Connection, response: Response)
    requires |s.store.connections| == 1 && |s.store.handles| == 1 && |s.flights| == 3 && s.store.nextSecret == 1
    requires "principal" in s.store.assertions && s.store.assertions["principal"] == ASSERTION
    requires s.flights[1] == Overlaps.Acquiring(CONNECTOR, OWNER, Some(0), copy) && copy.owner == OWNER
    requires copy.handle == Some(0) && s.store.handles[0].secretKey == 0
    ensures var t := Overlaps.Next(SETTINGS, s, Overlaps.Commit(1, Answering(response)));
            && |t.store.connections| == 1 && t.store.connections[0].status == ConnectionActive
            && Overlaps.Usable(t.store, 1) && t.store.handles[1].owner == OWNER
  {
    Acquires(s.store, response, false);
    AcquiredFrame(SETTINGS, s.store, CONNECTOR, OWNER, Answering(response), false);
  }

  /** An acquisition begun before the revocation brings the connection back and opens a new handle. */
  lemma AcquisitionRevives(response: Response)
    ensures var base := Overlaps.Run(SETTINGS, Overlaps.START, AcquisitionDuringRevocation(response));
            var t := Overlaps.Next(SETTINGS, base, Overlaps.Commit(1, Answering(response)));
            && Overlaps.Holds(base.store, 0, Overlaps.ItsOwners) && !Overlaps.Usable(base.store, 0)
            && |t.store.connections| == 1 && t.store.connections[0].status == ConnectionActive
            && Overlaps.Usable(t.store, 1) && t.store.handles[1].owner == OWNER
  {
    OpeningOpens(response);
    var s := Overlaps.Run(SETTINGS, Overlaps.START, Opening(response));
    var begin, revoke := Overlaps.BeginEnsure(CONNECTOR, "principal", "workspace"),
      Overlaps.BeginRevoke(0, "principal");
    RunThree(Opening(response), begin, revoke, Overlaps.Commit(2, Answering(response)));
    AcquiringAndRevoking(s, response);
    var u := Overlaps.Next(SETTINGS, Overlaps.Next(SETTINGS, s, begin), revoke);
    var base := Overlaps.Next(SETTINGS, u, Overlaps.Commit(2, Answering(response)));
    RevokeCommitted(u, base, response);
    AcquisitionCommitted(base, s.store.connections[0], response);
  }

  /** What the commit of the revocation leaves. */
  lemma RevokeCommitted(s: Overlaps.System, t: Overlaps.System, response: Response)
    requires Opened(Overlaps.System(s.store, [Overlaps.Ended]), response) && |s.flights| == 3
    requires s.flights[2] == Overlaps.Revoking(0, s.store.connections[0], Some(s.store.handles[0]))
    requires t == Overlaps.Next(SETTINGS, s, Overlaps.Commit(2, Answering(response)))
    ensures |t.store.connections| == 1 && |t.store.handles| == 1 && t.flights == s.flights[2 := Overlaps.Ended]
    ensures t.store.connections[0] == Connection(OWNER, true, ConnectionRevoked, Some(0), [])
    ensures t.store.handles[0] == s.store.handles[0].(status := TokenRevoked) && t.store.secrets == map[]
    ensures t.store.nextSecret == 1 && t.store.assertions == s.store.assertions
    ensures Overlaps.Holds(t.store, 0, Overlaps.ItsOwners)
  {
  }

  function RenewalDuringRevocation(response: Response): seq<Overlaps.Step> {
    Opening(response) + [Overlaps.BeginRenew(0, Some(CONNECTOR))] +
    [Overlaps.BeginRevoke(0, "principal")] + [Overlaps.Commit(2, Answering(response))]
  }

  lemma RenewingAndRevoking(s: Overlaps.System, response: Response)
    requires Opened(s, response) && response.refreshToken != ""
    ensures var t := Overlaps.Next(SETTINGS, s, Overlaps.BeginRenew(0, Some(CONNECTOR)));
            var u := Overlaps.Next(SETTINGS, t, Overlaps.BeginRevoke(0, "principal"));
            var c, h := s.store.connections[0], s.store.handles[0];
            u == Overlaps.System(s.store, [Overlaps.Ended,
                                           Overlaps.Renewing(0, h, Overlaps.ByToken(response.refreshToken)),
                                           Overlaps.Revoking(0, c, Some(h))])
  {
    assert Open(s.store, 0) == Some(response);
  }

  /** A renewal begun before the revocation reopens the revoked handle. */
  lemma RenewalReopens(response: Response)
    requires response.refreshToken != ""
    ensures var base := Overlaps.Run(SETTINGS, Overlaps.START, RenewalDuringRevocation(response));
            var t := Overlaps.Next(SETTINGS, base, Overlaps.Commit(1, Answering(response)));
            && Overlaps.Holds(base.store, 0, Overlaps.ItsOwners) && |base.store.handles| == 1
            && base.store.handles[0].status == TokenRevoked && !Overlaps.Usable(base.store, 0)
            && Overlaps.Usable(t.store, 0)
  {
    OpeningOpens(response);
    var s := Overlaps.Run(SETTINGS, Overlaps.START, Opening(response));
    var begin, revoke := Overlaps.BeginRenew(0, Some(CONNECTOR)), Overlaps.BeginRevoke(0, "principal");
    RunThree(Opening(response), begin, revoke, Overlaps.Commit(2, Answering(response)));
    RenewingAndRevoking(s, response);
    var u := Overlaps.Next(SETTINGS, Overlaps.Next(SETTINGS, s, begin), revoke);
    var base := Overlaps.Next(SETTINGS, u, Overlaps.Commit(2, Answering(response)));
    RevokeCommitted(u, base, response);
    RenewalCommitted(base, s.store.handles[0], response);
  }

  lemma RenewalCommitted(s: Overlaps.System, handle: Handle, response: Response)
    requires |s.flights| == 3 && |s.store.handles| == 1
    requires s.flights[1] == Overlaps.Renewing(0, handle, Overlaps.ByToken(response.refreshToken))
    ensures Overlaps.Usable(Overlaps.Next(SETTINGS, s, Overlaps.Commit(1, Answering(response))).store, 0)
  {
  }

  function TwoFirstAcquisitions(response: Response): seq<Overlaps.Step> {
    [Overlaps.Retain("principal", ASSERTION)] + [Overlaps.BeginEnsure(CONNECTOR, "principal", "workspace")] +
    [Overlaps.BeginEnsure(CONNECTOR, "principal", "workspace")] + [Overlaps.Commit(0, Answering(response))] +
    [Overlaps.Commit(1, Answering(response))]
  }

  /** Two first acquisitions that overlap leave their owner two connections and two live handles. */
  lemma OverlapLeavesTwoLive(response: Response)
    ensures var t := Overlaps.Run(SETTINGS, Overlaps.START, TwoFirstAcquisitions(response)).store;
            && |t.connections| == 2 && t.connections[0].owner == t.connections[1].owner == OWNER
            && |t.handles| == 2 && t.handles[0].owner == t.handles[1].owner == OWNER
            && Overlaps.Usable(t, 0) && Overlaps.Usable(t, 1)
  {
    FirstAcquisitionsDouble(response);
  }

  /** Two live connections of one owner, and nothing in flight. */
  ghost predicate Doubled(s: Overlaps.System, response: Response) {
    && Overlaps.Sound(s) && s.flights == [Overlaps.Ended, Overlaps.Ended]
    && |s.store.connections| == 2 && |s.store.handles| == 2
    && (forall c :: 0 <= c < 2 ==>
          s.store.connections[c] == Connection(OWNER, true, ConnectionActive, Some(c), response.scopes))
    && (forall h :: 0 <= h < 2 ==> s.store.handles[h].owner == OWNER && Overlaps.Usable(s.store, h))
    && "principal" in s.store.assertions && s.store.assertions["principal"] == ASSERTION
  }

  lemma FirstAcquisitionsDouble(response: Response)
    ensures Doubled(Overlaps.Run(SETTINGS, Overlaps.START, TwoFirstAcquisitions(response)), response)
  {
    var retain, begin := Overlaps.Retain("principal", ASSERTION),
      Overlaps.BeginEnsure(CONNECTOR, "principal", "workspace");
    var w := Answering(response);
    RunSnoc(Overlaps.START, [], retain);
    assert [] + [retain] == [retain];
    RunSnoc(Overlaps.START, [retain], begin);
    RunThree([retain] + [begin], begin, Overlaps.Commit(0, w), Overlaps.Commit(1, w));
    BothBegun();
    BothCommitted(Overlaps.System(EMPTY.(assertions := map["principal" := ASSERTION]), [NOVEL, NOVEL]), response);
  }

  lemma BothBegun()
    ensures var begin := Overlaps.BeginEnsure(CONNECTOR, "principal", "workspace");
            var s := Overlaps.Next(SETTINGS, Overlaps.START, Overlaps.Retain("principal", ASSERTION));
            Overlaps.Next(SETTINGS, Overlaps.Next(SETTINGS, s, begin), begin) ==
            Overlaps.System(EMPTY.(assertions := map["principal" := ASSERTION]), [NOVEL, NOVEL])
  {
  }

  lemma BothCommitted(s: Overlaps.System, response: Response)
    requires s.flights == [NOVEL, NOVEL] && s.store.connections == [] && s.store.handles == []
    requires "principal" in s.store.assertions && s.store.assertions["principal"] == ASSERTION
    ensures var w := Answering(response);
            var once := Overlaps.Next(SETTINGS, s, Overlaps.Commit(0, w));
            Doubled(Overlaps.Next(SETTINGS, once, Overlaps.Commit(1, w)), response)
  {
    FirstCommitted(s, 0, response);
    var once := Overlaps.Next(SETTINGS, s, Overlaps.Commit(0, Answering(response)));
    FirstCommitted(once, 1, response);
    AddedTwice(s, once, Overlaps.Next(SETTINGS, once, Overlaps.Commit(1, Answering(response))), response);
  }

  const NOVEL := Overlaps.Acquiring(CONNECTOR, OWNER, None, Connection(OWNER, true, ConnectionPending, None, []))

  /** A connection with a live handle has been added beside what is there. */
  ghost predicate FirstAdded(s: Overlaps.System, i: nat, response: Response, t: Overlaps.System) {
    && i < |s.flights| && t.flights == s.flights[i := Overlaps.Ended] && Overlaps.Sound(t)
    && "principal" in t.store.assertions && t.store.assertions["principal"] == ASSERTION
    && t.store.connections == s.store.connections +
         [Connection(OWNER, true, ConnectionActive, Some(|s.store.handles|), response.scopes)]
    && |t.store.handles| == |s.store.handles| + 1 && s.store.handles <= t.store.handles
    && t.store.handles[|s.store.handles|].owner == OWNER && Overlaps.Usable(t.store, |s.store.handles|)
    && forall h :: 0 <= h < |s.store.handles| && Overlaps.Usable(s.store, h) ==> Overlaps.Usable(t.store, h)
  }

  lemma AddedTwice(s: Overlaps.System, once: Overlaps.System, t: Overlaps.System, response: Response)
    requires s.flights == [NOVEL, NOVEL] && s.store.connections == [] && s.store.handles == []
    requires FirstAdded(s, 0, response, once) && FirstAdded(once, 1, response, t)
    ensures Doubled(t, response)
  {
    assert t.store.handles[0] == once.store.handles[0];
  }

  /** The commit of an acquisition that found no connection adds one. */
  lemma FirstCommitted(s: Overlaps.System, i: nat, response: Response)
    requires i < |s.flights| && s.flights[i] == NOVEL && Overlaps.Sound(s)
    requires "principal" in s.store.assertions && s.store.assertions["principal"] == ASSERTION
    ensures FirstAdded(s, i, response, Overlaps.Next(SETTINGS, s, Overlaps.Commit(i, Answering(response))))
  {
    Overlaps.StepKeepsSound(SETTINGS, s, Overlaps.Commit(i, Answering(response)));
    Acquires(s.store, response, false);
    AcquiredFrame(SETTINGS, s.store, CONNECTOR, OWNER, Answering(response), false);
    AssertionsKept(s.store, response);
  }

  lemma AssertionsKept(s: Store, response: Response)
    requires "principal" in s.assertions && s.assertions["principal"] == ASSERTION
    ensures Acquired(SETTINGS, s, CONNECTOR, OWNER, Answering(response), false).store.assertions == s.assertions
  {
    Acquires(s, response, false);
  }

  /** Revoking the second of the two connections while nothing else is in flight. */
  function SecondRevoked(response: Response): seq<Overlaps.Step> {
    TwoFirstAcquisitions(response) + [Overlaps.BeginRevoke(1, "principal")] + [Overlaps.Commit(2, Answering(response))]
  }

  ghost predicate SecondIsRevoked(s: Overlaps.System) {
    && Overlaps.Sound(s) && s.flights == [Overlaps.Ended, Overlaps.Ended, Overlaps.Ended]
    && |s.store.connections| == 2 && |s.store.handles| == 2
    && s.store.connections[0].owner == s.store.connections[1].owner == OWNER
    && s.store.connections[0].userScope && s.store.connections[0].status == ConnectionActive
    && s.store.connections[1].status == ConnectionRevoked && s.store.connections[1].handle == Some(1)
    && !Overlaps.Usable(s.store, 1)
    && "principal" in s.store.assertions && s.store.assertions["principal"] == ASSERTION
  }

  lemma RevokesTheSecond(s: Overlaps.System, response: Response)
    requires Doubled(s, response)
    ensures var begun := Overlaps.Next(SETTINGS, s, Overlaps.BeginRevoke(1, "principal"));
            SecondIsRevoked(Overlaps.Next(SETTINGS, begun, Overlaps.Commit(2, Answering(response))))
  {
    var begin, commit := Overlaps.BeginRevoke(1, "principal"), Overlaps.Commit(2, Answering(response));
    var begun := Overlaps.Next(SETTINGS, s, begin);
    Overlaps.StepKeepsSound(SETTINGS, s, begin);
    Overlaps.StepKeepsSound(SETTINGS, begun, commit);
    assert begun.store == s.store && |begun.flights| == 3;
    assert begun.flights[2] == Overlaps.Revoking(1, s.store.connections[1], Some(s.store.handles[1]));
  }

  lemma SecondRevokedIsRevoked(response: Response)
    ensures SecondIsRevoked(Overlaps.Run(SETTINGS, Overlaps.START, SecondRevoked(response)))
  {
    var revoke, commit := Overlaps.BeginRevoke(1, "principal"), Overlaps.Commit(2, Answering(response));
    RunSnoc(Overlaps.START, TwoFirstAcquisitions(response), revoke);
    RunSnoc(Overlaps.START, TwoFirstAcquisitions(response) + [revoke], commit);
    FirstAcquisitionsDouble(response);
    RevokesTheSecond(Overlaps.Run(SETTINGS, Overlaps.START, TwoFirstAcquisitions(response)), response);
  }

  /** The acquisition finds the first connection, which is ACTIVE, and sets out with a copy of it. */
  lemma SetsOutAgain(s: Overlaps.System)
    requires SecondIsRevoked(s)
    ensures var begun := Overlaps.Next(SETTINGS, s, Overlaps.BeginEnsure(CONNECTOR, "principal", "workspace"));
            && Overlaps.Sound(begun) && begun.store == s.store && |begun.flights| == 4
            && begun.flights[3] == Overlaps.Acquiring(CONNECTOR, OWNER, Some(0), s.store.connections[0])
  {
    assert FindOwn(s.store.connections, OWNER) == Some(0);
    Overlaps.StepKeepsSound(SETTINGS, s, Overlaps.BeginEnsure(CONNECTOR, "principal", "workspace"));
  }

  lemma OwnerAcquiresAgain(s: Overlaps.System, response: Response)
    requires SecondIsRevoked(s)
    ensures var begun := Overlaps.Next(SETTINGS, s, Overlaps.BeginEnsure(CONNECTOR, "principal", "workspace"));
            var t := Overlaps.Next(SETTINGS, begun, Overlaps.Commit(3, Answering(response))).store;
            && |t.handles| == 3 && t.handles[2].owner == OWNER && Overlaps.Usable(t, 2)
  {
    var begun := Overlaps.Next(SETTINGS, s, Overlaps.BeginEnsure(CONNECTOR, "principal", "workspace"));
    SetsOutAgain(s);
    AcquisitionOpens(begun, begun.flights[3], response);
  }

  lemma AcquisitionOpens(s: Overlaps.System, f: Overlaps.Flight, response: Response)
    requires Overlaps.Sound(s) && |s.flights| == 4 && s.flights[3] == f && |s.store.handles| == 2
    requires f.Acquiring? && f.connector == CONNECTOR && f.owner == OWNER
    requires "principal" in s.store.assertions && s.store.assertions["principal"] == ASSERTION
    ensures var t := Overlaps.Next(SETTINGS, s, Overlaps.Commit(3, Answering(response))).store;
            && |t.handles| == 3 && t.handles[2].owner == OWNER && Overlaps.Usable(t, 2)
  {
    assert Overlaps.FlightOk(s.store, f);
    Acquires(s.store, response, false);
    Overlaps.EnsureUsable(SETTINGS, s.store, f, Answering(response));
  }

  function AcquiringAgain(response: Response): seq<Overlaps.Step> {
    [Overlaps.BeginEnsure(CONNECTOR, "principal", "workspace")] + [Overlaps.Commit(3, Answering(response))]
  }

  lemma OwnerIsReopened(base: Overlaps.System, response: Response)
    requires SecondIsRevoked(base)
    ensures Overlaps.ReopenedBy(SETTINGS, base, 1, Overlaps.ItsOwners, AcquiringAgain(response), 2)
  {
    var steps := AcquiringAgain(response);
    RunTwo(base, steps[0], steps[1]);
    assert steps[..2] == steps;
    OwnerAcquiresAgain(base, response);
    NewHandleReopens(base.store, Overlaps.Run(SETTINGS, base, steps).store);
  }

  lemma RunTwo(s: Overlaps.System, a: Overlaps.Step, b: Overlaps.Step)
    ensures Overlaps.Run(SETTINGS, s, [a] + [b]) == Overlaps.Next(SETTINGS, Overlaps.Next(SETTINGS, s, a), b)
  {
    RunSnoc(s, [], a);
    assert [] + [a] == [a];
    RunSnoc(s, [a], b);
  }

  lemma NewHandleReopens(base: Store, t: Store)
    requires |base.connections| == 2 && base.connections[1].owner == OWNER && |base.handles| == 2
    requires |t.handles| == 3 && t.handles[2].owner == OWNER && Overlaps.Usable(t, 2)
    ensures Overlaps.Reopened(base, 1, Overlaps.ItsOwners, t)
  {
    assert Overlaps.HandleIn(base, 1, Overlaps.ItsOwners, 2, t.handles[2].owner);
  }

  lemma NothingDangles(s: Overlaps.System, scope: Overlaps.Scope)
    requires SecondIsRevoked(s)
    ensures forall i :: 0 <= i < |s.flights| ==> !Overlaps.Dangling(s.store, 1, scope, s.flights[i])
  {
  }

  /**
   A REVOKED connection that is not the one its owner is known by holds back only itself: with
   nothing in flight, a new acquisition opens a handle for the same owner. The connection and its
   own handle stay shut.
   */
  lemma SecondConnectionHoldsNothingBack(response: Response)
    ensures var base := Overlaps.Run(SETTINGS, Overlaps.START, SecondRevoked(response));
            && Overlaps.IsRevoked(base.store, 1) && !Overlaps.LeadsOwner(base.store, 1)
            && base.flights == [Overlaps.Ended, Overlaps.Ended, Overlaps.Ended]
            && Overlaps.ReopenedBy(SETTINGS, base, 1, Overlaps.ItsOwners, AcquiringAgain(response), 2)
            && !Overlaps.ReopenedBy(SETTINGS, base, 1, Overlaps.ItsOwn, AcquiringAgain(response), 2)
  {
    SecondRevokedIsRevoked(response);
    var base := Overlaps.Run(SETTINGS, Overlaps.START, SecondRevoked(response));
    assert Own(base.store.connections[0], OWNER);
    OwnerIsReopened(base, response);
    NothingDangles(base, Overlaps.ItsOwn);
    Overlaps.FinalUnlessDangling(SETTINGS, SecondRevoked(response), 1, Overlaps.ItsOwn, AcquiringAgain(response), 2);
  }

  // ---------------------------------------------------------------- calls one after another

  function EnsureSteps(response: Response): seq<Serial.Step> {
    [Serial.Retain("principal", ASSERTION), Serial.Ensure(CONNECTOR, "principal", "workspace", Answering(response))]
  }

  /** One connection with one live handle. */
  ghost predicate Established(s: Store, response: Response) {
    && |s.connections| == 1 && |s.handles| == 1
    && s.connections[0] == Connection(OWNER, true, ConnectionActive, Some(0), response.scopes)
    && s.handles[0] == Handle(OWNER, "server", response.scopes, ["resource"], response.expiresAt, 0, TokenActive, false)
    && s.nextSecret == 1 && s.secrets == map[0 := Secret(0, response)]
  }

  lemma EnsureEstablishes(response: Response)
    ensures Established(Serial.Run(SETTINGS, EMPTY, EnsureSteps(response)), response)
  {
    var steps := EnsureSteps(response);
    assert steps[..1] == [steps[0]] && [steps[0]][..0] == [];
    var s1 := Serial.Next(SETTINGS, EMPTY, steps[0]);
    assert Serial.Run(SETTINGS, EMPTY, steps[..1]) == s1;
    Acquires(s1, response, false);
    AcquiredFrame(SETTINGS, s1, CONNECTOR, OWNER, Answering(response), false);
  }

  /** A renewed handle under a live connection: revoking it leaves its first secret in the store. */
  lemma RenewedSecretSurvives(response: Response)
    requires response.refreshToken != ""
    ensures var renew := Serial.Renew(0, Some(CONNECTOR), Answering(response));
            var s := Serial.Run(SETTINGS, EMPTY, EnsureSteps(response) + [renew]);
            var t := Revoked(s, 0, "principal");
            && |s.connections| == 1 && s.connections[0].status == ConnectionActive && s.connections[0].handle == Some(0)
            && |s.handles| == 1 && s.handles[0].refreshed && 0 in t.secrets && t.secrets[0].handle == 0
  {
    EnsureEstablishes(response);
    var steps, renew := EnsureSteps(response), Serial.Renew(0, Some(CONNECTOR), Answering(response));
    assert (steps + [renew])[..|steps|] == steps;
    var s0 := Serial.Run(SETTINGS, EMPTY, steps);
    assert Open(s0, 0) == Some(response);
    assert Serial.Next(SETTINGS, s0, renew) == Resealed(s0, 0, response);
  }

  /** A handle granted "write" that is stale, asked for "write", and renewed to "read" alone, is still handed out. */
  lemma NarrowedMaterialIsHandedOut()
    ensures var first := Response("first", "refresh", ["write"], Some(0));
            var s := Serial.Run(SETTINGS, EMPTY, EnsureSteps(first));
            var ask := Ask({}, {"write"}, None);
            var w := Answering(Response("second", "refresh", ["read"], Some(1000)));
            && |s.handles| == 1 && CoversAsk(s.handles[0], ask) && AccessMaterial.Narrowed(s, 0, ask, w)
            && Handed(SETTINGS, s, 0, ask, Some(CONNECTOR), w).response.Some?
            && Handed(SETTINGS, s, 0, ask, Some(CONNECTOR), w).store.handles == [s.handles[0].(
                 secretKey := 1, scopes := ["read"], expiresAt := Some(1000), refreshed := true)]
  {
    var first := Response("first", "refresh", ["write"], Some(0));
    EnsureEstablishes(first);
    var s := Serial.Run(SETTINGS, EMPTY, EnsureSteps(first));
    var w := Answering(Response("second", "refresh", ["read"], Some(1000)));
    assert "write" in s.handles[0].scopes;
    assert Open(s, 0) == Some(first);
    assert Renewed(SETTINGS, s, 0, Some(CONNECTOR), w) ==
           Resealed(s, 0, Response("second", "refresh", ["read"], Some(1000)));
    assert "write" in {"write"} && "write" !in Elements(["read"]);
  }
}
