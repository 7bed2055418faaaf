/**
 Templates with a RETRY and a CONDITION on the same failure (src/accretion/templates.py), as the
 shipped `fixed-graph-v1` has them: the validator accepts them, and a run repairs until its retries
 are spent and only then goes on to the terminal.
 */
module RepairRuns {
  import opened Sequences
  import opened Reachability
  import opened Templates
  import opened Scheduler
  import opened Walks
  import opened Retries
  import opened CoverageTable
  import Stranded = StrandedTemplates

  /** A task, a tool and a verifier in line; the verifier passes, fails, escalates, or goes back to the tool. */
  datatype Repair = Repair(
    t: Template, first: Node, act: Node, check: Node, last: Node,
    into: Edge, up: Edge, pass: Edge, fail: Edge, unsure: Edge, again: Edge
  ) {
    ghost predicate Valid() {
      && t.nodes == [first, act, check, last] && t.edges == [into, up, pass, fail, unsure, again]
      && t.gates == [] && t.maxReplans == 0
      && NoDuplicates([first.key, act.key, check.key, last.key])
      && NoDuplicates([into.key, up.key, pass.key, fail.key, unsure.key, again.key])
      && first == Node(first.key, Task, None, None) && act == Node(act.key, Tool, None, None)
      && check == Node(check.key, Verifier, None, None) && last == Node(last.key, Terminal, None, None)
      && into == Edge(into.key, first.key, act.key, Normal, None)
      && up == Edge(up.key, act.key, check.key, Normal, None)
      && pass == Edge(pass.key, check.key, last.key, Condition, Some(OnSuccess))
      && fail == Edge(fail.key, check.key, last.key, Condition, Some(OnFail))
      && unsure == Edge(unsure.key, check.key, last.key, Condition, Some(OnInconclusive))
      && again == Edge(again.key, check.key, act.key, Retry, Some(OnFail))
    }
  }

  // ---------------------------------------------------------------- it is accepted

  lemma Distinct(x: Repair)
    requires x.Valid()
    ensures x.first.key != x.act.key && x.first.key != x.check.key && x.first.key != x.last.key
    ensures x.act.key != x.check.key && x.act.key != x.last.key && x.check.key != x.last.key
  {
    var keys := [x.first.key, x.act.key, x.check.key, x.last.key];
    assert keys[0] != keys[1] && keys[0] != keys[2] && keys[0] != keys[3];
    assert keys[1] != keys[2] && keys[1] != keys[3] && keys[2] != keys[3];
  }

  lemma AllParts(x: Repair)
    requires x.Valid()
    ensures forall n :: n in x.t.nodes <==> n == x.first || n == x.act || n == x.check || n == x.last
    ensures forall e :: e in x.t.edges <==>
                          e == x.into || e == x.up || e == x.pass || e == x.fail || e == x.unsure || e == x.again
  {
  }

  lemma References(x: Repair)
    requires x.Valid()
    ensures ReferencesOk(x.t) && NodeKeys(x.t) == [x.first.key, x.act.key, x.check.key, x.last.key]
  {
    AllParts(x);
    assert NodeKeys(x.t) == [x.first.key, x.act.key, x.check.key, x.last.key];
    assert EdgeKeys(x.t) == [x.into.key, x.up.key, x.pass.key, x.fail.key, x.unsure.key, x.again.key];
    forall e | e in x.t.edges ensures EdgeOk(x.t, e) { }
  }

  lemma Entry(x: Repair)
    requires x.Valid()
    ensures Entries(x.t) == [x.first]
  {
    AllParts(x);
    Distinct(x);
    Nonempty(Inbound(x.t, x.first.key));
    Stranded.EnteredBy(x.t, x.act, x.into);
    Stranded.EnteredBy(x.t, x.check, x.up);
    Stranded.EnteredBy(x.t, x.last, x.pass);
    Stranded.SoleEntry(x.t, x.first, x.act, x.check, x.last);
  }

  lemma Ends(x: Repair)
    requires x.Valid()
    ensures TerminalsOk(x.t) && x.last in Terminals(x.t)
  {
    NothingLeaves(x);
    AllParts(x);
    Stranded.SoleTerminal(x.t, x.last);
  }

  lemma NothingLeaves(x: Repair)
    requires x.Valid()
    ensures Outbound(x.t, x.last.key) == []
  {
    AllParts(x);
    Distinct(x);
    Nonempty(Outbound(x.t, x.last.key));
  }

  lemma Reach(x: Repair)
    requires x.Valid() && x.first in Entries(x.t) && x.last in Terminals(x.t)
    ensures EveryNodeReachable(x.t) && EveryNodeTerminates(x.t)
  {
    AllParts(x);
    Stranded.InLineLeads(x.t, x.first, x.act, x.check, x.into, x.up);
    Stranded.InLineLeads(x.t, x.act, x.check, x.last, x.up, x.pass);
    InOrder(x.t, x.first, x.act, x.check, x.last);
    forall n | n in x.t.nodes ensures EntryReaches(x.t, n.key) && ReachesTerminal(x.t, n.key) {
      assert n == x.first || n == x.act || n == x.check || n == x.last;
    }
  }

  lemma InOrder(t: Template, a: Node, b: Node, c: Node, d: Node)
    requires a in Entries(t) && d in Terminals(t)
    requires Leads(t, a.key, b.key) && Leads(t, b.key, c.key) && Leads(t, c.key, d.key)
    requires LeadsOut(t, a.key, b.key) && LeadsOut(t, b.key, c.key) && LeadsOut(t, c.key, d.key)
    ensures EntryReaches(t, a.key) && EntryReaches(t, b.key) && EntryReaches(t, c.key) && EntryReaches(t, d.key)
    ensures ReachesTerminal(t, a.key) && ReachesTerminal(t, b.key) && ReachesTerminal(t, c.key)
    ensures ReachesTerminal(t, d.key)
  {
    Stranded.InLineForward(t, a, b, c);
    assert FromEntry(t, a.key, 0) && FromEntry(t, b.key, 1) && FromEntry(t, c.key, 2);
    assert FromEntry(t, d.key, 3);
    Stranded.InLineBackward(t, b, c, d);
    assert ToTerminal(t, d.key, 0) && ToTerminal(t, c.key, 1) && ToTerminal(t, b.key, 2);
    assert ToTerminal(t, a.key, 3);
  }

  lemma OneAt(t: Template, key: Key, fits: Edge -> bool, i: nat)
    requires i < |t.edges|
    requires forall j :: 0 <= j < |t.edges| ==> (t.edges[j].source == key && fits(t.edges[j]) <==> j == i)
    ensures ExactlyOne(t, key, fits)
  {
    var leaves := (e: Edge) => e.source == key && fits(e);
    assert OnlyAt(t.edges, leaves, i);
  }

  predicate OnSuccessEdge(e: Edge) {
    (e.kind == Normal && e.guard == None) || e.guard == Some(OnSuccess)
  }

  lemma SuccessAt(t: Template, key: Key, i: nat)
    requires i < |t.edges|
    requires forall j :: 0 <= j < |t.edges| ==> (t.edges[j].source == key && OnSuccessEdge(t.edges[j]) <==> j == i)
    ensures OneForSuccess(t, key)
  {
    OneAt(t, key, (e: Edge) => (e.kind == Normal && e.guard == None) || e.guard == Some(OnSuccess), i);
  }

  lemma SingleRetry(x: Repair, key: Key)
    requires x.Valid()
    ensures RetryGuardsDiffer(x.t, key)
  {
    var edges := x.t.edges;
    forall i | 0 <= i < |edges| && IsRetryOf(edges[i], key) ensures i == 5 {
      assert edges[0].kind != Retry && edges[1].kind != Retry && edges[2].kind != Retry;
      assert edges[3].kind != Retry && edges[4].kind != Retry;
    }
  }

  lemma LineEquipped(x: Repair)
    requires x.Valid()
    ensures Equipped(x.t, x.first) && Equipped(x.t, x.act)
  {
    Distinct(x);
    SingleRetry(x, x.first.key);
    SingleRetry(x, x.act.key);
    SuccessAt(x.t, x.first.key, 0);
    SuccessAt(x.t, x.act.key, 1);
  }

  lemma CheckEquipped(x: Repair)
    requires x.Valid()
    ensures Equipped(x.t, x.check)
  {
    Distinct(x);
    SingleRetry(x, x.check.key);
    SuccessAt(x.t, x.check.key, 2);
    OneAt(x.t, x.check.key, (e: Edge) => e.kind != Retry && e.guard in {Some(OnFail), Some(OnReplanExhausted)}, 3);
    OneAt(x.t, x.check.key, (e: Edge) => e.guard == Some(OnInconclusive), 4);
  }

  lemma Coverage(x: Repair)
    requires x.Valid()
    ensures CoverageOk(x.t)
  {
    LineEquipped(x);
    CheckEquipped(x);
    CoverageIsTheTable(x.t);
    forall n | n in x.t.nodes && n.kind != Terminal ensures Equipped(x.t, n) {
      AllParts(x);
    }
  }

  lemma Shape(x: Repair)
    requires x.Valid()
    ensures ShapeOk(x.t)
  {
    AllParts(x);
    Coverage(x);
    Extras(x);
    forall n | n in x.t.nodes ensures Members(n) == [] { Nonempty(Members(n)); }
  }

  lemma Extras(x: Repair)
    requires x.Valid()
    ensures GatesOk(x.t) && ReplansOk(x.t)
  {
    AllParts(x);
    assert GateKeys(x.t) == {} && GateSpecKeys(x.t) == {};
    assert !UsesGuard(x.t, OnReplanAvailable) && !UsesGuard(x.t, OnReplanExhausted);
  }

  /** Every such template is accepted, whatever its retry budget. */
  lemma RepairIsAccepted(x: Repair)
    requires x.Valid()
    ensures WellFormed(x.t)
  {
    References(x);
    Entry(x);
    Ends(x);
    Reach(x);
    Shape(x);
  }

  // ---------------------------------------------------------------- its runs

  lemma {:induction false} FilterAppend<T>(a: seq<T>, b: seq<T>, keep: T -> bool)
    ensures Filter(a + b, keep) == Filter(a, keep) + Filter(b, keep)
  {
    if b == [] {
      assert a + b == a;
    } else {
      var rest := b[..|b| - 1];
      assert (a + b)[..|a + b| - 1] == a + rest;
      FilterAppend(a, rest, keep);
    }
  }

  lemma {:induction false} FilterAll<T>(s: seq<T>, keep: T -> bool)
    requires forall i :: 0 <= i < |s| ==> keep(s[i])
    ensures Filter(s, keep) == s
  {
    if s != [] { FilterAll(s[..|s| - 1], keep); }
  }

  lemma OutboundIs(t: Template, key: Key, before: seq<Edge>, out: seq<Edge>, after: seq<Edge>)
    requires t.edges == before + out + after
    requires forall i :: 0 <= i < |before| ==> before[i].source != key
    requires forall i :: 0 <= i < |out| ==> out[i].source == key
    requires forall i :: 0 <= i < |after| ==> after[i].source != key
    ensures Outbound(t, key) == out
  {
    var keep := (e: Edge) => e.source == key;
    assert Outbound(t, key) == Filter(t.edges, keep);
    FilterAppend(before + out, after, keep);
    FilterAppend(before, out, keep);
    FilterNone(before, keep);
    FilterAll(out, keep);
    FilterNone(after, keep);
  }

  lemma Outbounds(x: Repair)
    requires x.Valid()
    ensures Outbound(x.t, x.act.key) == [x.up]
    ensures Outbound(x.t, x.check.key) == [x.pass, x.fail, x.unsure, x.again]
  {
    Distinct(x);
    OutboundIs(x.t, x.act.key, [x.into], [x.up], [x.pass, x.fail, x.unsure, x.again]);
    OutboundIs(x.t, x.check.key, [x.into, x.up], [x.pass, x.fail, x.unsure, x.again], []);
  }

  lemma FourWays(t: Template, pass: Edge, fail: Edge, unsure: Edge, again: Edge, taken: Taken)
    requires pass.kind == fail.kind == unsure.kind == Condition && again.kind == Retry
    requires pass.guard == Some(OnSuccess) && fail.guard == Some(OnFail)
    requires unsure.guard == Some(OnInconclusive) && again.guard == Some(OnFail)
    ensures SelectEdge(t, [pass, fail, unsure, again], Fail, taken) ==
            Some(if Times(taken, again.key) < t.maxRetries then again else fail)
  {
    var edges := [pass, fail, unsure, again];
    if Times(taken, again.key) < t.maxRetries {
      OpenRetryIsTaken(t, edges, Fail, taken, 3);
    } else {
      assert NoneOpen(t, edges, Fail, taken);
      assert SoleBranch(edges, Fail, 1);
      FallbackIsTaken(t, edges, Fail, taken, 1);
    }
  }

  /** On a failure the verifier's retry is taken while it is open, and the way out once it is spent. */
  lemma FailureTurn(x: Repair, taken: Taken)
    requires x.Valid()
    ensures SelectEdge(x.t, Outbound(x.t, x.check.key), Fail, taken) ==
            Some(if Times(taken, x.again.key) < x.t.maxRetries then x.again else x.fail)
  {
    Outbounds(x);
    FourWays(x.t, x.pass, x.fail, x.unsure, x.again, taken);
  }

  lemma ToolTurn(x: Repair, taken: Taken)
    requires x.Valid()
    ensures SelectEdge(x.t, Outbound(x.t, x.act.key), Success, taken) == Some(x.up)
  {
    Outbounds(x);
    assert SolePlain([x.up], Success, 0);
    FallbackIsTaken(x.t, [x.up], Success, taken, 0);
  }

  lemma Places(x: Repair)
    requires x.Valid()
    ensures NodeUnder(x.t.nodes, x.act.key) == Some(x.act) && NodeUnder(x.t.nodes, x.check.key) == Some(x.check)
    ensures NodeUnder(x.t.nodes, x.last.key) == Some(x.last)
    ensures OwnerOf(x.t.nodes, x.act.key) == x.act.key && OwnerOf(x.t.nodes, x.check.key) == x.check.key
    ensures OwnerOf(x.t.nodes, x.last.key) == x.last.key
  {
    References(x);
    AllParts(x);
    UnderIs(x.t, x.act);
    UnderIs(x.t, x.check);
    UnderIs(x.t, x.last);
    Stranded.OwnsItself(x.t.nodes, x.act.key);
    Stranded.OwnsItself(x.t.nodes, x.check.key);
    Stranded.OwnsItself(x.t.nodes, x.last.key);
  }

  /** A number of failures, each followed by another attempt. */
  function Repairs(count: nat): seq<Outcome> {
    if count == 0 then [] else Repairs(count - 1) + [Fail] + [Success]
  }

  /** What the runs of the template rest on. */
  ghost predicate Behaves(x: Repair) {
    && NodeUnder(x.t.nodes, x.act.key) == Some(x.act) && NodeUnder(x.t.nodes, x.check.key) == Some(x.check)
    && NodeUnder(x.t.nodes, x.last.key) == Some(x.last)
    && x.act.kind == Tool && x.check.kind == Verifier && x.last.kind == Terminal
    && x.again.target == OwnerOf(x.t.nodes, x.again.target) == x.act.key
    && x.up.target == OwnerOf(x.t.nodes, x.up.target) == x.check.key
    && x.fail.target == OwnerOf(x.t.nodes, x.fail.target) == x.last.key
    && x.again.key != x.up.key && x.again.key != x.fail.key
    && (forall taken :: FailsOver(x, taken))
    && (forall taken :: WorksOn(x, taken))
  }

  ghost predicate FailsOver(x: Repair, taken: Taken) {
    SelectEdge(x.t, Outbound(x.t, x.check.key), Fail, taken) ==
    Some(if Times(taken, x.again.key) < x.t.maxRetries then x.again else x.fail)
  }

  ghost predicate WorksOn(x: Repair, taken: Taken) {
    SelectEdge(x.t, Outbound(x.t, x.act.key), Success, taken) == Some(x.up)
  }

  lemma ValidBehaves(x: Repair)
    requires x.Valid()
    ensures Behaves(x)
  {
    Places(x);
    EdgeKeysDiffer(x);
    forall taken ensures FailsOver(x, taken) && WorksOn(x, taken) {
      FailureTurn(x, taken);
      ToolTurn(x, taken);
    }
  }

  lemma UsedTimes(taken: Taken, key: Key, other: Key)
    ensures Times(Used(taken, key), other) == Times(taken, other) + if other == key then 1 else 0
  {
  }

  /** One more failure is repaired, and the run is back at the verifier. */
  lemma RepairedOnce(x: Repair, taken: Taken, before: seq<Outcome>, h: Taken) returns (history: Taken)
    requires Behaves(x) && Times(h, x.again.key) < x.t.maxRetries
    requires GoesOn(x.t, x.check.key, taken, before, x.check.key, h)
    ensures GoesOn(x.t, x.check.key, taken, before + [Fail] + [Success], x.check.key, history)
    ensures Times(history, x.again.key) == Times(h, x.again.key) + 1
  {
    var once := Used(h, x.again.key);
    assert FailsOver(x, h) && WorksOn(x, once);
    TakesTurn(x.t, x.check.key, taken, before, x.check.key, h, x.check, Fail);
    TakesTurn(x.t, x.check.key, taken, before + [Fail], x.act.key, once, x.act, Success);
    history := Used(once, x.up.key);
    UsedTimes(h, x.again.key, x.again.key);
    UsedTimes(once, x.up.key, x.again.key);
  }

  lemma {:induction false} RepairedOften(x: Repair, taken: Taken, count: nat) returns (history: Taken)
    requires Behaves(x) && Times(taken, x.again.key) + count <= x.t.maxRetries
    ensures GoesOn(x.t, x.check.key, taken, Repairs(count), x.check.key, history)
    ensures Times(history, x.again.key) == Times(taken, x.again.key) + count
    decreases count
  {
    if count == 0 {
      StartGoesOn(x.t, x.check.key, taken);
      history := taken;
    } else {
      var h := RepairedOften(x, taken, count - 1);
      history := RepairedOnce(x, taken, Repairs(count - 1), h);
    }
  }

  lemma GivesUp(x: Repair, taken: Taken, before: seq<Outcome>, h: Taken)
    requires Behaves(x) && Times(h, x.again.key) == x.t.maxRetries
    requires GoesOn(x.t, x.check.key, taken, before, x.check.key, h)
    ensures Walk(x.t, x.check.key, taken, before + [Fail]) == At(x.last.key, Used(h, x.fail.key))
  {
    assert FailsOver(x, h);
    TakesTurn(x.t, x.check.key, taken, before, x.check.key, h, x.check, Fail);
    RestsThere(x.t, x.check.key, taken, before + [Fail], x.last.key, Used(h, x.fail.key));
    WalkRests(x.t, x.last.key, Used(h, x.fail.key), x.last, []);
  }

  /**
   From the verifier, as many failures as there are retries left are repaired, each by another
   attempt of the tool, and the one after them takes the run to the terminal.
   */
  lemma RepairsThenFails(x: Repair, taken: Taken, count: nat)
    requires x.Valid() && Times(taken, x.again.key) + count == x.t.maxRetries
    ensures exists h :: GoesOn(x.t, x.check.key, taken, Repairs(count), x.check.key, h)
    ensures Walk(x.t, x.check.key, taken, Repairs(count) + [Fail]).key == x.last.key
  {
    ValidBehaves(x);
    var h := RepairedOften(x, taken, count);
    GivesUp(x, taken, Repairs(count), h);
  }

  lemma EdgeKeysDiffer(x: Repair)
    requires x.Valid()
    ensures x.again.key != x.up.key && x.again.key != x.fail.key
  {
    var keys := [x.into.key, x.up.key, x.pass.key, x.fail.key, x.unsure.key, x.again.key];
    assert keys[5] != keys[1] && keys[5] != keys[3];
  }
}
