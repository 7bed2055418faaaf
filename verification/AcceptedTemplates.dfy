/**
 What the validator (src/accretion/templates.py) accepts, told on the nodes and edges of a template
 by position, without the notions the validator works with.
 */
module AcceptedTemplates {
  import opened Sequences
  import opened Reachability
  import opened Templates
  import opened CoverageTable
  import Retries

  // ---------------------------------------------------------------- keys, edges and guards

  ghost predicate KnownKey(t: Template, key: Key) {
    exists i :: 0 <= i < |t.nodes| && t.nodes[i].key == key
  }

  /** Branches, approvals and retries have a guard, normal edges and loop-backs have none. */
  predicate Guarded(e: Edge) {
    match e.kind
    case Condition => e.guard != None
    case Approval => e.guard != None
    case Retry => e.guard != None
    case Normal => e.guard == None
    case LoopBack => e.guard == None
    case Error => true
    case Fanout => true
    case Merge => true
  }

  ghost predicate SoundReferences(t: Template) {
    && (forall i, j :: 0 <= i < j < |t.nodes| ==> t.nodes[i].key != t.nodes[j].key)
    && (forall i, j :: 0 <= i < j < |t.edges| ==> t.edges[i].key != t.edges[j].key)
    && (forall e :: e in t.edges ==> KnownKey(t, e.source) && KnownKey(t, e.target) && Guarded(e))
  }

  lemma KnownIs(t: Template, key: Key)
    ensures KnownKey(t, key) <==> key in NodeKeys(t)
  {
    if i :| 0 <= i < |t.nodes| && t.nodes[i].key == key { assert NodeKeys(t)[i] == key; }
  }

  lemma ReferencesExactly(t: Template)
    ensures ReferencesOk(t) <==> SoundReferences(t)
  {
    forall e | e in t.edges ensures EdgeOk(t, e) <==> KnownKey(t, e.source) && KnownKey(t, e.target) && Guarded(e) {
      KnownIs(t, e.source);
      KnownIs(t, e.target);
    }
    UniqueExactly(t);
  }

  lemma UniqueExactly(t: Template)
    ensures NoDuplicates(NodeKeys(t)) <==> forall i, j :: 0 <= i < j < |t.nodes| ==> t.nodes[i].key != t.nodes[j].key
    ensures NoDuplicates(EdgeKeys(t)) <==> forall i, j :: 0 <= i < j < |t.edges| ==> t.edges[i].key != t.edges[j].key
  {
    var nodes, edges := NodeKeys(t), EdgeKeys(t);
    if NoDuplicates(nodes) {
      forall i, j | 0 <= i < j < |t.nodes| ensures t.nodes[i].key != t.nodes[j].key { assert nodes[i] != nodes[j]; }
    }
    if NoDuplicates(edges) {
      forall i, j | 0 <= i < j < |t.edges| ensures t.edges[i].key != t.edges[j].key { assert edges[i] != edges[j]; }
    }
  }

  // ---------------------------------------------------------------- entry and terminals

  /** No edge leads to the node. */
  ghost predicate Unentered(t: Template, n: Node) {
    forall e :: e in t.edges ==> e.target != n.key
  }

  /** One node alone is not led to, and it is a task. */
  ghost predicate OneTaskEntry(t: Template) {
    exists i :: 0 <= i < |t.nodes| && t.nodes[i].kind == Task && OnlyUnentered(t, i)
  }

  ghost predicate OnlyUnentered(t: Template, i: nat) {
    i < |t.nodes| && forall j :: 0 <= j < |t.nodes| ==> (Unentered(t, t.nodes[j]) <==> j == i)
  }

  lemma UnenteredIs(t: Template, n: Node)
    ensures Unentered(t, n) <==> Inbound(t, n.key) == []
  {
    Nonempty(Inbound(t, n.key));
  }

  lemma EntryExactly(t: Template)
    ensures EntryOk(t) <==> OneTaskEntry(t)
  {
    var keep := (n: Node) => Inbound(t, n.key) == [];
    assert Entries(t) == Filter(t.nodes, keep);
    forall n: Node ensures keep(n) <==> Unentered(t, n) { UnenteredIs(t, n); }
    if EntryOk(t) {
      var i := Retries.KeptAlone(t.nodes, keep);
      FilterSole(t.nodes, keep, i);
      assert OnlyUnentered(t, i);
    }
    if i :| 0 <= i < |t.nodes| && t.nodes[i].kind == Task && OnlyUnentered(t, i) { FilterSole(t.nodes, keep, i); }
  }

  /** There is a terminal, and no edge leaves one. */
  ghost predicate ClosedTerminals(t: Template) {
    && (exists n :: n in t.nodes && n.kind == Terminal)
    && forall n, e :: n in t.nodes && n.kind == Terminal && e in t.edges ==> e.source != n.key
  }

  lemma TerminalsExactly(t: Template)
    ensures TerminalsOk(t) <==> ClosedTerminals(t)
  {
    Nonempty(Terminals(t));
    if n :| n in t.nodes && n.kind == Terminal { assert n in Terminals(t); }
    forall n: Node ensures Outbound(t, n.key) == [] <==> forall e :: e in t.edges ==> e.source != n.key {
      Nonempty(Outbound(t, n.key));
    }
    if TerminalsOk(t) {
      forall n, e | n in t.nodes && n.kind == Terminal && e in t.edges ensures e.source != n.key {
        assert n in Terminals(t) && Outbound(t, n.key) == [];
      }
    }
  }

  // ---------------------------------------------------------------- steps

  /** The LOOP node lists the key in its region, and is not the key itself. */
  predicate Owns(n: Node, key: Key) {
    n.kind == Loop && n.loop.Some? && key in n.loop.value.region && key != n.key
  }

  /** An edge leads there, or the loop owns it. */
  ghost predicate StepTo(t: Template, u: Key, v: Key) {
    || (exists e :: e in t.edges && e.source == u && e.target == v)
    || (exists n :: n in t.nodes && n.key == u && Owns(n, v))
  }

  /** An edge that is no loop-back leads there, or it is owned by that loop. */
  ghost predicate StepOut(t: Template, u: Key, v: Key) {
    || (exists e :: e in t.edges && e.kind != LoopBack && e.source == u && e.target == v)
    || (exists n :: n in t.nodes && n.key == v && Owns(n, u))
  }

  lemma OwnsExactly(t: Template, owner: Key, member: Key)
    ensures Drives(t, owner, member) <==> exists n :: n in t.nodes && n.key == owner && Owns(n, member)
  {
    if n :| n in t.nodes && n.key == owner && member in Members(n) { assert Owns(n, member); }
    if n :| n in t.nodes && n.key == owner && Owns(n, member) { assert member in Members(n); }
  }

  lemma StepsExactly(t: Template, u: Key, v: Key)
    ensures Leads(t, u, v) <==> StepTo(t, u, v)
    ensures LeadsOut(t, u, v) <==> StepOut(t, u, v)
  {
    OwnsExactly(t, u, v);
    OwnsExactly(t, v, u);
  }

  // ---------------------------------------------------------------- regions, gates and replans

  /** No key belongs to the regions of two loops, their own keys aside. */
  ghost predicate OneOwner(t: Template) {
    forall i, j, key :: 0 <= i < j < |t.nodes| && Owns(t.nodes[i], key) ==> !Owns(t.nodes[j], key)
  }

  lemma RegionsExactly(t: Template)
    ensures RegionsDisjoint(t.nodes) <==> OneOwner(t)
  {
    if RegionsDisjoint(t.nodes) {
      forall i, j, key | 0 <= i < j < |t.nodes| && Owns(t.nodes[i], key) ensures !Owns(t.nodes[j], key) {
        assert RegionsApart(t.nodes[i], t.nodes[j]);
        assert key in Members(t.nodes[i]);
      }
    }
    if OneOwner(t) { OneOwnerIsApart(t); }
  }

  lemma OneOwnerIsApart(t: Template)
    requires OneOwner(t)
    ensures RegionsDisjoint(t.nodes)
  {
    forall i, j | 0 <= i < j < |t.nodes| ensures RegionsApart(t.nodes[i], t.nodes[j]) {
      forall k | k in Members(t.nodes[i]) ensures k !in Members(t.nodes[j]) { assert Owns(t.nodes[i], k); }
    }
  }

  ghost predicate HasSpec(t: Template, key: Key) {
    exists g :: g in t.gates && g.nodeKey == key
  }

  ghost predicate HasGate(t: Template, key: Key) {
    exists n :: n in t.nodes && n.kind == Gate && n.key == key
  }

  /** Every GATE node has a gate specification and the other way round, and no gate id is used twice. */
  ghost predicate GatesMatch(t: Template) {
    && (forall n :: n in t.nodes && n.kind == Gate ==> HasSpec(t, n.key))
    && (forall g :: g in t.gates ==> HasGate(t, g.nodeKey))
    && forall i, j :: 0 <= i < j < |t.gates| ==> t.gates[i].gateId != t.gates[j].gateId
  }

  lemma GatesExactly(t: Template)
    ensures GatesOk(t) <==> GatesMatch(t)
  {
    forall key: Key
      ensures key in GateSpecKeys(t) <==> HasSpec(t, key)
      ensures key in GateKeys(t) <==> HasGate(t, key)
    {
    }
    var ids := GateIds(t);
    if NoDuplicates(ids) {
      forall i, j | 0 <= i < j < |t.gates| ensures t.gates[i].gateId != t.gates[j].gateId { assert ids[i] != ids[j]; }
    }
    if GatesMatch(t) {
      assert GateKeys(t) == GateSpecKeys(t) by {
        forall key | key in GateKeys(t) ensures key in GateSpecKeys(t) { assert HasGate(t, key); }
        forall key | key in GateSpecKeys(t) ensures key in GateKeys(t) { assert HasSpec(t, key); }
      }
    }
  }

  /** Replan guards come in pairs, and only with a replan budget, which comes only with them. */
  ghost predicate ReplansMatch(t: Template) {
    var available := exists e :: e in t.edges && e.guard == Some(OnReplanAvailable);
    var exhausted := exists e :: e in t.edges && e.guard == Some(OnReplanExhausted);
    if t.maxReplans == 0 then !available && !exhausted else available && exhausted
  }

  lemma ReplansExactly(t: Template)
    ensures ReplansOk(t) <==> ReplansMatch(t)
  {
  }

  // ---------------------------------------------------------------- all together

  /** At most `n` steps from the entry. */
  ghost predicate FromTheEntry(t: Template, v: Key, n: nat)
    decreases n
  {
    || (exists m :: m in t.nodes && m.key == v && Unentered(t, m))
    || (n > 0 && exists u :: FromTheEntry(t, u, n - 1) && StepTo(t, u, v))
  }

  /** At most `n` steps to a terminal. */
  ghost predicate ToATerminal(t: Template, u: Key, n: nat)
    decreases n
  {
    || (exists m :: m in t.nodes && m.key == u && m.kind == Terminal)
    || (n > 0 && exists v :: StepOut(t, u, v) && ToATerminal(t, v, n - 1))
  }

  lemma {:induction false} FromEntryExactly(t: Template, v: Key, n: nat)
    ensures FromEntry(t, v, n) <==> FromTheEntry(t, v, n)
    decreases n
  {
    forall m: Node ensures Unentered(t, m) <==> Inbound(t, m.key) == [] { UnenteredIs(t, m); }
    forall m: Node ensures m in Entries(t) <==> m in t.nodes && Unentered(t, m) { }
    if n > 0 {
      forall u
        ensures FromEntry(t, u, n - 1) <==> FromTheEntry(t, u, n - 1)
        ensures Leads(t, u, v) <==> StepTo(t, u, v)
      {
        FromEntryExactly(t, u, n - 1);
        StepsExactly(t, u, v);
      }
    }
  }

  lemma {:induction false} ToTerminalExactly(t: Template, u: Key, n: nat)
    ensures ToTerminal(t, u, n) <==> ToATerminal(t, u, n)
    decreases n
  {
    if n > 0 {
      forall v
        ensures ToTerminal(t, v, n - 1) <==> ToATerminal(t, v, n - 1)
        ensures LeadsOut(t, u, v) <==> StepOut(t, u, v)
      {
        ToTerminalExactly(t, v, n - 1);
        StepsExactly(t, u, v);
      }
    }
  }

  /** The loop node has a policy of known keys around its act and observe nodes; no other node has one. */
  ghost predicate SoundPolicy(t: Template, n: Node) {
    if n.kind != Loop then n.loop == None
    else
      && n.loop.Some?
      && (forall key :: key in n.loop.value.region ==> KnownKey(t, key))
      && n.loop.value.actKey in n.loop.value.region
      && (n.loop.value.observeKey == None || n.loop.value.observeKey.value in n.loop.value.region)
      && (n.loop.value.fixed ==> n.loop.value.fixedMaximum != None)
  }

  /** A parent is another node, a loop, and its region lists the child. */
  ghost predicate SoundParent(t: Template, n: Node) {
    n.parent == None ||
    (n.parent.value != n.key &&
     exists p :: p in t.nodes && p.key == n.parent.value && p.kind == Loop &&
                 (p.loop == None || n.key in p.loop.value.region))
  }

  /** A loop-back stays within the region of one loop. */
  ghost predicate SoundLoopBack(t: Template, e: Edge) {
    e.kind == LoopBack ==>
      exists n :: n in t.nodes && n.kind == Loop && n.loop != None &&
                  e.source in n.loop.value.region && e.target in n.loop.value.region
  }

  ghost predicate Reached(t: Template, key: Key) {
    exists k: nat :: FromTheEntry(t, key, k)
  }

  ghost predicate Ends(t: Template, key: Key) {
    exists k: nat :: ToATerminal(t, key, k)
  }

  /** Steps from the entry come to every node, and steps from every node come to a terminal. */
  ghost predicate Connected(t: Template) {
    forall n :: n in t.nodes ==> Reached(t, n.key) && Ends(t, n.key)
  }

  ghost predicate SoundShape(t: Template) {
    && (forall n :: n in t.nodes ==> SoundPolicy(t, n) && SoundParent(t, n)) && OneOwner(t)
    && (forall e :: e in t.edges ==> SoundLoopBack(t, e))
    && GatesMatch(t) && ReplansMatch(t)
    && forall n :: n in t.nodes && n.kind != Terminal && OutsideRegions(t, n.key) ==> Equipped(t, n)
  }

  /** Everything the validator asks for. */
  ghost predicate Acceptable(t: Template) {
    SoundReferences(t) && OneTaskEntry(t) && ClosedTerminals(t) && Connected(t) && SoundShape(t)
  }

  lemma ReachExactly(t: Template)
    ensures EveryNodeReachable(t) && EveryNodeTerminates(t) <==> Connected(t)
  {
    forall n | n in t.nodes
      ensures EntryReaches(t, n.key) <==> Reached(t, n.key)
      ensures ReachesTerminal(t, n.key) <==> Ends(t, n.key)
    {
      ReachExactlyAt(t, n.key);
    }
  }

  lemma ReachExactlyAt(t: Template, key: Key)
    ensures EntryReaches(t, key) <==> Reached(t, key)
    ensures ReachesTerminal(t, key) <==> Ends(t, key)
  {
    if k: nat :| FromEntry(t, key, k) { FromEntryExactly(t, key, k); }
    if k: nat :| FromTheEntry(t, key, k) {
      FromEntryExactly(t, key, k);
      assert FromEntry(t, key, k);
    }
    if k: nat :| ToTerminal(t, key, k) { ToTerminalExactly(t, key, k); }
    if k: nat :| ToATerminal(t, key, k) {
      ToTerminalExactly(t, key, k);
      assert ToTerminal(t, key, k);
    }
  }

  lemma ShapeExactly(t: Template)
    ensures ShapeOk(t) <==> SoundShape(t)
  {
    RegionsExactly(t);
    GatesExactly(t);
    ReplansExactly(t);
    CoverageIsTheTable(t);
    forall n | n in t.nodes
      ensures LoopNodeOk(t, n) <==> SoundPolicy(t, n)
      ensures ParentOk(t, n) <==> SoundParent(t, n)
    {
      PolicyExactly(t, n);
    }
    forall e | e in t.edges ensures LoopBackOk(t, e) <==> SoundLoopBack(t, e) { }
  }

  lemma PolicyExactly(t: Template, n: Node)
    ensures LoopNodeOk(t, n) <==> SoundPolicy(t, n)
    ensures ParentOk(t, n) <==> SoundParent(t, n)
  {
    forall key: Key ensures KnownKey(t, key) <==> key in NodeKeys(t) { KnownIs(t, key); }
  }

  /** A template is well formed, and so accepted, exactly when it is acceptable on its nodes and edges. */
  lemma AcceptedExactly(t: Template)
    ensures WellFormed(t) <==> Acceptable(t)
  {
    ReferencesExactly(t);
    EntryExactly(t);
    TerminalsExactly(t);
    ReachExactly(t);
    ShapeExactly(t);
  }
}
