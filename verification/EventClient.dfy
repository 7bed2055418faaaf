/**
 The event stream panel (apps/ui/src/EventStream.tsx): an authoritative snapshot, a live stream
 that may lose, repeat or reorder messages, and a merged list that is shown to the operator.
 */
module EventClient {
  import opened Sequences

  datatype Event = Event(eventId: string, sequence: nat, body: string)

  /** `last` is the run's last sequence; the events are read later and may include newer ones. */
  datatype Snapshot = Snapshot(last: nat, events: seq<Event>)

  datatype Client = Client(
    run: string,
    audits: map<string, Snapshot>,
    liveRun: string,
    live: seq<Event>,
    sourceRun: string,
    open: bool,
    expected: nat
  )

  const IDLE := Client("", map[], "", [], "", false, 0)

  // ---------------------------------------------------------------- what is shown

  ghost predicate UniqueIds(s: seq<Event>) {
    forall i, j :: 0 <= i < j < |s| ==> s[i].eventId != s[j].eventId
  }

  ghost predicate Ascending(s: seq<Event>) {
    forall i, j :: 0 <= i < j < |s| ==> s[i].sequence <= s[j].sequence
  }

  /** Setting a key of a `Map`: a repeated key keeps its place and takes the new value. */
  function Put(s: seq<Event>, e: Event): (r: seq<Event>)
    ensures UniqueIds(s) ==> UniqueIds(r) && forall x :: x in r <==> x == e || (x in s && x.eventId != e.eventId)
  {
    if s == [] then [e]
    else if s[0].eventId == e.eventId then [e] + s[1..]
    else [s[0]] + Put(s[1..], e)
  }

  function ById(events: seq<Event>): (r: seq<Event>)
    ensures UniqueIds(r)
  {
    if events == [] then [] else Put(ById(events[..|events| - 1]), events[|events| - 1])
  }

  function Insert(s: seq<Event>, e: Event): (r: seq<Event>)
    ensures forall x :: x in r <==> x in s || x == e
  {
    if s == [] || s[|s| - 1].sequence <= e.sequence then s + [e]
    else
      var n := |s| - 1;
      assert s == s[..n] + [s[n]];
      Insert(s[..n], e) + [s[n]]
  }

  lemma {:induction false} InsertKeepsOrder(s: seq<Event>, e: Event)
    requires Ascending(s)
    ensures Ascending(Insert(s, e))
  {
    if s != [] && s[|s| - 1].sequence > e.sequence {
      var n := |s| - 1;
      InsertKeepsOrder(s[..n], e);
      var r := Insert(s[..n], e);
      forall i | 0 <= i < |r| ensures r[i].sequence <= s[n].sequence {
        assert r[i] in r;
      }
    }
  }

  lemma {:induction false} InsertKeepsIds(s: seq<Event>, e: Event)
    requires UniqueIds(s) && forall x :: x in s ==> x.eventId != e.eventId
    ensures UniqueIds(Insert(s, e))
  {
    if s != [] && s[|s| - 1].sequence > e.sequence {
      var n := |s| - 1;
      InsertKeepsIds(s[..n], e);
      var r := Insert(s[..n], e);
      assert s[n] in s;
      forall i | 0 <= i < |r| ensures r[i].eventId != s[n].eventId {
        assert r[i] in r;
      }
    }
  }

  function BySequence(s: seq<Event>): (r: seq<Event>)
    ensures forall x :: x in r <==> x in s
  {
    if s == [] then []
    else
      assert s == s[..|s| - 1] + [s[|s| - 1]];
      Insert(BySequence(s[..|s| - 1]), s[|s| - 1])
  }

  lemma {:induction false} SortedById(s: seq<Event>)
    requires UniqueIds(s)
    ensures Ascending(BySequence(s)) && UniqueIds(BySequence(s))
  {
    if s != [] {
      var rest, e := s[..|s| - 1], s[|s| - 1];
      SortedById(rest);
      InsertKeepsOrder(BySequence(rest), e);
      InsertKeepsIds(BySequence(rest), e);
    }
  }

  function Live(c: Client, run: string): seq<Event> {
    if c.liveRun == run then c.live else []
  }

  function Fetched(c: Client, run: string): seq<Event> {
    if run in c.audits then c.audits[run].events else []
  }

  /** Lines 27-33: snapshot and live events merged by id and sorted by sequence. */
  function Displayed(c: Client): seq<Event> {
    BySequence(ById(Fetched(c, c.run) + Live(c, c.run)))
  }

  // ---------------------------------------------------------------- the handlers

  function Accepted(c: Client, e: Event): Client {
    c.(expected := e.sequence + 1, liveRun := c.sourceRun,
       live := Filter(Live(c, c.sourceRun), (item: Event) => item.eventId != e.eventId) + [e])
  }

  /** The `agent_event` handler: drop what is old, close on a gap, accept what is next. */
  function Heard(c: Client, e: Event): Client {
    if !c.open || e.sequence < c.expected then c
    else if e.sequence != c.expected then c.(open := false)
    else Accepted(c, e)
  }

  /** The effect body: a new source, starting after the snapshot. */
  function Connected(c: Client): Client {
    if c.run != "" && c.run in c.audits then c.(sourceRun := c.run, open := true, expected := c.audits[c.run].last + 1)
    else c.(open := false)
  }

  class Panel {
    var run: string
    var audits: map<string, Snapshot>
    var liveRun: string
    var live: seq<Event>
    var sourceRun: string
    var open: bool
    var expected: nat

    constructor ()
      ensures Contents() == IDLE
    {
      run, audits, liveRun, live := "", map[], "", [];
      sourceRun, open, expected := "", false, 0;
    }

    ghost function Contents(): Client
      reads this
    {
      Client(run, audits, liveRun, live, sourceRun, open, expected)
    }

    method OnAgentEvent(e: Event)
      modifies this
      ensures Contents() == Heard(old(Contents()), e)
    {
      if !open || e.sequence < expected {
        return;
      }
      if e.sequence != expected {
        open := false;
        return;
      }
      expected := e.sequence + 1;
      var kept: seq<Event> := [];
      if liveRun == sourceRun {
        kept := Filter(live, (item: Event) => item.eventId != e.eventId);
      }
      liveRun, live := sourceRun, kept + [e];
    }

    method OnEffect()
      modifies this`sourceRun, this`open, this`expected
      ensures Contents() == Connected(old(Contents()))
    {
      open := false;
      if run != "" && run in audits {
        sourceRun, open, expected := run, true, audits[run].last + 1;
      }
    }
  }

  // ---------------------------------------------------------------- runs against a server

  datatype System = System(logs: map<string, seq<Event>>, client: Client)

  datatype Step =
    | Append(run: string, eventId: string, body: string)
    | Fetch(run: string, last: nat, count: nat)
    | Select(run: string)
    | Connect
    | Close
    | Message(position: nat)

  function Log(s: System, run: string): seq<Event> {
    if run in s.logs then s.logs[run] else []
  }

  predicate Answers(s: System, run: string, last: nat, count: nat) {
    last <= count <= |Log(s, run)|
  }

  function Take(s: System, run: string, last: nat, count: nat): System
    requires Answers(s, run, last, count)
  {
    s.(client := s.client.(audits := s.client.audits[run := Snapshot(last, Log(s, run)[..count])]))
  }

  function Next(s: System, step: Step): System {
    match step
    case Append(run, eventId, body) =>
      var log := Log(s, run);
      if exists e :: e in log && e.eventId == eventId then s
      else s.(logs := s.logs[run := log + [Event(eventId, |log| + 1, body)]])
    case Fetch(run, last, count) =>
      if Answers(s, run, last, count) && |Fetched(s.client, run)| <= count then Take(s, run, last, count) else s
    case Select(run) => s.(client := s.client.(run := run))
    case Connect => s.(client := Connected(s.client))
    case Close => s.(client := s.client.(open := false))
    case Message(position) =>
      var log := Log(s, s.client.sourceRun);
      if position < |log| then s.(client := Heard(s.client, log[position])) else s
  }

  const START := System(map[], IDLE)

  function Run(steps: seq<Step>): System {
    if steps == [] then START else Next(Run(steps[..|steps| - 1]), steps[|steps| - 1])
  }

  // ---------------------------------------------------------------- the invariant

  ghost predicate LogOk(log: seq<Event>) {
    UniqueIds(log) && forall i :: 0 <= i < |log| ==> log[i].sequence == i + 1
  }

  predicate HasSequence(events: seq<Event>, n: nat) {
    exists e :: e in events && e.sequence == n
  }

  ghost predicate FromLog(events: seq<Event>, log: seq<Event>) {
    forall e :: e in events ==> e in log
  }

  /** Every live event is in the snapshot, next after it, or preceded by another live event. */
  ghost predicate Gapless(count: nat, live: seq<Event>) {
    forall e :: e in live && e.sequence > count + 1 ==> HasSequence(live, e.sequence - 1)
  }

  ghost predicate RunOk(s: System, run: string) {
    var log, live := Log(s, run), Live(s.client, run);
    && LogOk(log) && FromLog(live, log) && Gapless(|Fetched(s.client, run)|, live)
    && |Fetched(s.client, run)| <= |log| && Fetched(s.client, run) == log[..|Fetched(s.client, run)|]
    && (run in s.client.audits ==> s.client.audits[run].last <= |Fetched(s.client, run)|)
  }

  /** Everything before `expected` is on the screen of the run the source belongs to. */
  ghost predicate CaughtUp(c: Client) {
    c.open ==> c.expected <= |Fetched(c, c.sourceRun)| + 1 || HasSequence(Live(c, c.sourceRun), c.expected - 1)
  }

  ghost predicate Inv(s: System) {
    CaughtUp(s.client) && forall run :: RunOk(s, run)
  }

  lemma AppendKeepsInv(s: System, run: string, eventId: string, body: string)
    requires Inv(s)
    ensures Inv(Next(s, Append(run, eventId, body)))
  {
    var t := Next(s, Append(run, eventId, body));
    forall r ensures RunOk(t, r) {
      assert RunOk(s, r);
      if Log(t, r) != Log(s, r) { LongerLog(s, t, r, Event(eventId, |Log(s, r)| + 1, body)); }
    }
  }

  lemma LongerLog(s: System, t: System, run: string, e: Event)
    requires RunOk(s, run) && t.client == s.client && Log(t, run) == Log(s, run) + [e]
    requires e.sequence == |Log(s, run)| + 1 && forall x :: x in Log(s, run) ==> x.eventId != e.eventId
    ensures RunOk(t, run)
  {
    var n := |Fetched(s.client, run)|;
    assert Log(t, run)[..n] == Log(s, run)[..n];
  }

  lemma FetchKeepsInv(s: System, run: string, last: nat, count: nat)
    requires Inv(s) && Answers(s, run, last, count) && |Fetched(s.client, run)| <= count
    ensures Inv(Take(s, run, last, count))
  {
    var t := Take(s, run, last, count);
    forall r ensures RunOk(t, r) {
      assert RunOk(s, r);
    }
  }

  lemma AcceptKeepsGapless(c: Client, e: Event, log: seq<Event>)
    requires var live := Live(c, c.sourceRun); FromLog(live, log) && Gapless(|Fetched(c, c.sourceRun)|, live)
    requires CaughtUp(c) && c.open && e.sequence == c.expected && e in log && LogOk(log)
    ensures var t := Accepted(c, e);
            && FromLog(t.live, log) && Gapless(|Fetched(c, c.sourceRun)|, t.live) && HasSequence(t.live, e.sequence)
  {
    var live := Live(c, c.sourceRun);
    var t := Accepted(c, e);
    FilterMembers(live, (item: Event) => item.eventId != e.eventId);
    assert e in t.live;
    forall n | HasSequence(live, n) ensures HasSequence(t.live, n) {
      var x :| x in live && x.sequence == n;
      if x.eventId == e.eventId { OneEventPerId(log, x, e); }
      assert x in t.live;
    }
  }

  lemma OneEventPerId(log: seq<Event>, a: Event, b: Event)
    requires LogOk(log) && a in log && b in log && a.eventId == b.eventId
    ensures a == b
  {
    var i :| 0 <= i < |log| && log[i] == a;
    var j :| 0 <= j < |log| && log[j] == b;
    assert i == j;
  }

  lemma AcceptKeepsRun(s: System, e: Event, run: string)
    requires RunOk(s, run) && (run == s.client.sourceRun ==> CaughtUp(s.client) && s.client.open && e in Log(s, run))
    requires e.sequence == s.client.expected
    ensures RunOk(s.(client := Accepted(s.client, e)), run)
  {
    var t := s.(client := Accepted(s.client, e));
    assert Fetched(t.client, run) == Fetched(s.client, run) && Log(t, run) == Log(s, run);
    if run == s.client.sourceRun {
      AcceptKeepsGapless(s.client, e, Log(s, run));
      assert Live(t.client, run) == t.client.live;
    } else {
      assert Live(t.client, run) == [];
    }
  }

  lemma MessageKeepsInv(s: System, e: Event)
    requires Inv(s) && e in Log(s, s.client.sourceRun)
    ensures Inv(s.(client := Heard(s.client, e)))
  {
    var c := s.client;
    var t := s.(client := Heard(c, e));
    if c.open && e.sequence == c.expected {
      forall run ensures RunOk(t, run) {
        assert RunOk(s, run);
        AcceptKeepsRun(s, e, run);
      }
      assert RunOk(s, c.sourceRun);
      AcceptKeepsGapless(c, e, Log(s, c.sourceRun));
    } else {
      ClientOnly(s, t);
    }
  }

  lemma StepKeepsInv(s: System, step: Step)
    requires Inv(s)
    ensures Inv(Next(s, step))
  {
    match step
    case Append(run, eventId, body) => AppendKeepsInv(s, run, eventId, body);
    case Fetch(run, last, count) =>
      if Answers(s, run, last, count) && |Fetched(s.client, run)| <= count { FetchKeepsInv(s, run, last, count); }
    case Message(position) =>
      var log := Log(s, s.client.sourceRun);
      if position < |log| { MessageKeepsInv(s, log[position]); }
    case Connect =>
      assert RunOk(s, s.client.run);
      ClientOnly(s, Next(s, step));
    case _ => ClientOnly(s, Next(s, step));
  }

  lemma ClientOnly(s: System, t: System)
    requires Inv(s) && t.logs == s.logs && CaughtUp(t.client)
    requires t.client.audits == s.client.audits && t.client.live == s.client.live &&
              t.client.liveRun == s.client.liveRun
    ensures Inv(t)
  {
    forall r ensures RunOk(t, r) { assert RunOk(s, r); }
  }

  lemma {:induction false} RunKeepsInv(steps: seq<Step>)
    ensures Inv(Run(steps))
  {
    if steps != [] {
      RunKeepsInv(steps[..|steps| - 1]);
      StepKeepsInv(Run(steps[..|steps| - 1]), steps[|steps| - 1]);
    }
  }

  // ---------------------------------------------------------------- what the operator sees

  lemma {:induction false} ByIdMembers(events: seq<Event>, log: seq<Event>)
    requires LogOk(log) && FromLog(events, log)
    ensures forall x :: x in ById(events) <==> x in events
  {
    if events != [] {
      var rest, e := events[..|events| - 1], events[|events| - 1];
      assert events == rest + [e];
      ByIdMembers(rest, log);
      forall x | x in rest && x.eventId == e.eventId ensures x == e { OneEventPerId(log, x, e); }
    }
  }

  /** The only ascending duplicate-free list of the first `k` events of a log is its prefix. */
  lemma {:induction false} SortedPrefix(d: seq<Event>, log: seq<Event>, k: nat)
    requires LogOk(log) && k <= |log| && Ascending(d) && UniqueIds(d)
    requires forall x :: x in d <==> x in log && x.sequence <= k
    ensures d == log[..k]
  {
    if k == 0 {
      Nonempty(d);
    } else {
      var e := log[k - 1];
      assert e in d;
      var n := |d| - 1;
      assert d[n] in d;
      assert d[n] == e;
      var rest := d[..n];
      assert d == rest + [e];
      assert e !in rest;
      forall x ensures x in rest <==> x in log && x.sequence <= k - 1 {
        if x in log && x.sequence == k { assert x == e; }
      }
      SortedPrefix(rest, log, k - 1);
    }
  }

  ghost predicate Covered(count: nat, live: seq<Event>, n: nat) {
    n <= count || HasSequence(live, n)
  }

  ghost function Top(count: nat, live: seq<Event>, bound: nat): nat {
    if Covered(count, live, bound) || bound == 0 then bound else Top(count, live, bound - 1)
  }

  lemma {:induction false} CoveredUpToTop(count: nat, live: seq<Event>, bound: nat, n: nat)
    requires Gapless(count, live) && count <= bound && 1 <= n <= bound
    ensures count <= Top(count, live, bound) <= bound
    ensures Covered(count, live, n) <==> n <= Top(count, live, bound)
  {
    if Covered(count, live, bound) {
      CoveredBelow(count, live, bound, n);
    } else if n < bound {
      CoveredUpToTop(count, live, bound - 1, n);
    } else if bound > 1 {
      CoveredUpToTop(count, live, bound - 1, bound - 1);
    }
  }

  lemma {:induction false} CoveredBelow(count: nat, live: seq<Event>, m: nat, n: nat)
    requires Gapless(count, live) && Covered(count, live, m) && 1 <= n <= m
    ensures Covered(count, live, n)
    decreases m
  {
    if n < m { CoveredBelow(count, live, m - 1, n); }
  }

  /** One event of the log is on the screen exactly when the snapshot or the live list has its sequence. */
  lemma ShownWhenCovered(fetched: seq<Event>, live: seq<Event>, log: seq<Event>, x: Event)
    requires LogOk(log) && FromLog(live, log) && |fetched| <= |log| && fetched == log[..|fetched|] && x in log
    ensures x in fetched || x in live <==> Covered(|fetched|, live, x.sequence)
  {
    var i :| 0 <= i < |log| && log[i] == x;
    assert i < |fetched| ==> fetched[i] == x;
    if x in fetched {
      var j :| 0 <= j < |fetched| && fetched[j] == x;
      assert log[j] == x;
    }
    if HasSequence(live, x.sequence) {
      var y :| y in live && y.sequence == x.sequence;
      assert y in log;
    }
  }

  lemma DisplayedMembers(c: Client, log: seq<Event>)
    requires LogOk(log) && FromLog(Live(c, c.run), log)
    requires |Fetched(c, c.run)| <= |log| && Fetched(c, c.run) == log[..|Fetched(c, c.run)|]
    ensures Ascending(Displayed(c)) && UniqueIds(Displayed(c))
    ensures forall x :: x in Displayed(c) <==> x in log && Covered(|Fetched(c, c.run)|, Live(c, c.run), x.sequence)
  {
    var fetched, live := Fetched(c, c.run), Live(c, c.run);
    assert FromLog(fetched + live, log);
    ByIdMembers(fetched + live, log);
    SortedById(ById(fetched + live));
    forall x ensures x in Displayed(c) <==> x in log && Covered(|fetched|, live, x.sequence) {
      assert x in Displayed(c) <==> x in fetched || x in live;
      if x in log { ShownWhenCovered(fetched, live, log, x); }
    }
  }

  lemma GaplessIsAPrefix(c: Client, log: seq<Event>)
    requires LogOk(log) && FromLog(Live(c, c.run), log) && Gapless(|Fetched(c, c.run)|, Live(c, c.run))
    requires |Fetched(c, c.run)| <= |log| && Fetched(c, c.run) == log[..|Fetched(c, c.run)|]
    ensures var k := Top(|Fetched(c, c.run)|, Live(c, c.run), |log|);
            |Fetched(c, c.run)| <= k <= |log| && Displayed(c) == log[..k]
  {
    var count, live := |Fetched(c, c.run)|, Live(c, c.run);
    var k := Top(count, live, |log|);
    DisplayedMembers(c, log);
    if |log| > 0 { CoveredUpToTop(count, live, |log|, |log|); }
    forall x ensures x in Displayed(c) <==> x in log && x.sequence <= k {
      if x in log { CoveredUpToTop(count, live, |log|, x.sequence); }
    }
    SortedPrefix(Displayed(c), log, k);
  }

  /**
   In every reachable state the operator sees a prefix of the log: at least the snapshot, and at
   least everything the open source has moved past.
   */
  lemma DisplayIsAPrefix(steps: seq<Step>)
    ensures var s := Run(steps); ShowsPrefix(s.client, Log(s, s.client.run))
  {
    RunKeepsInv(steps);
    InvShows(Run(steps));
  }

  ghost predicate ShowsPrefix(c: Client, log: seq<Event>) {
    var shown := Displayed(c);
    && |Fetched(c, c.run)| <= |shown| <= |log| && shown == log[..|shown|]
    && (c.open && c.sourceRun == c.run ==> c.expected <= |shown| + 1)
  }

  lemma InvShows(s: System)
    requires Inv(s)
    ensures ShowsPrefix(s.client, Log(s, s.client.run))
  {
    assert RunOk(s, s.client.run);
    GaplessIsAPrefix(s.client, Log(s, s.client.run));
    if s.client.open && s.client.sourceRun == s.client.run { CaughtUpIsShown(s.client, Log(s, s.client.run)); }
  }

  lemma CaughtUpIsShown(c: Client, log: seq<Event>)
    requires LogOk(log) && FromLog(Live(c, c.run), log) && Gapless(|Fetched(c, c.run)|, Live(c, c.run))
    requires |Fetched(c, c.run)| <= |log| && CaughtUp(c) && c.open && c.sourceRun == c.run
    ensures c.expected <= Top(|Fetched(c, c.run)|, Live(c, c.run), |log|) + 1
  {
    var count, live := |Fetched(c, c.run)|, Live(c, c.run);
    if |log| > 0 { CoveredUpToTop(count, live, |log|, |log|); }
    if c.expected > count + 1 {
      var e :| e in live && e.sequence == c.expected - 1;
      assert e in log;
      CoveredUpToTop(count, live, |log|, e.sequence);
    }
  }

  /** From any reachable state, a gap included, one current snapshot and a reconnect show everything. */
  lemma RecoveryCatchesUp(steps: seq<Step>)
    requires Run(steps).client.run != ""
    ensures var s := Run(steps);
            var run, n := s.client.run, |Log(s, s.client.run)|;
            var t := Next(Next(s, Fetch(run, n, n)), Connect);
            && Displayed(t.client) == Log(t, run) == Log(s, run)
            && t.client.open && t.client.sourceRun == run && t.client.expected == n + 1
  {
    RunKeepsInv(steps);
    CatchUp(Run(steps));
  }

  lemma CatchUp(s: System)
    requires Inv(s) && s.client.run != ""
    ensures var run, n := s.client.run, |Log(s, s.client.run)|;
            var t := Next(Next(s, Fetch(run, n, n)), Connect);
            && Displayed(t.client) == Log(t, run) == Log(s, run)
            && t.client.open && t.client.sourceRun == run && t.client.expected == n + 1
  {
    var run, n := s.client.run, |Log(s, s.client.run)|;
    assert RunOk(s, run);
    var s1 := Next(s, Fetch(run, n, n));
    assert s1 == Take(s, run, n, n);
    StepKeepsInv(s, Fetch(run, n, n));
    var t := Next(s1, Connect);
    StepKeepsInv(s1, Connect);
    InvShows(t);
    assert Log(t, run) == Log(s, run) && |Fetched(t.client, run)| == n;
  }

  /** No event is ever twice in the live list, however often it is delivered. */
  lemma {:induction false} LiveHoldsEachOnce(steps: seq<Step>)
    ensures UniqueIds(Run(steps).client.live)
  {
    if steps != [] {
      var s, step := Run(steps[..|steps| - 1]), steps[|steps| - 1];
      LiveHoldsEachOnce(steps[..|steps| - 1]);
      if step.Message? && step.position < |Log(s, s.client.sourceRun)| {
        AcceptKeepsIds(s.client, Log(s, s.client.sourceRun)[step.position]);
      }
    }
  }

  lemma AcceptKeepsIds(c: Client, e: Event)
    requires UniqueIds(c.live)
    ensures UniqueIds(Heard(c, e).live)
  {
    var keep := (item: Event) => item.eventId != e.eventId;
    var kept := Filter(Live(c, c.sourceRun), keep);
    FilterKeepsIds(Live(c, c.sourceRun), keep);
    FilterMembers(Live(c, c.sourceRun), keep);
    assert forall i :: 0 <= i < |kept| ==> kept[i] in kept;
  }

  lemma {:induction false} FilterKeepsIds(s: seq<Event>, keep: Event -> bool)
    requires UniqueIds(s)
    ensures UniqueIds(Filter(s, keep))
  {
    if s != [] {
      var rest, last := s[..|s| - 1], s[|s| - 1];
      FilterKeepsIds(rest, keep);
      FilterMembers(rest, keep);
      var kept := Filter(rest, keep);
      forall i | 0 <= i < |kept| ensures kept[i].eventId != last.eventId {
        assert kept[i] in kept;
        var j :| 0 <= j < |rest| && rest[j] == kept[i];
      }
    }
  }

  // ---------------------------------------------------------------- what the stream brings

  /** The events after those the source has moved past, delivered in order up to `m`. */
  function Delivered(s: System, m: nat): System
    decreases m
  {
    if m == 0 || m < s.client.expected then s else Next(Delivered(s, m - 1), Message(m - 1))
  }

  /** The source of the selected run is open, and has moved past the first `m` events. */
  predicate Past(s: System, t: System, m: nat) {
    && t.logs == s.logs && t.client.run == s.client.run == t.client.sourceRun
    && t.client.open && t.client.expected == m + 1
  }

  /** The next event is taken: the source stays open and waits for the one after it. */
  lemma NextIsTaken(s: System, t: System, m: nat)
    requires Past(s, t, m) && LogOk(Log(s, s.client.run)) && m < |Log(s, s.client.run)|
    ensures Past(s, Next(t, Message(m)), m + 1)
  {
    assert Log(t, t.client.sourceRun)[m].sequence == t.client.expected;
  }

  lemma {:induction false} DeliveryIsTaken(s: System, m: nat)
    requires s.client.open && s.client.sourceRun == s.client.run && LogOk(Log(s, s.client.run))
    requires 0 <= s.client.expected - 1 <= m <= |Log(s, s.client.run)|
    ensures Past(s, Delivered(s, m), m)
    decreases m
  {
    if m >= s.client.expected {
      DeliveryIsTaken(s, m - 1);
      NextIsTaken(s, Delivered(s, m - 1), m - 1);
    }
  }

  lemma {:induction false} DeliveryKeepsInv(s: System, m: nat)
    requires Inv(s)
    ensures Inv(Delivered(s, m))
    decreases m
  {
    if m > 0 && m >= s.client.expected {
      DeliveryKeepsInv(s, m - 1);
      StepKeepsInv(Delivered(s, m - 1), Message(m - 1));
    }
  }

  /**
   From every reachable state with an open source on the selected run: events delivered in order
   are all shown, and the source stays open behind them.
   */
  lemma DeliveryIsShown(steps: seq<Step>, m: nat)
    requires var s := Run(steps);
             && s.client.open && s.client.sourceRun == s.client.run
             && 0 <= s.client.expected - 1 <= m <= |Log(s, s.client.run)|
    ensures var s := Run(steps);
            var t := Delivered(s, m);
            && |Displayed(t.client)| >= m && Displayed(t.client) <= Log(s, s.client.run)
            && t.client.open && t.client.expected == m + 1
  {
    var s := Run(steps);
    RunKeepsInv(steps);
    assert RunOk(s, s.client.run);
    DeliveryIsTaken(s, m);
    DeliveryKeepsInv(s, m);
    InvShows(Delivered(s, m));
  }

  /** An event the source has moved past changes nothing; one it does not expect yet closes it, and nothing else. */
  lemma OthersAreNotTaken(s: System, position: nat)
    requires Inv(s) && position < |Log(s, s.client.sourceRun)| && s.client.open && position + 1 != s.client.expected
    ensures Next(s, Message(position)) ==
            if position + 1 < s.client.expected then s else s.(client := s.client.(open := false))
  {
    assert RunOk(s, s.client.sourceRun);
  }

  /** A new source expects the event after the last one the snapshot is known to have. */
  lemma SourceStartsAfterSnapshot(s: System)
    requires s.client.run != "" && s.client.run in s.client.audits
    ensures var t := Next(s, Connect);
            t == s.(client := s.client.(sourceRun := s.client.run, open := true,
                                        expected := s.client.audits[s.client.run].last + 1))
  {
  }

  /**
   Snapshots that never shrink are what this rests on. Taking a snapshot of any size keeps the
   display a prefix exactly when every live event beyond it still has its predecessor live.
   */
  lemma SnapshotKeepsPrefixExactly(steps: seq<Step>, last: nat, count: nat)
    requires var s := Run(steps); Answers(s, s.client.run, last, count)
    ensures var s := Run(steps);
            var t := Take(s, s.client.run, last, count);
            Displayed(t.client) <= Log(t, t.client.run) <==> Gapless(count, Live(s.client, s.client.run))
  {
    RunKeepsInv(steps);
    var s := Run(steps);
    assert RunOk(s, s.client.run);
    var t := Take(s, s.client.run, last, count);
    var c, log := t.client, Log(t, t.client.run);
    var live := Live(c, c.run);
    if Gapless(count, live) {
      GaplessIsAPrefix(c, log);
    }
    if Displayed(c) <= log {
      DisplayedMembers(c, log);
      forall e | e in live && e.sequence > count + 1 ensures HasSequence(live, e.sequence - 1) {
        PredecessorShown(Displayed(c), log, e);
      }
    }
  }

  lemma PredecessorShown(shown: seq<Event>, log: seq<Event>, e: Event)
    requires LogOk(log) && shown <= log && e in shown && e.sequence > 1
    ensures e.sequence - 2 < |log| && log[e.sequence - 2] in shown && log[e.sequence - 2].sequence == e.sequence - 1
  {
    var i :| 0 <= i < |shown| && shown[i] == e;
    assert log[i] == e;
    assert shown[i - 1] == log[i - 1];
  }

  lemma RunSnoc(steps: seq<Step>, step: Step)
    ensures Run(steps + [step]) == Next(Run(steps), step)
  {
    assert (steps + [step])[..|steps|] == steps;
  }

  function Appended(log: seq<Event>): seq<Step> {
    if log == [] then []
    else Appended(log[..|log| - 1]) + [Append("run", log[|log| - 1].eventId, log[|log| - 1].body)]
  }

  /** Only this log, and a client that has done nothing yet. */
  ghost predicate Logged(s: System, log: seq<Event>) {
    Log(s, "run") == log && s.client == IDLE
  }

  lemma {:induction false} AppendedLog(log: seq<Event>)
    requires LogOk(log)
    ensures Logged(Run(Appended(log)), log)
  {
    if log != [] {
      var rest, e := log[..|log| - 1], log[|log| - 1];
      AppendedLog(rest);
      RunSnoc(Appended(rest), Append("run", e.eventId, e.body));
      assert log == rest + [e];
    }
  }

  /** Three events, a snapshot of two, and the third over the stream. */
  const EVENTS := [Event("a", 1, ""), Event("b", 2, ""), Event("c", 3, "")]

  function ThreeEvents(): seq<Step> {
    Appended(EVENTS) + [Select("run")] + [Fetch("run", 2, 2)] + [Connect] + [Message(2)]
  }

  lemma ThreeEventsRun()
    ensures var s := Run(ThreeEvents());
            Log(s, "run") == EVENTS && s.client.run == "run" && Live(s.client, "run") == [EVENTS[2]]
  {
    AppendedLog(EVENTS);
    Watch(Appended(EVENTS));
  }

  lemma Watch(p: seq<Step>)
    requires Logged(Run(p), EVENTS)
    ensures var s := Run(p + [Select("run")] + [Fetch("run", 2, 2)] + [Connect] + [Message(2)]);
            Log(s, "run") == EVENTS && s.client.run == "run" && Live(s.client, "run") == [EVENTS[2]]
  {
    var p4 := p + [Select("run")];
    var p5 := p4 + [Fetch("run", 2, 2)];
    var p6 := p5 + [Connect];
    RunSnoc(p, Select("run"));
    RunSnoc(p4, Fetch("run", 2, 2));
    RunSnoc(p5, Connect);
    RunSnoc(p6, Message(2));
    var c := Client("run", map["run" := Snapshot(2, EVENTS[..2])], "", [], "", false, 0);
    assert Run(p5).client == c && Log(Run(p5), "run") == EVENTS;
    var d := c.(sourceRun := "run", open := true, expected := 3);
    assert Run(p6).client == d && Log(Run(p6), "run") == EVENTS;
    assert Heard(d, EVENTS[2]) == Accepted(d, EVENTS[2]);
  }

  /** A snapshot that shrinks to one event then shows the first and the third, and not the second. */
  lemma ShrunkSnapshotShowsAGap()
    ensures var s := Run(ThreeEvents());
            Answers(s, s.client.run, 1, 1) && !(Displayed(Take(s, s.client.run, 1, 1).client) <= Log(s, s.client.run))
  {
    ThreeEventsRun();
    SnapshotKeepsPrefixExactly(ThreeEvents(), 1, 1);
    assert EVENTS[2] in Live(Run(ThreeEvents()).client, "run");
    assert !HasSequence([EVENTS[2]], 2);
  }
}
