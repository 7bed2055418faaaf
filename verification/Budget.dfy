/**
 The bundle budget (apps/ui/budget/evaluate.ts): which chunks a first visit loads, what they
 weigh, and the rules a build has to meet.
 */
module Budget {
  import opened Sequences
  import opened Reachability

  datatype Sized = Sized(fileName: string, bytes: nat, gzipBytes: nat)

  datatype Chunk = Chunk(
    size: Sized, name: string, isEntry: bool, isDynamicEntry: bool,
    imports: seq<string>, moduleIds: seq<string>, css: seq<Sized>
  ) {
    function FileName(): string { size.fileName }
  }

  datatype Expectation = Expectation(pattern: string -> bool, chunkName: string)

  datatype Limits = Limits(
    perChunkRaw: nat, initialJsRaw: nat, initialJsGzip: nat, initialCssRaw: nat, initialCssGzip: nat,
    lazyOnly: string -> bool, lazyOnlyChunkName: string, grouping: seq<Expectation>
  )

  datatype RuleId =
    PerChunkRaw(chunk: nat) | InitialJsRaw | InitialJsGzip | InitialCssRaw | InitialCssGzip
      | ChunkOf(expectation: nat) | LazyOnly

  datatype Rule = Rule(id: RuleId, pass: bool)
  datatype Totals = Totals(jsRaw: nat, jsGzip: nat, cssRaw: nat, cssGzip: nat)
  datatype Report = Report(pass: bool, rules: seq<Rule>, initial: set<string>, totals: Totals)

  // ---------------------------------------------------------------- the import graph

  ghost predicate UniqueFileNames(chunks: seq<Chunk>) {
    forall i, j :: 0 <= i < j < |chunks| ==> chunks[i].FileName() != chunks[j].FileName()
  }

  /** `new Map(chunks.map(...))`. */
  function ByFileName(chunks: seq<Chunk>): map<string, Chunk> {
    if chunks == [] then map[]
    else ByFileName(chunks[..|chunks| - 1])[chunks[|chunks| - 1].FileName() := chunks[|chunks| - 1]]
  }

  lemma {:induction false} ByFileNameFinds(chunks: seq<Chunk>)
    requires UniqueFileNames(chunks)
    ensures forall c :: c in chunks ==> c.FileName() in ByFileName(chunks) && ByFileName(chunks)[c.FileName()] == c
    ensures forall n :: n in ByFileName(chunks) ==>
              ByFileName(chunks)[n] in chunks && ByFileName(chunks)[n].FileName() == n
  {
    if chunks != [] {
      var rest, last := chunks[..|chunks| - 1], chunks[|chunks| - 1];
      assert chunks == rest + [last];
      ByFileNameFinds(rest);
    }
  }

  ghost function FileNames(chunks: seq<Chunk>): set<string> {
    set c | c in chunks :: c.FileName()
  }

  /** Static imports between chunks; names that resolve to no chunk lead nowhere. */
  ghost function StaticImports(chunks: seq<Chunk>): Successors<Key> {
    var files := ByFileName(chunks);
    map n | n in files :: Filter(files[n].imports, f => f in files)
  }

  ghost function Entries(chunks: seq<Chunk>): set<Key> {
    set c | c in chunks && c.isEntry :: c.FileName()
  }

  ghost predicate Initial(chunks: seq<Chunk>, fileName: string) {
    Reachable(StaticImports(chunks), Entries(chunks), fileName)
  }

  lemma ImportFollows(chunks: seq<Chunk>, c: Chunk, f: string)
    requires UniqueFileNames(chunks) && c in chunks
    ensures Follows(StaticImports(chunks), c.FileName(), f) <==> f in c.imports && f in ByFileName(chunks)
  {
    ByFileNameFinds(chunks);
    FilterMembers(c.imports, f => f in ByFileName(chunks));
  }

  ghost predicate AllInitial(chunks: seq<Chunk>, some: seq<Chunk>) {
    forall c :: c in some ==> c in chunks && Initial(chunks, c.FileName())
  }

  ghost predicate EntriesSeen(chunks: seq<Chunk>, closure: seq<Chunk>, queue: seq<Chunk>) {
    forall c :: c in chunks && c.isEntry ==> c in closure || c in queue
  }

  ghost predicate ImportsSeen(chunks: seq<Chunk>, c: Chunk, closure: seq<Chunk>, queue: seq<Chunk>) {
    forall d :: d in chunks && d.FileName() in c.imports ==> d in closure || d in queue
  }

  ghost predicate ClosureOk(chunks: seq<Chunk>, closure: seq<Chunk>, queue: seq<Chunk>) {
    && UniqueFileNames(closure) && AllInitial(chunks, closure) && AllInitial(chunks, queue)
    && EntriesSeen(chunks, closure, queue)
    && forall c :: c in closure ==> ImportsSeen(chunks, c, closure, queue)
  }

  /** `initialClosure`: breadth first over static imports, in the order chunks are first taken. */
  method InitialClosure(chunks: seq<Chunk>) returns (closure: seq<Chunk>)
    requires UniqueFileNames(chunks)
    ensures UniqueFileNames(closure)
    ensures forall c :: c in closure <==> c in chunks && Initial(chunks, c.FileName())
  {
    var files := ByFileName(chunks);
    ByFileNameFinds(chunks);
    closure := [];
    var reached: set<string> := {};
    var queue := Filter(chunks, (c: Chunk) => c.isEntry);
    FilterMembers(chunks, (c: Chunk) => c.isEntry);
    EntriesAreInitial(chunks);
    while queue != []
      invariant ClosureOk(chunks, closure, queue) && reached == FileNames(closure) && reached <= files.Keys
      decreases files.Keys - reached, |queue|
    {
      var chunk, rest := queue[0], queue[1..];
      assert queue == [chunk] + rest && chunk in queue;
      if chunk.FileName() in reached {
        SkipSeen(chunks, closure, chunk, rest);
        queue := rest;
      } else {
        var more := Unreached(files, chunk.imports, reached + {chunk.FileName()});
        MoreAreInitial(chunks, chunk, reached + {chunk.FileName()}, more);
        TakeNext(chunks, closure, chunk, rest, more);
        closure, reached, queue := closure + [chunk], reached + {chunk.FileName()}, rest + more;
      }
    }
    ClosureIsComplete(chunks, closure);
  }

  /** The inner loop: the imports that resolve and have not been taken. */
  method Unreached(files: map<string, Chunk>, imports: seq<string>, reached: set<string>) returns (more: seq<Chunk>)
    ensures forall c :: c in more ==> c in files.Values && exists f :: f in imports && f in files && files[f] == c
    ensures forall f :: f in imports && f in files && files[f].FileName() !in reached ==> files[f] in more
  {
    more := [];
    for i := 0 to |imports|
      invariant forall c :: c in more ==> c in files.Values && exists f :: f in imports && f in files && files[f] == c
      invariant forall f :: f in imports[..i] && f in files && files[f].FileName() !in reached ==> files[f] in more
    {
      assert imports[..i + 1] == imports[..i] + [imports[i]];
      if imports[i] in files && files[imports[i]].FileName() !in reached {
        more := more + [files[imports[i]]];
      }
    }
    assert imports[..|imports|] == imports;
  }

  lemma EntriesAreInitial(chunks: seq<Chunk>)
    ensures forall c :: c in chunks && c.isEntry ==> Initial(chunks, c.FileName())
  {
    forall c | c in chunks && c.isEntry ensures Initial(chunks, c.FileName()) {
      assert Within(StaticImports(chunks), Entries(chunks), c.FileName(), 0);
    }
  }

  lemma ImportsAreInitial(chunks: seq<Chunk>, c: Chunk)
    requires UniqueFileNames(chunks) && c in chunks && Initial(chunks, c.FileName())
    ensures forall d :: d in chunks && d.FileName() in c.imports ==> Initial(chunks, d.FileName())
  {
    ByFileNameFinds(chunks);
    forall d | d in chunks && d.FileName() in c.imports ensures Initial(chunks, d.FileName()) {
      ImportFollows(chunks, c, d.FileName());
      ReachableStep(StaticImports(chunks), Entries(chunks), c.FileName(), d.FileName());
    }
  }

  lemma SameNameSameChunk(chunks: seq<Chunk>, a: Chunk, b: Chunk)
    requires UniqueFileNames(chunks) && a in chunks && b in chunks && a.FileName() == b.FileName()
    ensures a == b
  {
  }

  lemma SeenAlready(chunks: seq<Chunk>, closure: seq<Chunk>, chunk: Chunk)
    requires UniqueFileNames(chunks) && chunk in chunks && (forall c :: c in closure ==> c in chunks)
    requires chunk.FileName() in FileNames(closure)
    ensures chunk in closure
  {
    var c :| c in closure && c.FileName() == chunk.FileName();
    SameNameSameChunk(chunks, c, chunk);
  }

  lemma SkipSeen(chunks: seq<Chunk>, closure: seq<Chunk>, chunk: Chunk, rest: seq<Chunk>)
    requires UniqueFileNames(chunks) && ClosureOk(chunks, closure, [chunk] + rest) &&
              chunk.FileName() in FileNames(closure)
    ensures ClosureOk(chunks, closure, rest)
  {
    assert chunk in [chunk] + rest;
    SeenAlready(chunks, closure, chunk);
    forall c | c in closure ensures ImportsSeen(chunks, c, closure, rest) {
      assert ImportsSeen(chunks, c, closure, [chunk] + rest);
    }
  }

  /** Taking a chunk whose imports are all initial, and queueing those not yet taken. */
  lemma TakeNext(chunks: seq<Chunk>, closure: seq<Chunk>, chunk: Chunk, rest: seq<Chunk>, more: seq<Chunk>)
    requires UniqueFileNames(chunks) && ClosureOk(chunks, closure, [chunk] + rest) && AllInitial(chunks, more)
    requires chunk.FileName() !in FileNames(closure)
    requires var reached := FileNames(closure) + {chunk.FileName()};
             forall d :: d in chunks && d.FileName() in chunk.imports && d.FileName() !in reached ==> d in more
    ensures ClosureOk(chunks, closure + [chunk], rest + more)
    ensures FileNames(closure + [chunk]) == FileNames(closure) + {chunk.FileName()}
  {
    var queue, taken := [chunk] + rest, closure + [chunk];
    assert chunk in queue && chunk in chunks;
    assert forall c :: c in closure || c in queue ==> c in taken || c in rest + more;
    OwnImportsSeen(chunks, closure, chunk, more);
    assert ImportsSeen(chunks, chunk, taken, rest + more);
    forall c | c in closure ensures ImportsSeen(chunks, c, taken, rest + more) {
      assert ImportsSeen(chunks, c, closure, queue);
    }
    forall c | c in closure ensures c.FileName() != chunk.FileName() { assert c.FileName() in FileNames(closure); }
    assert UniqueFileNames(taken);
  }

  lemma OwnImportsSeen(chunks: seq<Chunk>, closure: seq<Chunk>, chunk: Chunk, more: seq<Chunk>)
    requires UniqueFileNames(chunks) && AllInitial(chunks, closure) && chunk in chunks
    requires var reached := FileNames(closure) + {chunk.FileName()};
             forall d :: d in chunks && d.FileName() in chunk.imports && d.FileName() !in reached ==> d in more
    ensures forall d :: d in chunks && d.FileName() in chunk.imports ==> d in closure || d == chunk || d in more
  {
    forall d | d in chunks && d.FileName() in chunk.imports ensures d in closure || d == chunk || d in more {
      if d.FileName() in FileNames(closure) {
        SeenAlready(chunks, closure, d);
      } else if d.FileName() == chunk.FileName() {
        SameNameSameChunk(chunks, d, chunk);
      }
    }
  }

  lemma MoreAreInitial(chunks: seq<Chunk>, chunk: Chunk, reached: set<string>, more: seq<Chunk>)
    requires UniqueFileNames(chunks) && chunk in chunks && Initial(chunks, chunk.FileName())
    requires var files := ByFileName(chunks);
             && (forall c :: c in more ==>
                   c in files.Values && exists f :: f in chunk.imports && f in files && files[f] == c)
             && (forall f :: f in chunk.imports && f in files && files[f].FileName() !in reached ==> files[f] in more)
    ensures AllInitial(chunks, more) && chunk.FileName() in ByFileName(chunks)
    ensures forall d :: d in chunks && d.FileName() in chunk.imports && d.FileName() !in reached ==> d in more
  {
    ByFileNameFinds(chunks);
    ImportsAreInitial(chunks, chunk);
  }

  lemma ClosureIsComplete(chunks: seq<Chunk>, closure: seq<Chunk>)
    requires UniqueFileNames(chunks) && ClosureOk(chunks, closure, [])
    ensures forall c :: c in chunks && Initial(chunks, c.FileName()) ==> c in closure
  {
    ByFileNameFinds(chunks);
    var next, names := StaticImports(chunks), FileNames(closure);
    forall u, v | u in names && Follows(next, u, v) ensures v in names {
      var c :| c in closure && c.FileName() == u;
      ImportFollows(chunks, c, v);
      assert ByFileName(chunks)[v] in closure;
    }
    ClosedHoldsReachable(next, Entries(chunks), names);
    forall c | c in chunks && Initial(chunks, c.FileName()) ensures c in closure {
      SeenAlready(chunks, closure, c);
    }
  }

  // ---------------------------------------------------------------- weights

  ghost predicate UniqueNames(items: seq<Sized>) {
    forall i, j :: 0 <= i < j < |items| ==> items[i].fileName != items[j].fileName
  }

  function Names(items: seq<Sized>): set<string> {
    set x | x in items :: x.fileName
  }

  datatype Unit = Raw | Gzip

  lemma NamesAppend(items: seq<Sized>, item: Sized)
    ensures Names(items + [item]) == Names(items) + {item.fileName}
  {
    assert forall x :: x in items + [item] <==> x in items || x == item;
  }

  function In(unit: Unit, item: Sized): nat {
    if unit == Raw then item.bytes else item.gzipBytes
  }

  function Sum(items: seq<Sized>, unit: Unit): nat {
    if items == [] then 0 else Sum(items[..|items| - 1], unit) + In(unit, items[|items| - 1])
  }

  /** The weight of the named items of a collection, each counted once. */
  ghost function Weight(items: seq<Sized>, names: set<string>, unit: Unit): nat {
    if items == [] then 0
    else
      var last := items[|items| - 1];
      Weight(items[..|items| - 1], names, unit) + if last.fileName in names then In(unit, last) else 0
  }

  lemma {:induction false} WeightGrows(items: seq<Sized>, few: set<string>, many: set<string>, unit: Unit)
    requires few <= many
    ensures Weight(items, few, unit) <= Weight(items, many, unit)
  {
    if items != [] { WeightGrows(items[..|items| - 1], few, many, unit); }
  }

  lemma {:induction false} WeightWithout(items: seq<Sized>, names: set<string>, name: string, unit: Unit)
    requires name !in Names(items)
    ensures Weight(items, names + {name}, unit) == Weight(items, names, unit)
  {
    if items != [] {
      assert items[|items| - 1] in items;
      WeightWithout(items[..|items| - 1], names, name, unit);
    }
  }

  lemma {:induction false} WeightWith(items: seq<Sized>, names: set<string>, item: Sized, unit: Unit)
    requires UniqueNames(items) && item in items && item.fileName !in names
    ensures Weight(items, names + {item.fileName}, unit) == Weight(items, names, unit) + In(unit, item)
  {
    var n := |items| - 1;
    var rest := items[..n];
    assert items == rest + [items[n]];
    if items[n] == item {
      WeightWithout(rest, names, item.fileName, unit);
    } else {
      WeightWith(rest, names, item, unit);
    }
  }

  lemma {:induction false} WeightOfNothing(items: seq<Sized>, unit: Unit)
    ensures Weight(items, {}, unit) == 0
  {
    if items != [] { WeightOfNothing(items[..|items| - 1], unit); }
  }

  /** Adding up a duplicate-free selection, in whatever order, gives its weight. */
  lemma {:induction false} SumIsWeight(some: seq<Sized>, items: seq<Sized>, unit: Unit)
    requires UniqueNames(some) && UniqueNames(items) && forall x :: x in some ==> x in items
    ensures Sum(some, unit) == Weight(items, Names(some), unit)
  {
    if some == [] {
      WeightOfNothing(items, unit);
      assert Names(some) == {};
    } else {
      var rest, last := some[..|some| - 1], some[|some| - 1];
      assert some == rest + [last];
      SumIsWeight(rest, items, unit);
      assert Names(some) == Names(rest) + {last.fileName};
      WeightWith(items, Names(rest), last, unit);
    }
  }

  method AddUp(items: seq<Sized>) returns (raw: nat, gzip: nat)
    ensures raw == Sum(items, Raw) && gzip == Sum(items, Gzip)
  {
    raw, gzip := 0, 0;
    for i := 0 to |items|
      invariant raw == Sum(items[..i], Raw) && gzip == Sum(items[..i], Gzip)
    {
      assert items[..i + 1][..i] == items[..i];
      raw, gzip := raw + items[i].bytes, gzip + items[i].gzipBytes;
    }
    assert items[..|items|] == items;
  }

  // ---------------------------------------------------------------- stylesheets

  /** The first sheet of every name, in order. */
  function Distinct(sheets: seq<Sized>): seq<Sized> {
    if sheets == [] then []
    else
      var rest, last := Distinct(sheets[..|sheets| - 1]), sheets[|sheets| - 1];
      if last.fileName in Names(rest) then rest else rest + [last]
  }

  lemma {:induction false} DistinctFacts(sheets: seq<Sized>)
    ensures var r := Distinct(sheets); UniqueNames(r) && Names(r) == Names(sheets) && forall x :: x in r ==> x in sheets
  {
    if sheets != [] {
      var rest, last := sheets[..|sheets| - 1], sheets[|sheets| - 1];
      assert sheets == rest + [last];
      DistinctFacts(rest);
      NamesAppend(rest, last);
      NamesAppend(Distinct(rest), last);
    }
  }

  function AllSheets(chunks: seq<Chunk>): (r: seq<Sized>)
    ensures forall x :: x in r <==> exists c :: c in chunks && x in c.css
  {
    if chunks == [] then []
    else
      assert chunks == chunks[..|chunks| - 1] + [chunks[|chunks| - 1]];
      AllSheets(chunks[..|chunks| - 1]) + chunks[|chunks| - 1].css
  }

  /** One sheet per file name: chunks that share a sheet agree on its size. */
  ghost predicate ConsistentSheets(chunks: seq<Chunk>) {
    forall x, y :: x in AllSheets(chunks) && y in AllSheets(chunks) && x.fileName == y.fileName ==> x == y
  }

  method Stylesheets(closure: seq<Chunk>) returns (sheets: seq<Sized>)
    ensures sheets == Distinct(AllSheets(closure))
  {
    sheets := [];
    for i := 0 to |closure|
      invariant sheets == Distinct(AllSheets(closure[..i]))
    {
      sheets := AddSheets(sheets, closure[i].css, AllSheets(closure[..i]));
      assert closure[..i + 1][..i] == closure[..i];
    }
    assert closure[..|closure|] == closure;
  }

  lemma DistinctStep(sheets: seq<Sized>, x: Sized)
    ensures Distinct(sheets + [x]) ==
            if x.fileName in Names(Distinct(sheets)) then Distinct(sheets) else Distinct(sheets) + [x]
  {
    var longer := sheets + [x];
    assert longer[..|longer| - 1] == sheets;
  }

  method AddSheet(known: seq<Sized>, sheet: Sized, ghost before: seq<Sized>) returns (sheets: seq<Sized>)
    requires known == Distinct(before)
    ensures sheets == Distinct(before + [sheet])
  {
    DistinctStep(before, sheet);
    sheets := if sheet.fileName !in Names(known) then known + [sheet] else known;
  }

  method AddSheets(known: seq<Sized>, css: seq<Sized>, ghost before: seq<Sized>) returns (sheets: seq<Sized>)
    requires known == Distinct(before)
    ensures sheets == Distinct(before + css)
  {
    sheets := known;
    ghost var taken := before;
    for j := 0 to |css|
      invariant taken == before + css[..j] && sheets == Distinct(taken)
    {
      sheets := AddSheet(sheets, css[j], taken);
      taken := taken + [css[j]];
    }
    assert before + css[..|css|] == before + css;
  }

  // ---------------------------------------------------------------- the rules

  function Sizes(chunks: seq<Chunk>): seq<Sized> {
    seq(|chunks|, i requires 0 <= i < |chunks| => chunks[i].size)
  }

  ghost function InitialNames(chunks: seq<Chunk>): set<string> {
    set c | c in chunks && Initial(chunks, c.FileName()) :: c.FileName()
  }

  ghost function InitialSheets(chunks: seq<Chunk>): set<string> {
    set c, x | c in chunks && Initial(chunks, c.FileName()) && x in c.css :: x.fileName
  }

  ghost function JsWeight(chunks: seq<Chunk>, unit: Unit): nat {
    Weight(Sizes(chunks), InitialNames(chunks), unit)
  }

  ghost function CssWeight(chunks: seq<Chunk>, unit: Unit): nat {
    Weight(Distinct(AllSheets(chunks)), InitialSheets(chunks), unit)
  }

  /** A `.css` suffix, or one followed by a query. */
  predicate IsStylesheet(id: string) {
    exists i :: 0 <= i < |id| && SuffixAt(id, i)
  }

  predicate SuffixAt(id: string, i: nat) {
    i + 4 <= |id| && id[i..i + 4] == ".css" && (i + 4 == |id| || id[i + 4] == '?')
  }

  predicate Owns(c: Chunk, pattern: string -> bool) {
    exists id :: id in c.moduleIds && !IsStylesheet(id) && pattern(id)
  }

  /** The id ends in `.css`, or has it before a query. */
  predicate NamesStylesheet(id: string) {
    || (|id| >= 4 && id[|id| - 4..] == ".css")
    || exists i :: 0 <= i < |id| && QueryAt(id, i)
  }

  predicate QueryAt(id: string, i: nat) {
    i + 5 <= |id| && id[i..i + 5] == ".css?"
  }

  /** Some script module of the chunk matches. */
  ghost predicate Carries(c: Chunk, pattern: string -> bool) {
    exists i :: 0 <= i < |c.moduleIds| && pattern(c.moduleIds[i]) && !NamesStylesheet(c.moduleIds[i])
  }

  lemma StylesheetIs(id: string)
    ensures IsStylesheet(id) <==> NamesStylesheet(id)
  {
    if i :| 0 <= i < |id| && SuffixAt(id, i) {
      if i + 4 < |id| {
        assert id[i..i + 5] == id[i..i + 4] + [id[i + 4]];
        assert QueryAt(id, i);
      }
    }
    if |id| >= 4 && id[|id| - 4..] == ".css" { assert SuffixAt(id, |id| - 4); }
    if i :| 0 <= i < |id| && QueryAt(id, i) {
      var whole := id[i..i + 5];
      assert whole == id[i..i + 4] + [id[i + 4]];
      assert whole[..4] == id[i..i + 4] && whole[4] == '?' && ".css?"[..4] == ".css";
      assert SuffixAt(id, i);
    }
  }

  lemma CarriesIs(c: Chunk, pattern: string -> bool)
    ensures Carries(c, pattern) <==> Owns(c, pattern)
  {
    forall id ensures IsStylesheet(id) <==> NamesStylesheet(id) { StylesheetIs(id); }
    if Owns(c, pattern) {
      var id :| id in c.moduleIds && !IsStylesheet(id) && pattern(id);
      var i :| 0 <= i < |c.moduleIds| && c.moduleIds[i] == id;
    }
    if i :| 0 <= i < |c.moduleIds| && pattern(c.moduleIds[i]) && !NamesStylesheet(c.moduleIds[i]) {
      assert c.moduleIds[i] in c.moduleIds;
    }
  }

  /** The module pattern is found, and every chunk that carries it has the expected name. */
  ghost predicate WellGrouped(chunks: seq<Chunk>, expectation: Expectation) {
    && (exists c :: c in chunks && Carries(c, expectation.pattern))
    && forall c :: c in chunks && Carries(c, expectation.pattern) ==> c.name == expectation.chunkName
  }

  /** Everything a build has to meet, with these totals. */
  ghost predicate Meets(chunks: seq<Chunk>, limits: Limits, totals: Totals) {
    && (forall c :: c in chunks ==> c.size.bytes <= limits.perChunkRaw)
    && totals.jsRaw <= limits.initialJsRaw && totals.jsGzip <= limits.initialJsGzip
    && totals.cssRaw <= limits.initialCssRaw && totals.cssGzip <= limits.initialCssGzip
    && (forall e :: e in limits.grouping ==> WellGrouped(chunks, e))
    && forall c :: c in chunks && Carries(c, limits.lazyOnly) ==>
                     c.name == limits.lazyOnlyChunkName && c.isDynamicEntry && c.FileName() !in InitialNames(chunks)
  }

  /** What each rule is about; the size rules speak of the totals. */
  ghost predicate RuleHolds(chunks: seq<Chunk>, limits: Limits, totals: Totals, id: RuleId) {
    match id
    case PerChunkRaw(i) => i < |chunks| && chunks[i].size.bytes <= limits.perChunkRaw
    case InitialJsRaw => totals.jsRaw <= limits.initialJsRaw
    case InitialJsGzip => totals.jsGzip <= limits.initialJsGzip
    case InitialCssRaw => totals.cssRaw <= limits.initialCssRaw
    case InitialCssGzip => totals.cssGzip <= limits.initialCssGzip
    case ChunkOf(i) =>
      && i < |limits.grouping|
      && (exists c :: c in chunks && Owns(c, limits.grouping[i].pattern))
      && (forall c :: c in chunks && Owns(c, limits.grouping[i].pattern) ==> c.name == limits.grouping[i].chunkName)
    case LazyOnly =>
      forall c :: c in chunks && Owns(c, limits.lazyOnly) ==>
                    c.name == limits.lazyOnlyChunkName && !Initial(chunks, c.FileName()) && c.isDynamicEntry
  }

  function RuleIds(chunks: seq<Chunk>, limits: Limits): seq<RuleId> {
    seq(|chunks|, i requires 0 <= i => PerChunkRaw(i)) +
    [InitialJsRaw, InitialJsGzip, InitialCssRaw, InitialCssGzip] +
    seq(|limits.grouping|, i requires 0 <= i => ChunkOf(i)) + [LazyOnly]
  }

  ghost predicate Judged(chunks: seq<Chunk>, limits: Limits, totals: Totals, rules: seq<Rule>) {
    forall r :: r in rules ==> Correct(chunks, limits, totals, r)
  }

  function Ids(rules: seq<Rule>): seq<RuleId> {
    seq(|rules|, i requires 0 <= i < |rules| => rules[i].id)
  }

  lemma ClosureSizes(chunks: seq<Chunk>, closure: seq<Chunk>)
    requires UniqueFileNames(chunks) && UniqueFileNames(closure)
    requires forall c :: c in closure <==> c in chunks && Initial(chunks, c.FileName())
    ensures forall unit :: Sum(Sizes(closure), unit) == JsWeight(chunks, unit)
  {
    var some, items := Sizes(closure), Sizes(chunks);
    forall x | x in some ensures x in items {
      var i :| 0 <= i < |some| && some[i] == x;
      assert closure[i] in closure;
      var j :| 0 <= j < |chunks| && chunks[j] == closure[i];
      assert items[j] == x;
    }
    assert Names(some) == InitialNames(chunks) by {
      forall x | x in some ensures x.fileName in InitialNames(chunks) {
        var i :| 0 <= i < |some| && some[i] == x;
        assert closure[i] in closure;
      }
      forall n | n in InitialNames(chunks) ensures n in Names(some) {
        var c :| c in chunks && Initial(chunks, c.FileName()) && c.FileName() == n;
        var i :| 0 <= i < |closure| && closure[i] == c;
        assert some[i].fileName == n;
      }
    }
    forall unit ensures Sum(some, unit) == JsWeight(chunks, unit) { SumIsWeight(some, items, unit); }
  }

  lemma ClosureSheets(chunks: seq<Chunk>, closure: seq<Chunk>)
    requires ConsistentSheets(chunks)
    requires forall c :: c in closure <==> c in chunks && Initial(chunks, c.FileName())
    ensures forall unit :: Sum(Distinct(AllSheets(closure)), unit) == CssWeight(chunks, unit)
  {
    var some, items := Distinct(AllSheets(closure)), Distinct(AllSheets(chunks));
    DistinctFacts(AllSheets(closure));
    DistinctFacts(AllSheets(chunks));
    forall x | x in some ensures x in items {
      assert x in AllSheets(closure);
      assert x in AllSheets(chunks);
      assert x.fileName in Names(items);
    }
    assert Names(some) == InitialSheets(chunks);
    forall unit ensures Sum(some, unit) == CssWeight(chunks, unit) { SumIsWeight(some, items, unit); }
  }

  ghost predicate Correct(chunks: seq<Chunk>, limits: Limits, totals: Totals, r: Rule) {
    r.pass <==> RuleHolds(chunks, limits, totals, r.id)
  }

  function TotalRules(limits: Limits, totals: Totals): seq<Rule> {
    [Rule(InitialJsRaw, totals.jsRaw <= limits.initialJsRaw),
     Rule(InitialJsGzip, totals.jsGzip <= limits.initialJsGzip),
     Rule(InitialCssRaw, totals.cssRaw <= limits.initialCssRaw),
     Rule(InitialCssGzip, totals.cssGzip <= limits.initialCssGzip)]
  }

  method SizeRules(chunks: seq<Chunk>, limits: Limits, ghost totals: Totals) returns (rules: seq<Rule>)
    ensures Judged(chunks, limits, totals, rules)
    ensures Ids(rules) == seq(|chunks|, i requires 0 <= i => PerChunkRaw(i))
  {
    rules := [];
    for i := 0 to |chunks|
      invariant Judged(chunks, limits, totals, rules) && |rules| == i
      invariant forall j :: 0 <= j < i ==> rules[j].id == PerChunkRaw(j)
    {
      var rule := Rule(PerChunkRaw(i), chunks[i].size.bytes <= limits.perChunkRaw);
      assert Correct(chunks, limits, totals, rule);
      rules := rules + [rule];
    }
  }

  method GroupingRules(chunks: seq<Chunk>, limits: Limits, ghost totals: Totals) returns (rules: seq<Rule>)
    ensures Judged(chunks, limits, totals, rules)
    ensures Ids(rules) == seq(|limits.grouping|, i requires 0 <= i => ChunkOf(i))
  {
    rules := [];
    for i := 0 to |limits.grouping|
      invariant Judged(chunks, limits, totals, rules) && |rules| == i
      invariant forall j :: 0 <= j < i ==> rules[j].id == ChunkOf(j)
    {
      var rule := GroupingRule(chunks, limits, totals, i);
      rules := rules + [rule];
    }
  }

  method GroupingRule(chunks: seq<Chunk>, limits: Limits, ghost totals: Totals, i: nat) returns (rule: Rule)
    requires i < |limits.grouping|
    ensures rule.id == ChunkOf(i) && Correct(chunks, limits, totals, rule)
  {
    var expectation := limits.grouping[i];
    var owners := Filter(chunks, (c: Chunk) => Owns(c, expectation.pattern));
    FilterMembers(chunks, (c: Chunk) => Owns(c, expectation.pattern));
    Nonempty(owners);
    if owners == [] {
      return Rule(ChunkOf(i), false);
    }
    assert owners[0] in owners;
    var misplaced := Filter(owners, (c: Chunk) => c.name != expectation.chunkName);
    FilterMembers(owners, (c: Chunk) => c.name != expectation.chunkName);
    Nonempty(misplaced);
    rule := Rule(ChunkOf(i), misplaced == []);
  }

  method LazyOnlyRule(chunks: seq<Chunk>, limits: Limits, ghost totals: Totals, initial: set<string>)
    returns (rule: Rule)
    requires initial == InitialNames(chunks)
    ensures rule.id == LazyOnly && Correct(chunks, limits, totals, rule)
  {
    var owners := Filter(chunks, (c: Chunk) => Owns(c, limits.lazyOnly));
    FilterMembers(chunks, (c: Chunk) => Owns(c, limits.lazyOnly));
    Nonempty(owners);
    if owners == [] {
      return Rule(LazyOnly, true);
    }
    var offends := (c: Chunk) => c.name != limits.lazyOnlyChunkName || c.FileName() in initial || !c.isDynamicEntry;
    var offenders := Filter(owners, offends);
    FilterMembers(owners, offends);
    Nonempty(offenders);
    rule := Rule(LazyOnly, offenders == []);
  }

  /** The chunks a first visit loads, each once, in some order. */
  ghost predicate Lists(chunks: seq<Chunk>, closure: seq<Chunk>) {
    UniqueFileNames(closure) && forall c :: c in closure <==> c in chunks && Initial(chunks, c.FileName())
  }

  /** Every sheet name of those chunks counts once, with the size the first of them gives it. */
  ghost predicate CountsSheetsOnce(chunks: seq<Chunk>, totals: Totals) {
    exists closure :: Lists(chunks, closure) && SheetTotals(closure, totals)
  }

  ghost predicate SheetTotals(closure: seq<Chunk>, totals: Totals) {
    var sheets := Distinct(AllSheets(closure));
    totals.cssRaw == Sum(sheets, Raw) && totals.cssGzip == Sum(sheets, Gzip)
  }

  ghost function Weights(chunks: seq<Chunk>): Totals {
    Totals(JsWeight(chunks, Raw), JsWeight(chunks, Gzip), CssWeight(chunks, Raw), CssWeight(chunks, Gzip))
  }

  /**
   `evaluateBudget`. Where chunks that share a sheet agree on its size, the sheet totals are weights
   of names too, and do not depend on any order.
   */
  method EvaluateBudget(chunks: seq<Chunk>, limits: Limits) returns (report: Report)
    requires UniqueFileNames(chunks)
    ensures report.initial == InitialNames(chunks)
    ensures report.totals.jsRaw == JsWeight(chunks, Raw) && report.totals.jsGzip == JsWeight(chunks, Gzip)
    ensures CountsSheetsOnce(chunks, report.totals)
    ensures ConsistentSheets(chunks) ==> report.totals == Weights(chunks)
    ensures Ids(report.rules) == RuleIds(chunks, limits) && Judged(chunks, limits, report.totals, report.rules)
    ensures report.pass <==> forall id :: id in RuleIds(chunks, limits) ==> RuleHolds(chunks, limits, report.totals, id)
    ensures report.pass <==> Meets(chunks, limits, report.totals)
  {
    var closure := InitialClosure(chunks);
    var initial := set c | c in closure :: c.FileName();
    var jsRaw, jsGzip := AddUp(Sizes(closure));
    ClosureSizes(chunks, closure);
    var sheets := Stylesheets(closure);
    var cssRaw, cssGzip := AddUp(sheets);
    if ConsistentSheets(chunks) { ClosureSheets(chunks, closure); }
    var totals := Totals(jsRaw, jsGzip, cssRaw, cssGzip);
    assert Lists(chunks, closure) && SheetTotals(closure, totals);
    var rules := Rules(chunks, limits, totals, initial);
    report := Report(forall r :: r in rules ==> r.pass, rules, initial, totals);
    PassExactly(chunks, limits, totals, rules);
    RulesAreComplete(chunks, limits, totals);
  }

  method Rules(chunks: seq<Chunk>, limits: Limits, totals: Totals, initial: set<string>) returns (rules: seq<Rule>)
    requires initial == InitialNames(chunks)
    ensures Ids(rules) == RuleIds(chunks, limits) && Judged(chunks, limits, totals, rules)
  {
    rules := SizeRules(chunks, limits, totals);
    TotalsAreJudged(chunks, limits, totals);
    IdsAppend(rules, TotalRules(limits, totals));
    rules := rules + TotalRules(limits, totals);
    var grouping := GroupingRules(chunks, limits, totals);
    IdsAppend(rules, grouping);
    rules := rules + grouping;
    var lazyOnly := LazyOnlyRule(chunks, limits, totals, initial);
    IdsAppend(rules, [lazyOnly]);
    rules := rules + [lazyOnly];
  }

  lemma TotalsAreJudged(chunks: seq<Chunk>, limits: Limits, totals: Totals)
    ensures Judged(chunks, limits, totals, TotalRules(limits, totals))
    ensures Ids(TotalRules(limits, totals)) == [InitialJsRaw, InitialJsGzip, InitialCssRaw, InitialCssGzip]
  {
    var four := TotalRules(limits, totals);
    assert Correct(chunks, limits, totals, four[0]);
    assert Correct(chunks, limits, totals, four[1]);
    assert Correct(chunks, limits, totals, four[2]);
    assert Correct(chunks, limits, totals, four[3]);
  }

  lemma IdsAppend(a: seq<Rule>, b: seq<Rule>)
    ensures Ids(a + b) == Ids(a) + Ids(b)
  {
  }

  lemma PassExactly(chunks: seq<Chunk>, limits: Limits, totals: Totals, rules: seq<Rule>)
    requires Judged(chunks, limits, totals, rules)
    ensures (forall r :: r in rules ==> r.pass) <==>
              forall id :: id in Ids(rules) ==> RuleHolds(chunks, limits, totals, id)
  {
    var ids := Ids(rules);
    if forall id :: id in ids ==> RuleHolds(chunks, limits, totals, id) {
      forall r | r in rules ensures r.pass {
        var i :| 0 <= i < |rules| && rules[i] == r;
        assert ids[i] == r.id;
      }
    }
  }

  // ---------------------------------------------------------------- all rules together

  lemma GroupedIs(chunks: seq<Chunk>, limits: Limits, totals: Totals, i: nat)
    requires i < |limits.grouping|
    ensures RuleHolds(chunks, limits, totals, ChunkOf(i)) <==> WellGrouped(chunks, limits.grouping[i])
  {
    forall c ensures Carries(c, limits.grouping[i].pattern) <==> Owns(c, limits.grouping[i].pattern) {
      CarriesIs(c, limits.grouping[i].pattern);
    }
  }

  lemma LazyIs(chunks: seq<Chunk>, limits: Limits, totals: Totals)
    requires UniqueFileNames(chunks)
    ensures RuleHolds(chunks, limits, totals, LazyOnly) <==>
              forall c :: c in chunks && Carries(c, limits.lazyOnly) ==>
                c.name == limits.lazyOnlyChunkName && c.isDynamicEntry && c.FileName() !in InitialNames(chunks)
  {
    forall c ensures Carries(c, limits.lazyOnly) <==> Owns(c, limits.lazyOnly) { CarriesIs(c, limits.lazyOnly); }
    forall c | c in chunks ensures c.FileName() in InitialNames(chunks) <==> Initial(chunks, c.FileName()) { }
  }

  /** No rule is missing: all of them hold exactly when the build meets every limit and expectation. */
  lemma RulesAreComplete(chunks: seq<Chunk>, limits: Limits, totals: Totals)
    requires UniqueFileNames(chunks)
    ensures (forall id :: id in RuleIds(chunks, limits) ==> RuleHolds(chunks, limits, totals, id)) <==>
              Meets(chunks, limits, totals)
  {
    var ids := RuleIds(chunks, limits);
    LazyIs(chunks, limits, totals);
    forall i | 0 <= i < |limits.grouping|
      ensures RuleHolds(chunks, limits, totals, ChunkOf(i)) <==> WellGrouped(chunks, limits.grouping[i])
    {
      GroupedIs(chunks, limits, totals, i);
    }
    RuleIdsAre(chunks, limits);
    if Meets(chunks, limits, totals) {
      forall id | id in ids ensures RuleHolds(chunks, limits, totals, id) { }
    } else if forall id :: id in ids ==> RuleHolds(chunks, limits, totals, id) {
      MeetsByRules(chunks, limits, totals);
    }
  }

  lemma RuleIdsAre(chunks: seq<Chunk>, limits: Limits)
    ensures forall id :: id in RuleIds(chunks, limits) <==>
                           match id
                           case PerChunkRaw(i) => i < |chunks|
                           case ChunkOf(i) => i < |limits.grouping|
                           case _ => true
  {
    var a := seq(|chunks|, i requires 0 <= i => PerChunkRaw(i));
    var b := seq(|limits.grouping|, i requires 0 <= i => ChunkOf(i));
    forall i | 0 <= i < |chunks| ensures PerChunkRaw(i) in a { assert a[i] == PerChunkRaw(i); }
    forall i | 0 <= i < |limits.grouping| ensures ChunkOf(i) in b { assert b[i] == ChunkOf(i); }
  }

  lemma MeetsByRules(chunks: seq<Chunk>, limits: Limits, totals: Totals)
    requires UniqueFileNames(chunks)
    requires forall id :: id in RuleIds(chunks, limits) ==> RuleHolds(chunks, limits, totals, id)
    ensures Meets(chunks, limits, totals)
  {
    RuleIdsAre(chunks, limits);
    LazyIs(chunks, limits, totals);
    assert RuleHolds(chunks, limits, totals, LazyOnly);
    assert RuleHolds(chunks, limits, totals, InitialJsRaw) && RuleHolds(chunks, limits, totals, InitialJsGzip);
    assert RuleHolds(chunks, limits, totals, InitialCssRaw) && RuleHolds(chunks, limits, totals, InitialCssGzip);
    forall c | c in chunks ensures c.size.bytes <= limits.perChunkRaw {
      var i :| 0 <= i < |chunks| && chunks[i] == c;
      assert RuleHolds(chunks, limits, totals, PerChunkRaw(i));
    }
    forall e | e in limits.grouping ensures WellGrouped(chunks, e) {
      var i :| 0 <= i < |limits.grouping| && limits.grouping[i] == e;
      GroupedIs(chunks, limits, totals, i);
      assert RuleHolds(chunks, limits, totals, ChunkOf(i));
    }
  }

  // ---------------------------------------------------------------- adding an import

  function WithImport(chunks: seq<Chunk>, i: nat, fileName: string): seq<Chunk>
    requires i < |chunks|
  {
    chunks[i := chunks[i].(imports := chunks[i].imports + [fileName])]
  }

  /** The same chunks but for longer import lists. */
  ghost predicate MoreImports(chunks: seq<Chunk>, more: seq<Chunk>) {
    && |more| == |chunks|
    && forall i :: 0 <= i < |chunks| ==>
                     more[i] == chunks[i].(imports := more[i].imports) && chunks[i].imports <= more[i].imports
  }

  lemma {:induction false} SameFiles(chunks: seq<Chunk>, more: seq<Chunk>)
    requires MoreImports(chunks, more)
    ensures ByFileName(more).Keys == ByFileName(chunks).Keys
    ensures Sizes(more) == Sizes(chunks) && AllSheets(more) == AllSheets(chunks)
  {
    if chunks != [] {
      var n := |chunks| - 1;
      SameFiles(chunks[..n], more[..n]);
    }
  }

  lemma StillInitial(chunks: seq<Chunk>, more: seq<Chunk>, fileName: string)
    requires UniqueFileNames(chunks) && UniqueFileNames(more) && MoreImports(chunks, more) && Initial(chunks, fileName)
    ensures Initial(more, fileName)
  {
    SameFiles(chunks, more);
    ByFileNameFinds(chunks);
    ByFileNameFinds(more);
    var a, b := StaticImports(chunks), StaticImports(more);
    forall u, v | Follows(a, u, v) ensures Follows(b, u, v) {
      var c := ByFileName(chunks)[u];
      var i :| 0 <= i < |chunks| && chunks[i] == c;
      ImportFollows(chunks, c, v);
      ImportFollows(more, more[i], v);
    }
    assert Entries(chunks) == Entries(more) by {
      forall c | c in chunks && c.isEntry ensures c.FileName() in Entries(more) {
        var i :| 0 <= i < |chunks| && chunks[i] == c;
        assert more[i] in more;
      }
      forall c | c in more && c.isEntry ensures c.FileName() in Entries(chunks) {
        var i :| 0 <= i < |more| && more[i] == c;
        assert chunks[i] in chunks;
      }
    }
    ReachableGrows(a, b, Entries(chunks), fileName);
  }

  lemma InitialGrows(chunks: seq<Chunk>, more: seq<Chunk>)
    requires UniqueFileNames(chunks) && UniqueFileNames(more) && MoreImports(chunks, more)
    ensures InitialNames(chunks) <= InitialNames(more) && InitialSheets(chunks) <= InitialSheets(more)
  {
    forall c | c in chunks && Initial(chunks, c.FileName())
      ensures exists d :: d in more && d.FileName() == c.FileName() && d.css == c.css && Initial(more, d.FileName())
    {
      var i :| 0 <= i < |chunks| && chunks[i] == c;
      StillInitial(chunks, more, c.FileName());
      assert more[i] in more;
    }
  }

  /** A longer import list can only break rules: whatever fails before it fails after it. */
  lemma ImportsOnlyBreakRules(chunks: seq<Chunk>, more: seq<Chunk>, limits: Limits, id: RuleId)
    requires UniqueFileNames(chunks) && UniqueFileNames(more) && MoreImports(chunks, more)
    requires RuleHolds(more, limits, Weights(more), id)
    ensures RuleHolds(chunks, limits, Weights(chunks), id)
  {
    SameFiles(chunks, more);
    InitialGrows(chunks, more);
    match id
    case PerChunkRaw(_) =>
    case InitialJsRaw => WeightGrows(Sizes(chunks), InitialNames(chunks), InitialNames(more), Raw);
    case InitialJsGzip => WeightGrows(Sizes(chunks), InitialNames(chunks), InitialNames(more), Gzip);
    case InitialCssRaw => WeightGrows(Distinct(AllSheets(chunks)), InitialSheets(chunks), InitialSheets(more), Raw);
    case InitialCssGzip => WeightGrows(Distinct(AllSheets(chunks)), InitialSheets(chunks), InitialSheets(more), Gzip);
    case ChunkOf(i) => SameOwners(chunks, more, limits.grouping[i].pattern);
    case LazyOnly =>
      forall c | c in chunks && Owns(c, limits.lazyOnly)
        ensures c.name == limits.lazyOnlyChunkName && !Initial(chunks, c.FileName()) && c.isDynamicEntry
      {
        var d := StillOwned(chunks, more, limits.lazyOnly, c);
        if Initial(chunks, c.FileName()) { StillInitial(chunks, more, c.FileName()); }
      }
  }

  lemma StillOwned(chunks: seq<Chunk>, more: seq<Chunk>, pattern: string -> bool, c: Chunk) returns (d: Chunk)
    requires MoreImports(chunks, more) && c in chunks && Owns(c, pattern)
    ensures d in more && Owns(d, pattern) && d == c.(imports := d.imports) && d.FileName() == c.FileName()
  {
    var i :| 0 <= i < |chunks| && chunks[i] == c;
    SameOwners(chunks, more, pattern);
    d := more[i];
  }

  lemma SameOwners(chunks: seq<Chunk>, more: seq<Chunk>, pattern: string -> bool)
    requires MoreImports(chunks, more)
    ensures forall i :: 0 <= i < |chunks| ==> (Owns(chunks[i], pattern) <==> Owns(more[i], pattern))
  {
  }

  /** The build passes, with these totals. */
  ghost predicate AllHold(chunks: seq<Chunk>, limits: Limits, totals: Totals) {
    forall id :: id in RuleIds(chunks, limits) ==> RuleHolds(chunks, limits, totals, id)
  }

  lemma WithImportIsMore(chunks: seq<Chunk>, limits: Limits, i: nat, fileName: string)
    requires UniqueFileNames(chunks) && i < |chunks|
    ensures var more := WithImport(chunks, i, fileName);
            MoreImports(chunks, more) && UniqueFileNames(more) && RuleIds(more, limits) == RuleIds(chunks, limits)
  {
  }

  /** No build is repaired by importing one more chunk statically. */
  lemma StaticImportNeverHelps(chunks: seq<Chunk>, limits: Limits, i: nat, fileName: string)
    requires UniqueFileNames(chunks) && i < |chunks|
    ensures var more := WithImport(chunks, i, fileName);
            AllHold(more, limits, Weights(more)) ==> AllHold(chunks, limits, Weights(chunks))
  {
    var more := WithImport(chunks, i, fileName);
    WithImportIsMore(chunks, limits, i, fileName);
    if AllHold(more, limits, Weights(more)) {
      forall id | id in RuleIds(chunks, limits) ensures RuleHolds(chunks, limits, Weights(chunks), id) {
        ImportsOnlyBreakRules(chunks, more, limits, id);
      }
    }
  }

  lemma StillConsistent(chunks: seq<Chunk>, more: seq<Chunk>)
    requires MoreImports(chunks, more) && ConsistentSheets(chunks)
    ensures ConsistentSheets(more)
  {
    SameFiles(chunks, more);
  }

  /** What `EvaluateBudget` ensures of the verdict of a report. */
  ghost predicate Verdict(chunks: seq<Chunk>, limits: Limits, report: Report) {
    && report.initial == InitialNames(chunks)
    && (ConsistentSheets(chunks) ==> report.totals == Weights(chunks))
    && (report.pass <==> AllHold(chunks, limits, report.totals))
  }

  /**
   Of two reports, before and after one more static import: the initial set only grows, and the
   build passes after it only if it passed before.
   */
  lemma ReportsNeverImprove(
    chunks: seq<Chunk>, limits: Limits, i: nat, fileName: string, before: Report, after: Report
  )
    requires UniqueFileNames(chunks) && ConsistentSheets(chunks) && i < |chunks|
    requires Verdict(chunks, limits, before) && Verdict(WithImport(chunks, i, fileName), limits, after)
    ensures before.initial <= after.initial && (after.pass ==> before.pass)
  {
    var more := WithImport(chunks, i, fileName);
    WithImportIsMore(chunks, limits, i, fileName);
    StillConsistent(chunks, more);
    InitialGrows(chunks, more);
    StaticImportNeverHelps(chunks, limits, i, fileName);
  }

  /** The two evaluations themselves. */
  method EvaluateWithImport(chunks: seq<Chunk>, limits: Limits, i: nat, fileName: string)
    returns (before: Report, after: Report)
    requires UniqueFileNames(chunks) && ConsistentSheets(chunks) && i < |chunks|
    ensures Verdict(chunks, limits, before) && Verdict(WithImport(chunks, i, fileName), limits, after)
    ensures before.initial <= after.initial && (after.pass ==> before.pass)
  {
    var more := WithImport(chunks, i, fileName);
    WithImportIsMore(chunks, limits, i, fileName);
    before := EvaluateBudget(chunks, limits);
    after := EvaluateBudget(more, limits);
    ReportsNeverImprove(chunks, limits, i, fileName, before, after);
  }
}
