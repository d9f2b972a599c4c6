/**
 * One CodeLens pass over a document (`provideCodeLenses`,
 * propertyReadWriteCodelens.js, lines 17-183).
 *
 * The pass walks the class matches of the document and, inside each, the field
 * matches of the class body. For every field it computes the declaration's
 * position, asks the reference provider for the usages of that position, drops
 * the declaration itself, skips usages whose document or line/column is not
 * available, classifies the rest as reads or writes, and emits at most two
 * lenses. A cancellation token is polled before the pass, before each class,
 * before each field and after each reference request; when it is seen set,
 * the lenses emitted so far are the result.
 *
 * What the pass consults but does not compute is a parameter (`Env`): the
 * regular-expression matches, the editor's offset-to-position conversion, the
 * reference provider (a failed request is an empty list) and the editor's
 * documents.
 */
module CodeLens {
  import opened Wrappers
  import opened Text
  import opened Classifier
  import opened Documents
  import opened Lists

  /** A match of the field pattern inside a class body: its index in the body,
      the matched text and the captured property name. */
  datatype FieldMatch = FieldMatch(index: nat, text: string, name: string)

  /** A match of the class pattern: its index in the document, the matched text
      and the field matches of its body, in the order the pattern finds them. */
  datatype ClassMatch = ClassMatch(index: nat, text: string, fields: seq<FieldMatch>)

  /** The pass's collaborators: the document being analysed, `positionAt`, the
      reference provider queried at a position of that document, and the editor's
      documents. */
  datatype Env = Env(
    current: Document,
    positionAt: int -> Pos,
    references: Pos -> seq<Location>,
    workspace: Workspace)

  /** A cancellation token, observed at numbered polls (0 for the poll before the
      pass, then one per class, one per field and one after each reference
      request, in the order they happen). Once requested, cancellation stays
      requested. */
  datatype Token = NeverCancelled | CancelledFrom(poll: nat)

  predicate IsCancelled(tok: Token, poll: nat) {
    tok.CancelledFrom? && tok.poll <= poll
  }

  /** Offset of the class body in the document: the class match's index plus the
      index just after the first `{` of the matched text (lines 41-42). */
  function ClassStartOffset(c: ClassMatch): int {
    c.index + IndexOf(c.text, "{") + 1
  }

  /** Offset of the declaration: the body's offset, plus the field match's index in
      the body, plus the first index of the name in the matched text (lines 55-58). */
  function FieldOffset(c: ClassMatch, f: FieldMatch): int {
    ClassStartOffset(c) + f.index + IndexOf(f.text, f.name)
  }

  /** A field to analyse: its name and the document offset of its declaration. */
  datatype Decl = Decl(name: string, offset: int)

  function DeclOf(c: ClassMatch, f: FieldMatch): Decl {
    Decl(f.name, FieldOffset(c, f))
  }

  /** The class match lies in the document text at its index and holds a `{`. */
  predicate ClassMatchIn(text: string, c: ClassMatch) {
    OccursAt(text, c.text, c.index) && Includes(c.text, "{")
  }

  /** The field match lies in the class body (what follows the first `{` of the
      class match) at its index, and holds its captured name. */
  predicate FieldMatchIn(c: ClassMatch, f: FieldMatch) {
    OccursAt(c.text, f.text, IndexOf(c.text, "{") + 1 + f.index) && Includes(f.text, f.name)
  }

  /** For matches that really lie where they say, the declaration offset points at
      an occurrence of the property name in the document text. */
  lemma DeclarationOffsetNamesField(text: string, c: ClassMatch, f: FieldMatch)
    requires ClassMatchIn(text, c) && FieldMatchIn(c, f)
    ensures OccursAt(text, f.name, FieldOffset(c, f))
  {
    var b := IndexOf(c.text, "{") + 1 + f.index;
    var k := IndexOf(f.text, f.name);
    OccursWithin(c.text, f.text, f.name, b, k);
    OccursWithin(text, c.text, f.name, c.index, b + k);
  }

  /** The name's index inside the matched text is the first occurrence: never
      negative, and never after the captured identifier's own position. */
  lemma NameIndexBounds(f: FieldMatch, k: int)
    requires OccursAt(f.text, f.name, k)
    ensures 0 <= IndexOf(f.text, f.name) <= k
  {
  }

  /** The first occurrence can sit inside a modifier: for `static s = 1;` the name
      `s` is captured at index 7 but first occurs at index 0, inside `static`. */
  lemma DeclarationCanLandOnModifier(text: string)
    requires text == "static s = 1;"
    ensures OccursAt(text, "s", 7)
    ensures IndexOf(text, "s") == 0
  {
    assert text[7..8] == "s";
    assert text[0..1] == "s";
  }

  /** What becomes of one reference. */
  datatype Verdict =
    | DeclarationSite
    | Unavailable
    | LineOutOfRange
    | ColumnOutOfRange
    | Counted(access: Access)

  /** The reference is the declaration itself: same start line, same start
      character, same document (lines 83-89). */
  predicate IsDeclarationSite(current: Document, start: Pos, ref: Location) {
    && ref.range.start.line == start.line
    && ref.range.start.character == start.character
    && ref.uri == current.uri
  }

  /** The fate of a reference once its document has been looked up (lines 93-143):
      no document, a line outside `[0, lineCount)`, or a character outside
      `[0, line length)` skip it; otherwise the line decides Read or Write. */
  function JudgeIn(doc: Option<Document>, name: string, ref: Location): (v: Verdict)
    ensures v != DeclarationSite
    ensures v == Unavailable <==> doc.None?
    ensures v == LineOutOfRange <==>
      doc.Some? && !(0 <= ref.range.start.line < |doc.value.lines|)
    ensures v == ColumnOutOfRange <==>
      && doc.Some? && 0 <= ref.range.start.line < |doc.value.lines|
      && !(0 <= ref.range.start.character < |doc.value.lines[ref.range.start.line]|)
    ensures v.Counted? ==>
      v.access == Classify(doc.value.lines[ref.range.start.line], ref.range.start.character, name)
  {
    if doc.None? then Unavailable
    else
      var l := ref.range.start.line;
      if l < 0 || l >= |doc.value.lines| then LineOutOfRange
      else
        var line := doc.value.lines[l];
        var p := ref.range.start.character;
        if p < 0 || p >= |line| then ColumnOutOfRange
        else Counted(Classify(line, p, name))
  }

  /** The fate of a reference with its document resolved directly, without a
      cache: the reference definition the cached pass is measured against. */
  function Judge(env: Env, name: string, start: Pos, ref: Location): Verdict {
    if IsDeclarationSite(env.current, start, ref) then DeclarationSite
    else JudgeIn(Resolve(env.workspace, env.current, ref.uri), name, ref)
  }

  /** The counters and lists of lines 75-78. */
  datatype Tally = Tally(readCount: nat, writeCount: nat, readRefs: seq<Location>, writeRefs: seq<Location>)

  const EmptyTally := Tally(0, 0, [], [])

  predicate CountsMatchLists(t: Tally) {
    t.readCount == |t.readRefs| && t.writeCount == |t.writeRefs|
  }

  /** The tally `t` with `rs` appended to the reads and `ws` to the writes, each
      counter moving with its list. */
  function Add(t: Tally, rs: seq<Location>, ws: seq<Location>): Tally {
    Tally(t.readCount + |rs|, t.writeCount + |ws|, t.readRefs + rs, t.writeRefs + ws)
  }

  lemma AddTwice(t: Tally, a: seq<Location>, b: seq<Location>, c: seq<Location>, d: seq<Location>)
    ensures Add(Add(t, a, b), c, d) == Add(t, a + c, b + d)
  {
    assert t.readRefs + a + c == t.readRefs + (a + c);
    assert t.writeRefs + b + d == t.writeRefs + (b + d);
  }

  /** The reference as a one-element list when its verdict is `Counted(a)`. */
  function Picked(v: Verdict, a: Access, ref: Location): seq<Location> {
    if v == Counted(a) then [ref] else []
  }

  /** Lines 133-143: a Write is counted and appended to the write list, a Read to
      the read list; anything else leaves the tally alone. */
  function Record(t: Tally, v: Verdict, ref: Location): (t': Tally)
    ensures t' == Add(t, Picked(v, Read, ref), Picked(v, Write, ref))
  {
    match v
    case Counted(Write) => t.(writeCount := t.writeCount + 1, writeRefs := t.writeRefs + [ref])
    case Counted(Read) => t.(readCount := t.readCount + 1, readRefs := t.readRefs + [ref])
    case _ => t
  }

  datatype Counting = Counting(tally: Tally, cache: Cache)

  /** One turn of the loop of lines 80-152: the declaration site is passed over
      (lines 83-89); any other reference has its document looked up through the
      cache and its verdict recorded. */
  function CountOne(env: Env, name: string, start: Pos, ref: Location, t: Tally, cache: Cache): (r: Counting)
    ensures CountsMatchLists(t) ==> CountsMatchLists(r.tally)
    ensures |r.tally.readRefs| + |r.tally.writeRefs| <= |t.readRefs| + |t.writeRefs| + 1
  {
    if IsDeclarationSite(env.current, start, ref) then Counting(t, cache)
    else
      var fetched := GetDocument(cache, env.workspace, ref.uri);
      Counting(Record(t, JudgeIn(fetched.doc, name, ref), ref), fetched.cache)
  }

  /** The loop of lines 80-152 over the provider's references, in order, threading
      the document cache. */
  function CountRefs(env: Env, name: string, start: Pos, refs: seq<Location>, t: Tally, cache: Cache): (r: Counting)
    ensures CountsMatchLists(t) ==> CountsMatchLists(r.tally)
    ensures |r.tally.readRefs| + |r.tally.writeRefs| <= |t.readRefs| + |t.writeRefs| + |refs|
    decreases |refs|
  {
    if refs == [] then Counting(t, cache)
    else
      var c := CountOne(env, name, start, refs[0], t, cache);
      CountRefs(env, name, start, refs[1..], c.tally, c.cache)
  }

  /** The references whose verdict is `Counted(a)`, in provider order. */
  function Selected(env: Env, name: string, start: Pos, refs: seq<Location>, a: Access): seq<Location> {
    Filter(ref => Judge(env, name, start, ref) == Counted(a), refs)
  }

  /** The references that are dropped: the declaration site and the skipped ones. */
  function Dropped(env: Env, name: string, start: Pos, refs: seq<Location>): seq<Location> {
    Filter(ref => !Judge(env, name, start, ref).Counted?, refs)
  }

  /** A reference lands in the read selection exactly when it is a reference whose
      verdict is Read, and likewise for writes. */
  lemma SelectedMembers(env: Env, name: string, start: Pos, refs: seq<Location>, a: Access, x: Location)
    ensures x in Selected(env, name, start, refs, a) <==> x in refs && Judge(env, name, start, x) == Counted(a)
  {
    FilterMembers(ref => Judge(env, name, start, ref) == Counted(a), refs, x);
  }

  /** Every reference is counted once: as a read, as a write, or as dropped. */
  lemma SelectionPartitions(env: Env, name: string, start: Pos, refs: seq<Location>)
    ensures |Selected(env, name, start, refs, Read)| + |Selected(env, name, start, refs, Write)|
            + |Dropped(env, name, start, refs)| == |refs|
  {
    FilterPartition(
      ref => Judge(env, name, start, ref) == Counted(Read),
      ref => Judge(env, name, start, ref) == Counted(Write),
      ref => !Judge(env, name, start, ref).Counted?,
      refs);
  }

  /** The declaration's own reference is neither a read nor a write. */
  lemma DeclarationSiteNeverCounted(env: Env, name: string, start: Pos, refs: seq<Location>, x: Location)
    requires IsDeclarationSite(env.current, start, x)
    ensures x !in Selected(env, name, start, refs, Read)
    ensures x !in Selected(env, name, start, refs, Write)
  {
    SelectedMembers(env, name, start, refs, Read, x);
    SelectedMembers(env, name, start, refs, Write, x);
  }

  /** A reference whose document cannot be had, or whose line or character is out
      of range, is neither a read nor a write. */
  lemma SkippedNeverCounted(env: Env, name: string, start: Pos, refs: seq<Location>, x: Location)
    requires !IsDeclarationSite(env.current, start, x)
    requires var doc := Resolve(env.workspace, env.current, x.uri);
      || doc.None?
      || !(0 <= x.range.start.line < |doc.value.lines|)
      || !(0 <= x.range.start.character < |doc.value.lines[x.range.start.line]|)
    ensures x !in Selected(env, name, start, refs, Read)
    ensures x !in Selected(env, name, start, refs, Write)
  {
    SelectedMembers(env, name, start, refs, Read, x);
    SelectedMembers(env, name, start, refs, Write, x);
  }

  /** The tally of a field computed without a cache. */
  function SpecTally(env: Env, name: string, start: Pos, refs: seq<Location>): Tally {
    Add(EmptyTally, Selected(env, name, start, refs, Read), Selected(env, name, start, refs, Write))
  }

  /** From a coherent cache, one turn records the reference's uncached verdict
      and leaves the cache coherent. */
  lemma CountOneResolves(env: Env, name: string, start: Pos, ref: Location, t: Tally, cache: Cache)
    requires Coherent(cache, env.workspace, env.current)
    ensures var r := CountOne(env, name, start, ref, t, cache);
      && r.tally == Record(t, Judge(env, name, start, ref), ref)
      && Coherent(r.cache, env.workspace, env.current)
  {
    if !IsDeclarationSite(env.current, start, ref) {
      GetDocumentResolves(cache, env.workspace, env.current, ref.uri);
    }
  }

  /** The cached loop computes the uncached tally: the selections, in provider
      order, are appended to what was there, and the cache stays coherent. */
  lemma {:induction false} CountRefsMatchesSpec(env: Env, name: string, start: Pos, refs: seq<Location>, t: Tally, cache: Cache)
    requires Coherent(cache, env.workspace, env.current)
    ensures var r := CountRefs(env, name, start, refs, t, cache);
      && r.tally == Add(t, Selected(env, name, start, refs, Read), Selected(env, name, start, refs, Write))
      && Coherent(r.cache, env.workspace, env.current)
    decreases |refs|
  {
    if refs != [] {
      var ref := refs[0];
      var v := Judge(env, name, start, ref);
      var c := CountOne(env, name, start, ref, t, cache);
      CountOneResolves(env, name, start, ref, t, cache);
      CountRefsMatchesSpec(env, name, start, refs[1..], c.tally, c.cache);
      AddTwice(t, Picked(v, Read, ref), Picked(v, Write, ref),
               Selected(env, name, start, refs[1..], Read), Selected(env, name, start, refs[1..], Write));
    }
  }

  datatype LensKind = ShowReads | ShowWrites

  /** A lens: its range, which list it opens, the count in its title and the
      references it carries. */
  datatype Lens = Lens(range: Range, kind: LensKind, count: nat, refs: seq<Location>)

  /** Lines 154-173: a reads lens exactly when there are reads, first, then a
      writes lens exactly when there are writes, both over the declaration's
      range and carrying their lists. */
  function LensesFor(range: Range, t: Tally): (ls: seq<Lens>)
    ensures |ls| == (if t.readCount > 0 then 1 else 0) + (if t.writeCount > 0 then 1 else 0)
    ensures forall i :: 0 <= i < |ls| ==> ls[i].range == range && ls[i].count > 0
    ensures t.readCount > 0 ==> ls[0] == Lens(range, ShowReads, t.readCount, t.readRefs)
    ensures t.writeCount > 0 ==> ls[|ls| - 1] == Lens(range, ShowWrites, t.writeCount, t.writeRefs)
  {
    (if t.readCount > 0 then [Lens(range, ShowReads, t.readCount, t.readRefs)] else [])
    + (if t.writeCount > 0 then [Lens(range, ShowWrites, t.writeCount, t.writeRefs)] else [])
  }

  /** Where the declaration starts (`positionAt`, line 59). */
  function DeclStart(env: Env, d: Decl): Pos {
    env.positionAt(d.offset)
  }

  /** The declaration's range: from its start, the name's length along the same
      line (line 60). */
  function DeclRange(env: Env, d: Decl): Range {
    Range(DeclStart(env, d), Translate(DeclStart(env, d), |d.name|))
  }

  /** `positionAt` is the editor's conversion for the analysed document: every
      offset of its text goes to that offset's line and character. */
  ghost predicate PositionAtFaithful(env: Env) {
    && |env.current.lines| >= 1
    && forall o: nat :: o <= |DocText(env.current)| ==> env.positionAt(o) == LineColumn(env.current.lines, o)
  }

  /** A declaration whose name occurs at its offset gets a range that covers
      exactly that name on one line of the document. */
  lemma DeclRangeSpansName(env: Env, d: Decl)
    requires PositionAtFaithful(env)
    requires OccursAt(DocText(env.current), d.name, d.offset)
    requires '\n' !in d.name
    ensures var r := DeclRange(env, d);
      && r.end.line == r.start.line
      && 0 <= r.start.line < |env.current.lines|
      && 0 <= r.start.character <= r.end.character <= |env.current.lines[r.start.line]|
      && env.current.lines[r.start.line][r.start.character..r.end.character] == d.name
  {
    OccurrenceOnOneLine(env.current.lines, d.name, d.offset);
  }

  /** Lines 41-60 end to end: for class and field matches that lie where they
      say in the document's text, both lenses of the field cover exactly the
      property name in the document. */
  lemma DeclRangeNamesField(env: Env, c: ClassMatch, f: FieldMatch)
    requires PositionAtFaithful(env)
    requires ClassMatchIn(DocText(env.current), c) && FieldMatchIn(c, f)
    requires '\n' !in f.name
    ensures var r := DeclRange(env, DeclOf(c, f));
      && r.end.line == r.start.line
      && 0 <= r.start.line < |env.current.lines|
      && 0 <= r.start.character <= r.end.character <= |env.current.lines[r.start.line]|
      && env.current.lines[r.start.line][r.start.character..r.end.character] == f.name
  {
    DeclarationOffsetNamesField(DocText(env.current), c, f);
    DeclRangeSpansName(env, DeclOf(c, f));
  }

  /** The lenses one field should get, computed without a cache. */
  function DeclLenses(env: Env, d: Decl): seq<Lens> {
    var start := DeclStart(env, d);
    LensesFor(DeclRange(env, d), SpecTally(env, d.name, start, env.references(start)))
  }

  function LensesOf(env: Env): Decl -> seq<Lens> {
    d => DeclLenses(env, d)
  }

  function StartOf(env: Env): Decl -> seq<Pos> {
    d => [DeclStart(env, d)]
  }

  /** The lenses of a list of fields, concatenated in order. */
  function AllLenses(env: Env, ds: seq<Decl>): seq<Lens> {
    FlatMap(LensesOf(env), ds)
  }

  /** The positions the reference provider is asked about for a list of fields. */
  function Starts(env: Env, ds: seq<Decl>): seq<Pos> {
    FlatMap(StartOf(env), ds)
  }

  /** The fields of one class, in match order. */
  function FieldDecls(c: ClassMatch, fs: seq<FieldMatch>): seq<Decl> {
    if fs == [] then [] else [DeclOf(c, fs[0])] + FieldDecls(c, fs[1..])
  }

  /** The fields of every class, in document order. */
  function Declarations(cs: seq<ClassMatch>): seq<Decl> {
    if cs == [] then [] else FieldDecls(cs[0], cs[0].fields) + Declarations(cs[1..])
  }

  /** What counting one field's references yields: its lenses and the cache after. */
  datatype FieldOutcome = FieldOutcome(lenses: seq<Lens>, cache: Cache)

  /** Lines 64-173 for one field once its polls are passed: the provider's
      references for the declaration's start are counted and the lenses built. */
  function CountField(env: Env, d: Decl, cache: Cache): FieldOutcome {
    var start := DeclStart(env, d);
    var counted := CountRefs(env, d.name, start, env.references(start), EmptyTally, cache);
    FieldOutcome(LensesFor(DeclRange(env, d), counted.tally), counted.cache)
  }

  /** How the pass counts a field. The loops below take it as a parameter so that
      their properties can be stated for any counting that meets a specification;
      `CountField` is the one the pass uses. */
  type Counter = (Decl, Cache) -> FieldOutcome

  function FieldCounter(env: Env): Counter {
    (d, cache) => CountField(env, d, cache)
  }

  /** The counter yields the lenses `spec` gives the field, and keeps the cache
      invariant `inv`. */
  ghost predicate Faithful(count: Counter, spec: Decl -> seq<Lens>, inv: Cache -> bool) {
    forall d, cache {:trigger count(d, cache)} :: inv(cache) ==>
      count(d, cache).lenses == spec(d) && inv(count(d, cache).cache)
  }

  ghost function CoherentIn(env: Env): Cache -> bool {
    cache => Coherent(cache, env.workspace, env.current)
  }

  /** Counting one field through a coherent cache gives its uncached lenses and
      keeps the cache coherent. */
  lemma CountFieldMatchesSpec(env: Env, d: Decl, cache: Cache)
    requires Coherent(cache, env.workspace, env.current)
    ensures CountField(env, d, cache).lenses == DeclLenses(env, d)
    ensures Coherent(CountField(env, d, cache).cache, env.workspace, env.current)
  {
    var start := DeclStart(env, d);
    CountRefsMatchesSpec(env, d.name, start, env.references(start), EmptyTally, cache);
  }

  lemma FieldCounterFaithful(env: Env)
    ensures Faithful(FieldCounter(env), LensesOf(env), CoherentIn(env))
  {
    forall d, cache | CoherentIn(env)(cache)
      ensures FieldCounter(env)(d, cache).lenses == LensesOf(env)(d)
      ensures CoherentIn(env)(FieldCounter(env)(d, cache).cache)
    {
      CountFieldMatchesSpec(env, d, cache);
    }
  }

  /** The state a pass threads: how many polls have happened, the document cache,
      the lenses emitted and the positions the reference provider was asked about. */
  datatype PassState = PassState(polls: nat, cache: Cache, lenses: seq<Lens>, lookups: seq<Pos>)

  /** Where a loop left the pass, and whether it saw cancellation. */
  datatype Run = Run(state: PassState, stopped: bool)

  /** One field (lines 49-179): poll, query the provider, poll again, count the
      references, emit the lenses. */
  function RunField(env: Env, count: Counter, tok: Token, d: Decl, st: PassState): Run {
    if IsCancelled(tok, st.polls) then Run(st, true)
    else
      var st1 := st.(polls := st.polls + 1, lookups := st.lookups + [DeclStart(env, d)]);
      if IsCancelled(tok, st1.polls) then Run(st1, true)
      else
        var out := count(d, st1.cache);
        Run(st1.(polls := st1.polls + 1, cache := out.cache, lenses := st1.lenses + out.lenses), false)
  }

  /** The field loop of one class (lines 49-179). */
  function RunFields(env: Env, count: Counter, tok: Token, c: ClassMatch, fs: seq<FieldMatch>, st: PassState): Run
    decreases |fs|
  {
    if fs == [] then Run(st, false)
    else
      var r := RunField(env, count, tok, DeclOf(c, fs[0]), st);
      if r.stopped then r else RunFields(env, count, tok, c, fs[1..], r.state)
  }

  /** The class loop (lines 34-180), with its poll before each class. */
  function RunClasses(env: Env, count: Counter, tok: Token, cs: seq<ClassMatch>, st: PassState): Run
    decreases |cs|
  {
    if cs == [] then Run(st, false)
    else if IsCancelled(tok, st.polls) then Run(st, true)
    else
      var r := RunFields(env, count, tok, cs[0], cs[0].fields, st.(polls := st.polls + 1));
      if r.stopped then r else RunClasses(env, count, tok, cs[1..], r.state)
  }

  /** The pass as it starts: no poll yet, the cache reset to hold the current
      document (lines 22-23), nothing emitted. */
  function StartPass(env: Env): PassState {
    PassState(0, StartCache(env.current), [], [])
  }

  /** The whole pass: the initial poll (lines 26-28), then the classes. */
  function Analyze(env: Env, tok: Token, classes: seq<ClassMatch>): PassState {
    var st := StartPass(env);
    if IsCancelled(tok, 0) then st
    else RunClasses(env, FieldCounter(env), tok, classes, st.(polls := 1)).state
  }

  /** `provideCodeLenses`: the lenses of the pass. */
  function ProvideCodeLenses(env: Env, tok: Token, classes: seq<ClassMatch>): seq<Lens> {
    Analyze(env, tok, classes).lenses
  }

  /** A pass cancelled before it starts emits nothing and asks the reference
      provider nothing. */
  lemma CancelledBeforePass(env: Env, classes: seq<ClassMatch>)
    ensures Analyze(env, CancelledFrom(0), classes).lenses == []
    ensures Analyze(env, CancelledFrom(0), classes).lookups == []
  {
  }

  /** From `st0` to `st`, the pass handled the first `k` fields of `ds`, and all of
      them unless it stopped: it emitted exactly their lenses as `spec` gives them,
      and asked about exactly their positions, plus the next field's position when
      it stopped right after a request. */
  ghost predicate Progress(env: Env, spec: Decl -> seq<Lens>, ds: seq<Decl>, st0: PassState, st: PassState, k: int, stopped: bool) {
    && Covered(spec, ds, st0.lenses, st.lenses, k)
    && (|| Covered(StartOf(env), ds, st0.lookups, st.lookups, k)
        || (stopped && k < |ds| && Covered(StartOf(env), ds, st0.lookups, st.lookups, k + 1)))
    && (!stopped ==> k == |ds|)
  }

  lemma {:induction false} ProgressNone(env: Env, spec: Decl -> seq<Lens>, ds: seq<Decl>, st: PassState, stopped: bool)
    requires stopped || ds == []
    ensures Progress(env, spec, ds, st, st, 0, stopped)
  {
    CoveredNothing(spec, ds, st.lenses);
    CoveredNothing(StartOf(env), ds, st.lookups);
  }

  /** Progress only depends on the lenses and lookups it starts from. */
  lemma {:induction false} ProgressFrom(env: Env, spec: Decl -> seq<Lens>, ds: seq<Decl>, st0: PassState, st0': PassState, st: PassState, k: int, stopped: bool)
    requires st0.lenses == st0'.lenses && st0.lookups == st0'.lookups
    requires Progress(env, spec, ds, st0, st, k, stopped)
    ensures Progress(env, spec, ds, st0', st, k, stopped)
  {
  }

  /** Extending a progress by one field handled in front of it. */
  lemma {:induction false} ProgressCons(env: Env, spec: Decl -> seq<Lens>, d: Decl, ds: seq<Decl>, st0: PassState, st1: PassState, st: PassState, k: int, stopped: bool)
    requires st1.lenses == st0.lenses + spec(d)
    requires st1.lookups == st0.lookups + [DeclStart(env, d)]
    requires Progress(env, spec, ds, st1, st, k, stopped)
    ensures Progress(env, spec, [d] + ds, st0, st, k + 1, stopped)
  {
    CoveredCons(spec, d, ds, st0.lenses, st1.lenses, st.lenses, k);
    if Covered(StartOf(env), ds, st1.lookups, st.lookups, k) {
      CoveredCons(StartOf(env), d, ds, st0.lookups, st1.lookups, st.lookups, k);
    } else {
      CoveredCons(StartOf(env), d, ds, st0.lookups, st1.lookups, st.lookups, k + 1);
    }
  }

  /** Progress over a first part that stopped is progress over the whole. */
  lemma {:induction false} ProgressPrefix(env: Env, spec: Decl -> seq<Lens>, a: seq<Decl>, b: seq<Decl>, st0: PassState, st: PassState, k: int)
    requires Progress(env, spec, a, st0, st, k, true)
    ensures Progress(env, spec, a + b, st0, st, k, true)
  {
    CoveredPrefix(spec, a, b, st0.lenses, st.lenses, k);
    if Covered(StartOf(env), a, st0.lookups, st.lookups, k) {
      CoveredPrefix(StartOf(env), a, b, st0.lookups, st.lookups, k);
    } else {
      CoveredPrefix(StartOf(env), a, b, st0.lookups, st.lookups, k + 1);
    }
  }

  /** Progress over a completed first part followed by progress over the rest. */
  lemma {:induction false} ProgressConcat(env: Env, spec: Decl -> seq<Lens>, a: seq<Decl>, b: seq<Decl>, st0: PassState, st1: PassState, st: PassState, k: int, stopped: bool)
    requires Progress(env, spec, a, st0, st1, |a|, false)
    requires Progress(env, spec, b, st1, st, k, stopped)
    ensures Progress(env, spec, a + b, st0, st, |a| + k, stopped)
  {
    CoveredConcat(spec, a, b, st0.lenses, st1.lenses, st.lenses, k);
    if Covered(StartOf(env), b, st1.lookups, st.lookups, k) {
      CoveredConcat(StartOf(env), a, b, st0.lookups, st1.lookups, st.lookups, k);
    } else {
      CoveredConcat(StartOf(env), a, b, st0.lookups, st1.lookups, st.lookups, k + 1);
    }
  }

  /** One field: either it runs to completion and emits its lenses, or it stops at
      one of its two polls having emitted nothing. */
  lemma {:induction false} RunFieldSpec(env: Env, count: Counter, spec: Decl -> seq<Lens>, inv: Cache -> bool, tok: Token, d: Decl, st: PassState)
    requires Faithful(count, spec, inv) && inv(st.cache)
    ensures var r := RunField(env, count, tok, d, st);
      && inv(r.state.cache)
      && Progress(env, spec, [d], st, r.state, if r.stopped then 0 else 1, r.stopped)
      && (tok == NeverCancelled ==> !r.stopped)
  {
    var r := RunField(env, count, tok, d, st);
    assert [d][..0] == [] && [d][..1] == [d];
    FlatMapSingle(spec, d);
    FlatMapSingle(StartOf(env), d);
    if !r.stopped {
      var st1 := st.(polls := st.polls + 1, lookups := st.lookups + [DeclStart(env, d)]);
      assert count(d, st1.cache).lenses == spec(d);
    }
  }

  lemma {:induction false} RunFieldsSpec(env: Env, count: Counter, spec: Decl -> seq<Lens>, inv: Cache -> bool, tok: Token, c: ClassMatch, fs: seq<FieldMatch>, st: PassState)
    returns (k: int)
    requires Faithful(count, spec, inv) && inv(st.cache)
    ensures var r := RunFields(env, count, tok, c, fs, st);
      && inv(r.state.cache)
      && Progress(env, spec, FieldDecls(c, fs), st, r.state, k, r.stopped)
      && (tok == NeverCancelled ==> !r.stopped)
    decreases |fs|
  {
    if fs == [] {
      k := 0;
      ProgressNone(env, spec, [], st, false);
    } else {
      var d := DeclOf(c, fs[0]);
      var r1 := RunField(env, count, tok, d, st);
      RunFieldSpec(env, count, spec, inv, tok, d, st);
      if r1.stopped {
        k := 0;
        ProgressPrefix(env, spec, [d], FieldDecls(c, fs[1..]), st, r1.state, 0);
      } else {
        var k' := RunFieldsSpec(env, count, spec, inv, tok, c, fs[1..], r1.state);
        var r := RunFields(env, count, tok, c, fs[1..], r1.state);
        FlatMapSingle(spec, d);
        FlatMapSingle(StartOf(env), d);
        assert [d][..1] == [d];
        ProgressCons(env, spec, d, FieldDecls(c, fs[1..]), st, r1.state, r.state, k', r.stopped);
        k := k' + 1;
      }
    }
  }

  lemma {:induction false} RunClassesSpec(env: Env, count: Counter, spec: Decl -> seq<Lens>, inv: Cache -> bool, tok: Token, cs: seq<ClassMatch>, st: PassState)
    returns (k: int)
    requires Faithful(count, spec, inv) && inv(st.cache)
    ensures var r := RunClasses(env, count, tok, cs, st);
      && Progress(env, spec, Declarations(cs), st, r.state, k, r.stopped)
      && (tok == NeverCancelled ==> !r.stopped)
    decreases |cs|
  {
    k := 0;
    if cs == [] {
      ProgressNone(env, spec, [], st, false);
    } else if IsCancelled(tok, st.polls) {
      ProgressNone(env, spec, Declarations(cs), st, true);
    } else {
      var st1 := st.(polls := st.polls + 1);
      var fd := FieldDecls(cs[0], cs[0].fields);
      var r1 := RunFields(env, count, tok, cs[0], cs[0].fields, st1);
      var k1 := RunFieldsSpec(env, count, spec, inv, tok, cs[0], cs[0].fields, st1);
      var rest := Declarations(cs[1..]);
      assert Declarations(cs) == fd + rest;
      ProgressFrom(env, spec, fd, st1, st, r1.state, k1, r1.stopped);
      if r1.stopped {
        ProgressPrefix(env, spec, fd, rest, st, r1.state, k1);
        k := k1;
      } else {
        var k2 := RunClassesSpec(env, count, spec, inv, tok, cs[1..], r1.state);
        var r2 := RunClasses(env, count, tok, cs[1..], r1.state);
        ProgressConcat(env, spec, fd, rest, st, r1.state, r2.state, k2, r2.stopped);
        k := k1 + k2;
      }
    }
  }

  /** The pass from its start, through the counter it really uses. */
  lemma {:induction false} AnalyzeProgress(env: Env, tok: Token, classes: seq<ClassMatch>)
    returns (k: int)
    ensures Progress(env, LensesOf(env), Declarations(classes), StartPass(env), Analyze(env, tok, classes), k, true)
    ensures tok == NeverCancelled ==> Progress(env, LensesOf(env), Declarations(classes), StartPass(env), Analyze(env, tok, classes), k, false)
  {
    var st0 := StartPass(env);
    if IsCancelled(tok, 0) {
      k := 0;
      ProgressNone(env, LensesOf(env), Declarations(classes), st0, true);
    } else {
      StartCacheCoherent(env.workspace, env.current);
      FieldCounterFaithful(env);
      assert CoherentIn(env)(st0.cache);
      k := RunClassesSpec(env, FieldCounter(env), LensesOf(env), CoherentIn(env), tok, classes, st0.(polls := 1));
      var r := RunClasses(env, FieldCounter(env), tok, classes, st0.(polls := 1));
      ProgressFrom(env, LensesOf(env), Declarations(classes), st0.(polls := 1), st0, r.state, k, r.stopped);
    }
  }

  /** `st` holds exactly the lenses of the first `k` fields of `ds`, for some `k`,
      and the provider was asked about exactly those fields, or those and the
      next one. */
  ghost predicate CutAtFieldBoundary(env: Env, ds: seq<Decl>, st: PassState) {
    exists k ::
      && 0 <= k <= |ds| && st.lenses == AllLenses(env, ds[..k])
      && (st.lookups == Starts(env, ds[..k]) || (k < |ds| && st.lookups == Starts(env, ds[..k + 1])))
  }

  /** Whatever the token does, the pass's result is cut at a field boundary: its
      lenses are exactly those of the first `k` fields in document order, for
      some `k`, never part of a field's pair. */
  lemma {:induction false} PassEmitsFirstFields(env: Env, tok: Token, classes: seq<ClassMatch>)
    ensures CutAtFieldBoundary(env, Declarations(classes), Analyze(env, tok, classes))
  {
    var k := AnalyzeProgress(env, tok, classes);
    PrefixWitness(env, Declarations(classes), StartPass(env), Analyze(env, tok, classes), k);
  }

  /** Progress from the start of a pass is a cut at a field boundary. */
  lemma {:induction false} PrefixWitness(env: Env, ds: seq<Decl>, st0: PassState, st: PassState, k: int)
    requires st0.lenses == [] && st0.lookups == []
    requires Progress(env, LensesOf(env), ds, st0, st, k, true)
    ensures CutAtFieldBoundary(env, ds, st)
  {
    assert 0 <= k <= |ds| && st.lenses == AllLenses(env, ds[..k]);
  }

  /** Without cancellation the pass emits the lenses of every field, in document
      order, each computed as if no cache existed, and asks about every field once. */
  lemma {:induction false} UncancelledPassCoversAllFields(env: Env, classes: seq<ClassMatch>)
    ensures ProvideCodeLenses(env, NeverCancelled, classes) == AllLenses(env, Declarations(classes))
    ensures Analyze(env, NeverCancelled, classes).lookups == Starts(env, Declarations(classes))
  {
    var k := AnalyzeProgress(env, NeverCancelled, classes);
    var ds := Declarations(classes);
    var st := Analyze(env, NeverCancelled, classes);
    CoveredAll(LensesOf(env), ds, [], st.lenses);
    CoveredAll(StartOf(env), ds, [], st.lookups);
  }
}
