/**
 * Positions, documents and the provider's document cache behind `getDocument`,
 * reset at the start of each pass
 * (propertyReadWriteCodelens.js, lines 7, 22-23 and 186-215).
 *
 * The editor's documents are a parameter: the list of documents already open
 * (`workspace.textDocuments`) and the documents a load would produce
 * (`workspace.openTextDocument`), keyed by URI string. A URI is modelled by its
 * string form, which is what the cache uses as its key.
 */
module Documents {
  import opened Wrappers
  import opened Text

  /** A zero-based line/character position. The source tests for negative values,
      so the model keeps them as plain integers. */
  datatype Pos = Pos(line: int, character: int)

  datatype Range = Range(start: Pos, end: Pos)

  /** One usage as the reference provider reports it. */
  datatype Location = Location(uri: string, range: Range)

  /** A text document: its URI string and its lines (without terminators). */
  datatype Document = Document(uri: string, lines: seq<string>)

  /** What the editor can supply: the open documents, in the editor's order, and
      the documents a load succeeds on. A URI absent from `loadable` fails to load. */
  datatype Workspace = Workspace(open: seq<Document>, loadable: map<string, Document>)

  /** The session cache: URI string to document. */
  type Cache = map<string, Document>

  /** `Position.translate(0, n)`. */
  function Translate(p: Pos, n: int): (q: Pos)
    ensures q.line == p.line && q.character - p.character == n
  {
    Pos(p.line, p.character + n)
  }

  /** `getText()`: the lines joined with line feeds. */
  function DocText(doc: Document): string {
    if doc.lines == [] then [] else Join(doc.lines, '\n')
  }

  /** The line and character of offset `o` in the lines joined with line feeds:
      the position `positionAt` should give. */
  function LineColumn(lines: seq<string>, o: nat): Pos
    requires |lines| >= 1
  {
    if |lines| == 1 || o <= |lines[0]| then Pos(0, o)
    else
      var p := LineColumn(lines[1..], o - |lines[0]| - 1);
      Pos(p.line + 1, p.character)
  }

  /** Text without line feeds that occurs in the joined lines lies on a single
      line, at the line and character of its offset. */
  lemma {:induction false} OccurrenceOnOneLine(lines: seq<string>, t: string, o: nat)
    requires |lines| >= 1
    requires OccursAt(Join(lines, '\n'), t, o)
    requires '\n' !in t
    ensures var p := LineColumn(lines, o);
      && 0 <= p.line < |lines|
      && 0 <= p.character && p.character + |t| <= |lines[p.line]|
      && lines[p.line][p.character..p.character + |t|] == t
  {
    var text := Join(lines, '\n');
    if |lines| == 1 {
    } else {
      var n := |lines[0]|;
      var rest := Join(lines[1..], '\n');
      assert text == lines[0] + ['\n'] + rest;
      if o <= n {
        assert forall k :: o <= k < o + |t| ==> text[k] == t[k - o];
        assert text[n] == '\n';
        assert text[o..o + |t|] == lines[0][o..o + |t|];
      } else {
        assert text[o..o + |t|] == rest[o - n - 1..o - n - 1 + |t|];
        OccurrenceOnOneLine(lines[1..], t, o - n - 1);
      }
    }
  }

  /** The first open document whose URI string is `uri`, as `Array.prototype.find`
      returns it. */
  function FindOpen(open: seq<Document>, uri: string): (r: Option<Document>)
    ensures r.None? <==> forall i :: 0 <= i < |open| ==> open[i].uri != uri
    ensures r.Some? ==> exists i :: 0 <= i < |open| && open[i] == r.value && r.value.uri == uri
                          && forall j :: 0 <= j < i ==> open[j].uri != uri
  {
    if |open| == 0 then None
    else if open[0].uri == uri then Some(open[0])
    else
      var r := FindOpen(open[1..], uri);
      assert forall i :: 1 <= i < |open| ==> open[i] == open[1..][i - 1];
      r
  }

  /** Where a document comes from when it is not cached: an open document first,
      otherwise a load. `None` is a failed load. */
  function Fetch(ws: Workspace, uri: string): Option<Document> {
    match FindOpen(ws.open, uri)
    case Some(d) => Some(d)
    case None => if uri in ws.loadable then Some(ws.loadable[uri]) else None
  }

  /** The document `getDocument` should produce for `uri` during a pass over
      `current`: the current document for its own URI, a fetch otherwise. */
  function Resolve(ws: Workspace, current: Document, uri: string): Option<Document> {
    if uri == current.uri then Some(current) else Fetch(ws, uri)
  }

  /** The cache as the pass starts (lines 22-23): cleared, then holding exactly the
      document being analysed, under its URI string. */
  function StartCache(current: Document): (c: Cache)
    ensures c.Keys == {current.uri}
    ensures c[current.uri] == current
  {
    map[current.uri := current]
  }

  datatype Fetched = Fetched(doc: Option<Document>, cache: Cache)

  /** `getDocument` (lines 186-215). A hit returns the cached document and leaves
      the cache alone; a miss falls back to the open documents and then to a load,
      and records whatever it found; a failed load yields `None` and records
      nothing. Entries are never replaced or removed. */
  function GetDocument(cache: Cache, ws: Workspace, uri: string): (r: Fetched)
    ensures uri in cache ==> r == Fetched(Some(cache[uri]), cache)
    ensures uri !in cache ==> r.doc == Fetch(ws, uri)
    ensures r.doc.Some? ==> uri in r.cache && r.cache[uri] == r.doc.value
    ensures r.doc.None? ==> r.cache == cache
    ensures r.cache.Keys == (if r.doc.Some? then cache.Keys + {uri} else cache.Keys)
    ensures forall k :: k in cache ==> k in r.cache && r.cache[k] == cache[k]
  {
    if uri in cache then Fetched(Some(cache[uri]), cache)
    else
      match FindOpen(ws.open, uri)
      case Some(d) => Fetched(Some(d), cache[uri := d])
      case None =>
        if uri in ws.loadable then Fetched(Some(ws.loadable[uri]), cache[uri := ws.loadable[uri]])
        else Fetched(None, cache)
  }

  /** Every cached entry is what `Resolve` would produce for its key, and the
      current document is cached. The model holds the editor's documents fixed
      during a pass; under that assumption the cache only ever holds such
      entries. */
  ghost predicate Coherent(cache: Cache, ws: Workspace, current: Document) {
    && current.uri in cache
    && forall u :: u in cache ==> Resolve(ws, current, u) == Some(cache[u])
  }

  /** The cache a pass starts from is coherent. */
  lemma StartCacheCoherent(ws: Workspace, current: Document)
    ensures Coherent(StartCache(current), ws, current)
  {
  }

  /** The cache is transparent: from a coherent cache, `getDocument` returns what
      `Resolve` says, whatever happened to be cached, and the cache stays coherent. */
  lemma GetDocumentResolves(cache: Cache, ws: Workspace, current: Document, uri: string)
    requires Coherent(cache, ws, current)
    ensures GetDocument(cache, ws, uri).doc == Resolve(ws, current, uri)
    ensures Coherent(GetDocument(cache, ws, uri).cache, ws, current)
  {
  }
}
