/**
 * The per-line field recognizer (test/debug-regex.js, lines 11-30).
 *
 * A class body is split on `\n`; each line is trimmed; empty lines and lines
 * opening with a line-comment or block-comment opener are skipped; every other line is matched against
 *
 *   ^(?:(?:public|private|protected|readonly|static|abstract)\s+)*(\w+)(?:\?\s*)?(?:\s*:\s*[^=;]+)?(\s*=|\s*;)
 *
 * whose first group is the field's name and whose second group is the marker
 * (`=` or `;`, with any whitespace before it that the pattern captured).
 *
 * The recognizer below is deterministic and follows the order in which a
 * backtracking engine explores the pattern; `Pattern` states the pattern itself
 * over split points, and the lemmas connect the two.
 */
module FieldLine {
  import opened Wrappers
  import opened Text
  import Lists

  const Modifiers: seq<string> := ["public", "private", "protected", "readonly", "static", "abstract"]

  predicate IsTerminator(c: char) {
    c == '=' || c == ';'
  }

  /** Every character of `s[a..b]` is whitespace: `AllSpace` on the slice, stated
      by index so that proofs need not build the slice. */
  predicate SpacesIn(s: string, a: nat, b: nat)
    requires a <= b <= |s|
  {
    forall k :: a <= k < b ==> IsSpace(s[k])
  }

  /** Every character of `s[a..b]` is a word character. */
  predicate WordIn(s: string, a: nat, b: nat)
    requires a <= b <= |s|
  {
    forall k :: a <= k < b ==> IsWordChar(s[k])
  }

  // ---------------------------------------------------------------------------
  // The pattern, read literally, over split points

  /** `s[p..q]` is one modifier followed by whitespace, as
      `(?:public|...|abstract)\s+`. */
  ghost predicate ModifierBetween(s: string, p: nat, q: nat) {
    p < q <= |s| && exists i: nat :: i < |Modifiers| && ModifierThenSpaces(s, p, i, q)
  }

  ghost predicate ModifierThenSpaces(s: string, p: nat, i: nat, q: nat)
    requires i < |Modifiers|
  {
    var m := Modifiers[i];
    p + |m| < q <= |s| && s[p..p + |m|] == m && SpacesIn(s, p + |m|, q)
  }

  /** `s[p..q]` is a run of modifiers each followed by whitespace:
      `(?:(?:public|...|abstract)\s+)*`. */
  ghost predicate Mods(s: string, p: nat, q: nat)
    decreases q - p
  {
    p == q || (p < q && exists j: nat :: p < j <= q && ModifierBetween(s, p, j) && Mods(s, j, q))
  }

  /** `s[a..b]` is `(\w+)`. */
  predicate NameSpan(s: string, a: nat, b: nat) {
    a < b <= |s| && WordIn(s, a, b)
  }

  /** `s[a..b]` is `(?:\?\s*)?`. */
  predicate OptQuestion(s: string, a: nat, b: nat) {
    a == b || (a < b <= |s| && s[a] == '?' && SpacesIn(s, a + 1, b))
  }

  /** `s[a..b]` is `\s*:\s*[^=;]+` with the colon at `c` and the type from `d`. */
  predicate TypeAt(s: string, a: nat, c: nat, d: nat, b: nat) {
    a <= c && c < d < b <= |s| && SpacesIn(s, a, c) && s[c] == ':' && SpacesIn(s, c + 1, d)
    && forall k :: d <= k < b ==> !IsTerminator(s[k])
  }

  /** `s[a..b]` is `(?:\s*:\s*[^=;]+)?`. */
  ghost predicate OptType(s: string, a: nat, b: nat) {
    a == b || exists c: nat, d: nat :: TypeAt(s, a, c, d, b)
  }

  /** `s[a..b]` is `(\s*=|\s*;)`. */
  predicate MarkerSpan(s: string, a: nat, b: nat) {
    a < b <= |s| && SpacesIn(s, a, b - 1) && IsTerminator(s[b - 1])
  }

  /** What follows the name, from `t`, with the marker `s[b..c]`. */
  ghost predicate TailAt(s: string, t: nat, a: nat, b: nat, c: nat) {
    t <= a <= b <= c && OptQuestion(s, t, a) && OptType(s, a, b) && MarkerSpan(s, b, c)
  }

  /** Some way of matching the pattern after the name, from `t`, captures `m`. */
  ghost predicate TailSplit(s: string, t: nat, m: string) {
    exists a: nat, b: nat, c: nat :: TailAt(s, t, a, b, c) && m == s[b..c]
  }

  datatype Field = Field(name: string, marker: string)

  /** Some way of matching the pattern from `p` (modifiers from `p`, name at
      `s[i1..i2]`) captures `f`. */
  ghost predicate PatternFrom(s: string, p: nat, f: Field) {
    exists i1: nat, i2: nat :: Mods(s, p, i1) && NameSpan(s, i1, i2) && f.name == s[i1..i2] && TailSplit(s, i2, f.marker)
  }

  // ---------------------------------------------------------------------------
  // The recognizer

  /** The end of the run of word characters starting at `p`. */
  function WordEnd(s: string, p: nat): (w: nat)
    requires p <= |s|
    ensures p <= w <= |s| && WordIn(s, p, w)
    ensures w == |s| || !IsWordChar(s[w])
    decreases |s| - p
  {
    if p < |s| && IsWordChar(s[p]) then WordEnd(s, p + 1) else p
  }

  /** The first `=` or `;` at or after `d`. */
  function NextTerminator(s: string, d: nat): (e: Option<nat>)
    requires d <= |s|
    ensures e.None? ==> forall k :: d <= k < |s| ==> !IsTerminator(s[k])
    ensures e.Some? ==> d <= e.value < |s| && IsTerminator(s[e.value])
                        && forall k :: d <= k < e.value ==> !IsTerminator(s[k])
    decreases |s| - d
  {
    if d == |s| then None
    else if IsTerminator(s[d]) then Some(d)
    else NextTerminator(s, d + 1)
  }

  /** `(?:\?\s*)?(?:\s*:\s*[^=;]+)?(\s*=|\s*;)` from `t`, as the engine takes it:
      the optional `?` with all its whitespace; then, at a colon, a type running
      up to the first `=` or `;`, which must leave it at least one character and
      is the whole marker; otherwise the marker directly, whitespace included. */
  function TailFrom(s: string, t: nat): (m: Option<string>)
    requires t <= |s|
  {
    var r := if t < |s| && s[t] == '?' then SkipSpaces(s, t + 1) else t;
    var u := SkipSpaces(s, r);
    if u < |s| && s[u] == ':' then
      match NextTerminator(s, u + 1)
      case Some(e) => if e >= u + 2 then Some([s[e]]) else None
      case None => None
    else if u < |s| && IsTerminator(s[u]) then Some(s[r..u + 1])
    else None
  }

  /** The pattern from `p`: one more modifier if one is there and the rest then
      matches; otherwise the word at `p` as the name. */
  function MatchAt(s: string, p: nat): (r: Option<Field>)
    requires p <= |s|
    decreases |s| - p
  {
    var w := WordEnd(s, p);
    var deeper := if s[p..w] in Modifiers && w < |s| && IsSpace(s[w]) then MatchAt(s, SkipSpaces(s, w)) else None;
    if deeper.Some? then deeper
    else if w > p then
      match TailFrom(s, w)
      case Some(m) => Some(Field(s[p..w], m))
      case None => None
    else None
  }

  /** `line.match(fieldRegex)` on a trimmed line (line 23). */
  function MatchLine(line: string): Option<Field> {
    MatchAt(line, 0)
  }

  // ---------------------------------------------------------------------------
  // The recognizer agrees with the pattern

  lemma TailSound(s: string, t: nat)
    requires t <= |s|
    ensures TailFrom(s, t).Some? ==> TailSplit(s, t, TailFrom(s, t).value)
  {
    var r := if t < |s| && s[t] == '?' then SkipSpaces(s, t + 1) else t;
    var u := SkipSpaces(s, r);
    assert OptQuestion(s, t, r);
    if u < |s| && s[u] == ':' {
      var e := NextTerminator(s, u + 1);
      if e.Some? && e.value >= u + 2 {
        assert TypeAt(s, r, u, u + 1, e.value);
        assert TailAt(s, t, r, e.value, e.value + 1);
        assert s[e.value..e.value + 1] == [s[e.value]];
      }
    } else if u < |s| && IsTerminator(s[u]) {
      assert OptType(s, r, r);
      assert TailAt(s, t, r, r, u + 1);
    }
  }

  /** Whatever the split, a tail starts with `?`, whitespace, `:`, `=` or `;`. */
  lemma TailStartsWithPunctuation(s: string, t: nat, a: nat, b: nat, c: nat)
    requires TailAt(s, t, a, b, c)
    ensures t < |s| && !IsWordChar(s[t])
  {
    if t == a && a < b {
      var c0: nat, d: nat :| TypeAt(s, a, c0, d, b);
    }
  }

  lemma TailComplete(s: string, t: nat, a: nat, b: nat, c: nat)
    requires TailAt(s, t, a, b, c)
    ensures TailFrom(s, t).Some?
  {
    TailStartsWithPunctuation(s, t, a, b, c);
    var r := if t < |s| && s[t] == '?' then SkipSpaces(s, t + 1) else t;
    var u := SkipSpaces(s, r);
    // The first character after `?` and its whitespace is the colon or the
    // marker's `=`/`;`, in whichever way the split assigned the whitespace.
    var v: nat;
    if a < b {
      var c0: nat, d: nat :| TypeAt(s, a, c0, d, b);
      v := c0;
    } else {
      v := c - 1;
    }
    assert a <= v < |s| && !IsSpace(s[v]) && SpacesIn(s, a, v);
    if t < |s| && s[t] == '?' {
      assert a != t;
    }
    assert SpacesIn(s, r, v);
    assert u == v;
    if a < b {
      var c0: nat, d: nat :| TypeAt(s, a, c0, d, b);
      assert u == c0;
      assert IsTerminator(s[c - 1]);
      assert forall k :: u + 1 <= k < c - 1 ==> !IsTerminator(s[k]);
      var e := NextTerminator(s, u + 1);
      assert e == Some(c - 1);
    }
  }

  /** A word that opens a successful match is read whole. */
  lemma NameIsWholeWord(s: string, i1: nat, i2: nat, m: string)
    requires NameSpan(s, i1, i2) && TailSplit(s, i2, m)
    ensures WordEnd(s, i1) == i2
  {
    var a: nat, b: nat, c: nat :| TailAt(s, i2, a, b, c) && m == s[b..c];
    TailStartsWithPunctuation(s, i2, a, b, c);
    WordEndIs(s, i1, i2);
  }

  lemma {:induction false} WordEndIs(s: string, p: nat, w: nat)
    requires p <= w <= |s| && WordIn(s, p, w) && (w == |s| || !IsWordChar(s[w]))
    ensures WordEnd(s, p) == w
    decreases w - p
  {
    if p < w {
      WordEndIs(s, p + 1, w);
    }
  }

  lemma {:induction false} NextTerminatorIs(s: string, d: nat, e: nat)
    requires d <= e < |s| && IsTerminator(s[e]) && forall k :: d <= k < e ==> !IsTerminator(s[k])
    ensures NextTerminator(s, d) == Some(e)
    decreases e - d
  {
    if d < e {
      NextTerminatorIs(s, d + 1, e);
    }
  }

  /** Nothing matches from a position that holds no word character. */
  lemma NoMatchWithoutWord(s: string, p: nat)
    requires p <= |s| && (p == |s| || !IsWordChar(s[p]))
    ensures MatchAt(s, p).None?
  {
    assert WordEnd(s, p) == p;
    assert s[p..p] !in Modifiers;
  }

  /** Every match the recognizer reports is a match of the pattern. */
  lemma {:induction false} MatchSound(s: string, p: nat)
    requires p <= |s|
    ensures MatchAt(s, p).Some? ==> PatternFrom(s, p, MatchAt(s, p).value)
    decreases |s| - p
  {
    var w := WordEnd(s, p);
    if s[p..w] in Modifiers && w < |s| && IsSpace(s[w]) {
      var q := SkipSpaces(s, w);
      MatchSound(s, q);
      if MatchAt(s, q).Some? {
        ModifierSkipped(s, p, w, q);
        PatternAfterModifier(s, p, q, MatchAt(s, q).value);
        return;
      }
    }
    TailSound(s, w);
    if w > p && TailFrom(s, w).Some? {
      PatternWithoutModifier(s, p, w, TailFrom(s, w).value);
    }
  }

  /** The recognizer's step over a modifier and its whitespace is one
      `(?:public|...|abstract)\s+`. */
  lemma ModifierSkipped(s: string, p: nat, w: nat, q: nat)
    requires p <= w < q <= |s| && s[p..w] in Modifiers && SpacesIn(s, w, q)
    ensures ModifierBetween(s, p, q)
  {
    var i :| 0 <= i < |Modifiers| && Modifiers[i] == s[p..w];
    assert ModifierThenSpaces(s, p, i, q);
  }

  lemma PatternAfterModifier(s: string, p: nat, q: nat, f: Field)
    requires ModifierBetween(s, p, q) && PatternFrom(s, q, f)
    ensures PatternFrom(s, p, f)
  {
    var i1: nat, i2: nat :| Mods(s, q, i1) && NameSpan(s, i1, i2) && f.name == s[i1..i2] && TailSplit(s, i2, f.marker);
    ModsStep(s, p, q, i1);
  }

  lemma PatternWithoutModifier(s: string, p: nat, w: nat, m: string)
    requires NameSpan(s, p, w) && TailSplit(s, w, m)
    ensures PatternFrom(s, p, Field(s[p..w], m))
  {
    assert Mods(s, p, p);
  }

  lemma ModsStep(s: string, p: nat, j: nat, q: nat)
    requires ModifierBetween(s, p, j) && Mods(s, j, q)
    ensures Mods(s, p, q)
  {
    ModsBound(s, j, q);
  }

  lemma {:induction false} ModsBound(s: string, p: nat, q: nat)
    requires Mods(s, p, q)
    ensures p <= q
    decreases q - p
  {
  }

  lemma ModifierIsWord(i: nat)
    requires i < |Modifiers|
    ensures |Modifiers[i]| > 0 && forall k :: 0 <= k < |Modifiers[i]| ==> IsWordChar(Modifiers[i][k])
  {
    assert i == 0 || i == 1 || i == 2 || i == 3 || i == 4 || i == 5;
  }

  /** One modifier and its whitespace: the recognizer steps over exactly it. */
  lemma ModifierStep(s: string, p: nat, j: nat)
    requires ModifierBetween(s, p, j) && j < |s| && IsWordChar(s[j])
    ensures var w := WordEnd(s, p);
      s[p..w] in Modifiers && w < |s| && IsSpace(s[w]) && SkipSpaces(s, w) == j
  {
    var i: nat :| i < |Modifiers| && ModifierThenSpaces(s, p, i, j);
    var m := Modifiers[i];
    ModifierIsWord(i);
    assert WordIn(s, p, p + |m|) by {
      forall k | p <= k < p + |m| ensures IsWordChar(s[k]) {
        assert s[k] == s[p..p + |m|][k - p] == m[k - p];
      }
    }
    WordEndIs(s, p, p + |m|);
    SkipSpacesIs(s, p + |m|, j);
  }

  lemma {:induction false} SkipSpacesIs(s: string, i: nat, j: nat)
    requires i <= j < |s| && SpacesIn(s, i, j) && !IsSpace(s[j])
    ensures SkipSpaces(s, i) == j
    decreases j - i
  {
    if i < j {
      SkipSpacesIs(s, i + 1, j);
    }
  }

  /** Whenever the pattern can match from `p`, the recognizer matches, and with
      the same name: the name is the same for every way of matching. */
  lemma {:induction false} MatchComplete(s: string, p: nat, i1: nat, i2: nat, m: string)
    requires p <= |s|
    requires Mods(s, p, i1) && NameSpan(s, i1, i2) && TailSplit(s, i2, m)
    ensures MatchAt(s, p).Some? && MatchAt(s, p).value.name == s[i1..i2]
    decreases i1 - p
  {
    ModsBound(s, p, i1);
    if p == i1 {
      NameIsWholeWord(s, i1, i2, m);
      var a: nat, b: nat, c: nat :| TailAt(s, i2, a, b, c) && m == s[b..c];
      TailComplete(s, i2, a, b, c);
      var w := i2;
      if s[p..w] in Modifiers && w < |s| && IsSpace(s[w]) {
        // The whitespace after a modifier-like name leads to the tail's
        // punctuation, where no word starts.
        var q := SkipSpaces(s, w);
        TailStartsWithPunctuation(s, i2, a, b, c);
        TailWordFree(s, i2, a, b, c, q);
        NoMatchWithoutWord(s, q);
      }
    } else {
      var j: nat :| p < j <= i1 && ModifierBetween(s, p, j) && Mods(s, j, i1);
      assert j < |s| && IsWordChar(s[j]) by {
        if j < i1 {
          ModsStartsWithWord(s, j, i1);
        }
      }
      ModifierStep(s, p, j);
      MatchComplete(s, j, i1, i2, m);
    }
  }

  /** A non-empty run of modifiers opens with a word character. */
  lemma ModsStartsWithWord(s: string, p: nat, q: nat)
    requires p < q && Mods(s, p, q)
    ensures p < |s| && IsWordChar(s[p])
  {
    var j: nat :| p < j <= q && ModifierBetween(s, p, j) && Mods(s, j, q);
    var i: nat :| i < |Modifiers| && ModifierThenSpaces(s, p, i, j);
    assert s[p] == Modifiers[i][0];
    assert i == 0 || i == 1 || i == 2 || i == 3 || i == 4 || i == 5;
  }

  /** After the whitespace that follows the name, a tail holds no word character. */
  lemma TailWordFree(s: string, t: nat, a: nat, b: nat, c: nat, q: nat)
    requires TailAt(s, t, a, b, c) && t < |s| && IsSpace(s[t])
    requires t <= q <= |s| && SpacesIn(s, t, q) && (q == |s| || !IsSpace(s[q]))
    ensures q < |s| && !IsWordChar(s[q])
  {
    assert t == a;
    if a < b {
      var c0: nat, d: nat :| TypeAt(s, a, c0, d, b);
      assert q == c0;
    } else {
      assert q == c - 1;
    }
  }

  /** The pattern finds a field in `line` exactly when the recognizer does, and
      they agree on its name. */
  lemma MatchLineIsPattern(line: string, f: Field)
    ensures MatchLine(line) == Some(f) ==> PatternFrom(line, 0, f)
    ensures PatternFrom(line, 0, f) ==> MatchLine(line).Some? && MatchLine(line).value.name == f.name
  {
    MatchSound(line, 0);
    if PatternFrom(line, 0, f) {
      var i1: nat, i2: nat :| Mods(line, 0, i1) && NameSpan(line, i1, i2) && f.name == line[i1..i2] && TailSplit(line, i2, f.marker);
      MatchComplete(line, 0, i1, i2, f.marker);
    }
  }

  /** Nothing matches from `p` when no `=` or `;` follows it. */
  lemma NoTerminatorNoMatch(s: string, p: nat)
    requires p <= |s|
    requires forall k :: p <= k < |s| ==> !IsTerminator(s[k])
    ensures MatchAt(s, p).None?
  {
    MatchSound(s, p);
  }

  /** A line that does not open with a word character never matches. */
  lemma NonWordStartNoMatch(line: string)
    requires line == [] || !IsWordChar(line[0])
    ensures MatchLine(line).None?
  {
    NoMatchWithoutWord(line, 0);
  }

  // ---------------------------------------------------------------------------
  // Lines of a class body

  datatype LineVerdict = Skipped | NoMatch | Matched(field: Field)

  /** Lines 15-29: trim, skip blanks and comments, then match. */
  function AnalyzeLine(raw: string): (v: LineVerdict)
    ensures var line := Trim(raw);
      v.Skipped? <==> line == [] || StartsWith(line, "//") || StartsWith(line, "/*")
  {
    var line := Trim(raw);
    if line == [] || StartsWith(line, "//") || StartsWith(line, "/*") then Skipped
    else match MatchLine(line)
      case Some(f) => Matched(f)
      case None => NoMatch
  }

  /** Matching works on the trimmed line: a field is reported exactly for lines
      whose trimmed text the pattern matches (and is not a comment), with the
      name every way of matching agrees on. */
  lemma AnalyzeLineIsPattern(raw: string, f: Field)
    ensures AnalyzeLine(raw) == Matched(f) ==> PatternFrom(Trim(raw), 0, f)
    ensures var line := Trim(raw);
      !(StartsWith(line, "//") || StartsWith(line, "/*")) && PatternFrom(line, 0, f) ==>
        AnalyzeLine(raw).Matched? && AnalyzeLine(raw).field.name == f.name
  {
    var line := Trim(raw);
    MatchLineIsPattern(line, f);
    if PatternFrom(line, 0, f) {
      var i1: nat, i2: nat :| Mods(line, 0, i1) && NameSpan(line, i1, i2) && f.name == line[i1..i2] && TailSplit(line, i2, f.marker);
      assert line != [];
    }
  }

  /** Surrounding whitespace makes no difference. */
  lemma AnalyzeLineIgnoresIndent(raw: string)
    ensures AnalyzeLine(raw) == AnalyzeLine(Trim(raw))
  {
    TrimIdempotent(raw);
  }

  /** Comment lines are never matched, even when they hold a field declaration. */
  lemma CommentsNeverMatch(raw: string)
    requires StartsWith(Trim(raw), "//") || StartsWith(Trim(raw), "/*")
    ensures AnalyzeLine(raw) == Skipped
  {
  }

  /** The name a line contributes: one for a matched line, none otherwise. */
  function LineNames(raw: string): (names: seq<string>)
    ensures |names| <= 1
    ensures names != [] <==> AnalyzeLine(raw).Matched?
  {
    match AnalyzeLine(raw)
    case Matched(f) => [f.name]
    case _ => []
  }

  /** Lines 11-30: the names found in a class body, in line order. */
  function FieldNames(body: string): seq<string> {
    Lists.FlatMap(LineNames, Split(body, '\n'))
  }

  /** The line is reported as declaring a field called `n`. */
  predicate Declares(raw: string, n: string) {
    AnalyzeLine(raw).Matched? && AnalyzeLine(raw).field.name == n
  }

  /** A name is reported exactly when some line of the body declares it. */
  lemma FieldNamesMembers(body: string, n: string)
    ensures var lines := Split(body, '\n');
      n in FieldNames(body) <==> exists i :: 0 <= i < |lines| && Declares(lines[i], n)
  {
    var lines := Split(body, '\n');
    Lists.FlatMapMembers(LineNames, lines, n);
    forall i | 0 <= i < |lines| ensures n in LineNames(lines[i]) <==> Declares(lines[i], n) {
      LineNamesDeclare(lines[i], n);
    }
  }

  lemma LineNamesDeclare(raw: string, n: string)
    ensures n in LineNames(raw) <==> Declares(raw, n)
  {
  }

  // ---------------------------------------------------------------------------
  // Examples

  /** A plain `name = ...` or `name;` line, no modifier, `?` or type. */
  lemma PlainField(s: string, w: nat, u: nat)
    requires 0 < w <= u < |s| && WordIn(s, 0, w) && s[w] != '?' && !IsWordChar(s[w])
    requires SpacesIn(s, w, u) && IsTerminator(s[u]) && s[..w] !in Modifiers
    ensures MatchLine(s) == Some(Field(s[..w], s[w..u + 1]))
  {
    WordEndIs(s, 0, w);
    SkipSpacesIs(s, w, u);
  }

  /** The trimmed text of a line indented by `n` characters of whitespace. */
  lemma IndentedLine(raw: string, n: nat)
    requires n < |raw| && SpacesIn(raw, 0, n) && !IsSpace(raw[n]) && !IsSpace(raw[|raw| - 1])
    ensures Trim(raw) == raw[n..]
  {
    TrimIs(raw, n, |raw|);
  }

  /** A line whose trimmed text is not a comment and matches with field `f`. */
  lemma NamedLine(raw: string, s: string, f: Field)
    requires Trim(raw) == s && |s| >= 2 && s[0] != '/' && MatchLine(s) == Some(f)
    ensures LineNames(raw) == [f.name]
  {
  }

  /** An indented `name = ...` line, the shape of the sample's field lines. */
  lemma IndentedAssignment(raw: string, n: nat, w: nat)
    requires 0 < w && n + w + 1 < |raw| && SpacesIn(raw, 0, n) && !IsSpace(raw[|raw| - 1])
    requires WordIn(raw, n, n + w) && raw[n + w] == ' ' && raw[n + w + 1] == '='
    requires raw[n..n + w] !in Modifiers
    ensures LineNames(raw) == [raw[n..n + w]]
  {
    assert IsWordChar(raw[n]);
    IndentedLine(raw, n);
    var s := raw[n..];
    assert s[..w] == raw[n..n + w];
    assert WordIn(s, 0, w);
    PlainField(s, w, w + 1);
    NamedLine(raw, s, Field(raw[n..n + w], s[w..w + 2]));
  }

  lemma SampleSimpleField(raw: string)
    requires raw == "\tsimpleField = 5;"
    ensures LineNames(raw) == ["simpleField"]
  {
    assert raw[1..12] == "simpleField";
    IndentedAssignment(raw, 1, 11);
  }

  lemma SampleComplexObject(raw: string)
    requires raw == "\tcomplexObject = {"
    ensures LineNames(raw) == ["complexObject"]
  {
    assert raw[1..14] == "complexObject";
    IndentedAssignment(raw, 1, 13);
  }

  lemma SampleComplexArray(raw: string)
    requires raw == "\tcomplexArray = [ {} ];"
    ensures LineNames(raw) == ["complexArray"]
  {
    assert raw == "\t" + "complexArray" + " = [ {} ];";
    assert raw[1..13] == "complexArray";
    IndentedAssignment(raw, 1, 12);
  }

  lemma SampleShortName(raw: string)
    requires raw == "\ta = [ {} ];"
    ensures LineNames(raw) == ["a"]
  {
    assert raw[1..2] == "a";
    IndentedAssignment(raw, 1, 1);
  }

  /** The object's inner `prop: "value"` line has no `=` or `;`. */
  lemma SampleInnerProperty(raw: string)
    requires raw == "\t\tprop: \"value\""
    ensures LineNames(raw) == []
  {
    IndentedLine(raw, 2);
    var s := raw[2..];
    assert s == "prop: \"value\"";
    NoTerminatorNoMatch(s, 0);
  }

  /** The closing `};` does not open with a word character. */
  lemma SampleCloser(raw: string)
    requires raw == "\t};"
    ensures LineNames(raw) == []
  {
    IndentedLine(raw, 1);
    NonWordStartNoMatch(raw[1..]);
  }

  lemma BlankLine()
    ensures LineNames("") == []
  {
    TrimUnchanged("");
  }

  /** The lines of the sample class body of lines 2-9, as `split('\n')` yields
      them: a blank first and last line around six lines of fields. */
  const SampleLines: seq<string> := [
    "", "\tsimpleField = 5;", "\tcomplexObject = {", "\t\tprop: \"value\"", "\t};",
    "\tcomplexArray = [ {} ];", "\ta = [ {} ];", ""]

  /** On the sample body (the sample lines joined by line breaks), exactly
      `simpleField`, `complexObject`, `complexArray` and `a` are recognised, in
      that order. */
  lemma SampleBodyNames(body: string)
    requires body == Join(SampleLines, '\n')
    ensures FieldNames(body) == ["simpleField", "complexObject", "complexArray", "a"]
  {
    var lines := SampleLines;
    SplitJoin(lines, '\n');
    BlankLine();
    SampleSimpleField(lines[1]);
    SampleComplexObject(lines[2]);
    SampleInnerProperty(lines[3]);
    SampleCloser(lines[4]);
    SampleComplexArray(lines[5]);
    SampleShortName(lines[6]);
    SampleNamesConcat(LineNames, lines);
  }

  lemma SampleNamesConcat(f: string -> seq<string>, lines: seq<string>)
    requires |lines| == 8
    requires f(lines[0]) == [] && f(lines[1]) == ["simpleField"]
    requires f(lines[2]) == ["complexObject"] && f(lines[3]) == [] && f(lines[4]) == []
    requires f(lines[5]) == ["complexArray"] && f(lines[6]) == ["a"] && f(lines[7]) == []
    ensures Lists.FlatMap(f, lines) == ["simpleField", "complexObject", "complexArray", "a"]
  {
    assert Lists.FlatMap(f, lines[8..]) == [];
    assert Lists.FlatMap(f, lines[7..]) == [] by { assert lines[7..][1..] == lines[8..]; }
    assert Lists.FlatMap(f, lines[6..]) == ["a"] by { assert lines[6..][1..] == lines[7..]; }
    assert Lists.FlatMap(f, lines[5..]) == ["complexArray", "a"] by { assert lines[5..][1..] == lines[6..]; }
    assert Lists.FlatMap(f, lines[4..]) == ["complexArray", "a"] by { assert lines[4..][1..] == lines[5..]; }
    assert Lists.FlatMap(f, lines[3..]) == ["complexArray", "a"] by { assert lines[3..][1..] == lines[4..]; }
    assert Lists.FlatMap(f, lines[2..]) == ["complexObject", "complexArray", "a"] by { assert lines[2..][1..] == lines[3..]; }
    assert Lists.FlatMap(f, lines[1..]) == ["simpleField", "complexObject", "complexArray", "a"] by { assert lines[1..][1..] == lines[2..]; }
  }

  /** A modifier followed by a name: the modifier is skipped. */
  lemma ModifierThenName(s: string)
    requires s == "static s = 1;"
    ensures MatchLine(s) == Some(Field("s", " ="))
  {
    assert s[..6] == "static";
    ModifierIsWord(4);
    WordEndIs(s, 0, 6);
    SkipSpacesIs(s, 6, 7);
    WordEndIs(s, 7, 8);
    SkipSpacesIs(s, 8, 9);
    assert s[7..8] == "s" && s[7..8] !in Modifiers;
    assert s[8..10] == " =";
    assert TailFrom(s, 8) == Some(" =");
    assert MatchAt(s, 7) == Some(Field("s", " ="));
  }

  /** A modifier keyword with nothing after it but the marker is itself the name:
      the engine gives the modifier back. */
  lemma ModifierAsName(s: string)
    requires s == "static = 5;"
    ensures MatchLine(s) == Some(Field("static", " ="))
  {
    assert s[..6] == "static";
    ModifierIsWord(4);
    WordEndIs(s, 0, 6);
    SkipSpacesIs(s, 6, 7);
    NoMatchWithoutWord(s, 7);
    assert s[6..8] == " =";
  }

  /** An optional field with a type: the marker is the `;` ending the type. */
  lemma OptionalTypedField(s: string)
    requires s == "count?: number;"
    ensures MatchLine(s) == Some(Field("count", ";"))
  {
    assert s[..5] == "count";
    WordEndIs(s, 0, 5);
    SkipSpacesIs(s, 6, 6);
    NextTerminatorIs(s, 7, 14);
  }

  /** A type must have at least one character before the `=` or `;`. */
  lemma EmptyTypeNoMatch(s: string)
    requires s == "a:=1;"
    ensures MatchLine(s) == None
  {
    WordEndIs(s, 0, 1);
    SkipSpacesIs(s, 1, 1);
    assert s[..1] !in Modifiers;
  }
}
