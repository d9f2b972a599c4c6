/**
 * The line-local read/write heuristic applied to each usage of a property
 * (propertyReadWriteCodelens.js, lines 127-143).
 *
 * A usage at column `pos` of `line`, for a property called `name`, is a Write
 * when the trimmed text after the name opens with an assignment or update
 * operator, when the trimmed text before it closes with `++` or `--`, or when
 * the line contains `name + " ="` anywhere; it is a Read otherwise.
 */
module Classifier {
  import opened Text

  datatype Access = Read | Write

  /** The operators the source accepts at the start of the text after the name,
      besides a lone `=`. */
  const UpdateOperators: seq<string> := ["++", "--", "+=", "-=", "*=", "/=", "%="]

  /** `line.substring(pos + name.length).trim()`. */
  function TextAfter(line: string, pos: int, name: string): string {
    Trim(SubstringFrom(line, pos + |name|))
  }

  /** `line.substring(0, pos).trim()`. */
  function TextBefore(line: string, pos: int): string {
    Trim(SubstringTo(line, pos))
  }

  /** `a[..k]` is whitespace and `a[k]` is an `=` that is not the start of `==`. */
  ghost predicate LoneEqualsAt(a: string, k: int) {
    0 <= k < |a| && AllSpace(a[..k]) && a[k] == '=' && !(k + 1 < |a| && a[k + 1] == '=')
  }

  /** `a[k..k + 2]` is `++` or `--` and only whitespace follows it. */
  ghost predicate IncrementEndsAt(b: string, k: int) {
    0 <= k && k + 2 <= |b| && (b[k..k + 2] == "++" || b[k..k + 2] == "--") && AllSpace(b[k + 2..])
  }

  /** The pattern `^(\s*=(?!=)|(\+\+|--|\+=|-=|\*=|\/=|%=))`, read literally. */
  ghost predicate AssignmentPattern(a: string) {
    || (exists k :: LoneEqualsAt(a, k))
    || (exists i :: 0 <= i < |UpdateOperators| && StartsWith(a, UpdateOperators[i]))
  }

  /** The pattern `(\+\+|--)\s*$`, read literally. */
  ghost predicate IncrementPattern(b: string) {
    exists k :: IncrementEndsAt(b, k)
  }

  /** The check as the model evaluates it, on text that has been trimmed. */
  predicate OpensWithAssignment(a: string) {
    || (|a| >= 1 && a[0] == '=' && !(|a| >= 2 && a[1] == '='))
    || StartsWith(a, "++") || StartsWith(a, "--") || StartsWith(a, "+=") || StartsWith(a, "-=")
    || StartsWith(a, "*=") || StartsWith(a, "/=") || StartsWith(a, "%=")
  }

  predicate ClosesWithIncrement(b: string) {
    EndsWith(b, "++") || EndsWith(b, "--")
  }

  /** On text with no leading whitespace, the first-character check is the pattern. */
  lemma AssignmentCheckMatchesPattern(a: string)
    requires a == [] || !IsSpace(a[0])
    ensures OpensWithAssignment(a) <==> AssignmentPattern(a)
  {
    if OpensWithAssignment(a) {
      if |a| >= 1 && a[0] == '=' && !(|a| >= 2 && a[1] == '=') {
        assert LoneEqualsAt(a, 0);
      } else if StartsWith(a, "++") { assert StartsWith(a, UpdateOperators[0]);
      } else if StartsWith(a, "--") { assert StartsWith(a, UpdateOperators[1]);
      } else if StartsWith(a, "+=") { assert StartsWith(a, UpdateOperators[2]);
      } else if StartsWith(a, "-=") { assert StartsWith(a, UpdateOperators[3]);
      } else if StartsWith(a, "*=") { assert StartsWith(a, UpdateOperators[4]);
      } else if StartsWith(a, "/=") { assert StartsWith(a, UpdateOperators[5]);
      } else { assert StartsWith(a, UpdateOperators[6]); }
    }
    if AssignmentPattern(a) {
      if k :| LoneEqualsAt(a, k) {
      } else {
        var i :| 0 <= i < |UpdateOperators| && StartsWith(a, UpdateOperators[i]);
        assert i == 0 || i == 1 || i == 2 || i == 3 || i == 4 || i == 5 || i == 6;
      }
    }
  }

  /** On text with no trailing whitespace, the suffix check is the pattern. */
  lemma IncrementCheckMatchesPattern(b: string)
    requires b == [] || !IsSpace(b[|b| - 1])
    ensures ClosesWithIncrement(b) <==> IncrementPattern(b)
  {
    if ClosesWithIncrement(b) {
      assert IncrementEndsAt(b, |b| - 2);
    }
    if IncrementPattern(b) {
      var k :| IncrementEndsAt(b, k);
      assert b[|b| - 2..] == b[k..k + 2];
    }
  }

  /** The classification of one usage (propertyReadWriteCodelens.js:127-143). */
  function Classify(line: string, pos: int, name: string): Access {
    var after := TextAfter(line, pos, name);
    var before := TextBefore(line, pos);
    if OpensWithAssignment(after) || ClosesWithIncrement(before) || Includes(line, name + " =")
    then Write
    else Read
  }

  /** A usage is a Write exactly when one of the three patterns of the source,
      read literally, matches. */
  lemma ClassifyMatchesPatterns(line: string, pos: int, name: string)
    ensures Classify(line, pos, name) == Write <==>
      || AssignmentPattern(TextAfter(line, pos, name))
      || IncrementPattern(TextBefore(line, pos))
      || Includes(line, name + " =")
  {
    AssignmentCheckMatchesPattern(TextAfter(line, pos, name));
    IncrementCheckMatchesPattern(TextBefore(line, pos));
  }

  /** Any line holding `name ==` counts as a Write, whatever the column: `name =`
      is a prefix of `name ==`, so the substring clause fires on comparisons. */
  lemma {:induction false} EqualityCountsAsWrite(line: string, pos: int, name: string)
    requires Includes(line, name + " ==")
    ensures Classify(line, pos, name) == Write
  {
    var i := IndexOf(line, name + " ==");
    var t := name + " =";
    assert line[i..i + |t|] == (name + " ==")[..|t|];
    assert OccursAt(line, t, i);
    ClassifyMatchesPatterns(line, pos, name);
  }

  /** When the name is reached through a member access (`obj.name`), the text
      before it ends with `.`, so the prefix clause never fires: `++obj.name`
      is not recognised as an increment by that clause. */
  lemma MemberAccessHidesPrefixIncrement(line: string, pos: int)
    requires 0 < pos <= |line| && line[pos - 1] == '.'
    ensures !IncrementPattern(TextBefore(line, pos))
  {
    var b := TextBefore(line, pos);
    var pre := SubstringTo(line, pos);
    assert pre[|pre| - 1] == '.';
    TrimIs(pre, SkipSpaces(pre, 0), |pre|);
    IncrementCheckMatchesPattern(b);
  }

  /** A name followed directly by punctuation that cannot start an assignment or
      update operator (a `)`, `;`, `,`, `.`, ...) is not caught by the first clause. */
  lemma PunctuationAfterIsNotAssignment(line: string, pos: int, name: string)
    requires 0 <= pos && pos + |name| < |line|
    requires var c := line[pos + |name|];
      !IsSpace(c) && c != '=' && c != '+' && c != '-' && c != '*' && c != '/' && c != '%'
    ensures !AssignmentPattern(TextAfter(line, pos, name))
  {
    var suffix := SubstringFrom(line, pos + |name|);
    var c := suffix[0];
    assert c == line[pos + |name|];
    var e := BackSpaces(suffix, 1, |suffix|);
    TrimIs(suffix, 0, e);
    var a := TextAfter(line, pos, name);
    assert a == suffix[..e] && a[0] == c;
    forall op | op in UpdateOperators ensures !StartsWith(a, op) {
      assert |op| == 2 && op[0] != c;
    }
    AssignmentCheckMatchesPattern(a);
  }

  /** A string cannot contain a text with a character the string lacks. */
  lemma AbsentCharRulesOutIncludes(s: string, t: string, j: nat)
    requires j < |t| && t[j] !in s
    ensures !Includes(s, t)
  {
  }

  /** A usage none of whose three clauses fires is a Read. */
  lemma ReadWhenNoClauseFires(line: string, pos: int, name: string)
    requires !AssignmentPattern(TextAfter(line, pos, name))
    requires !IncrementPattern(TextBefore(line, pos))
    requires !Includes(line, name + " =")
    ensures Classify(line, pos, name) == Read
  {
    ClassifyMatchesPatterns(line, pos, name);
  }

  lemma ExampleAssign()
    ensures Classify("foo.prop = 5;", 4, "prop") == Write
  {
    var line := "foo.prop = 5;";
    assert line[4..10] == "prop =";
    assert OccursAt(line, "prop" + " =", 4);
  }
  lemma ExampleRead(line: string)
    requires line == "console.log(foo.prop);"
    ensures Classify(line, 16, "prop") == Read
  {
    PunctuationAfterIsNotAssignment(line, 16, "prop");
    MemberAccessHidesPrefixIncrement(line, 16);
    AbsentCharRulesOutIncludes(line, "prop" + " =", 4);
    ReadWhenNoClauseFires(line, 16, "prop");
  }
  lemma ExamplePostInc(line: string)
    requires line == "foo.prop++;"
    ensures Classify(line, 4, "prop") == Write
  {
    assert SubstringFrom(line, 8) == "++;";
    TrimIs("++;", 0, 3);
    assert StartsWith(TextAfter(line, 4, "prop"), "++");
  }
  lemma ExamplePreInc(line: string)
    requires line == "++foo.prop;"
    ensures Classify(line, 6, "prop") == Read
  {
    PunctuationAfterIsNotAssignment(line, 6, "prop");
    MemberAccessHidesPrefixIncrement(line, 6);
    AbsentCharRulesOutIncludes(line, "prop" + " =", 4);
    ReadWhenNoClauseFires(line, 6, "prop");
  }
  lemma ExampleCompound(line: string)
    requires line == "foo.prop += 1;"
    ensures Classify(line, 4, "prop") == Write
  {
    assert SubstringFrom(line, 8) == " += 1;";
    TrimIs(" += 1;", 1, 6);
    assert TextAfter(line, 4, "prop") == "+= 1;";
  }
  lemma ExampleEq()
    ensures Classify("if (foo.prop == 5)", 8, "prop") == Write
  {
    var line := "if (foo.prop == 5)";
    assert line[8..14] == "prop =";
    assert OccursAt(line, "prop" + " =", 8);
  }
}
