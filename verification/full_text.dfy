/**
 * `buildFullTextRegex`, as app/Search/buildFullTextRegex.test.js pins it: the
 * search value is split into words; for n words the pattern is a wildcard
 * followed by n groups, each an alternation of all the words, the k-th
 * preceded by a negative lookahead on the k-1 groups already captured and
 * followed by another wildcard; the flags are "gimy".
 */
module FullTextRegex {
  import opened Text

  /** `[\s\S]*`: any text, newlines included. */
  const Wildcard := "[\\s\\S]*"
  const Flags := "gimy"

  /** The whitespace the value is split on. */
  predicate IsSpace(c: char) {
    c == ' ' || c == '\t' || c == '\n' || c == '\r' || c as int == 11 || c as int == 12
  }

  predicate IsWord(w: string) {
    |w| > 0 && forall i :: 0 <= i < |w| ==> !IsSpace(w[i])
  }

  /** Length of the run of non-space characters `s` starts with. */
  function WordLength(s: string): (n: nat)
    ensures n <= |s|
    ensures forall i :: 0 <= i < n ==> !IsSpace(s[i])
    ensures n < |s| ==> IsSpace(s[n])
  {
    if s == [] || IsSpace(s[0]) then 0 else 1 + WordLength(s[1..])
  }

  /** The words of `s`: its maximal runs of non-space characters, in order. */
  function Words(s: string): (words: seq<string>)
    ensures forall k :: 0 <= k < |words| ==> IsWord(words[k])
    decreases |s|
  {
    if s == [] then []
    else if IsSpace(s[0]) then Words(s[1..])
    else
      var n := WordLength(s);
      [s[..n]] + Words(s[n..])
  }

  /** `(w1|w2|...|wn)`. */
  function Alternation(words: seq<string>): string {
    "(" + Join(words, "|") + ")"
  }

  /** `\i`: a reference to the i-th captured group. */
  function BackReference(i: nat): string {
    "\\" + NatToString(i)
  }

  /** `\1|\2|...|\k`. */
  function BackReferences(k: nat): string {
    if k == 0 then ""
    else if k == 1 then BackReference(1)
    else BackReferences(k - 1) + "|" + BackReference(k)
  }

  /** What precedes group k + 1: nothing for the first group, else `(?!\1|...|\k)`. */
  function Lookahead(k: nat): string {
    if k == 0 then "" else "(?!" + BackReferences(k) + ")"
  }

  /** Groups k + 1 .. n, each with its lookahead and trailing wildcard. */
  function Segments(alternation: string, k: nat, n: nat): string
    decreases n - k
  {
    if k >= n then "" else Lookahead(k) + alternation + Wildcard + Segments(alternation, k + 1, n)
  }

  datatype Regex = Regex(source: string, flags: string)

  function BuildFullTextRegex(value: string): (r: Regex)
    ensures r.flags == Flags
    ensures StartsWith(r.source, Wildcard)
  {
    var words := Words(value);
    Regex(Wildcard + Segments(Alternation(words), 0, |words|), Flags)
  }

  // ---- words --------------------------------------------------------------

  /** A value has no words exactly when it is all whitespace. */
  lemma {:induction false} NoWordsIffBlank(s: string)
    ensures Words(s) == [] <==> forall i :: 0 <= i < |s| ==> IsSpace(s[i])
    decreases |s|
  {
    if s != [] {
      NoWordsIffBlank(s[1..]);
      if IsSpace(s[0]) {
        forall i | 1 <= i < |s| ensures s[i] == s[1..][i - 1] { }
      }
    }
  }

  lemma {:induction false} WordLengthOfWord(w: string, rest: string)
    requires IsWord(w)
    requires rest == [] || IsSpace(rest[0])
    ensures WordLength(w + rest) == |w|
    decreases |w|
  {
    var s := w + rest;
    if |w| == 1 {
      assert s[1..] == rest;
    } else {
      assert s[1..] == w[1..] + rest;
      WordLengthOfWord(w[1..], rest);
    }
  }

  /** Splitting the words joined with single spaces gives the words back. */
  lemma {:induction false} WordsOfJoin(words: seq<string>)
    requires forall k :: 0 <= k < |words| ==> IsWord(words[k])
    ensures Words(Join(words, " ")) == words
    decreases |words|
  {
    if |words| == 1 {
      var w := words[0];
      WordLengthOfWord(w, "");
      assert w[..|w|] == w && w[|w|..] == [];
    } else if |words| > 1 {
      var w, rest := words[0], Join(words[1..], " ");
      var s := w + " " + rest;
      assert s == w + (" " + rest);
      WordLengthOfWord(w, " " + rest);
      assert s[..|w|] == w;
      assert s[|w|..] == " " + rest;
      assert (" " + rest)[1..] == rest;
      WordsOfJoin(words[1..]);
    }
  }

  // ---- capture groups -----------------------------------------------------

  /**
   * Capturing groups opened in `s`: each '(' not followed by '?' (no escaped
   * parenthesis occurs in the patterns built here).
   */
  function Groups(s: string): nat {
    if s == [] then 0
    else (if s[0] == '(' && !(|s| > 1 && s[1] == '?') then 1 else 0) + Groups(s[1..])
  }

  lemma {:induction false} GroupsWithoutParen(s: string)
    requires '(' !in s
    ensures Groups(s) == 0
  {
    if s != [] {
      assert s[0] in s;
      assert forall c :: c in s[1..] ==> c in s;
      GroupsWithoutParen(s[1..]);
    }
  }

  lemma {:induction false} GroupsOfConcat(a: string, b: string)
    requires a == [] || a[|a| - 1] != '('
    ensures Groups(a + b) == Groups(a) + Groups(b)
  {
    if a == [] {
      assert a + b == b;
    } else {
      assert (a + b)[1..] == a[1..] + b;
      GroupsOfConcat(a[1..], b);
    }
  }

  lemma {:induction false} CharFreeJoin(words: seq<string>, sep: string, c: char)
    requires c !in sep
    requires forall k :: 0 <= k < |words| ==> c !in words[k]
    ensures c !in Join(words, sep)
  {
    if |words| > 1 {
      CharFreeJoin(words[1..], sep, c);
    }
  }

  lemma {:induction false} ParenFreeBackReferences(k: nat)
    ensures '(' !in BackReferences(k)
  {
    if k > 1 {
      ParenFreeBackReferences(k - 1);
    }
  }

  lemma LookaheadCapturesNothing(k: nat)
    ensures Groups(Lookahead(k)) == 0
  {
    if k > 0 {
      var s := Lookahead(k);
      ParenFreeBackReferences(k);
      assert s[1..] == "?!" + BackReferences(k) + ")";
      GroupsWithoutParen(s[1..]);
    }
  }

  /** A word that can sit inside a group verbatim: it opens no group of its own. */
  predicate Plain(w: string) {
    '(' !in w && '?' !in w
  }

  lemma AlternationCapturesOnce(words: seq<string>)
    requires forall k :: 0 <= k < |words| ==> Plain(words[k])
    ensures Groups(Alternation(words)) == 1
  {
    var s := Alternation(words);
    CharFreeJoin(words, "|", '(');
    CharFreeJoin(words, "|", '?');
    assert s[1..] == Join(words, "|") + ")";
    assert s[1] in s[1..];
    GroupsWithoutParen(s[1..]);
  }

  lemma PieceGroups(look: string, alternation: string, rest: string)
    requires Groups(look) == 0 && (look == [] || look[|look| - 1] == ')')
    requires |alternation| > 0 && alternation[|alternation| - 1] == ')'
    ensures Groups(look + alternation + Wildcard + rest) == Groups(alternation) + Groups(rest)
  {
    GroupsWithoutParen(Wildcard);
    GroupsOfConcat(Wildcard, rest);
    GroupsOfConcat(alternation, Wildcard + rest);
    GroupsOfConcat(look, alternation + (Wildcard + rest));
    assert look + alternation + Wildcard + rest == look + (alternation + (Wildcard + rest));
  }

  lemma {:induction false} SegmentGroups(alternation: string, k: nat, n: nat)
    requires Groups(alternation) == 1 && |alternation| > 0 && alternation[|alternation| - 1] == ')'
    ensures Groups(Segments(alternation, k, n)) == if k >= n then 0 else n - k
    decreases n - k
  {
    if k < n {
      LookaheadCapturesNothing(k);
      SegmentGroups(alternation, k + 1, n);
      PieceGroups(Lookahead(k), alternation, Segments(alternation, k + 1, n));
    }
  }

  /**
   * A value with n plain words gives a pattern with
   * exactly n capturing groups, so the back-references `\1`..`\n-1` all refer
   * to groups of the pattern.
   */
  lemma CaptureGroupCount(value: string)
    requires forall k :: 0 <= k < |Words(value)| ==> Plain(Words(value)[k])
    ensures Groups(BuildFullTextRegex(value).source) == |Words(value)|
  {
    var words := Words(value);
    var alternation := Alternation(words);
    AlternationCapturesOnce(words);
    SegmentGroups(alternation, 0, |words|);
    GroupsWithoutParen(Wildcard);
    GroupsOfConcat(Wildcard, Segments(alternation, 0, |words|));
  }

  // ---- the two documented cases -------------------------------------------

  /** An all-whitespace value gives the bare wildcard. */
  lemma BlankValueIsWildcard(value: string)
    requires forall i :: 0 <= i < |value| ==> IsSpace(value[i])
    ensures BuildFullTextRegex(value) == Regex(Wildcard, Flags)
  {
    NoWordsIffBlank(value);
    assert Wildcard + "" == Wildcard;
  }

  lemma ExampleWords()
    ensures Words("unit test dashboard") == ["unit", "test", "dashboard"]
  {
    WordsOfJoin(["unit", "test", "dashboard"]);
    assert Join(["unit", "test", "dashboard"], " ") == "unit test dashboard";
  }

  lemma ExampleLookaheads()
    ensures Lookahead(1) == "(?!\\1)"
    ensures Lookahead(2) == "(?!\\1|\\2)"
  {
    assert NatToString(1) == "1";
    assert NatToString(2) == "2";
  }

  lemma ExampleAlternation()
    ensures Alternation(["unit", "test", "dashboard"]) == "(unit|test|dashboard)"
  {
    assert Join(["unit", "test", "dashboard"], "|") == "unit|test|dashboard";
  }

  lemma SegmentsStep(alternation: string, k: nat, n: nat)
    requires k < n
    ensures Segments(alternation, k, n) == Lookahead(k) + alternation + Wildcard + Segments(alternation, k + 1, n)
  {
  }

  lemma Unfold3(w: string, a: string, l1: string, l2: string, s0: string, s1: string, s2: string)
    requires s2 == l2 + a + w + "" && s1 == l1 + a + w + s2 && s0 == "" + a + w + s1
    ensures s0 == a + w + (l1 + a + w + (l2 + a + w))
  {
  }

  lemma ThreeSegments(alternation: string)
    ensures Segments(alternation, 0, 3)
         == alternation + Wildcard + (Lookahead(1) + alternation + Wildcard + (Lookahead(2) + alternation + Wildcard))
  {
    SegmentsStep(alternation, 0, 3);
    SegmentsStep(alternation, 1, 3);
    SegmentsStep(alternation, 2, 3);
    assert Lookahead(0) == "" && Segments(alternation, 3, 3) == "";
    Unfold3(Wildcard, alternation, Lookahead(1), Lookahead(2),
            Segments(alternation, 0, 3), Segments(alternation, 1, 3), Segments(alternation, 2, 3));
  }

  lemma Reassociate(w: string, a: string, l1: string, l2: string)
    ensures w + (a + w + (l1 + a + w + (l2 + a + w))) == w + a + w + l1 + a + w + l2 + a + w
  {
  }

  /** The three-word example of the test suite, piece by piece. */
  lemma ThreeWords()
    ensures BuildFullTextRegex("unit test dashboard")
         == Regex(Wildcard + "(unit|test|dashboard)" + Wildcard
                  + "(?!\\1)" + "(unit|test|dashboard)" + Wildcard
                  + "(?!\\1|\\2)" + "(unit|test|dashboard)" + Wildcard, Flags)
  {
    ExampleWords();
    ExampleLookaheads();
    ExampleAlternation();
    var a := "(unit|test|dashboard)";
    ThreeSegments(a);
    Reassociate(Wildcard, a, Lookahead(1), Lookahead(2));
  }
}
