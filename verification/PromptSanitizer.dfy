/**
  Sanitising text for a prompt: truncate, then rewrite with five regular expressions.

  Which characters are word characters, and which characters match a letter when case is
  ignored, is left to an alphabet; the theorems hold for every alphabet in which the
  punctuation the rules look for is not a word character.
*/
module PromptSanitizer {
  import opened Text

  datatype Alphabet = Alphabet(word: char -> bool, same: (char, char) -> bool)

  const PUNCTUATION: set<char> := {'<', '>', '/', '[', ']', '.', '\n', '"', '(', ')', '&'}

  ghost predicate Sensible(ab: Alphabet) {
    && (forall c | c in PUNCTUATION :: !ab.word(c))
    && (forall p, c | ab.same(p, c) :: ab.word(c))
    && (forall p | p in {'I', 'N', 'S', 'T', 'Y'} :: ab.same(p, p))
    && ab.same('I', 'i') && ab.same('N', 'n') && ab.same('S', 's') && ab.same('T', 't') && ab.same('Y', 'y')
  }

  const MAX_LENGTH: nat := 4000

  // ---------------------------------------------------------------- rule 1: </word>

  /** The first position from `k` on that holds no word character. */
  function WordEnd(ab: Alphabet, s: string, k: nat): (j: nat)
    requires k <= |s|
    ensures k <= j <= |s| && (j < |s| ==> !ab.word(s[j]))
    ensures forall i | k <= i < j :: ab.word(s[i])
    decreases |s| - k
  {
    if k < |s| && ab.word(s[k]) then WordEnd(ab, s, k + 1) else k
  }

  /** A closing tag, from its `<` at `i` to its `>` at `j`. */
  ghost predicate TagAt(ab: Alphabet, s: string, i: nat, j: nat) {
    && i + 2 < j < |s| && s[i] == '<' && s[i + 1] == '/' && s[j] == '>'
    && forall k | i + 2 <= k < j :: ab.word(s[k])
  }

  ghost predicate NoTag(ab: Alphabet, s: string) {
    forall i: nat, j: nat :: !TagAt(ab, s, i, j)
  }

  /** The length of the closing tag at the start of `s`, 0 if there is none. */
  function TagLength(ab: Alphabet, s: string): (n: nat)
    ensures n == 0 || (3 < n <= |s| && TagAt(ab, s, 0, n - 1))
  {
    if |s| > 2 && s[0] == '<' && s[1] == '/' then
      var j := WordEnd(ab, s, 2);
      if j > 2 && j < |s| && s[j] == '>' then j + 1 else 0
    else 0
  }

  /** How much of the text one turn of the first rule takes, */
  function TagTurn(ab: Alphabet, s: string): (m: nat)
    ensures s != "" ==> 0 < m <= |s|
  {
    if TagLength(ab, s) > 0 then TagLength(ab, s) else 1
  }

  /** and what it puts there: the bracketed form of a closing tag. */
  function TagTaken(ab: Alphabet, s: string): (r: string)
    requires s != ""
    ensures |r| == TagTurn(ab, s)
  {
    var n := TagLength(ab, s);
    if n > 0 then "[" + s[1..n - 1] + "]" else [s[0]]
  }

  /** Replaces each closing tag by its bracketed form. */
  function BracketTags(ab: Alphabet, s: string): (r: string)
    ensures |r| == |s|
    decreases |s|
  {
    if s == "" then "" else TagTaken(ab, s) + BracketTags(ab, s[TagTurn(ab, s)..])
  }

  // ------------------------------------------------------------- rules 2 to 5: literals

  datatype Rule = Inst | Sys | OpenSys | CloseSys

  function Pattern(rule: Rule): (p: string)
    ensures |p| > 0
  {
    match rule
    case Inst => "[/INST]"
    case Sys => "[/SYS]"
    case OpenSys => "<<SYS>>"
    case CloseSys => "<</SYS>>"
  }

  function Replacement(rule: Rule): (r: string)
    ensures |r| == |Pattern(rule)|
  {
    match rule
    case Inst => "[/inst]"
    case Sys => "[/sys]"
    case OpenSys => "[[SYS]]"
    case CloseSys => "[[/SYS]]"
  }

  predicate Fits(ab: Alphabet, p: char, c: char) {
    if p in {'I', 'N', 'S', 'T', 'Y'} then ab.same(p, c) else c == p
  }

  predicate MatchAt(ab: Alphabet, pattern: string, s: string, i: nat) {
    i + |pattern| <= |s| && forall k | 0 <= k < |pattern| :: Fits(ab, pattern[k], s[i + k])
  }

  /** How much of the text one turn of the rewrite takes, */
  function Turn(ab: Alphabet, rule: Rule, s: string): (n: nat)
    ensures s != "" ==> 0 < n <= |s|
  {
    if MatchAt(ab, Pattern(rule), s, 0) then |Pattern(rule)| else 1
  }

  /** and what it puts there. */
  function Taken(ab: Alphabet, rule: Rule, s: string): (r: string)
    requires s != ""
    ensures |r| == Turn(ab, rule, s)
  {
    if MatchAt(ab, Pattern(rule), s, 0) then Replacement(rule) else [s[0]]
  }

  /** Replaces the leftmost match, then goes on after it. */
  function Rewrite(ab: Alphabet, rule: Rule, s: string): (r: string)
    ensures |r| == |s|
    decreases |s|
  {
    if s == "" then "" else Taken(ab, rule, s) + Rewrite(ab, rule, s[Turn(ab, rule, s)..])
  }

  // -------------------------------------------------------------------- the sanitiser

  function Truncate(s: string): (r: string)
    ensures |r| == if |s| > MAX_LENGTH then MAX_LENGTH + 3 else |s|
  {
    if |s| > MAX_LENGTH then s[..MAX_LENGTH] + "..." else s
  }

  const RULES: seq<Rule> := [Inst, Sys, OpenSys, CloseSys]

  function RewriteAll(ab: Alphabet, rules: seq<Rule>, s: string): (r: string)
    ensures |r| == |s|
    decreases |rules|
  {
    if rules == [] then s else RewriteAll(ab, rules[1..], Rewrite(ab, rules[0], s))
  }

  /** The text before the rule for `<</SYS>>` is tried. */
  function Rewritten(ab: Alphabet, s: string): (r: string)
    ensures |r| == |s|
  {
    Rewrite(ab, OpenSys, Rewrite(ab, Sys, Rewrite(ab, Inst, BracketTags(ab, s))))
  }

  function Sanitized(ab: Alphabet, content: string): string {
    if content == "" then content
    else RewriteAll(ab, RULES, BracketTags(ab, Truncate(content)))
  }

  method SanitizeInstructions(ab: Alphabet, content: string) returns (sanitized: string)
    ensures sanitized == Sanitized(ab, content)
  {
    if content == "" { return content; }
    sanitized := if |content| > MAX_LENGTH then content[..MAX_LENGTH] + "..." else content;
    sanitized := BracketTags(ab, sanitized);
    for i := 0 to |RULES|
      invariant RewriteAll(ab, RULES[i..], sanitized) == Sanitized(ab, content)
    {
      assert RULES[i..][1..] == RULES[i + 1..];
      sanitized := Rewrite(ab, RULES[i], sanitized);
    }
  }

  // ------------------------------------------------------- what the rules leave alone

  /** `r` differs from `s` only by angle brackets made square and word characters exchanged. */
  ghost predicate Softened(ab: Alphabet, s: string, r: string) {
    |r| == |s| && forall i | 0 <= i < |s| ::
      || r[i] == s[i]
      || (s[i] in {'<', '>'} && r[i] in {'[', ']'})
      || (ab.word(s[i]) && ab.word(r[i]))
  }

  lemma {:induction false} SoftenedTags(ab: Alphabet, s: string, r: string, i: nat, j: nat)
    requires Sensible(ab) && Softened(ab, s, r) && TagAt(ab, r, i, j)
    ensures TagAt(ab, s, i, j)
  {
    assert forall c | c in PUNCTUATION :: !ab.word(c);
    forall k | i + 2 <= k < j ensures ab.word(s[k]) { assert ab.word(r[k]); }
  }

  lemma {:induction false} SoftenedKeepsNoTag(ab: Alphabet, s: string, r: string)
    requires Sensible(ab) && Softened(ab, s, r) && NoTag(ab, s)
    ensures NoTag(ab, r)
  {
    forall i: nat, j: nat ensures !TagAt(ab, r, i, j) {
      if TagAt(ab, r, i, j) { SoftenedTags(ab, s, r, i, j); }
    }
  }

  lemma {:induction false} SoftenedConcat(ab: Alphabet, s: string, r: string, t: string, u: string)
    requires Softened(ab, s, r) && Softened(ab, t, u)
    ensures Softened(ab, s + t, r + u)
  {
  }

  lemma {:induction false} TakenSoftens(ab: Alphabet, s: string)
    requires s != ""
    ensures Softened(ab, s[..TagTurn(ab, s)], TagTaken(ab, s))
  {
    var n := TagLength(ab, s);
    if n > 0 {
      assert s[..n] == "<" + s[1..n - 1] + ">";
    }
  }

  lemma {:induction false} BracketTagsSoftens(ab: Alphabet, s: string)
    ensures Softened(ab, s, BracketTags(ab, s))
    decreases |s|
  {
    if s != "" {
      var m := TagTurn(ab, s);
      BracketTagsSoftens(ab, s[m..]);
      TakenSoftens(ab, s);
      SoftenedJoin(ab, s, m, TagTaken(ab, s), BracketTags(ab, s[m..]));
    }
  }

  lemma {:induction false} SoftenedJoin(ab: Alphabet, s: string, m: nat, head: string, rest: string)
    requires m <= |s| && Softened(ab, s[..m], head) && Softened(ab, s[m..], rest)
    ensures Softened(ab, s, head + rest)
  {
    SoftenedConcat(ab, s[..m], head, s[m..], rest);
    assert s[..m] + s[m..] == s;
  }

  lemma {:induction false} TagInSuffix(ab: Alphabet, s: string, k: nat, i: nat, j: nat)
    requires k <= |s|
    ensures TagAt(ab, s[k..], i, j) <==> TagAt(ab, s, i + k, j + k)
  {
    if TagAt(ab, s[k..], i, j) {
      assert forall m | i + k + 2 <= m < j + k :: s[m] == s[k..][m - k];
    }
    if TagAt(ab, s, i + k, j + k) {
      assert forall m | i + 2 <= m < j :: s[k..][m] == s[m + k];
    }
  }

  /** Every closing tag has its angle brackets made square. */
  lemma {:induction false} BracketTagsReplaces(ab: Alphabet, s: string, i: nat, j: nat)
    requires Sensible(ab) && TagAt(ab, s, i, j)
    ensures BracketTags(ab, s)[i] == '[' && BracketTags(ab, s)[j] == ']'
    decreases |s|
  {
    var m := TagTurn(ab, s);
    if i == 0 {
      FirstTagReplaced(ab, s, j);
    } else {
      TagsDoNotOverlap(ab, s, i, j);
      TagInSuffix(ab, s, m, i - m, j - m);
      BracketTagsReplaces(ab, s[m..], i - m, j - m);
      BracketTagsTurns(ab, s, i);
      BracketTagsTurns(ab, s, j);
    }
  }

  lemma {:induction false} FirstTagReplaced(ab: Alphabet, s: string, j: nat)
    requires Sensible(ab) && TagAt(ab, s, 0, j)
    ensures BracketTags(ab, s)[0] == '[' && BracketTags(ab, s)[j] == ']'
  {
    TagLengthFinds(ab, s, j);
    BracketTagsTurns(ab, s, 0);
    BracketTagsTurns(ab, s, j);
  }

  lemma {:induction false} TagsDoNotOverlap(ab: Alphabet, s: string, i: nat, j: nat)
    requires Sensible(ab) && TagAt(ab, s, i, j) && i > 0
    ensures i >= TagTurn(ab, s)
  {
    assert !ab.word('<');
  }

  ghost predicate InBracket(ab: Alphabet, s: string, k: nat) {
    exists i: nat, j: nat :: TagAt(ab, s, i, j) && (k == i || k == j)
  }

  /** A turn of the first rule keeps what it takes, but for the brackets of a tag. */
  lemma {:induction false} TagTurnKeeps(ab: Alphabet, s: string, k: nat)
    requires s != "" && !InBracket(ab, s, k)
    requires k < TagTurn(ab, s)
    ensures BracketTags(ab, s)[k] == s[k]
  {
    var n := TagLength(ab, s);
    BracketTagsTurns(ab, s, k);
    if n > 0 { assert TagAt(ab, s, 0, n - 1); }
  }

  lemma {:induction false} BracketInSuffix(ab: Alphabet, s: string, m: nat, k: nat)
    requires m <= |s| && InBracket(ab, s[m..], k)
    ensures InBracket(ab, s, k + m)
  {
    var i: nat, j: nat :| TagAt(ab, s[m..], i, j) && (k == i || k == j);
    TagInSuffix(ab, s, m, i, j);
  }

  lemma {:induction false} BracketTagsTurns(ab: Alphabet, s: string, k: nat)
    requires s != ""
    ensures var m := TagTurn(ab, s);
      && (k < m ==> BracketTags(ab, s)[k] == TagTaken(ab, s)[k])
      && (m <= k < |s| ==> BracketTags(ab, s)[k] == BracketTags(ab, s[m..])[k - m])
  {
    IndexPast(TagTaken(ab, s), BracketTags(ab, s[TagTurn(ab, s)..]), k);
  }

  lemma {:induction false} IndexPast(head: string, tail: string, k: nat)
    ensures k < |head| ==> (head + tail)[k] == head[k]
    ensures |head| <= k < |head| + |tail| ==> (head + tail)[k] == tail[k - |head|]
  {
  }

  /** Nothing but the brackets of closing tags changes: the tag's word stays. */
  lemma {:induction false} BracketTagsKeeps(ab: Alphabet, s: string, k: nat)
    requires k < |s| && !InBracket(ab, s, k)
    ensures BracketTags(ab, s)[k] == s[k]
    decreases |s|
  {
    var m := TagTurn(ab, s);
    if k >= m {
      if InBracket(ab, s[m..], k - m) { BracketInSuffix(ab, s, m, k - m); }
      BracketTagsKeeps(ab, s[m..], k - m);
      BracketTagsTurns(ab, s, k);
    } else {
      TagTurnKeeps(ab, s, k);
    }
  }

  lemma {:induction false} TagLengthFinds(ab: Alphabet, s: string, j: nat)
    requires Sensible(ab) && TagAt(ab, s, 0, j)
    ensures TagLength(ab, s) == j + 1
  {
    var e := WordEnd(ab, s, 2);
    assert !ab.word('>');
    assert j <= e && e <= j;
  }

  /** After the first rule no closing tag is left. */
  lemma {:induction false} BracketTagsLeavesNone(ab: Alphabet, s: string)
    requires Sensible(ab)
    ensures NoTag(ab, BracketTags(ab, s)) && Softened(ab, s, BracketTags(ab, s))
  {
    var r := BracketTags(ab, s);
    BracketTagsSoftens(ab, s);
    forall i: nat, j: nat ensures !TagAt(ab, r, i, j) {
      if TagAt(ab, r, i, j) {
        SoftenedTags(ab, s, r, i, j);
        BracketTagsReplaces(ab, s, i, j);
      }
    }
  }

  lemma {:induction false} NoTagIsFixed(ab: Alphabet, s: string)
    requires NoTag(ab, s)
    ensures BracketTags(ab, s) == s
    decreases |s|
  {
    if s != "" {
      assert TagLength(ab, s) == 0;
      forall i: nat, j: nat ensures !TagAt(ab, s[1..], i, j) {
        TagInSuffix(ab, s, 1, i, j);
      }
      NoTagIsFixed(ab, s[1..]);
    }
  }

  // ------------------------------------------------------ windows never half overlap

  /** Patterns and replacements up to the choice of word characters, written `w`. */
  const SKELETONS: set<string> := {"[/wwww]", "[/www]", "<<www>>", "[[www]]"}

  predicate KindOk(ab: Alphabet, k: char, c: char) {
    if k == 'w' then ab.word(c) else c == k
  }

  predicate SkeletonAt(ab: Alphabet, skeleton: string, s: string, i: nat) {
    i + |skeleton| <= |s| && forall k | 0 <= k < |skeleton| :: KindOk(ab, skeleton[k], s[i + k])
  }

  lemma {:induction false} OverlapFromLeft(ab: Alphabet, a: string, b: string, s: string, i: nat, m: nat)
    requires Sensible(ab) && a in SKELETONS && b in SKELETONS
    requires SkeletonAt(ab, a, s, i) && SkeletonAt(ab, b, s, m)
    requires i <= m < i + |a|
    ensures a == b && i == m
  {
    var d := m - i;
    assert forall c | c in PUNCTUATION :: !ab.word(c);
    assert KindOk(ab, a[d], s[i + d]) && KindOk(ab, b[0], s[m + 0]);
    assert KindOk(ab, b[1], s[m + 1]);
    if d <= 1 {
      assert KindOk(ab, a[d + 1], s[i + (d + 1)]);
      assert KindOk(ab, a[5], s[i + 5]) && KindOk(ab, b[5], s[m + 5]);
    }
  }

  /** Two skeletons found in one text are the same one or do not overlap. */
  lemma {:induction false} SkeletonsAreDisjoint(ab: Alphabet, a: string, b: string, s: string, i: nat, m: nat)
    requires Sensible(ab) && a in SKELETONS && b in SKELETONS
    requires SkeletonAt(ab, a, s, i) && SkeletonAt(ab, b, s, m)
    requires i < m + |b| && m < i + |a|
    ensures a == b && i == m
  {
    if i <= m { OverlapFromLeft(ab, a, b, s, i, m); } else { OverlapFromLeft(ab, b, a, s, m, i); }
  }

  function Before(rule: Rule): string
    requires !rule.CloseSys?
  {
    match rule
    case Inst => "[/wwww]"
    case Sys => "[/www]"
    case OpenSys => "<<www>>"
  }

  function After(rule: Rule): string
    requires !rule.CloseSys?
  {
    match rule
    case Inst => "[/wwww]"
    case Sys => "[/www]"
    case OpenSys => "[[www]]"
  }

  lemma {:induction false} MatchHasSkeleton(ab: Alphabet, rule: Rule, s: string, i: nat)
    requires Sensible(ab) && !rule.CloseSys? && MatchAt(ab, Pattern(rule), s, i)
    ensures SkeletonAt(ab, Before(rule), s, i)
  {
    forall k | 0 <= k < |Pattern(rule)| ensures KindOk(ab, Before(rule)[k], s[i + k]) {
      assert Fits(ab, Pattern(rule)[k], s[i + k]);
    }
  }

  lemma {:induction false} ReplacementHasSkeleton(ab: Alphabet, rule: Rule, s: string, i: nat)
    requires Sensible(ab) && !rule.CloseSys? && TextAt(Replacement(rule), s, i)
    ensures SkeletonAt(ab, After(rule), s, i)
  {
    assert ab.word('i') && ab.word('n') && ab.word('s') && ab.word('t') && ab.word('y');
    assert ab.same('S', 'S') && ab.same('Y', 'Y');
    forall k | 0 <= k < |After(rule)| ensures KindOk(ab, After(rule)[k], s[i + k]) {
      assert s[i + k] == Replacement(rule)[k];
    }
  }

  // ---------------------------------------------------------- what one rewrite does

  lemma {:induction false} MatchInSuffix(ab: Alphabet, pattern: string, s: string, k: nat, i: nat)
    requires k <= |s|
    ensures MatchAt(ab, pattern, s[k..], i) <==> MatchAt(ab, pattern, s, i + k)
  {
    assert forall j | k <= j < |s| :: s[j] == s[k..][j - k];
  }

  lemma {:induction false} TextInSuffix(text: string, head: string, tail: string, i: nat)
    requires TextAt(text, tail, i)
    ensures TextAt(text, head + tail, i + |head|)
  {
  }

  lemma {:induction false} TextInFront(text: string, tail: string)
    ensures TextAt(text, text + tail, 0)
  {
  }

  lemma {:induction false} MatchesDoNotOverlap(ab: Alphabet, rule: Rule, s: string, i: nat)
    requires Sensible(ab) && !rule.CloseSys? && 0 < i
    requires MatchAt(ab, Pattern(rule), s, 0) && MatchAt(ab, Pattern(rule), s, i)
    ensures i >= |Pattern(rule)|
  {
    MatchHasSkeleton(ab, rule, s, 0);
    MatchHasSkeleton(ab, rule, s, i);
    if i < |Pattern(rule)| { SkeletonsAreDisjoint(ab, Before(rule), Before(rule), s, 0, i); }
  }

  lemma {:induction false} MatchInTurn(ab: Alphabet, rule: Rule, s: string, i: nat)
    requires Sensible(ab) && !rule.CloseSys? && MatchAt(ab, Pattern(rule), s, i) && i < Turn(ab, rule, s)
    ensures i == 0 && s != "" && TextAt(Replacement(rule), Rewrite(ab, rule, s), 0)
  {
    if i > 0 && MatchAt(ab, Pattern(rule), s, 0) { MatchesDoNotOverlap(ab, rule, s, i); }
    TextInFront(Replacement(rule), Rewrite(ab, rule, s[|Pattern(rule)|..]));
  }

  /** Every match is replaced. */
  lemma {:induction false} RewriteReplaces(ab: Alphabet, rule: Rule, s: string, i: nat)
    requires Sensible(ab) && !rule.CloseSys? && MatchAt(ab, Pattern(rule), s, i)
    ensures TextAt(Replacement(rule), Rewrite(ab, rule, s), i)
    decreases |s|
  {
    var n := Turn(ab, rule, s);
    if i < n {
      MatchInTurn(ab, rule, s, i);
    } else {
      MatchInSuffix(ab, Pattern(rule), s, n, i - n);
      RewriteReplaces(ab, rule, s[n..], i - n);
      ReplacedLater(ab, rule, s, i);
    }
  }

  lemma {:induction false} ReplacedLater(ab: Alphabet, rule: Rule, s: string, i: nat)
    requires Turn(ab, rule, s) <= i && Turn(ab, rule, s) <= |s| && s != ""
    requires TextAt(Replacement(rule), Rewrite(ab, rule, s[Turn(ab, rule, s)..]), i - Turn(ab, rule, s))
    ensures TextAt(Replacement(rule), Rewrite(ab, rule, s), i)
  {
    TextPast(Replacement(rule), Rewrite(ab, rule, s), Taken(ab, rule, s), Rewrite(ab, rule, s[Turn(ab, rule, s)..]), i);
  }

  lemma {:induction false} TextPast(text: string, whole: string, head: string, tail: string, i: nat)
    requires whole == head + tail && |head| <= i && TextAt(text, tail, i - |head|)
    ensures TextAt(text, whole, i)
  {
    TextInSuffix(text, head, tail, i - |head|);
  }

  ghost predicate InMatch(ab: Alphabet, rule: Rule, s: string, k: nat) {
    exists i: nat :: i <= k < i + |Pattern(rule)| && MatchAt(ab, Pattern(rule), s, i)
  }

  /** Nothing outside the matches changes. */
  lemma {:induction false} RewriteKeeps(ab: Alphabet, rule: Rule, s: string, k: nat)
    requires k < |s| && !InMatch(ab, rule, s, k)
    ensures Rewrite(ab, rule, s)[k] == s[k]
    decreases |s|
  {
    var n := Turn(ab, rule, s);
    if k >= n {
      if InMatch(ab, rule, s[n..], k - n) { InMatchInSuffix(ab, rule, s, n, k - n); }
      RewriteKeeps(ab, rule, s[n..], k - n);
      RewriteTurns(ab, rule, s, k);
    } else {
      TurnKeeps(ab, rule, s, k);
    }
  }

  lemma {:induction false} RewriteTurns(ab: Alphabet, rule: Rule, s: string, k: nat)
    requires s != ""
    ensures var n := Turn(ab, rule, s);
      && (k < n ==> Rewrite(ab, rule, s)[k] == Taken(ab, rule, s)[k])
      && (n <= k < |s| ==> Rewrite(ab, rule, s)[k] == Rewrite(ab, rule, s[n..])[k - n])
  {
    IndexPast(Taken(ab, rule, s), Rewrite(ab, rule, s[Turn(ab, rule, s)..]), k);
  }

  lemma {:induction false} TurnKeeps(ab: Alphabet, rule: Rule, s: string, k: nat)
    requires s != "" && k < Turn(ab, rule, s) && !InMatch(ab, rule, s, k)
    ensures Rewrite(ab, rule, s)[k] == s[k]
  {
    assert MatchAt(ab, Pattern(rule), s, 0) && k < |Pattern(rule)| ==> InMatch(ab, rule, s, k);
    RewriteTurns(ab, rule, s, k);
  }

  lemma {:induction false} InMatchInSuffix(ab: Alphabet, rule: Rule, s: string, n: nat, k: nat)
    requires n <= |s| && InMatch(ab, rule, s[n..], k)
    ensures InMatch(ab, rule, s, k + n)
  {
    var i: nat :| i <= k < i + |Pattern(rule)| && MatchAt(ab, Pattern(rule), s[n..], i);
    MatchInSuffix(ab, Pattern(rule), s, n, i);
    assert MatchAt(ab, Pattern(rule), s, i + n);
  }

  lemma {:induction false} ReplacementSoftens(ab: Alphabet, rule: Rule, s: string, r: string, i: nat, k: nat)
    requires Sensible(ab) && !rule.CloseSys? && i <= k < i + |Pattern(rule)|
    requires SkeletonAt(ab, Before(rule), s, i) && SkeletonAt(ab, After(rule), r, i)
    ensures r[k] == s[k] || (s[k] in {'<', '>'} && r[k] in {'[', ']'}) || (ab.word(s[k]) && ab.word(r[k]))
  {
    var d := k - i;
    assert KindOk(ab, Before(rule)[d], s[i + d]) && KindOk(ab, After(rule)[d], r[i + d]);
  }

  lemma {:induction false} RewriteSoftens(ab: Alphabet, rule: Rule, s: string)
    requires Sensible(ab) && !rule.CloseSys?
    ensures Softened(ab, s, Rewrite(ab, rule, s))
  {
    var r := Rewrite(ab, rule, s);
    forall k | 0 <= k < |s|
      ensures r[k] == s[k] || (s[k] in {'<', '>'} && r[k] in {'[', ']'}) || (ab.word(s[k]) && ab.word(r[k]))
    {
      if i: nat :| i <= k < i + |Pattern(rule)| && MatchAt(ab, Pattern(rule), s, i) {
        MatchHasSkeleton(ab, rule, s, i);
        RewriteReplaces(ab, rule, s, i);
        ReplacementHasSkeleton(ab, rule, r, i);
        ReplacementSoftens(ab, rule, s, r, i, k);
      } else {
        RewriteKeeps(ab, rule, s, k);
      }
    }
  }

  /** Wherever the pattern matches, the text already is the replacement. */
  ghost predicate Settled(ab: Alphabet, rule: Rule, s: string) {
    forall i: nat :: MatchAt(ab, Pattern(rule), s, i) ==> TextAt(Replacement(rule), s, i)
  }

  lemma {:induction false} SettledSuffix(ab: Alphabet, rule: Rule, s: string, n: nat)
    requires Settled(ab, rule, s) && n <= |s|
    ensures Settled(ab, rule, s[n..])
  {
    forall i: nat | MatchAt(ab, Pattern(rule), s[n..], i) ensures TextAt(Replacement(rule), s[n..], i) {
      MatchInSuffix(ab, Pattern(rule), s, n, i);
      assert TextAt(Replacement(rule), s, i + n);
    }
  }

  lemma {:induction false} TextIsPrefix(text: string, s: string)
    requires TextAt(text, s, 0)
    ensures s == text + s[|text|..]
  {
    assert forall k | 0 <= k < |text| :: s[0 + k] == text[k];
  }

  lemma {:induction false} SettledIsFixed(ab: Alphabet, rule: Rule, s: string)
    requires Settled(ab, rule, s)
    ensures Rewrite(ab, rule, s) == s
    decreases |s|
  {
    if s != "" {
      if MatchAt(ab, Pattern(rule), s, 0) {
        var n := |Pattern(rule)|;
        SettledSuffix(ab, rule, s, n);
        SettledIsFixed(ab, rule, s[n..]);
        assert TextAt(Replacement(rule), s, 0);
        TextIsPrefix(Replacement(rule), s);
      } else {
        SettledSuffix(ab, rule, s, 1);
        SettledIsFixed(ab, rule, s[1..]);
        assert s == [s[0]] + s[1..];
      }
    }
  }

  /** A match in a rewritten text either was there before, untouched by the rewrite, or lies
      exactly on a replacement of the same shape. */
  lemma {:induction false} MatchAfterRewrite(ab: Alphabet, rule: Rule, via: Rule, s: string, i: nat)
    requires Sensible(ab) && !rule.CloseSys? && !via.CloseSys?
    requires MatchAt(ab, Pattern(rule), Rewrite(ab, via, s), i)
    ensures
      || (rule == via && TextAt(Replacement(rule), Rewrite(ab, via, s), i))
      || (rule != via && MatchAt(ab, Pattern(rule), s, i)
          && forall k | i <= k < i + |Pattern(rule)| :: Rewrite(ab, via, s)[k] == s[k])
  {
    var r := Rewrite(ab, via, s);
    var n := |Pattern(rule)|;
    if m: nat :| MatchAt(ab, Pattern(via), s, m) && i < m + |Pattern(via)| && m < i + n {
      MatchHasSkeleton(ab, rule, r, i);
      RewriteReplaces(ab, via, s, m);
      ReplacementHasSkeleton(ab, via, r, m);
      SkeletonsAreDisjoint(ab, Before(rule), After(via), r, i, m);
    } else {
      forall k | i <= k < i + n ensures r[k] == s[k] { RewriteKeeps(ab, via, s, k); }
      assert MatchAt(ab, Pattern(rule), s, i) by {
        forall k | 0 <= k < n ensures Fits(ab, Pattern(rule)[k], s[i + k]) {
          assert Fits(ab, Pattern(rule)[k], r[i + k]);
        }
      }
    }
  }

  lemma {:induction false} SettledAfter(ab: Alphabet, rule: Rule, s: string)
    requires Sensible(ab) && !rule.CloseSys?
    ensures Settled(ab, rule, Rewrite(ab, rule, s))
  {
    forall i: nat | MatchAt(ab, Pattern(rule), Rewrite(ab, rule, s), i)
      ensures TextAt(Replacement(rule), Rewrite(ab, rule, s), i)
    {
      MatchAfterRewrite(ab, rule, rule, s, i);
    }
  }

  lemma {:induction false} SettledStays(ab: Alphabet, rule: Rule, via: Rule, s: string)
    requires Sensible(ab) && !rule.CloseSys? && !via.CloseSys? && rule != via && Settled(ab, rule, s)
    ensures Settled(ab, rule, Rewrite(ab, via, s))
  {
    forall i: nat | MatchAt(ab, Pattern(rule), Rewrite(ab, via, s), i)
      ensures TextAt(Replacement(rule), Rewrite(ab, via, s), i)
    {
      MatchAfterRewrite(ab, rule, via, s, i);
    }
  }

  // --------------------------------------------------------------------- normal form

  lemma {:induction false} CloseSysIsATag(ab: Alphabet, s: string, i: nat)
    requires Sensible(ab) && MatchAt(ab, Pattern(CloseSys), s, i)
    ensures TagAt(ab, s, i + 1, i + 6)
  {
    var p := Pattern(CloseSys);
    assert Fits(ab, p[1], s[i + 1]) && Fits(ab, p[2], s[i + 2]) && Fits(ab, p[6], s[i + 6]);
    assert Fits(ab, p[3], s[i + 3]) && Fits(ab, p[4], s[i + 4]) && Fits(ab, p[5], s[i + 5]);
  }

  ghost predicate NormalForm(ab: Alphabet, s: string) {
    NoTag(ab, s) && forall rule: Rule :: Settled(ab, rule, s)
  }

  lemma {:induction false} NormalFormIsFixed(ab: Alphabet, s: string)
    requires NormalForm(ab, s)
    ensures RewriteAll(ab, RULES, BracketTags(ab, s)) == s
  {
    NoTagIsFixed(ab, s);
    SettledIsFixed(ab, Inst, s);
    SettledIsFixed(ab, Sys, s);
    SettledIsFixed(ab, OpenSys, s);
    SettledIsFixed(ab, CloseSys, s);
    RewriteAllUnfolds(ab, s);
  }

  lemma {:induction false} RewriteAllUnfolds(ab: Alphabet, s: string)
    ensures RewriteAll(ab, RULES, s) ==
      Rewrite(ab, CloseSys, Rewrite(ab, OpenSys, Rewrite(ab, Sys, Rewrite(ab, Inst, s))))
  {
    var a := Rewrite(ab, Inst, s);
    var b := Rewrite(ab, Sys, a);
    var c := Rewrite(ab, OpenSys, b);
    assert RULES[1..] == [Sys, OpenSys, CloseSys] && [Sys, OpenSys, CloseSys][1..] == [OpenSys, CloseSys];
    assert [OpenSys, CloseSys][1..] == [CloseSys] && [CloseSys][1..] == [];
    assert RewriteAll(ab, [CloseSys], c) == RewriteAll(ab, [], Rewrite(ab, CloseSys, c));
    assert RewriteAll(ab, [OpenSys, CloseSys], b) == RewriteAll(ab, [CloseSys], c);
    assert RewriteAll(ab, [Sys, OpenSys, CloseSys], a) == RewriteAll(ab, [OpenSys, CloseSys], b);
  }

  /** The first four rules reach the normal form; the rule for `<</SYS>>` never fires. */
  lemma {:induction false} RewrittenIsNormal(ab: Alphabet, s: string)
    requires Sensible(ab)
    ensures NormalForm(ab, Rewritten(ab, s)) && Softened(ab, BracketTags(ab, s), Rewritten(ab, s))
    ensures forall i: nat :: !MatchAt(ab, Pattern(CloseSys), Rewritten(ab, s), i)
    ensures RewriteAll(ab, RULES, BracketTags(ab, s)) == Rewritten(ab, s)
  {
    var t := BracketTags(ab, s);
    var a := Rewrite(ab, Inst, t);
    var b := Rewrite(ab, Sys, a);
    var y := Rewrite(ab, OpenSys, b);
    BracketTagsLeavesNone(ab, s);
    RewriteSoftens(ab, Inst, t);
    RewriteSoftens(ab, Sys, a);
    RewriteSoftens(ab, OpenSys, b);
    SoftenedTransitive(ab, t, a, b);
    SoftenedTransitive(ab, t, b, y);
    SoftenedKeepsNoTag(ab, t, y);
    SettledAfter(ab, Inst, t);
    SettledAfter(ab, Sys, a);
    SettledAfter(ab, OpenSys, b);
    SettledStays(ab, Inst, Sys, a);
    SettledStays(ab, Inst, OpenSys, b);
    SettledStays(ab, Sys, OpenSys, b);
    forall i: nat ensures !MatchAt(ab, Pattern(CloseSys), y, i) {
      if MatchAt(ab, Pattern(CloseSys), y, i) { CloseSysIsATag(ab, y, i); }
    }
    forall rule: Rule ensures Settled(ab, rule, y) {
      assert rule == Inst || rule == Sys || rule == OpenSys || rule == CloseSys;
    }
    SettledIsFixed(ab, CloseSys, y);
    RewriteAllUnfolds(ab, t);
  }

  lemma {:induction false} SoftenedTransitive(ab: Alphabet, s: string, r: string, t: string)
    requires Sensible(ab) && Softened(ab, s, r) && Softened(ab, r, t)
    ensures Softened(ab, s, t)
  {
    assert forall c | c in PUNCTUATION :: !ab.word(c);
  }

  /** A rewrite leaves the dots of a truncation alone, and truncating again changes nothing. */
  lemma {:induction false} TruncationIsStable(ab: Alphabet, content: string, y: string)
    requires Sensible(ab) && Softened(ab, Truncate(content), y)
    ensures Truncate(y) == y
  {
    if |content| > MAX_LENGTH {
      var s := Truncate(content);
      assert s[MAX_LENGTH..] == "..." && !ab.word('.');
      forall k | MAX_LENGTH <= k < |s| ensures y[k] == '.' { assert s[k] == s[MAX_LENGTH..][k - MAX_LENGTH] == '.'; }
      assert y[MAX_LENGTH..] == "...";
      assert y == y[..MAX_LENGTH] + y[MAX_LENGTH..];
    }
  }

  /** The sanitised text has no closing tag, the length of the (truncated) input, and
      sanitising it again changes nothing, even where the truncation mark was added. */
  lemma {:induction false} SanitizedIsNormal(ab: Alphabet, content: string)
    requires Sensible(ab)
    ensures var y := Sanitized(ab, content);
      && NoTag(ab, y)
      && |y| == (if |content| > MAX_LENGTH then MAX_LENGTH + 3 else |content|)
      && Sanitized(ab, y) == y
  {
    if content != "" {
      var s := Truncate(content);
      var y := Sanitized(ab, content);
      RewrittenIsNormal(ab, s);
      NormalFormIsFixed(ab, y);
      BracketTagsSoftens(ab, s);
      SoftenedTransitive(ab, s, BracketTags(ab, s), y);
      TruncationIsStable(ab, content, y);
    }
  }
}
