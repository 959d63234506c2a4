/**
  What sanitised and wrapped text looks like, in terms of the characters themselves.
*/
module SanitizerLaws {
  import opened Common
  import opened Text
  import opened PromptSanitizer
  import opened PromptWrapping

  /** The text the rules are applied to. */
  function Shortened(content: string): string {
    if |content| > 4000 then content[..4000] + "..." else content
  }

  lemma {:induction false} SanitizedIsRewritten(ab: Alphabet, content: string)
    requires Sensible(ab) && content != ""
    ensures Sanitized(ab, content) == Rewritten(ab, Shortened(content)) && NormalForm(ab, Sanitized(ab, content))
  {
    RewrittenIsNormal(ab, Shortened(content));
  }

  lemma {:induction false} TextChar(text: string, s: string, i: nat, k: nat)
    requires TextAt(text, s, i) && k < |text|
    ensures i + k < |s| && s[i + k] == text[k]
  {
  }

  // ------------------------------------------------------------------ spelled in any case

  /** At `i` the text spells the word in a mixture of its two spellings. */
  predicate Spells(upper: string, lower: string, s: string, i: nat)
    requires |upper| == |lower|
  {
    i + |upper| <= |s| && forall k | 0 <= k < |upper| :: s[i + k] == upper[k] || s[i + k] == lower[k]
  }

  const LETTERS: set<char> := {'I', 'N', 'S', 'T', 'Y'}

  function Lower(c: char): char {
    if c == 'I' then 'i' else if c == 'N' then 'n' else if c == 'S' then 's' else if c == 'T' then 't'
    else if c == 'Y' then 'y' else c
  }

  lemma {:induction false} CharFits(ab: Alphabet, p: char, c: char)
    requires Sensible(ab) && (c == p || c == Lower(p))
    ensures Fits(ab, p, c)
  {
    if p in LETTERS {
      assert p in {'I', 'N', 'S', 'T', 'Y'} && ab.same(p, p);
      assert ab.same('I', 'i') && ab.same('N', 'n') && ab.same('S', 's') && ab.same('T', 't') && ab.same('Y', 'y');
    }
  }

  ghost predicate Lowered(upper: string, lower: string) {
    |upper| == |lower| && forall k | 0 <= k < |upper| :: lower[k] == Lower(upper[k])
  }

  lemma {:induction false} SpelledMatches(ab: Alphabet, upper: string, lower: string, s: string, i: nat)
    requires Sensible(ab) && Lowered(upper, lower) && Spells(upper, lower, s, i)
    ensures MatchAt(ab, upper, s, i)
  {
    forall k | 0 <= k < |upper| ensures Fits(ab, upper[k], s[i + k]) {
      assert lower[k] == Lower(upper[k]);
      CharFits(ab, upper[k], s[i + k]);
    }
  }

  lemma {:induction false} InstMatches(ab: Alphabet, s: string, i: nat)
    requires Sensible(ab) && Spells("[/INST]", "[/inst]", s, i)
    ensures MatchAt(ab, Pattern(Inst), s, i)
  {
    assert Lowered("[/INST]", "[/inst]");
    SpelledMatches(ab, "[/INST]", "[/inst]", s, i);
  }

  lemma {:induction false} SysMatches(ab: Alphabet, s: string, i: nat)
    requires Sensible(ab) && Spells("[/SYS]", "[/sys]", s, i)
    ensures MatchAt(ab, Pattern(Sys), s, i)
  {
    assert Lowered("[/SYS]", "[/sys]");
    SpelledMatches(ab, "[/SYS]", "[/sys]", s, i);
  }

  lemma {:induction false} OpenSysMatches(ab: Alphabet, s: string, i: nat)
    requires Sensible(ab) && Spells("<<SYS>>", "<<sys>>", s, i)
    ensures MatchAt(ab, Pattern(OpenSys), s, i)
  {
    assert Lowered("<<SYS>>", "<<sys>>");
    SpelledMatches(ab, "<<SYS>>", "<<sys>>", s, i);
  }

  lemma {:induction false} TextSpells(upper: string, lower: string, s: string, i: nat)
    requires |upper| == |lower| && TextAt(upper, s, i)
    ensures Spells(upper, lower, s, i)
  {
  }

  // -------------------------------------------------------------------- no escape is left

  lemma {:induction false} DifferentTexts(a: string, b: string, s: string, i: nat, k: nat)
    requires k < |a| && k < |b| && a[k] != b[k] && TextAt(a, s, i)
    ensures !TextAt(b, s, i)
  {
    TextChar(a, s, i, k);
    if TextAt(b, s, i) { TextChar(b, s, i, k); }
  }

  /** In a normal form, a match of a rule is its replacement. */
  lemma {:induction false} MatchIsReplaced(ab: Alphabet, rule: Rule, y: string, i: nat)
    requires NormalForm(ab, y) && MatchAt(ab, Pattern(rule), y, i)
    ensures TextAt(Replacement(rule), y, i)
  {
    assert Settled(ab, rule, y);
  }

  lemma {:induction false} NoInst(ab: Alphabet, y: string, i: nat)
    requires Sensible(ab) && NormalForm(ab, y)
    ensures !TextAt("[/INST]", y, i)
  {
    if TextAt("[/INST]", y, i) {
      TextSpells("[/INST]", "[/inst]", y, i);
      InstMatches(ab, y, i);
      MatchIsReplaced(ab, Inst, y, i);
      DifferentTexts("[/INST]", "[/inst]", y, i, 2);
    }
  }

  lemma {:induction false} NoSys(ab: Alphabet, y: string, i: nat)
    requires Sensible(ab) && NormalForm(ab, y)
    ensures !TextAt("[/SYS]", y, i)
  {
    if TextAt("[/SYS]", y, i) {
      TextSpells("[/SYS]", "[/sys]", y, i);
      SysMatches(ab, y, i);
      MatchIsReplaced(ab, Sys, y, i);
      DifferentTexts("[/SYS]", "[/sys]", y, i, 2);
    }
  }

  lemma {:induction false} NoOpenSys(ab: Alphabet, y: string, i: nat)
    requires Sensible(ab) && NormalForm(ab, y)
    ensures !TextAt("<<SYS>>", y, i)
  {
    if TextAt("<<SYS>>", y, i) {
      TextSpells("<<SYS>>", "<<sys>>", y, i);
      OpenSysMatches(ab, y, i);
      MatchIsReplaced(ab, OpenSys, y, i);
      DifferentTexts("<<SYS>>", "[[SYS]]", y, i, 0);
    }
  }

  /** No position of sanitised text holds one of the escape sequences. */
  lemma {:induction false} NoEscapeIsLeft(ab: Alphabet, content: string, i: nat)
    requires Sensible(ab)
    ensures var y := Sanitized(ab, content);
      !TextAt("[/INST]", y, i) && !TextAt("[/SYS]", y, i) && !TextAt("<<SYS>>", y, i)
  {
    if content != "" {
      SanitizedIsRewritten(ab, content);
      NoInst(ab, Sanitized(ab, content), i);
      NoSys(ab, Sanitized(ab, content), i);
      NoOpenSys(ab, Sanitized(ab, content), i);
    }
  }

  // -------------------------------------------------------------- what an escape becomes

  /** The first rule touches nothing inside the other rules' sequences. */
  lemma {:induction false} SkeletonIsNoBracket(ab: Alphabet, skeleton: string, s: string, i: nat, k: nat)
    requires Sensible(ab) && skeleton in {"[/wwww]", "[/www]", "<<www>>"} && SkeletonAt(ab, skeleton, s, i)
    requires i <= k < i + |skeleton|
    ensures !InBracket(ab, s, k)
  {
    if a: nat, b: nat :| TagAt(ab, s, a, b) && (k == a || k == b) {
      SkeletonTagDisjoint(ab, skeleton, s, i, a, b);
    }
  }

  lemma {:induction false} SkeletonTagDisjoint(ab: Alphabet, skeleton: string, s: string, i: nat, a: nat, b: nat)
    requires Sensible(ab) && skeleton in {"[/wwww]", "[/www]", "<<www>>"} && SkeletonAt(ab, skeleton, s, i)
    requires TagAt(ab, s, a, b)
    ensures !(i <= a < i + |skeleton|) && !(i <= b < i + |skeleton|)
  {
    assert !ab.word('<') && !ab.word('>') && !ab.word('/') && !ab.word('[') && !ab.word(']');
    assert KindOk(ab, skeleton[0], s[i + 0]) && KindOk(ab, skeleton[1], s[i + 1]) && KindOk(ab, skeleton[2], s[i + 2]);
    assert KindOk(ab, skeleton[3], s[i + 3]) && KindOk(ab, skeleton[4], s[i + 4]) && KindOk(ab, skeleton[5], s[i + 5]);
    if skeleton != "[/www]" { assert KindOk(ab, skeleton[6], s[i + 6]); }
  }

  lemma {:induction false} MatchSurvivesTags(ab: Alphabet, rule: Rule, s: string, i: nat)
    requires Sensible(ab) && !rule.CloseSys? && MatchAt(ab, Pattern(rule), s, i)
    ensures MatchAt(ab, Pattern(rule), BracketTags(ab, s), i)
  {
    MatchHasSkeleton(ab, rule, s, i);
    forall k | i <= k < i + |Pattern(rule)| ensures BracketTags(ab, s)[k] == s[k] {
      SkeletonIsNoBracket(ab, Before(rule), s, i, k);
      BracketTagsKeeps(ab, s, k);
    }
    SameWindowMatches(ab, Pattern(rule), s, BracketTags(ab, s), i);
  }

  lemma {:induction false} SameWindowMatches(ab: Alphabet, pattern: string, s: string, r: string, i: nat)
    requires |r| == |s| && MatchAt(ab, pattern, s, i)
    requires forall k | i <= k < i + |pattern| :: r[k] == s[k]
    ensures MatchAt(ab, pattern, r, i)
  {
    forall k | 0 <= k < |pattern| ensures Fits(ab, pattern[k], r[i + k]) {
      assert Fits(ab, pattern[k], s[i + k]);
    }
  }

  lemma {:induction false} SameWindowText(text: string, s: string, r: string, i: nat)
    requires |r| == |s| && TextAt(text, s, i)
    requires forall k | i <= k < i + |text| :: r[k] == s[k]
    ensures TextAt(text, r, i)
  {
    forall k | 0 <= k < |text| ensures r[i + k] == text[k] { TextChar(text, s, i, k); }
  }

  /** A rule keeps the sequences of the other rules, matched or already replaced. */
  lemma {:induction false} WindowKept(ab: Alphabet, via: Rule, skeleton: string, s: string, i: nat, k: nat)
    requires Sensible(ab) && !via.CloseSys? && skeleton in SKELETONS && skeleton != Before(via)
    requires SkeletonAt(ab, skeleton, s, i) && i <= k < i + |skeleton|
    ensures Rewrite(ab, via, s)[k] == s[k]
  {
    if m: nat :| m <= k < m + |Pattern(via)| && MatchAt(ab, Pattern(via), s, m) {
      MatchHasSkeleton(ab, via, s, m);
      SkeletonsAreDisjoint(ab, skeleton, Before(via), s, i, m);
    }
    RewriteKeeps(ab, via, s, k);
  }

  lemma {:induction false} MatchSurvives(ab: Alphabet, via: Rule, rule: Rule, s: string, i: nat)
    requires Sensible(ab) && !via.CloseSys? && !rule.CloseSys? && via != rule
    requires MatchAt(ab, Pattern(rule), s, i)
    ensures MatchAt(ab, Pattern(rule), Rewrite(ab, via, s), i)
  {
    MatchHasSkeleton(ab, rule, s, i);
    forall k | i <= k < i + |Pattern(rule)| ensures Rewrite(ab, via, s)[k] == s[k] {
      WindowKept(ab, via, Before(rule), s, i, k);
    }
    SameWindowMatches(ab, Pattern(rule), s, Rewrite(ab, via, s), i);
  }

  lemma {:induction false} TextSurvives(ab: Alphabet, via: Rule, rule: Rule, s: string, i: nat)
    requires Sensible(ab) && !via.CloseSys? && !rule.CloseSys? && After(rule) != Before(via)
    requires TextAt(Replacement(rule), s, i)
    ensures TextAt(Replacement(rule), Rewrite(ab, via, s), i)
  {
    ReplacementHasSkeleton(ab, rule, s, i);
    forall k | i <= k < i + |Replacement(rule)| ensures Rewrite(ab, via, s)[k] == s[k] {
      WindowKept(ab, via, After(rule), s, i, k);
    }
    SameWindowText(Replacement(rule), s, Rewrite(ab, via, s), i);
  }

  lemma {:induction false} InstBecomes(ab: Alphabet, s: string, i: nat)
    requires Sensible(ab) && MatchAt(ab, Pattern(Inst), s, i)
    ensures TextAt(Replacement(Inst), Rewritten(ab, s), i)
  {
    var t := BracketTags(ab, s);
    MatchSurvivesTags(ab, Inst, s, i);
    RewriteReplaces(ab, Inst, t, i);
    TextSurvives(ab, Sys, Inst, Rewrite(ab, Inst, t), i);
    TextSurvives(ab, OpenSys, Inst, Rewrite(ab, Sys, Rewrite(ab, Inst, t)), i);
  }

  lemma {:induction false} SysBecomes(ab: Alphabet, s: string, i: nat)
    requires Sensible(ab) && MatchAt(ab, Pattern(Sys), s, i)
    ensures TextAt(Replacement(Sys), Rewritten(ab, s), i)
  {
    var t := BracketTags(ab, s);
    MatchSurvivesTags(ab, Sys, s, i);
    MatchSurvives(ab, Inst, Sys, t, i);
    RewriteReplaces(ab, Sys, Rewrite(ab, Inst, t), i);
    TextSurvives(ab, OpenSys, Sys, Rewrite(ab, Sys, Rewrite(ab, Inst, t)), i);
  }

  lemma {:induction false} OpenSysBecomes(ab: Alphabet, s: string, i: nat)
    requires Sensible(ab) && MatchAt(ab, Pattern(OpenSys), s, i)
    ensures TextAt(Replacement(OpenSys), Rewritten(ab, s), i)
  {
    var t := BracketTags(ab, s);
    MatchSurvivesTags(ab, OpenSys, s, i);
    MatchSurvives(ab, Inst, OpenSys, t, i);
    MatchSurvives(ab, Sys, OpenSys, Rewrite(ab, Inst, t), i);
    RewriteReplaces(ab, OpenSys, Rewrite(ab, Sys, Rewrite(ab, Inst, t)), i);
  }

  /** Wherever the text spells an escape sequence, in any mixture of cases, the sanitised
      text holds its harmless form. */
  lemma {:induction false} EscapesBecome(ab: Alphabet, content: string, i: nat)
    requires Sensible(ab) && content != ""
    ensures var s, y := Shortened(content), Sanitized(ab, content);
      && (Spells("[/INST]", "[/inst]", s, i) ==> TextAt("[/inst]", y, i))
      && (Spells("[/SYS]", "[/sys]", s, i) ==> TextAt("[/sys]", y, i))
      && (Spells("<<SYS>>", "<<sys>>", s, i) ==> TextAt("[[SYS]]", y, i))
  {
    var s := Shortened(content);
    SanitizedIsRewritten(ab, content);
    if Spells("[/INST]", "[/inst]", s, i) { InstMatches(ab, s, i); InstBecomes(ab, s, i); }
    if Spells("[/SYS]", "[/sys]", s, i) { SysMatches(ab, s, i); SysBecomes(ab, s, i); }
    if Spells("<<SYS>>", "<<sys>>", s, i) { OpenSysMatches(ab, s, i); OpenSysBecomes(ab, s, i); }
  }

  // --------------------------------------------------------------- tags and other text

  /** A closing tag keeps its slash and gets square brackets. */
  lemma {:induction false} TagBecomesBrackets(ab: Alphabet, content: string, i: nat, j: nat)
    requires Sensible(ab) && content != "" && TagAt(ab, Shortened(content), i, j)
    ensures var y := Sanitized(ab, content);
      |y| == |Shortened(content)| && y[i] == '[' && y[i + 1] == '/' && y[j] == ']'
  {
    var s := Shortened(content);
    var t := BracketTags(ab, s);
    SanitizedIsRewritten(ab, content);
    RewrittenIsNormal(ab, s);
    BracketTagsReplaces(ab, s, i, j);
    BracketTagsSoftens(ab, s);
    assert !ab.word('[') && !ab.word(']') && !ab.word('/');
    SoftenedKeepsChar(ab, t, Sanitized(ab, content), i);
    SoftenedKeepsChar(ab, t, Sanitized(ab, content), j);
    SoftenedKeepsChar(ab, s, t, i + 1);
    SoftenedKeepsChar(ab, t, Sanitized(ab, content), i + 1);
  }

  lemma {:induction false} SoftenedKeepsChar(ab: Alphabet, s: string, r: string, k: nat)
    requires Softened(ab, s, r) && k < |s| && s[k] !in {'<', '>'} && !ab.word(s[k])
    ensures r[k] == s[k]
  {
  }

  /** Text without an angle or a square bracket opening in it passes as it is. */
  lemma {:induction false} HarmlessTextPasses(ab: Alphabet, content: string)
    requires Sensible(ab) && forall i | 0 <= i < |content| :: content[i] != '<' && content[i] != '['
    ensures Sanitized(ab, content) == Shortened(content)
  {
    if content != "" {
      var s := Shortened(content);
      assert forall i | 0 <= i < |s| :: s[i] != '<' && s[i] != '[';
      forall rule: Rule ensures Settled(ab, rule, s) { NothingMatches(ab, rule, s); }
      NormalFormIsFixed(ab, s);
    }
  }

  lemma {:induction false} NothingMatches(ab: Alphabet, rule: Rule, s: string)
    requires forall i | 0 <= i < |s| :: s[i] != '<' && s[i] != '['
    ensures Settled(ab, rule, s)
  {
    forall i: nat ensures !MatchAt(ab, Pattern(rule), s, i) {
      assert Pattern(rule)[0] in {'<', '['};
      FirstChar(ab, Pattern(rule), s, i);
    }
  }

  lemma {:induction false} FirstChar(ab: Alphabet, pattern: string, s: string, i: nat)
    requires pattern != "" && pattern[0] in {'<', '['}
    ensures MatchAt(ab, pattern, s, i) ==> i < |s| && s[i] == pattern[0]
  {
    assert MatchAt(ab, pattern, s, i) ==> Fits(ab, pattern[0], s[i + 0]);
  }

  // ---------------------------------------------------------------------------- wrapping

  /** Text without quotes stays; each quote becomes its entity, whatever stands around it. */
  lemma {:induction false} QuotesAreEscaped(a: string, b: string)
    requires forall i | 0 <= i < |a| :: a[i] != '"'
    ensures EscapeQuotes(a) == a && EscapeQuotes(a + "\"" + b) == a + "&quot;" + EscapeQuotes(b)
  {
    if a == "" {
      assert a + "\"" + b == "\"" + b && ("\"" + b)[1..] == b;
      assert a + "&quot;" + EscapeQuotes(b) == "&quot;" + EscapeQuotes(b);
    } else {
      var whole := a + "\"" + b;
      QuotesAreEscaped(a[1..], b);
      assert whole[1..] == a[1..] + "\"" + b && whole[0] == a[0];
      assert a == [a[0]] + a[1..];
      assert [a[0]] + (a[1..] + "&quot;" + EscapeQuotes(b)) == a + "&quot;" + EscapeQuotes(b);
    }
  }

  /** The whole of both wrapped texts, for empty and other content. */
  lemma {:induction false} WrappedText(ab: Alphabet, t: Wording, content: string, tag: string, source: string)
    ensures WrapInstructions(ab, t, content, tag) ==
      if content == "" then ""
      else "<" + tag + ">\n" + t.preferences + "\n\n" + Sanitized(ab, content) + "\n</" + tag + ">"
    ensures WrapUntrusted(ab, t, content, tag, source) ==
      if content == "" then "<" + tag + " source=\"" + EscapeQuotes(source) + "\" />"
      else OpenedWith(t, tag, source) + Sanitized(ab, content) + "\n</" + tag + ">"
  {
    ClosingLine(InstructionsHeader(t, tag) + Sanitized(ab, content), tag);
    ClosingLine(UntrustedHeader(t, tag, source) + Sanitized(ab, content), tag);
  }

  function OpenedWith(t: Wording, tag: string, source: string): string {
    "<" + tag + " source=\"" + EscapeQuotes(source) + "\">\n" + t.before + source + t.after + "\n\n"
  }

  lemma {:induction false} ClosingLine(text: string, tag: string)
    ensures text + "\n" + Closer(tag) == text + "\n</" + tag + ">"
  {
    assert "\n" + "</" == "\n</";
    assert text + "\n" + ("</" + tag + ">") == text + ("\n" + "</") + tag + ">";
  }
}
