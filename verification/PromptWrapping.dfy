/** Wrapping sanitised text in a delimiter that the text cannot close. */
module PromptWrapping {
  import opened Common
  import opened Text
  import opened PromptSanitizer

  /** The fixed sentences of the wrappers: what the untrusted-content notice says before and
      after the source label, and the notice put before a user's own instructions. */
  datatype Wording = Wording(before: string, after: string, preferences: string)

  predicate Plain(s: string) {
    forall i | 0 <= i < |s| :: s[i] != '<'
  }

  /** All the theorems need of the sentences: no angle bracket opens in them, and the label
      stands between parentheses. */
  predicate PlainWording(t: Wording) {
    && Plain(t.before) && Plain(t.after) && Plain(t.preferences)
    && t.before != "" && t.before[|t.before| - 1] == '(' && t.after != "" && t.after[0] == ')'
  }

  // --------------------------------------------------------------------- the wrappers

  function EscapeQuotes(s: string): string {
    if s == "" then ""
    else (if s[0] == '"' then "&quot;" else [s[0]]) + EscapeQuotes(s[1..])
  }

  function Closer(tag: string): string {
    "</" + tag + ">"
  }

  /** What precedes the content that `WrapInstructions` wraps. */
  function InstructionsHeader(t: Wording, tag: string): string {
    "<" + tag + ">\n" + t.preferences + "\n\n"
  }

  function WrapInstructions(ab: Alphabet, t: Wording, content: string, tag: string): string {
    if content == "" then ""
    else InstructionsHeader(t, tag) + Sanitized(ab, content) + "\n" + Closer(tag)
  }

  /** What precedes the content that `WrapUntrusted` wraps. */
  function UntrustedHeader(t: Wording, tag: string, source: string): string {
    "<" + tag + " source=\"" + EscapeQuotes(source) + "\">\n" + t.before + source + t.after + "\n\n"
  }

  function WrapUntrusted(ab: Alphabet, t: Wording, content: string, tag: string, source: string): string {
    if content == "" then "<" + tag + " source=\"" + EscapeQuotes(source) + "\" />"
    else UntrustedHeader(t, tag, source) + Sanitized(ab, content) + "\n" + Closer(tag)
  }

  // ------------------------------------------------------------- occurrences of a closer

  predicate WordTag(ab: Alphabet, tag: string) {
    tag != "" && forall i | 0 <= i < |tag| :: ab.word(tag[i])
  }

  /** `tag`'s closer occurs nowhere in `s`. */
  ghost predicate Free(tag: string, s: string) {
    forall i: nat :: !TextAt(Closer(tag), s, i)
  }

  /** A character that no closer of a word tag contains. */
  predicate Separates(ab: Alphabet, c: char) {
    !ab.word(c) && c != '<' && c != '/' && c != '>'
  }

  lemma {:induction false} CloserChars(ab: Alphabet, tag: string, k: nat)
    requires WordTag(ab, tag) && k < |Closer(tag)|
    ensures !Separates(ab, Closer(tag)[k])
    ensures k > 0 && Sensible(ab) ==> Closer(tag)[k] != '<'
  {
    var c := Closer(tag);
    if 2 <= k < |c| - 1 { assert c[k] == tag[k - 2]; }
  }

  lemma {:induction false} TextStart(c: string, s: string, i: nat)
    ensures TextAt(c, s, i) && |c| > 1 ==> i + 1 < |s| && s[i] == c[0] && s[i + 1] == c[1]
  {
    if TextAt(c, s, i) && |c| > 1 { assert s[i + 0] == c[0] && s[i + 1] == c[1]; }
  }

  lemma {:induction false} PlainIsFree(tag: string, s: string)
    requires Plain(s)
    ensures Free(tag, s)
  {
    forall i: nat ensures !TextAt(Closer(tag), s, i) { TextStart(Closer(tag), s, i); }
  }

  lemma {:induction false} CloserIsATag(ab: Alphabet, tag: string, s: string, i: nat)
    requires WordTag(ab, tag) && TextAt(Closer(tag), s, i)
    ensures TagAt(ab, s, i, i + |Closer(tag)| - 1)
  {
    var c := Closer(tag);
    assert s[i + 0] == c[0] && s[i + 1] == c[1] && s[i + (|c| - 1)] == c[|c| - 1];
    forall k | i + 2 <= k < i + |c| - 1 ensures ab.word(s[k]) {
      assert s[i + (k - i)] == c[k - i] == tag[k - i - 2];
    }
  }

  lemma {:induction false} NoTagIsFree(ab: Alphabet, tag: string, s: string)
    requires WordTag(ab, tag) && NoTag(ab, s)
    ensures Free(tag, s)
  {
    forall i: nat ensures !TextAt(Closer(tag), s, i) {
      if TextAt(Closer(tag), s, i) { CloserIsATag(ab, tag, s, i); }
    }
  }

  /** A separating character between two texts keeps closers from straddling them. */
  lemma {:induction false} FreeConcat(ab: Alphabet, tag: string, a: string, b: string)
    requires WordTag(ab, tag) && Free(tag, a) && Free(tag, b)
    requires (a != "" && Separates(ab, a[|a| - 1])) || (b != "" && Separates(ab, b[0]))
    ensures Free(tag, a + b)
  {
    var c, s := Closer(tag), a + b;
    forall i: nat ensures !TextAt(c, s, i) {
      TextInConcat(c, a, b, i);
      if TextAt(c, s, i) && i < |a| < i + |c| {
        var last, first := |a| - 1 - i, |a| - i;
        assert s[i + last] == c[last] && s[i + first] == c[first];
        CloserChars(ab, tag, last);
        CloserChars(ab, tag, first);
      }
    }
  }

  lemma {:induction false} EscapedPrefix(p: string, s: string)
    requires |p| <= |EscapeQuotes(s)| && EscapeQuotes(s)[..|p|] == p
    requires forall i | 0 <= i < |p| :: p[i] != '&'
    ensures |p| <= |s| && s[..|p|] == p
  {
    if p != "" {
      assert p[0] == EscapeQuotes(s)[0];
      var rest := EscapeQuotes(s[1..]);
      assert EscapeQuotes(s) == [s[0]] + rest;
      assert rest[..|p| - 1] == p[1..];
      EscapedPrefix(p[1..], s[1..]);
      assert s[..|p|] == [s[0]] + s[1..][..|p| - 1];
    }
  }

  /** Escaping the quotes of a label makes no closer that the label does not have. */
  lemma {:induction false} EscapedOccurrence(ab: Alphabet, tag: string, s: string, i: nat)
    requires Sensible(ab) && WordTag(ab, tag) && TextAt(Closer(tag), EscapeQuotes(s), i)
    ensures exists j: nat :: TextAt(Closer(tag), s, j)
  {
    var c, e, rest := Closer(tag), EscapeQuotes(s), EscapeQuotes(s[1..]);
    var head := if s[0] == '"' then "&quot;" else [s[0]];
    TextStart(c, e, i);
    if i >= |head| {
      TextInConcat(c, head, rest, i);
      EscapedOccurrence(ab, tag, s[1..], i - |head|);
      var j: nat :| TextAt(c, s[1..], j);
      assert [s[0]] + s[1..] == s;
      TextInConcat(c, [s[0]], s[1..], j + 1);
      assert TextAt(c, s, j + 1);
    } else {
      assert i == 0;
      forall k | 0 <= k < |c| ensures c[k] != '&' { CloserChars(ab, tag, k); assert !ab.word('&'); }
      assert e[..|c|] == c by { forall k | 0 <= k < |c| ensures e[k] == c[k] { assert e[0 + k] == c[k]; } }
      EscapedPrefix(c, s);
      assert TextAt(c, s, 0) by { forall k | 0 <= k < |c| ensures s[0 + k] == c[k] { assert s[..|c|][k] == c[k]; } }
    }
  }

  lemma {:induction false} EscapedIsFree(ab: Alphabet, tag: string, s: string)
    requires Sensible(ab) && WordTag(ab, tag) && Free(tag, s)
    ensures Free(tag, EscapeQuotes(s))
  {
    forall i: nat ensures !TextAt(Closer(tag), EscapeQuotes(s), i) {
      if TextAt(Closer(tag), EscapeQuotes(s), i) { EscapedOccurrence(ab, tag, s, i); }
    }
  }

  // --------------------------------------------------------------------- delimiter safety

  /** The closer of `tag` occurs in `s` at its very end and nowhere else. */
  ghost predicate ClosedOnce(tag: string, s: string) {
    var end := |s| - |Closer(tag)|;
    end >= 0 && TextAt(Closer(tag), s, end) && forall i: nat | i != end :: !TextAt(Closer(tag), s, i)
  }

  /** A text free of the closer, a line end, and the closer. */
  lemma {:induction false} ClosedOnceAtEnd(ab: Alphabet, tag: string, s: string)
    requires Sensible(ab) && WordTag(ab, tag) && Free(tag, s)
    ensures ClosedOnce(tag, s + "\n" + Closer(tag))
  {
    var c := Closer(tag);
    var body := s + "\n";
    assert !ab.word('\n') && Separates(ab, '\n');
    PlainIsFree(tag, "\n");
    FreeConcat(ab, tag, s, "\n");
    TextInConcat(c, body, c, |body|);
    forall i: nat | i != |body| ensures !TextAt(c, body + c, i) {
      TextInConcat(c, body, c, i);
      if TextAt(c, body + c, i) && i < |body| < i + |c| {
        var last := |body| - 1 - i;
        assert (body + c)[i + last] == c[last];
        CloserChars(ab, tag, last);
      }
    }
  }

  lemma {:induction false} InstructionsHeaderIsFree(ab: Alphabet, t: Wording, tag: string)
    requires Sensible(ab) && WordTag(ab, tag) && PlainWording(t)
    ensures Free(tag, InstructionsHeader(t, tag)) && Separates(ab, '\n')
  {
    assert !ab.word('\n');
    OpenerIsFree(ab, tag, ">\n");
    PlainIsFree(tag, t.preferences);
    PlainIsFree(tag, "\n\n");
    FreeConcat(ab, tag, "<" + tag + ">\n", t.preferences);
    FreeConcat(ab, tag, "<" + tag + ">\n" + t.preferences, "\n\n");
  }

  /** An opening tag is no closing tag. */
  lemma {:induction false} OpenerIsFree(ab: Alphabet, tag: string, rest: string)
    requires Sensible(ab) && WordTag(ab, tag) && Plain(rest)
    ensures Free(tag, "<" + tag + rest)
  {
    var s := "<" + tag + rest;
    assert !ab.word('/') && !ab.word('<');
    forall k | 1 <= k < |s| ensures s[k] != '<' {
      if k <= |tag| { assert s[k] == tag[k - 1]; } else { assert s[k] == rest[k - 1 - |tag|]; }
    }
    assert s[1] == tag[0];
    forall i: nat ensures !TextAt(Closer(tag), s, i) { TextStart(Closer(tag), s, i); }
  }

  /** A user's own instructions close their delimiter nowhere but at the end. */
  lemma {:induction false} InstructionsClosedOnce(ab: Alphabet, t: Wording, content: string, tag: string)
    requires Sensible(ab) && WordTag(ab, tag) && PlainWording(t) && content != ""
    ensures ClosedOnce(tag, WrapInstructions(ab, t, content, tag))
  {
    var header, y := InstructionsHeader(t, tag), Sanitized(ab, content);
    InstructionsHeaderIsFree(ab, t, tag);
    SanitizedIsNormal(ab, content);
    NoTagIsFree(ab, tag, y);
    FreeConcat(ab, tag, header, y);
    ClosedOnceAtEnd(ab, tag, header + y);
    assert WrapInstructions(ab, t, content, tag) == header + y + "\n" + Closer(tag);
  }

  /** The header is free of the closer when the source label is: the label stands in the
      header twice, with quotes escaped and as it is, and is sanitised in neither place. */
  lemma {:induction false} UntrustedHeaderIsFree(ab: Alphabet, t: Wording, tag: string, source: string)
    requires Sensible(ab) && WordTag(ab, tag) && PlainWording(t) && Free(tag, source)
    ensures Free(tag, UntrustedHeader(t, tag, source)) && Separates(ab, '\n')
  {
    assert !ab.word('"') && !ab.word('\n') && !ab.word('(') && !ab.word(')');
    var open := "<" + tag + " source=\"";
    var escaped := EscapeQuotes(source);
    OpenerIsFree(ab, tag, " source=\"");
    EscapedIsFree(ab, tag, source);
    PlainIsFree(tag, "\">\n");
    PlainIsFree(tag, t.before);
    PlainIsFree(tag, t.after);
    PlainIsFree(tag, "\n\n");
    FreeConcat(ab, tag, open, escaped);
    FreeConcat(ab, tag, open + escaped, "\">\n");
    FreeConcat(ab, tag, open + escaped + "\">\n", t.before);
    FreeConcat(ab, tag, open + escaped + "\">\n" + t.before, source);
    FreeConcat(ab, tag, open + escaped + "\">\n" + t.before + source, t.after);
    FreeConcat(ab, tag, open + escaped + "\">\n" + t.before + source + t.after, "\n\n");
    assert UntrustedHeader(t, tag, source) == open + escaped + "\">\n" + t.before + source + t.after + "\n\n";
  }

  lemma {:induction false} LabelOccurrenceShows(
    ab: Alphabet, t: Wording, content: string, tag: string, source: string, i: nat)
    requires content != "" && TextAt(Closer(tag), source, i)
    ensures !ClosedOnce(tag, WrapUntrusted(ab, t, content, tag, source))
  {
    var c, y := Closer(tag), Sanitized(ab, content);
    var front := "<" + tag + " source=\"" + EscapeQuotes(source) + "\">\n" + t.before;
    var k := i + |front|;
    TextInConcat(c, front, source, k);
    var shown := front + source;
    OccursWith(c, shown, t.after, k);
    OccursWith(c, shown + t.after, "\n\n", k);
    OccursWith(c, shown + t.after + "\n\n", y, k);
    OccursWith(c, shown + t.after + "\n\n" + y, "\n", k);
    OccursWith(c, shown + t.after + "\n\n" + y + "\n", c, k);
    assert WrapUntrusted(ab, t, content, tag, source) == shown + t.after + "\n\n" + y + "\n" + c;
  }

  lemma {:induction false} OccursWith(c: string, s: string, tail: string, k: nat)
    requires TextAt(c, s, k)
    ensures TextAt(c, s + tail, k)
  {
    TextInConcat(c, s, tail, k);
  }

  /** External content: the closer occurs once, at the very end, exactly when the source
      label does not contain it, whatever the content. */
  lemma {:induction false} UntrustedClosedOnceIff(
    ab: Alphabet, t: Wording, content: string, tag: string, source: string)
    requires Sensible(ab) && WordTag(ab, tag) && PlainWording(t) && content != ""
    ensures ClosedOnce(tag, WrapUntrusted(ab, t, content, tag, source)) <==> Free(tag, source)
  {
    if Free(tag, source) {
      var header, y := UntrustedHeader(t, tag, source), Sanitized(ab, content);
      UntrustedHeaderIsFree(ab, t, tag, source);
      SanitizedIsNormal(ab, content);
      NoTagIsFree(ab, tag, y);
      FreeConcat(ab, tag, header, y);
      ClosedOnceAtEnd(ab, tag, header + y);
      assert WrapUntrusted(ab, t, content, tag, source) == header + y + "\n" + Closer(tag);
    } else {
      var i: nat :| TextAt(Closer(tag), source, i);
      LabelOccurrenceShows(ab, t, content, tag, source, i);
    }
  }

  // ------------------------------------------------------------------------ unwrapping

  /** What stands between a known header and the first closer after it. */
  function Unwrap(header: string, tag: string, w: string): Option<string> {
    if |w| < |header| || w[..|header|] != header then None
    else
      var rest := w[|header|..];
      match Find(Closer(tag), rest, 0)
      case None => None
      case Some(k) => if k == 0 then None else Some(rest[..k - 1])
  }

  lemma {:induction false} UnwrapStrips(header: string, tag: string, rest: string, k: nat)
    requires 0 < k && ClosedOnce(tag, rest) && k == |rest| - |Closer(tag)|
    ensures Unwrap(header, tag, header + rest) == Some(rest[..k - 1])
  {
    assert (header + rest)[..|header|] == header && (header + rest)[|header|..] == rest;
    assert Find(Closer(tag), rest, 0) == Some(k);
  }

  lemma {:induction false} Reassociate(a: string, b: string, c: string, d: string)
    ensures a + b + c + d == a + (b + c + d)
  {
  }

  lemma {:induction false} UnwrapRecovers(ab: Alphabet, header: string, tag: string, y: string)
    requires Sensible(ab) && WordTag(ab, tag) && NoTag(ab, y)
    ensures Unwrap(header, tag, header + y + "\n" + Closer(tag)) == Some(y)
  {
    var rest := y + "\n" + Closer(tag);
    Reassociate(header, y, "\n", Closer(tag));
    NoTagIsFree(ab, tag, y);
    ClosedOnceAtEnd(ab, tag, y);
    UnwrapStrips(header, tag, rest, |y| + 1);
    assert rest[..|y|] == y;
  }

  /** Both wrappers are inverted by stripping the known header up to the first closer. */
  lemma {:induction false} WrappersInvert(ab: Alphabet, t: Wording, content: string, tag: string, source: string)
    requires Sensible(ab) && WordTag(ab, tag) && content != ""
    ensures Unwrap(InstructionsHeader(t, tag), tag, WrapInstructions(ab, t, content, tag))
         == Some(Sanitized(ab, content))
    ensures Unwrap(UntrustedHeader(t, tag, source), tag, WrapUntrusted(ab, t, content, tag, source))
         == Some(Sanitized(ab, content))
  {
    SanitizedIsNormal(ab, content);
    UnwrapRecovers(ab, InstructionsHeader(t, tag), tag, Sanitized(ab, content));
    UnwrapRecovers(ab, UntrustedHeader(t, tag, source), tag, Sanitized(ab, content));
  }
}
