/**
  What exported and imported sub-agents look like, in terms of their fields and texts.
*/
module MarkdownLaws {
  import opened Common
  import opened Text
  import opened SubAgentMarkdown

  /** The model line of the front matter, tier by tier. */
  lemma {:induction false} ModelLine(a: SubAgent)
    ensures a.tier == "fast" ==> Model in FrontMatterOf(a) && FrontMatterOf(a)[Model] == Scalar("haiku")
    ensures a.tier == "powerful" ==> Model in FrontMatterOf(a) && FrontMatterOf(a)[Model] == Scalar("opus")
    ensures a.tier == "inherit" ==> Model !in FrontMatterOf(a)
    ensures a.tier !in {"fast", "powerful", "inherit"} ==>
      Model in FrontMatterOf(a) && FrontMatterOf(a)[Model] == Scalar("sonnet")
  {
    assert |"fast"| == 4 && |"powerful"| == 8 && |"inherit"| == 7 && |"balanced"| == 8;
    assert "powerful"[0] != "balanced"[0];
    assert |"haiku"| == 5 && |"sonnet"| == 6 && |"opus"| == 4;
  }

  /** Name and description are always written; the others unless they have their default. */
  lemma {:induction false} OtherLines(a: SubAgent)
    ensures var fm := FrontMatterOf(a);
      && Name in fm && fm[Name] == a.name && Description in fm && fm[Description] == a.description
      && (if a.tools == Items([]) then Tools !in fm else Tools in fm && fm[Tools] == a.tools)
      && (if a.disallowedTools == Items([]) then DisallowedTools !in fm
          else DisallowedTools in fm && fm[DisallowedTools] == a.disallowedTools)
      && (if a.maxTurns == Number(10) then MaxTurns !in fm else MaxTurns in fm && fm[MaxTurns] == a.maxTurns)
      && (if a.permissionMode == Scalar("default") then PermissionMode !in fm
          else PermissionMode in fm && fm[PermissionMode] == a.permissionMode)
  {
  }

  /** Stripping takes space off both ends and nothing else. */
  lemma {:induction false} StripTakesEnds(space: char -> bool, s: string) returns (i: nat, j: nat)
    ensures i <= j <= |s| && Strip(space, s) == s[i..j]
    ensures (forall k | 0 <= k < i :: space(s[k])) && (forall k | j <= k < |s| :: space(s[k]))
    ensures i < j ==> !space(s[i]) && !space(s[j - 1])
  {
    i := LeftEnd(space, s);
    var n := RightEnd(space, s[i..]);
    j := i + n;
    assert s[i..][..n] == s[i..j];
    assert forall k | j <= k < |s| :: s[k] == s[i..][k - i];
    StripIsStripped(space, s);
    assert i < j ==> Strip(space, s)[0] == s[i] && Strip(space, s)[|Strip(space, s)| - 1] == s[j - 1];
  }

  lemma {:induction false} LeftEnd(space: char -> bool, s: string) returns (i: nat)
    ensures i <= |s| && StripLeft(space, s) == s[i..] && forall k | 0 <= k < i :: space(s[k])
  {
    if s != "" && space(s[0]) {
      var m := LeftEnd(space, s[1..]);
      i := m + 1;
      assert s[1..][m..] == s[i..];
      assert forall k | 1 <= k < i :: s[k] == s[1..][k - 1];
    } else {
      i := 0;
    }
  }

  lemma {:induction false} RightEnd(space: char -> bool, s: string) returns (n: nat)
    ensures n <= |s| && StripRight(space, s) == s[..n] && forall k | n <= k < |s| :: space(s[k])
  {
    if s != "" && space(s[|s| - 1]) {
      n := RightEnd(space, s[..|s| - 1]);
      assert s[..|s| - 1][..n] == s[..n];
      assert forall k | n <= k < |s| - 1 :: s[k] == s[..|s| - 1][k];
    } else {
      n := |s|;
      assert s[..n] == s;
    }
  }

  /** The printed document. */
  lemma {:induction false} PrintedText(lib: Library, a: SubAgent)
    ensures Printed(lib, a) ==
      "---\n" + Strip(lib.space, lib.dump(FrontMatterOf(a))) + "\n---\n\n" + a.systemPrompt + "\n"
  {
  }

  /** Importing a document: what the loader is handed and what the body is. */
  lemma {:induction false} ImportReads(lib: Library, content: string, i: nat, j: nat)
    requires TextAt("---", content, i) && TextAt("---", content, j) && i + 3 <= j
    requires forall k | 0 <= k < i :: !TextAt("---", content, k)
    requires forall k | i + 3 <= k < j :: !TextAt("---", content, k)
    ensures var loaded := lib.load(content[i + 3..j]);
      && (loaded.Unreadable? ==> Parse(lib, content) == Failed(InvalidYaml))
      && (loaded.NotAMapping? ==> Parse(lib, content) == Failed(NotADictionary))
      && (Parse(lib, content).Imported? ==>
            loaded.Mapping? && Parse(lib, content).agent.systemPrompt == Strip(lib.space, content[j + 3..]))
  {
    assert FENCE == "---";
    assert Find(FENCE, content, 0) == Some(i) && Find(FENCE, content, i + 3) == Some(j);
  }

  /** And what each field is given, with its default if the front matter says nothing. */
  lemma {:induction false} ImportedFields(fm: FrontMatter, body: string)
    ensures var a := Assembled(fm, body);
      && a.systemPrompt == body
      && a.name == (if Name in fm then fm[Name] else Scalar("unnamed"))
      && a.description == (if Description in fm then fm[Description] else Scalar(""))
      && a.tools == (if Tools in fm then fm[Tools] else Items([]))
      && a.disallowedTools == (if DisallowedTools in fm then fm[DisallowedTools] else Items([]))
      && a.maxTurns == (if MaxTurns in fm then fm[MaxTurns] else Number(10))
      && a.permissionMode == (if PermissionMode in fm then fm[PermissionMode] else Scalar("default"))
      && (a.tier == "fast" <==> Model in fm && fm[Model] == Scalar("haiku"))
      && (a.tier == "powerful" <==> Model in fm && fm[Model] == Scalar("opus"))
      && a.tier in {"fast", "balanced", "powerful"}
  {
    assert |"fast"| == 4 && |"powerful"| == 8 && |"balanced"| == 8 && "powerful"[0] != "balanced"[0];
    assert |"haiku"| == 5 && |"sonnet"| == 6 && |"opus"| == 4;
  }

  /** A document is imported exactly if it has two fences, a mapping between them, and a
      model, if it names one, that can be looked up. */
  lemma {:induction false} ImportedIff(lib: Library, content: string)
    ensures Parse(lib, content).Imported? <==>
      && SplitFences(content).Some?
      && (var loaded := lib.load(SplitFences(content).value.1);
          && loaded.Mapping?
          && (Model in loaded.entries ==> loaded.entries[Model].Scalar? || loaded.entries[Model].Number?))
    ensures Parse(lib, content).Imported? ==>
      Parse(lib, content).agent ==
        Assembled(lib.load(SplitFences(content).value.1).entries, Strip(lib.space, SplitFences(content).value.2))
  {
  }
}
