/**
  Sub-agents as markdown: YAML front matter between `---` lines, then the system prompt.

  The YAML library is a pair of functions; the theorems assume of it only that it loads
  back the front matter it dumped. Front-matter keys are always written in one order, so a
  map stands for the ordered dictionary.
*/
module SubAgentMarkdown {
  import opened Common
  import opened Text

  /** A loaded YAML value; `Nested` are the mappings and lists that are no list of strings. */
  datatype Value = Scalar(text: string) | Number(int) | Items(seq<string>) | Nested(text: string)

  /** The front-matter keys that are written and read; any others are ignored. */
  datatype Field = Name | Description | Model | Tools | DisallowedTools | MaxTurns | PermissionMode

  type FrontMatter = map<Field, Value>

  datatype Loaded = Mapping(entries: FrontMatter) | NotAMapping | Unreadable

  datatype Library = Library(dump: FrontMatter -> string, load: string -> Loaded, space: char -> bool)

  datatype SubAgent = SubAgent(
    name: Value, description: Value, tier: string, systemPrompt: string,
    tools: Value, disallowedTools: Value, maxTurns: Value, permissionMode: Value)

  datatype Failure = MissingDelimiters | InvalidYaml | NotADictionary | UnhashableModel

  datatype Result = Imported(agent: SubAgent) | Failed(error: Failure)

  const FENCE: string := "---"

  /** The types the stored fields are declared with. */
  predicate Declared(a: SubAgent) {
    && a.name.Scalar? && a.description.Scalar? && a.tools.Items? && a.disallowedTools.Items?
    && a.maxTurns.Number? && a.permissionMode.Scalar?
  }

  // ------------------------------------------------------------------------ stripping

  function StripLeft(space: char -> bool, s: string): string {
    if s != "" && space(s[0]) then StripLeft(space, s[1..]) else s
  }

  function StripRight(space: char -> bool, s: string): string {
    if s != "" && space(s[|s| - 1]) then StripRight(space, s[..|s| - 1]) else s
  }

  function Strip(space: char -> bool, s: string): string {
    StripRight(space, StripLeft(space, s))
  }

  predicate Stripped(space: char -> bool, s: string) {
    s == "" || (!space(s[0]) && !space(s[|s| - 1]))
  }

  lemma {:induction false} StripLeftStarts(space: char -> bool, s: string)
    ensures var r := StripLeft(space, s); r == "" || !space(r[0])
  {
    if s != "" && space(s[0]) { StripLeftStarts(space, s[1..]); }
  }

  lemma {:induction false} StripRightKeepsStart(space: char -> bool, s: string)
    requires s == "" || !space(s[0])
    ensures Stripped(space, StripRight(space, s))
  {
    if s != "" && space(s[|s| - 1]) { StripRightKeepsStart(space, s[..|s| - 1]); }
  }

  lemma {:induction false} StripIsStripped(space: char -> bool, s: string)
    ensures Stripped(space, Strip(space, s)) && Strip(space, Strip(space, s)) == Strip(space, s)
  {
    StripLeftStarts(space, s);
    StripRightKeepsStart(space, StripLeft(space, s));
  }

  lemma {:induction false} StripLeftAppend(space: char -> bool, s: string, c: char)
    requires space(c)
    ensures StripLeft(space, s + [c]) == if StripLeft(space, s) == "" then "" else StripLeft(space, s) + [c]
  {
    if s == "" {
      assert s + [c] == [c] && [c][1..] == "";
    } else {
      assert (s + [c])[1..] == s[1..] + [c];
      if space(s[0]) { StripLeftAppend(space, s[1..], c); }
    }
  }

  lemma {:induction false} StripAppend(space: char -> bool, s: string, c: char)
    requires space(c)
    ensures Strip(space, s + [c]) == Strip(space, s)
  {
    StripLeftAppend(space, s, c);
    var r := StripLeft(space, s);
    assert (r + [c])[..|r|] == r;
  }

  lemma {:induction false} StripPrepend(space: char -> bool, s: string, c: char)
    requires space(c)
    ensures Strip(space, [c] + s) == Strip(space, s)
  {
    assert ([c] + s)[1..] == s;
  }

  // ------------------------------------------------------------------------- printing

  function AliasOf(tier: string): string {
    if tier == "fast" then "haiku"
    else if tier == "balanced" then "sonnet"
    else if tier == "powerful" then "opus"
    else if tier == "inherit" then "inherit"
    else "sonnet"
  }

  /** What the front matter says under a key, if it mentions it. */
  function Entry(a: SubAgent, key: Field): Option<Value> {
    match key
    case Name => Some(a.name)
    case Description => Some(a.description)
    case Model => if AliasOf(a.tier) == "inherit" then None else Some(Scalar(AliasOf(a.tier)))
    case Tools => if a.tools == Items([]) then None else Some(a.tools)
    case DisallowedTools => if a.disallowedTools == Items([]) then None else Some(a.disallowedTools)
    case MaxTurns => if a.maxTurns == Number(10) then None else Some(a.maxTurns)
    case PermissionMode => if a.permissionMode == Scalar("default") then None else Some(a.permissionMode)
  }

  function FrontMatterOf(a: SubAgent): FrontMatter {
    map k: Field | Entry(a, k).Some? :: Entry(a, k).value
  }

  function Dumped(lib: Library, a: SubAgent): string {
    Strip(lib.space, lib.dump(FrontMatterOf(a)))
  }

  function Printed(lib: Library, a: SubAgent): string {
    "---\n" + Dumped(lib, a) + "\n---\n\n" + a.systemPrompt + "\n"
  }

  method ToMarkdown(lib: Library, a: SubAgent) returns (text: string)
    requires Declared(a)
    ensures text == Printed(lib, a)
  {
    var frontmatter := FillFrontMatter(a);
    text := "---\n" + Strip(lib.space, lib.dump(frontmatter)) + "\n---\n\n" + a.systemPrompt + "\n";
  }

  method FillFrontMatter(a: SubAgent) returns (frontmatter: FrontMatter)
    ensures frontmatter == FrontMatterOf(a)
  {
    frontmatter := map[Name := a.name, Description := a.description];
    var alias := AliasOf(a.tier);
    if alias != "inherit" { frontmatter := frontmatter[Model := Scalar(alias)]; }
    assert Agrees(a, frontmatter, {Name, Description, Model});
    if a.tools != Items([]) { frontmatter := frontmatter[Tools := a.tools]; }
    if a.disallowedTools != Items([]) { frontmatter := frontmatter[DisallowedTools := a.disallowedTools]; }
    assert Agrees(a, frontmatter, {Name, Description, Model, Tools, DisallowedTools});
    if a.maxTurns != Number(10) { frontmatter := frontmatter[MaxTurns := a.maxTurns]; }
    if a.permissionMode != Scalar("default") { frontmatter := frontmatter[PermissionMode := a.permissionMode]; }
    assert Agrees(a, frontmatter, {Name, Description, Model, Tools, DisallowedTools, MaxTurns, PermissionMode});
    AgreesThroughout(a, frontmatter);
  }

  /** The front matter so far says what it should under `keys`, and nothing else. */
  ghost predicate Agrees(a: SubAgent, fm: FrontMatter, keys: set<Field>) {
    forall k: Field :: if k in keys then (if k in fm then Some(fm[k]) else None) == Entry(a, k) else k !in fm
  }

  lemma {:induction false} AgreesThroughout(a: SubAgent, fm: FrontMatter)
    requires Agrees(a, fm, {Name, Description, Model, Tools, DisallowedTools, MaxTurns, PermissionMode})
    ensures fm == FrontMatterOf(a)
  {
    forall k: Field ensures (if k in fm then Some(fm[k]) else None) == Entry(a, k) {
      assert k.Name? || k.Description? || k.Model? || k.Tools? || k.DisallowedTools? || k.MaxTurns?
        || k.PermissionMode?;
    }
  }

  // -------------------------------------------------------------------------- parsing

  /** The text cut at its first two fences. */
  function SplitFences(content: string): Option<(string, string, string)> {
    match Find(FENCE, content, 0)
    case None => None
    case Some(i) =>
      match Find(FENCE, content, i + 3)
      case None => None
      case Some(j) => Some((content[..i], content[i + 3..j], content[j + 3..]))
  }

  function Get(fm: FrontMatter, key: Field, default: Value): Value {
    if key in fm then fm[key] else default
  }

  function TierOf(alias: Value): string {
    if alias == Scalar("haiku") then "fast"
    else if alias == Scalar("sonnet") then "balanced"
    else if alias == Scalar("opus") then "powerful"
    else "balanced"
  }

  function Assembled(fm: FrontMatter, body: string): SubAgent {
    SubAgent(
      Get(fm, Name, Scalar("unnamed")), Get(fm, Description, Scalar("")),
      TierOf(Get(fm, Model, Scalar("sonnet"))), body,
      Get(fm, Tools, Items([])), Get(fm, DisallowedTools, Items([])),
      Get(fm, MaxTurns, Number(10)), Get(fm, PermissionMode, Scalar("default")))
  }

  function Parse(lib: Library, content: string): Result {
    match SplitFences(content)
    case None => Failed(MissingDelimiters)
    case Some((_, yaml, rest)) =>
      match lib.load(yaml)
      case Unreadable => Failed(InvalidYaml)
      case NotAMapping => Failed(NotADictionary)
      case Mapping(fm) =>
        if Get(fm, Model, Scalar("sonnet")).Items? then Failed(UnhashableModel)
        else if Get(fm, Model, Scalar("sonnet")).Nested? then Failed(UnhashableModel)
        else Imported(Assembled(fm, Strip(lib.space, rest)))
  }

  /** The missing-delimiter error is reported exactly when no two fences stand apart. */
  lemma {:induction false} MissingDelimitersIff(lib: Library, content: string)
    ensures Parse(lib, content) == Failed(MissingDelimiters) <==>
      !exists i: nat, j: nat :: TextAt(FENCE, content, i) && TextAt(FENCE, content, j) && i + 3 <= j
  {
    if SplitFences(content).Some? {
      var i := Find(FENCE, content, 0).value;
      var j := Find(FENCE, content, i + 3).value;
      assert TextAt(FENCE, content, i) && TextAt(FENCE, content, j) && i + 3 <= j;
    } else if i: nat, j: nat :| TextAt(FENCE, content, i) && TextAt(FENCE, content, j) && i + 3 <= j {
      assert false;
    }
  }

  // --------------------------------------------------------------------- the round trip

  ghost predicate FenceFree(s: string) {
    forall i: nat :: !TextAt(FENCE, s, i)
  }

  /** The library loads back this agent's front matter from between the fences. */
  predicate LoadsBack(lib: Library, a: SubAgent) {
    lib.load("\n" + Dumped(lib, a) + "\n") == Mapping(FrontMatterOf(a))
  }

  lemma {:induction false} FenceAt(s: string, i: nat)
    ensures TextAt(FENCE, s, i) <==> i + 3 <= |s| && s[i] == '-' && s[i + 1] == '-' && s[i + 2] == '-'
  {
    if TextAt(FENCE, s, i) { assert s[i + 0] == FENCE[0] && s[i + 1] == FENCE[1] && s[i + 2] == FENCE[2]; }
  }

  function Framed(y: string, rest: string): string {
    "---" + ("\n" + y + "\n") + "---" + rest
  }

  /** Between the two fences, fences are exactly those of the framed text. */
  lemma {:induction false} FenceInFrame(y: string, rest: string, i: nat)
    ensures TextAt(FENCE, Framed(y, rest), 0) && TextAt(FENCE, Framed(y, rest), |y| + 5)
    ensures 3 <= i < |y| + 5 ==> (TextAt(FENCE, Framed(y, rest), i) <==> 4 <= i && TextAt(FENCE, y, i - 4))
  {
    var content := Framed(y, rest);
    FenceAt(content, 0);
    FenceAt(content, |y| + 5);
    assert content[3] == '\n' && content[|y| + 4] == '\n';
    assert content[4..|y| + 4] == y;
    FenceAt(content, i);
    if 4 <= i { FenceAt(y, i - 4); }
  }

  /** The loader is handed exactly the dumped text, and the rest of the document is left for
      the body, if and only if the dumped text contains no fence. */
  lemma {:induction false} LoaderSeesTheDumpIff(y: string, rest: string)
    ensures SplitFences(Framed(y, rest)).Some?
    ensures SplitFences(Framed(y, rest)) == Some(("", "\n" + y + "\n", rest)) <==> FenceFree(y)
  {
    var content := Framed(y, rest);
    forall i ensures TextAt(FENCE, content, 0) && TextAt(FENCE, content, |y| + 5)
      && (3 <= i < |y| + 5 ==> (TextAt(FENCE, content, i) <==> 4 <= i && TextAt(FENCE, y, i - 4)))
    {
      if i >= 0 { FenceInFrame(y, rest, i); } else { FenceInFrame(y, rest, 0); }
    }
    var j := Find(FENCE, content, 3).value;
    assert j <= |y| + 5;
    if FenceFree(y) {
      assert j == |y| + 5;
      FrameParts(y, rest);
    } else {
      var i: nat :| TextAt(FENCE, y, i);
      FenceAt(y, i);
      assert TextAt(FENCE, content, i + 4);
      assert |content[3..j]| < |y| + 2;
    }
  }

  lemma {:induction false} FrameParts(y: string, rest: string)
    ensures var content, j := Framed(y, rest), |y| + 5;
      content[..0] == "" && content[3..j] == "\n" + y + "\n" && content[j + 3..] == rest
  {
  }

  function NormalTier(tier: string): string {
    if tier == "fast" || tier == "powerful" then tier else "balanced"
  }

  /** What is left of an agent after export and import. */
  function Normalise(lib: Library, a: SubAgent): SubAgent {
    a.(tier := NormalTier(a.tier), systemPrompt := Strip(lib.space, a.systemPrompt))
  }

  lemma {:induction false} PrintedIsFramed(lib: Library, a: SubAgent)
    ensures Printed(lib, a) == Framed(Dumped(lib, a), "\n\n" + a.systemPrompt + "\n")
  {
  }

  lemma {:induction false} StripBody(space: char -> bool, s: string)
    requires space('\n')
    ensures Strip(space, "\n\n" + s + "\n") == Strip(space, s)
  {
    StripAppend(space, "\n\n" + s, '\n');
    StripPrepend(space, "\n" + s, '\n');
    StripPrepend(space, s, '\n');
    assert "\n\n" + s == ['\n'] + ("\n" + s);
    assert "\n" + s == ['\n'] + s;
  }

  /** Omitted entries come back as their defaults. */
  lemma {:induction false} EntriesComeBack(a: SubAgent, body: string)
    ensures Assembled(FrontMatterOf(a), body) == a.(tier := NormalTier(a.tier), systemPrompt := body)
    ensures Get(FrontMatterOf(a), Model, Scalar("sonnet")).Scalar?
  {
  }

  lemma {:induction false} PrintedSplits(lib: Library, a: SubAgent)
    requires FenceFree(Dumped(lib, a))
    ensures SplitFences(Printed(lib, a)) == Some(("", "\n" + Dumped(lib, a) + "\n", "\n\n" + a.systemPrompt + "\n"))
  {
    PrintedIsFramed(lib, a);
    LoaderSeesTheDumpIff(Dumped(lib, a), "\n\n" + a.systemPrompt + "\n");
  }

  /** Export and import: when the dumped front matter contains no fence, every printed field
      comes back, whatever the body holds; an inherited tier becomes balanced. */
  lemma {:induction false} RoundTrip(lib: Library, a: SubAgent)
    requires Declared(a) && lib.space('\n') && LoadsBack(lib, a) && FenceFree(Dumped(lib, a))
    ensures Parse(lib, Printed(lib, a)) == Imported(Normalise(lib, a))
  {
    PrintedSplits(lib, a);
    StripBody(lib.space, a.systemPrompt);
    EntriesComeBack(a, Strip(lib.space, a.systemPrompt));
  }

  /** Normalising twice is normalising once, and a normal agent survives export and import
      unchanged. */
  lemma {:induction false} SecondRoundTripChangesNothing(lib: Library, a: SubAgent)
    requires Declared(a) && lib.space('\n')
    ensures Normalise(lib, Normalise(lib, a)) == Normalise(lib, a)
    ensures var b := Normalise(lib, a);
      LoadsBack(lib, b) && FenceFree(Dumped(lib, b)) ==> Parse(lib, Printed(lib, b)) == Imported(b)
  {
    StripIsStripped(lib.space, a.systemPrompt);
    var b := Normalise(lib, a);
    if LoadsBack(lib, b) && FenceFree(Dumped(lib, b)) { RoundTrip(lib, b); }
  }

  /** Any imported document, printed and imported again, gives the same agent. */
  lemma {:induction false} ImportedSurvives(lib: Library, content: string)
    requires Parse(lib, content).Imported? && lib.space('\n')
    ensures var b := Parse(lib, content).agent;
      && Normalise(lib, b) == b
      && (Declared(b) && LoadsBack(lib, b) && FenceFree(Dumped(lib, b)) ==> Parse(lib, Printed(lib, b)) == Imported(b))
  {
    var b := Parse(lib, content).agent;
    StripIsStripped(lib.space, SplitFences(content).value.2);
    if Declared(b) && LoadsBack(lib, b) && FenceFree(Dumped(lib, b)) { RoundTrip(lib, b); }
  }

  /** An agent comes back unchanged exactly when it is already normal. */
  lemma {:induction false} UnchangedIffNormal(lib: Library, a: SubAgent)
    requires Declared(a) && lib.space('\n') && LoadsBack(lib, a) && FenceFree(Dumped(lib, a))
    ensures Parse(lib, Printed(lib, a)) == Imported(a) <==>
      a.tier in {"fast", "balanced", "powerful"} && Stripped(lib.space, a.systemPrompt)
  {
    RoundTrip(lib, a);
    StripIsStripped(lib.space, a.systemPrompt);
  }
}
