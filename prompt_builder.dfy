/**
  The prompt builder (components/PromptBuilder.tsx): a catalogue of ready-made
  prompt fragments, and the rule by which a chosen fragment is appended to the
  prompt the user is writing.
 */
module PromptBuilder {

  /** The characters `String.prototype.trim` strips that this model recognises. */
  predicate IsWhitespace(c: char) {
    c == ' ' || c == '\t' || c == '\n' || c == '\r' || c == '\U{000B}' || c == '\U{000C}'
    || c == '\U{00A0}' || c == '\U{FEFF}' || c == '\U{2028}' || c == '\U{2029}'
  }

  /** A prompt made of whitespace only (the empty prompt included). */
  predicate IsBlank(s: string) {
    forall i :: 0 <= i < |s| ==> IsWhitespace(s[i])
  }

  /** `s` without its leading whitespace: the longest suffix that starts with a non-blank. */
  function TrimStart(s: string): (r: string)
    ensures |r| <= |s| && r == s[|s| - |r|..]
    ensures r == [] || !IsWhitespace(r[0])
    ensures forall i :: 0 <= i < |s| - |r| ==> IsWhitespace(s[i])
    decreases |s|
  {
    if s != [] && IsWhitespace(s[0]) then
      var r := TrimStart(s[1..]);
      assert forall i :: 1 <= i < |s| ==> s[i] == s[1..][i - 1];
      r
    else s
  }

  /** `s` without its trailing whitespace: the longest prefix that ends with a non-blank. */
  function TrimEnd(s: string): (r: string)
    ensures |r| <= |s| && r == s[..|r|]
    ensures r == [] || !IsWhitespace(r[|r| - 1])
    ensures forall i :: |r| <= i < |s| ==> IsWhitespace(s[i])
    decreases |s|
  {
    if s != [] && IsWhitespace(s[|s| - 1]) then
      var r := TrimEnd(s[..|s| - 1]);
      assert forall i :: 0 <= i < |s| - 1 ==> s[i] == s[..|s| - 1][i];
      r
    else s
  }

  /**
    `s.trim()`: the part of `s` that starts where `TrimStart` cuts; only
    whitespace is cut before it and after it, and neither end of it is
    whitespace.
   */
  function Trim(s: string): (r: string)
    ensures |r| <= |TrimStart(s)| <= |s|
    ensures r == s[|s| - |TrimStart(s)|..][..|r|]
    ensures forall i :: 0 <= i < |s| - |TrimStart(s)| ==> IsWhitespace(s[i])
    ensures forall i :: |r| <= i < |TrimStart(s)| ==> IsWhitespace(TrimStart(s)[i])
    ensures r == [] || (!IsWhitespace(r[0]) && !IsWhitespace(r[|r| - 1]))
  {
    TrimEnd(TrimStart(s))
  }

  /** `prompt.trim() === ''` holds exactly for the blank prompts. */
  lemma TrimEmptyIffBlank(s: string)
    ensures Trim(s) == [] <==> IsBlank(s)
  {
  }

  /** The separator put before a new fragment: none after a blank prompt, `", "` otherwise. */
  function Separator(prompt: string): (sep: string)
    ensures sep == [] <==> IsBlank(prompt)
    ensures sep != [] ==> sep == ", "
  {
    TrimEmptyIffBlank(prompt);
    if Trim(prompt) == [] then "" else ", "
  }

  /**
    `handleAddElement`: the prompt after the user picks a fragment. The old
    prompt is kept whole (a blank one keeps its whitespace) and the fragment
    is appended, after `", "` unless the old prompt is blank.
   */
  function AddElement(prompt: string, value: string): (r: string)
    ensures IsBlank(prompt) ==> r == prompt + value
    ensures !IsBlank(prompt) ==> r == prompt + ", " + value
    ensures prompt <= r && r[|r| - |value|..] == value
    ensures |r| == |prompt| + |Separator(prompt)| + |value|
  {
    prompt + Separator(prompt) + value
  }

  /** Picking a fragment while the prompt is empty gives exactly the fragment. */
  lemma AddToEmpty(value: string)
    ensures AddElement("", value) == value
  {
  }

  /** A fragment of the catalogue: the button's label and the text it adds. */
  datatype PromptElement = PromptElement(title: string, value: string)

  datatype PromptCategory = PromptCategory(name: string, elements: seq<PromptElement>)

  /** `PROMPT_CATEGORIES`. */
  const Categories: seq<PromptCategory> := [
    PromptCategory("Add Object", [
      PromptElement("Wizard Hat", "a wizard hat"),
      PromptElement("Sunglasses", "cool sunglasses"),
      PromptElement("Crown", "a golden crown"),
      PromptElement("Butterfly", "a glowing butterfly on the shoulder")]),
    PromptCategory("Change Background", [
      PromptElement("Forest", "a mystical forest"),
      PromptElement("Beach", "a tropical beach at sunset"),
      PromptElement("Space", "a vibrant nebula in outer space"),
      PromptElement("City", "a futuristic cyberpunk city")]),
    PromptCategory("Apply Style", [
      PromptElement("Cartoon", "in a cartoon style"),
      PromptElement("Watercolor", "in a watercolor painting style"),
      PromptElement("Pixel Art", "in a pixel art style"),
      PromptElement("Vintage Photo", "like a vintage photograph")]),
    PromptCategory("Adjust Lighting", [
      PromptElement("Sunny Day", "with bright, sunny day lighting"),
      PromptElement("Golden Hour", "with warm, golden hour lighting"),
      PromptElement("Neon Glow", "with dramatic neon lighting"),
      PromptElement("Moonlit", "under a full moon")])
  ]

  /** The catalogue holds four categories of four fragments each, none of them blank. */
  lemma CatalogueShape()
    ensures |Categories| == 4
    ensures forall c :: 0 <= c < 4 ==> |Categories[c].elements| == 4
    ensures forall c, e :: 0 <= c < 4 && 0 <= e < 4 ==> !IsBlank(Categories[c].elements[e].value)
  {
    forall c, e | 0 <= c < 4 && 0 <= e < 4 ensures !IsBlank(Categories[c].elements[e].value) {
      var v := Categories[c].elements[e].value;
      assert !IsWhitespace(v[0]);
    }
  }

  /**
    After a catalogue fragment has been added the prompt is never blank, so
    the next fragment is always joined with `", "`.
   */
  lemma AddCatalogueElement(prompt: string, c: nat, e: nat, next: string)
    requires c < |Categories| && e < |Categories[c].elements|
    ensures var p := AddElement(prompt, Categories[c].elements[e].value);
      !IsBlank(p) && AddElement(p, next) == p + ", " + next
  {
    CatalogueShape();
    var v := Categories[c].elements[e].value;
    var p := AddElement(prompt, v);
    assert !IsBlank(v);
    var k :| 0 <= k < |v| && !IsWhitespace(v[k]);
    assert p[|p| - |v| + k] == v[k];
  }
}
