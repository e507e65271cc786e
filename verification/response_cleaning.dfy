/** `extract_json`: the cleaning a language-model reply goes through before it
    reaches the JSON parser, and the parse itself, with the parser (Python's
    `json.loads`) taken as an abstract partial function. */
module ResponseCleaning {
  import opened Base
  import opened Strings

  const Fence: string := "```"
  const JsonTag: string := "json"
  const NoneToken: string := ": None"
  const NullToken: string := ": null"
  const ParseFailure: string := "Error in generating the question please restart the test."

  /** `after.lower().startswith("json")`. */
  predicate HasJsonTag(s: string) {
    |s| >= 4 && Lower(s[..4]) == JsonTag
  }

  lemma LowerJsonTag()
    ensures Lower(JsonTag) == JsonTag
  {
    var l := Lower(JsonTag);
    assert l[0] == 'j' && l[1] == 's' && l[2] == 'o' && l[3] == 'n';
  }

  /** The fenced branch: the text after the first fence, stripped, without a
      leading `json` tag and without a closing fence, stripped again. */
  function FenceBody(raw: string): (body: string)
    requires Contains(raw, Fence)
    ensures IsStripped(body) && |body| <= |raw|
  {
    var after := Strip(AfterFirst(raw, Fence));
    DropClosingFence(if HasJsonTag(after) then Strip(after[4..]) else after)
  }

  /** A closing fence at the end, and the whitespace before it, removed. */
  function DropClosingFence(untagged: string): (body: string)
    requires IsStripped(untagged)
    ensures IsStripped(body) && |body| <= |untagged|
  {
    if EndsWith(untagged, Fence) then Strip(untagged[..|untagged| - 3]) else untagged
  }

  /** `s.replace(": None", ": null")`. */
  function NullifyNone(s: string): string {
    ReplaceAll(s, NoneToken, NullToken)
  }

  lemma NoneTokenResynchronizes()
    ensures Resynchronizing(NoneToken, NullToken)
    ensures !IsSpace(NullToken[|NullToken| - 1])
  {
    assert NoneToken[1] == ' ' && NoneToken[2] == 'N' && NoneToken[3] == 'o';
    assert NoneToken[4] == 'n' && NoneToken[5] == 'e';
    assert NullToken[1] == ' ' && NullToken[2] == 'n' && NullToken[3] == 'u';
    assert NullToken[4] == 'l' && NullToken[5] == 'l';
  }

  /** The text `extract_json` hands to the parser: the stripped reply, or the
      body of its first fenced block, with every `: None` made `: null`. The
      result carries no surrounding whitespace and no `: None` at all. */
  function CleanResponse(rawResponse: string): (r: string)
    ensures IsStripped(r)
    ensures !Contains(r, NoneToken)
    ensures |r| <= |rawResponse|
  {
    var raw := Strip(rawResponse);
    var body := if Contains(raw, Fence) then FenceBody(raw) else raw;
    NoneTokenResynchronizes();
    ReplaceLeavesNoPattern(body, NoneToken, NullToken);
    ReplaceKeepsStripped(body, NoneToken, NullToken);
    NullifyNone(body)
  }

  /** `extract_json(raw)`: the parser's value for the cleaned text, or a
      `ValueError` when the parser rejects it -- never a partial value. */
  function ExtractJson<J>(rawResponse: string, parse: string -> Option<J>): (r: Result<J>)
    ensures r.Ok? <==> parse(CleanResponse(rawResponse)).Some?
    ensures r.Ok? ==> r.value == parse(CleanResponse(rawResponse)).value
    ensures r.Err? ==> r.error == ValueError(ParseFailure)
  {
    match parse(CleanResponse(rawResponse))
    case Some(v) => Ok(v)
    case None => Err(ValueError(ParseFailure))
  }

  lemma FenceFoundFirst(x: string)
    requires StartsWith(x, Fence)
    ensures Contains(x, Fence) && AfterFirst(x, Fence) == x[3..]
  {
  }

  lemma DropClosingFenceStep(c: string, k: string)
    requires IsStripped(c) && EndsWith(c, Fence) && c[..|c| - 3] == k
    ensures DropClosingFence(c) == Strip(k)
  {
  }

  /** A stripped text followed by a newline and a closing fence loses both. */
  lemma ClosingFenceDropped(j: string)
    requires IsStripped(j)
    ensures DropClosingFence(Strip("\n" + j + "\n```")) == j
  {
    var b := "\n" + j + "\n```";
    if j == [] {
      assert b == "\n\n" + Fence + "";
      EmptyBeforeFence();
      StripOfPadded("\n\n", Fence, "");
    } else {
      var c := j + "\n```";
      var k := j + "\n";
      assert b == "\n" + c + "";
      assert c[|c| - 3..] == Fence;
      assert c[..|c| - 3] == k;
      assert k == "" + j + "\n";
      StripOfPadded("", j, "\n");
      DropClosingFenceStep(c, k);
      StripOfPadded("\n", c, "");
    }
  }

  lemma EmptyBeforeFence()
    ensures DropClosingFence(Fence) == ""
  {
    DropClosingFenceStep(Fence, "");
    StripStripped("");
  }

  /** The fenced branch of a text that opens with a fence followed by a
      stripped, `json`-tagged remainder. */
  lemma TaggedFenceStep(x: string, rest: string)
    requires StartsWith(x, Fence) && IsStripped(x[3..]) && HasJsonTag(x[3..]) && x[3..][4..] == rest
    ensures Contains(x, Fence) && FenceBody(x) == DropClosingFence(Strip(rest))
  {
    FenceFoundFirst(x);
    StripStripped(x[3..]);
  }

  /** The fenced branch of a text that opens with a fence not followed by a
      `json` tag. */
  lemma BareFenceStep(x: string)
    requires StartsWith(x, Fence) && !HasJsonTag(Strip(x[3..]))
    ensures Contains(x, Fence) && FenceBody(x) == DropClosingFence(Strip(x[3..]))
  {
    FenceFoundFirst(x);
  }

  lemma CleanResponseFenced(raw: string, x: string)
    requires Strip(raw) == x && Contains(x, Fence)
    ensures CleanResponse(raw) == NullifyNone(FenceBody(x))
  {
  }

  /** The body of a fenced block tagged `json`. */
  lemma TaggedFenceBody(j: string)
    requires IsStripped(j)
    ensures var x := "```json\n" + j + "\n```"; Contains(x, Fence) && FenceBody(x) == j
  {
    var x := "```json\n" + j + "\n```";
    var rest := "\n" + j + "\n```";
    assert x[..3] == Fence;
    assert x[3..] == "json\n" + j + "\n```";
    assert x[3..][..4] == JsonTag;
    LowerJsonTag();
    assert x[3..][4..] == rest;
    TaggedFenceStep(x, rest);
    ClosingFenceDropped(j);
  }

  /** The body of an untagged fenced block whose body does not begin with `json`. */
  lemma BareFenceBody(j: string)
    requires IsStripped(j) && !HasJsonTag(j)
    ensures var x := "```\n" + j + "\n```"; Contains(x, Fence) && FenceBody(x) == j
  {
    var x := "```\n" + j + "\n```";
    var rest := "\n" + j + "\n```";
    assert x[..3] == Fence;
    assert x[3..] == rest;
    BareBodyUntagged(j);
    BareFenceStep(x);
    ClosingFenceDropped(j);
  }

  lemma BareBodyUntagged(j: string)
    requires IsStripped(j) && !HasJsonTag(j)
    ensures !HasJsonTag(Strip("\n" + j + "\n```"))
  {
    var b := "\n" + j + "\n```";
    if j == [] {
      assert b == "\n\n" + "```" + "";
      StripOfPadded("\n\n", "```", "");
    } else {
      var c := j + "\n```";
      assert b == "\n" + c + "";
      StripOfPadded("\n", c, "");
      if |j| >= 4 {
        assert c[..4] == j[..4];
      } else {
        assert c[|j|] == '\n';
        assert Lower(c[..4])[|j|] == '\n';
        assert JsonTag[|j|] != '\n';
      }
    }
  }

  /** A reply wrapped in a fenced block tagged `json` (with any surrounding
      whitespace) is cleaned to the block's body. */
  lemma TaggedFenceYieldsBody(w1: string, j: string, w2: string)
    requires AllSpace(w1) && AllSpace(w2) && IsStripped(j)
    ensures CleanResponse(w1 + ("```json\n" + j + "\n```") + w2) == NullifyNone(j)
  {
    var x := "```json\n" + j + "\n```";
    assert IsStripped(x);
    StripOfPadded(w1, x, w2);
    TaggedFenceBody(j);
    var body := FenceBody(x);
    assert body == j;
    CleanResponseFenced(w1 + x + w2, x);
    assert CleanResponse(w1 + x + w2) == NullifyNone(body);
  }

  /** A reply wrapped in an untagged fenced block is cleaned to the block's
      body, provided the body does not itself begin with `json`. */
  lemma BareFenceYieldsBody(w1: string, j: string, w2: string)
    requires AllSpace(w1) && AllSpace(w2) && IsStripped(j) && !HasJsonTag(j)
    ensures CleanResponse(w1 + ("```\n" + j + "\n```") + w2) == NullifyNone(j)
  {
    var x := "```\n" + j + "\n```";
    assert IsStripped(x);
    StripOfPadded(w1, x, w2);
    BareFenceBody(j);
    var body := FenceBody(x);
    assert body == j;
    CleanResponseFenced(w1 + x + w2, x);
    assert CleanResponse(w1 + x + w2) == NullifyNone(body);
  }

  /** A reply without a fence is only stripped and has its `: None` tokens
      rewritten; a clean JSON text passes through unchanged. */
  lemma UnfencedReplyIsStripped(w1: string, j: string, w2: string)
    requires AllSpace(w1) && AllSpace(w2) && IsStripped(j) && !Contains(j, Fence)
    ensures CleanResponse(w1 + j + w2) == NullifyNone(j)
    ensures !Contains(j, NoneToken) ==> CleanResponse(w1 + j + w2) == j
  {
    StripOfPadded(w1, j, w2);
    if !Contains(j, NoneToken) {
      ReplaceAbsent(j, NoneToken, NullToken);
    }
  }
}
