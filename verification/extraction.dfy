/**
 * The extraction discipline shared by the three council stages
 * (council/sentiment_agent.py, council/confidence_grader.py,
 * council/trade_judge.py): every field is searched first in the stripped
 * answer, then in the merged text; the last match wins; reasoning falls
 * back to the merged text with its `<think>` blocks removed.
 *
 * The regular-expression engine is abstract: a `Finder` returns, for a
 * pattern and a text, the captures Python's `findall` would return.
 */
module Extraction {
  import opened Common
  import opened Text
  import opened Ollama

  /** The compiled patterns of the three stages. */
  datatype Pattern =
    | SentimentPattern      // SENTIMENT: (BULLISH|BEARISH|NEUTRAL), ignoring case
    | ConfidencePattern     // CONFIDENCE: ([\d.]+), ignoring case
    | DecisionPattern       // DECISION: (TRADE|SKIP), ignoring case
    | SizePattern           // SIZE: $?([\d.]+), ignoring case
    | ReasoningLinePattern  // REASONING: (.+) up to the end of the line, ignoring case
    | ReasoningRestPattern  // REASONING: (.+) up to the end of the text, ignoring case

  /** `pattern.findall(text)`: the capture of every non-overlapping match, left to right. */
  type Finder = (Pattern, string) -> seq<string>

  /**
   * The captures a stage uses for one field: those in the answer when the
   * answer is non-empty and has any, otherwise those in the merged text.
   */
  function Matches(find: Finder, p: Pattern, response: string, merged: string): (r: seq<string>)
    ensures response != "" && find(p, response) != [] ==> r == find(p, response)
    ensures response == "" || find(p, response) == [] ==> r == find(p, merged)
  {
    var fromResponse := if response != "" then find(p, response) else [];
    if fromResponse != [] then fromResponse else find(p, merged)
  }

  /** `matches[-1]` when there is a match. */
  function LastOf(xs: seq<string>): (r: Option<string>)
    ensures r.None? <==> xs == []
    ensures r.Some? ==> r.value == xs[|xs| - 1]
  {
    if xs == [] then None else Some(xs[|xs| - 1])
  }

  /**
   * `re.sub(r"<think>.*?</think>", "", s, flags=re.DOTALL)`: from left to
   * right, each `<think>` together with the nearest `</think>` after it and
   * everything between is deleted; an opening tag with no closing tag
   * after it stays.
   */
  function RemoveThink(s: string): (r: string)
    ensures |r| <= |s|
    decreases |s|
  {
    match Find(s, OpenTag, 0)
    case None => s
    case Some(p) =>
      match Find(s, CloseTag, p + |OpenTag|)
      case None => s
      case Some(q) => s[..p] + RemoveThink(s[q + |CloseTag|..])
  }

  /** A text without an opening tag is left as it is. */
  lemma {:induction false} RemoveThinkNoTag(s: string)
    requires !Contains(s, OpenTag)
    ensures RemoveThink(s) == s
  {
    match Find(s, OpenTag, 0)
    case None =>
    case Some(p) =>
      assert false;
  }

  /**
   * `reasoning`: the last reasoning capture, stripped and cut to 500
   * characters; without one, the merged text with its thinking removed,
   * stripped and cut to 200.
   */
  function Reasoning(find: Finder, p: Pattern, response: string, merged: string): (r: string)
    ensures |r| <= 500
    ensures Matches(find, p, response, merged) == [] ==> |r| <= 200
  {
    match LastOf(Matches(find, p, response, merged))
    case Some(last) => Take(Strip(last), 500)
    case None => Take(Strip(RemoveThink(merged)), 200)
  }

  /** A non-empty answer with a reasoning capture supplies the reasoning: its last capture, stripped, at most 500 characters. */
  lemma {:induction false} ReasoningFromResponse(find: Finder, p: Pattern, response: string, merged: string)
    requires response != "" && find(p, response) != []
    ensures var caps := find(p, response);
            Reasoning(find, p, response, merged) == Take(Strip(caps[|caps| - 1]), 500)
  {
    assert Matches(find, p, response, merged) == find(p, response);
  }

  /** Otherwise the last capture in the merged text supplies it. */
  lemma {:induction false} ReasoningFromMerged(find: Finder, p: Pattern, response: string, merged: string)
    requires response == "" || find(p, response) == []
    requires find(p, merged) != []
    ensures var caps := find(p, merged);
            Reasoning(find, p, response, merged) == Take(Strip(caps[|caps| - 1]), 500)
  {
    assert Matches(find, p, response, merged) == find(p, merged);
  }

  /**
   * Only when neither text has a capture does the reasoning fall back to
   * the merged text without its thinking, cut to 200 characters.
   */
  lemma {:induction false} ReasoningFallback(find: Finder, p: Pattern, response: string, merged: string)
    requires response == "" || find(p, response) == []
    requires find(p, merged) == []
    ensures Reasoning(find, p, response, merged) == Take(Strip(RemoveThink(merged)), 200)
  {
    assert Matches(find, p, response, merged) == [];
  }

  /** The closing tag does not overlap itself: no proper suffix of it starts with `<`. */
  lemma {:induction false} CloseTagFirst(s: string, v: nat, e: nat)
    requires OccursAt(s, CloseTag, v) && v < e < v + |CloseTag| && e < |s|
    ensures s[e] != '<'
  {
    assert s[e] == CloseTag[e - v];
  }

  /** No closing tag starts inside the thinking of a merged text. */
  lemma {:induction false} NoCloseInThinking(t: string, rest: string, k: nat)
    requires !Contains(t, CloseTag) && |OpenTag| <= k < |OpenTag| + |t|
    ensures !OccursAt(OpenTag + t + CloseTag + rest, CloseTag, k)
  {
    var s := OpenTag + t + CloseTag + rest;
    var e := |OpenTag| + |t|;
    if OccursAt(s, CloseTag, k) {
      if k + |CloseTag| <= e {
        assert s[k..k + |CloseTag|] == t[k - |OpenTag|..k - |OpenTag| + |CloseTag|];
        assert OccursAt(t, CloseTag, k - |OpenTag|);
        assert false;
      } else {
        assert s[e] == '<';
        CloseTagFirst(s, k, e);
        assert false;
      }
    }
  }

  /** In the merged text of a two-channel reply the first closing tag is the one the merge added. */
  lemma {:induction false} FindMergedClose(t: string, rest: string)
    requires !Contains(t, CloseTag)
    ensures Find(OpenTag + t + CloseTag + rest, CloseTag, |OpenTag|) == Some(|OpenTag| + |t|)
  {
    var s := OpenTag + t + CloseTag + rest;
    var e := |OpenTag| + |t|;
    assert s[e..e + |CloseTag|] == CloseTag;
    forall k | |OpenTag| <= k < e
      ensures !OccursAt(s, CloseTag, k)
    {
      NoCloseInThinking(t, rest, k);
    }
    FindFirstAt(s, CloseTag, |OpenTag|, e);
  }

  /** A block opened at the very start and closed by the first closing tag is removed. */
  lemma {:induction false} RemoveThinkLeadingBlock(t: string, rest: string)
    requires !Contains(t, CloseTag)
    ensures RemoveThink(OpenTag + t + CloseTag + rest) == RemoveThink(rest)
  {
    var s := OpenTag + t + CloseTag + rest;
    assert s[0..|OpenTag|] == OpenTag;
    assert Find(s, OpenTag, 0) == Some(0);
    FindMergedClose(t, rest);
    assert s[|OpenTag| + |t| + |CloseTag|..] == rest;
  }

  /** A newline in front adds no opening tag. */
  lemma {:induction false} NewlineAddsNoTag(r: string)
    requires !Contains(r, OpenTag)
    ensures !Contains("\n" + r, OpenTag)
  {
    var rest := "\n" + r;
    if Contains(rest, OpenTag) {
      var k :| 0 <= k <= |rest| - |OpenTag| && OccursAt(rest, OpenTag, k);
      assert rest[k] == '<' by {
        assert rest[k..k + |OpenTag|][0] == rest[k];
      }
      assert k != 0;
      assert rest[k..k + |OpenTag|] == r[k - 1..k - 1 + |OpenTag|];
      assert OccursAt(r, OpenTag, k - 1);
      assert false;
    }
  }

  /**
   * When both channels are present, removing the thinking from the merged
   * text gives back exactly the stripped answer, provided the thinking
   * contains no closing tag and the answer no opening tag. This is why the
   * reasoning fallback of each stage sees only the answer.
   */
  lemma {:induction false} RemoveThinkOfMerged(response: Option<string>, thinking: Option<string>)
    requires Strip(response.GetOr("")) != "" && Strip(thinking.GetOr("")) != ""
    requires !Contains(Strip(thinking.GetOr("")), CloseTag) && !Contains(Strip(response.GetOr("")), OpenTag)
    ensures Strip(RemoveThink(MergeFields(response, thinking))) == Strip(response.GetOr(""))
  {
    var r := Strip(response.GetOr(""));
    var t := Strip(thinking.GetOr(""));
    MergeBothShape(response, thinking);
    assert OpenTag + t + CloseTag + "\n" + r == OpenTag + t + CloseTag + ("\n" + r);
    RemoveThinkLeadingBlock(t, "\n" + r);
    NewlineAddsNoTag(r);
    RemoveThinkNoTag("\n" + r);
    StripIdempotent(response.GetOr(""));
    StripLeadingSpace('\n', r);
    assert "\n" + r == ['\n'] + r;
  }
}
