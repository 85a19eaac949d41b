/**
 * The part of the Ollama client the council depends on
 * (shared/ollama_client.py): how the model's answer and its separate
 * "thinking" channel are merged into one text for parsing, and what a
 * chat call hands back. The HTTP exchange itself is an input.
 */
module Ollama {
  import opened Common
  import opened Text

  /** The opening and closing tags wrapped around the thinking channel. */
  const OpenTag: string := "<think>"
  const CloseTag: string := "</think>"

  /**
   * `_merge_fields`: both channels are stripped (an absent one counts as
   * empty); the thinking is wrapped in tags and put before the answer
   * only when both are non-empty.
   */
  function MergeFields(response: Option<string>, thinking: Option<string>): (m: string)
    ensures m == "" <==> Strip(response.GetOr("")) == "" && Strip(thinking.GetOr("")) == ""
    ensures Strip(thinking.GetOr("")) == "" ==> m == Strip(response.GetOr(""))
    ensures Strip(response.GetOr("")) == "" ==> m == Strip(thinking.GetOr(""))
  {
    var r := Strip(response.GetOr(""));
    var t := Strip(thinking.GetOr(""));
    if t == "" then r
    else if r == "" then t
    else OpenTag + t + CloseTag + "\n" + r
  }

  /**
   * With both channels present the merged text is the tagged thinking, a
   * newline, and the stripped answer, so it always ends with the answer.
   */
  lemma {:induction false} MergeBothShape(response: Option<string>, thinking: Option<string>)
    requires Strip(response.GetOr("")) != "" && Strip(thinking.GetOr("")) != ""
    ensures var r := Strip(response.GetOr(""));
      var t := Strip(thinking.GetOr(""));
      && MergeFields(response, thinking) == OpenTag + t + CloseTag + "\n" + r
      && |MergeFields(response, thinking)| > |r|
      && MergeFields(response, thinking)[|MergeFields(response, thinking)| - |r|..] == r
  {
  }

  /** The merged text never has surrounding whitespace. */
  lemma {:induction false} MergeIsStripped(response: Option<string>, thinking: Option<string>)
    ensures Strip(MergeFields(response, thinking)) == MergeFields(response, thinking)
  {
    var r := Strip(response.GetOr(""));
    var t := Strip(thinking.GetOr(""));
    var m := MergeFields(response, thinking);
    if t != "" && r != "" {
      assert m[0] == '<';
      assert m[|m| - 1] == r[|r| - 1];
      StripOfTrimmed(m);
    } else if t == "" {
      StripIdempotent(response.GetOr(""));
    } else {
      StripIdempotent(thinking.GetOr(""));
    }
  }

  /**
   * The outcome of `chat_async` as the council sees it: the raw answer and
   * thinking fields of the reply, or the message of the exception raised
   * on the way (transport failure, HTTP error status, bad JSON).
   */
  datatype ChatOutcome = Replied(content: Option<string>, thinking: Option<string>) | Raised(error: string)

  /** The message Python gives when a stage calls `.strip()` on a field that arrived as JSON null. */
  const NoneStripError: string := "'NoneType' object has no attribute 'strip'"

  /** The three texts a stage parses: stripped answer, stripped thinking, merged text. */
  datatype ChatTexts = ChatTexts(response: string, thinking: string, merged: string)

  /**
   * What a stage extracts from a chat outcome before parsing: the three
   * texts, or the message of the exception that sends it to its fail-safe.
   * A null field raises at the stage's own `.strip()`.
   */
  function StageTexts(outcome: ChatOutcome): (r: Result)
    ensures r.Failed? <==> outcome.Raised? || outcome.content.None? || outcome.thinking.None?
    ensures outcome.Raised? ==> r == Failed(outcome.error)
  {
    match outcome
    case Raised(e) => Failed(e)
    case Replied(c, t) =>
      if c.None? || t.None? then Failed(NoneStripError)
      else Parsed(ChatTexts(Strip(c.value), Strip(t.value), MergeFields(c, t)))
  }

  datatype Result = Parsed(texts: ChatTexts) | Failed(message: string)
}
