/**
 * The `generateContent` exchange with the Gemini API, as `app/gemini.py` and `app/llm.py`
 * both use it: the request body they assemble and the parts of the reply they read.
 * The reply is modelled after decoding; a body whose shape the code cannot walk
 * (a missing field it subscripts, a non-string text it strips) raises inside the same
 * `try` as a decoding error, so both are the `Failure` case of the decoded body.
 */
module GeminiApi {
  import opened Common
  import opened Text

  // ---------------------------------------------------------------------------
  // Requests
  // ---------------------------------------------------------------------------

  /** A request part: text, or inline data with its MIME type (base64 text). */
  datatype GPart = GText(text: string) | GInline(mimeType: string, data: string)

  /** One entry of `contents`; the chat calls give each a role, the one-shot calls none. */
  datatype GContent = GContent(role: Option<string>, parts: seq<GPart>)

  /** The request body: an optional `systemInstruction` text and the `contents`. The
      generation settings are not modelled. */
  datatype GRequest = GRequest(system: Option<string>, contents: seq<GContent>)

  /** A request holding one prompt and nothing else. */
  function PromptRequest(prompt: string): (r: GRequest)
    ensures r.system.None? && |r.contents| == 1 && r.contents[0].parts == [GText(prompt)]
  {
    GRequest(None, [GContent(None, [GText(prompt)])])
  }

  // ---------------------------------------------------------------------------
  // Replies
  // ---------------------------------------------------------------------------

  /** A part of a candidate's content: whether it has a `thought` key, and its `text`. */
  datatype Part = Part(thought: bool, text: Option<string>)

  /** A candidate, reduced to `content.parts` (empty when either key is absent). */
  datatype Candidate = Candidate(parts: seq<Part>)

  /** What `requests.post` produced: a status and the decoded `candidates` (empty when
      the key is absent), or why decoding raised; or an exception from the call itself,
      which is a timeout or some other error. */
  datatype Reply =
    | Replied(status: int, body: Result<seq<Candidate>, string>)
    | NoReply(timeout: bool, detail: string)

  /** The parts of the first candidate, when the reply is a 200 whose body decoded and
      holds at least one candidate; `None` on every path where the callers give up. */
  function FirstCandidateParts(reply: Reply): (r: Option<seq<Part>>)
    ensures r.Some? <==>
      reply.Replied? && reply.status == 200 && reply.body.Success? && |reply.body.value| > 0
    ensures r.Some? ==> r.value == reply.body.value[0].parts
  {
    match reply
    case NoReply(_, _) => None
    case Replied(status, body) =>
      if status != 200 then None
      else
        match body
        case Failure(_) => None
        case Success(cs) => if |cs| == 0 then None else Some(cs[0].parts)
  }

  /** The texts the collecting loops keep, in order: every part without a `thought` key
      that has a `text`. */
  function VisibleTexts(parts: seq<Part>): (r: seq<string>)
    ensures |r| <= |parts|
  {
    if |parts| == 0 then []
    else
      var rest := VisibleTexts(parts[1..]);
      assert forall i | 1 <= i < |parts| :: parts[i] == parts[1..][i - 1];
      if !parts[0].thought && parts[0].text.Some? then [parts[0].text.value] + rest else rest
  }

  /** Every collected text is the text of some part without a `thought` key, and nothing
      is collected exactly when every part is a thought or has no text. */
  lemma {:induction false} VisibleTextsFromParts(parts: seq<Part>)
    ensures var r := VisibleTexts(parts);
      forall k | 0 <= k < |r| :: exists i | 0 <= i < |parts| :: !parts[i].thought && parts[i].text == Some(r[k])
    ensures |VisibleTexts(parts)| == 0 <==> forall i | 0 <= i < |parts| :: parts[i].thought || parts[i].text.None?
  {
    if |parts| > 0 {
      var rest := VisibleTexts(parts[1..]);
      var r := VisibleTexts(parts);
      VisibleTextsFromParts(parts[1..]);
      assert forall i | 0 <= i < |parts| - 1 :: parts[1..][i] == parts[i + 1];
      var shown := !parts[0].thought && parts[0].text.Some?;
      assert r == (if shown then [parts[0].text.value] else []) + rest;
      forall k | 0 <= k < |r|
        ensures exists i | 0 <= i < |parts| :: !parts[i].thought && parts[i].text == Some(r[k])
      {
        if shown && k == 0 {
          assert !parts[0].thought && parts[0].text == Some(r[0]);
        } else {
          var j := if shown then k - 1 else k;
          assert r[k] == rest[j];
          var i :| 0 <= i < |parts[1..]| && !parts[1..][i].thought && parts[1..][i].text == Some(rest[j]);
          assert parts[i + 1] == parts[1..][i];
        }
      }
    }
  }

  /** Collecting distributes over concatenation. */
  lemma {:induction false} VisibleTextsAppend(a: seq<Part>, b: seq<Part>)
    ensures VisibleTexts(a + b) == VisibleTexts(a) + VisibleTexts(b)
  {
    if |a| == 0 {
      assert a + b == b;
    } else {
      assert (a + b)[1..] == a[1..] + b;
      VisibleTextsAppend(a[1..], b);
    }
  }

  /** A thought part contributes nothing, wherever it sits and whatever text it carries. */
  lemma ThoughtPartIgnored(parts: seq<Part>, i: nat, text: Option<string>)
    requires i <= |parts|
    ensures VisibleTexts(parts[..i] + [Part(true, text)] + parts[i..]) == VisibleTexts(parts)
  {
    var a, b, thought := parts[..i], parts[i..], [Part(true, text)];
    assert VisibleTexts(thought) == [] by {
      assert thought[1..] == [];
    }
    VisibleTextsAppend(a + thought, b);
    VisibleTextsAppend(a, thought);
    VisibleTextsAppend(a, b);
    assert VisibleTexts(a + thought) == VisibleTexts(a);
    assert a + b == parts;
  }
}
