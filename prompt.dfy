/** The prompt composer: renders the stored transcript and the new message
    into the single text block handed to the generator. */
module Prompt {

  import opened Text
  import opened Transcript

  /** The fixed instruction that opens every prompt (a triple-quoted literal
      that starts and ends with a newline; four of its lines end in two
      spaces). */
  const SYSTEM_PROMPT: string :=
    "\nYou are a compassionate and knowledgeable doctor specializing in heart health. "
    + "Keep responses **short, clear, and informative** while maintaining a professional tone.  \n"
    + "\n"
    + "- **Acknowledge the concern.**  \n"
    + "- **Provide a brief, evidence-based explanation.**  \n"
    + "- **Give simple, actionable advice.**  \n"
    + "\n"
    + "Keep it **under 3-4 sentences if requried add more but should be easy to understand by the patient**, "
    + "avoiding unnecessary details. Always remind users that they should consult a doctor for medical advice.\n"

  /** The line that closes every prompt, cueing the doctor's reply. */
  const CUE: string := "\nDoctor (keep it brief and direct):"

  /** One stored turn as a line of the history: a user turn is labelled
      "User", a turn with any other role "Doctor"; only the first part is shown. */
  function RenderTurn(t: Turn): string
    requires |t.parts| > 0
  {
    if t.role == USER_ROLE then "User: " + t.parts[0] else "Doctor: " + t.parts[0]
  }

  /** The list comprehension over the transcript, one rendered line per turn. */
  function RenderLines(h: seq<Turn>): seq<string>
    requires Renderable(h)
  {
    seq(|h|, i requires 0 <= i < |h| => RenderTurn(h[i]))
  }

  /** The conversation history block: the rendered lines joined by newlines. */
  function RenderHistory(h: seq<Turn>): string
    requires Renderable(h)
  {
    Join(RenderLines(h))
  }

  /** The prompt layout for any instruction text: the instruction, two
      newlines, the history block, the new user line and the cue. */
  function Layout(instruction: string, history: string, message: string): string
  {
    instruction + "\n\n" + history + "\nUser: " + message + CUE
  }

  /** The full prompt over the fixed instruction and the rendered history. */
  function ComposePrompt(h: seq<Turn>, message: string): string
    requires Renderable(h)
  {
    Layout(SYSTEM_PROMPT, RenderHistory(h), message)
  }

  /** Every prompt opens with the instruction followed by two newlines, closes
      with the new user line and the cue, and holds exactly the rendered
      history in between. */
  lemma PromptShape(h: seq<Turn>, message: string)
    requires Renderable(h)
    ensures var p := ComposePrompt(h, message);
            var tail := "\nUser: " + message + CUE;
            && |SYSTEM_PROMPT| + 2 + |tail| <= |p|
            && p[..|SYSTEM_PROMPT| + 2] == SYSTEM_PROMPT + "\n\n"
            && p[|p| - |tail|..] == tail
            && p[|SYSTEM_PROMPT| + 2..|p| - |tail|] == RenderHistory(h)
  {
    LayoutParts(SYSTEM_PROMPT, RenderHistory(h), message);
  }

  lemma LayoutParts(instruction: string, history: string, message: string)
    ensures var p := Layout(instruction, history, message);
            var tail := "\nUser: " + message + CUE;
            && |instruction| + 2 + |tail| <= |p|
            && p[..|instruction| + 2] == instruction + "\n\n"
            && p[|p| - |tail|..] == tail
            && p[|instruction| + 2..|p| - |tail|] == history
  {
  }

  /** With no earlier turns the history block is empty, so the instruction is
      followed by three newlines before the user line. */
  lemma EmptyTranscriptPrompt(message: string)
    ensures ComposePrompt([], message)
            == SYSTEM_PROMPT + "\n\n\nUser: " + message + "\nDoctor (keep it brief and direct):"
  {
    assert RenderLines([]) == [];
    LayoutWithoutHistory(SYSTEM_PROMPT, message);
  }

  /** In a transcript that keeps the session invariant, the rendered lines
      alternate "User: " and "Doctor: ", each followed by the turn's text. */
  lemma RenderedLabelsAlternate(h: seq<Turn>, i: nat)
    requires Alternating(h) && i < |h|
    ensures Renderable(h)
    ensures RenderLines(h)[i] == (if i % 2 == 0 then "User: " else "Doctor: ") + h[i].parts[0]
  {
  }

  /** When no turn's text contains a newline, the history block holds exactly
      one line per turn, in transcript order. */
  lemma OneLinePerTurn(h: seq<Turn>)
    requires Renderable(h) && h != []
    requires forall i :: 0 <= i < |h| ==> '\n' !in h[i].parts[0]
    ensures Split(RenderHistory(h)) == RenderLines(h)
    ensures |Split(RenderHistory(h))| == |h|
  {
    var lines := RenderLines(h);
    forall i | 0 <= i < |lines| ensures '\n' !in lines[i] {
      var tag := if h[i].role == USER_ROLE then "User: " else "Doctor: ";
      assert '\n' !in tag;
      assert lines[i] == tag + h[i].parts[0];
    }
    SplitJoin(lines);
  }

  /** Replacing the cue of one layout by a reply line and a new user line
      gives the layout whose history has the two exchanged lines appended. */
  lemma LayoutExtend(instruction: string, history: string, message: string,
                      reply: string, next: string)
    ensures var p := Layout(instruction, history, message);
            && |CUE| <= |p| && p[|p| - |CUE|..] == CUE
            && Layout(instruction, history + "\n" + ("User: " + message) + "\n" + ("Doctor: " + reply), next)
               == p[..|p| - |CUE|] + "\nDoctor: " + reply + "\nUser: " + next + CUE
  {
  }

  /** After a successful exchange on a non-empty transcript, the next prompt
      is the previous one with its cue replaced by the actual reply, followed
      by the next user line and a fresh cue. */
  lemma NextPromptExtendsPrevious(h: seq<Turn>, message: string, reply: string, next: string)
    requires Renderable(h) && h != []
    ensures Renderable(h + [UserTurn(message), ModelTurn(reply)])
    ensures var p := ComposePrompt(h, message);
            && |CUE| <= |p| && p[|p| - |CUE|..] == CUE
            && ComposePrompt(h + [UserTurn(message), ModelTurn(reply)], next)
               == p[..|p| - |CUE|] + "\nDoctor: " + reply + "\nUser: " + next + CUE
  {
    var g := h + [UserTurn(message), ModelTurn(reply)];
    var lines := RenderLines(h);
    assert RenderLines(g) == lines + ["User: " + message] + ["Doctor: " + reply];
    JoinSnoc(lines, "User: " + message);
    JoinSnoc(lines + ["User: " + message], "Doctor: " + reply);
    var longer := RenderHistory(h) + "\n" + ("User: " + message) + "\n" + ("Doctor: " + reply);
    assert RenderHistory(g) == longer;
    assert ComposePrompt(g, next) == Layout(SYSTEM_PROMPT, longer, next);
    LayoutExtend(SYSTEM_PROMPT, RenderHistory(h), message, reply, next);
  }

  /** After the first exchange of a session the history block starts right
      after the instruction's blank line, so the second prompt has one newline
      fewer before the first user line than the first prompt had. */
  lemma PromptAfterFirstExchange(message: string, reply: string, next: string)
    ensures ComposePrompt([UserTurn(message), ModelTurn(reply)], next)
            == SYSTEM_PROMPT + "\n\nUser: " + message + "\nDoctor: " + reply + "\nUser: " + next + CUE
  {
    var g := [UserTurn(message), ModelTurn(reply)];
    assert RenderLines(g) == ["User: " + message, "Doctor: " + reply];
    assert RenderLines(g)[1..] == ["Doctor: " + reply];
    assert Join(["Doctor: " + reply]) == "Doctor: " + reply;
    assert RenderHistory(g) == ("User: " + message) + "\n" + ("Doctor: " + reply);
    assert ("User: " + message) + "\n" + ("Doctor: " + reply) == "User: " + message + "\nDoctor: " + reply;
    LayoutWithOneExchange(SYSTEM_PROMPT, message, reply, next);
  }

  lemma LayoutWithOneExchange(instruction: string, message: string, reply: string, next: string)
    ensures Layout(instruction, "User: " + message + "\nDoctor: " + reply, next)
            == instruction + "\n\nUser: " + message + "\nDoctor: " + reply + "\nUser: " + next + CUE
  {
  }

  lemma LayoutWithoutHistory(instruction: string, message: string)
    ensures Layout(instruction, "", message)
            == instruction + "\n\n\nUser: " + message + "\nDoctor (keep it brief and direct):"
  {
  }
}
