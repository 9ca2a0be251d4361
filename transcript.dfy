/** One session's conversation: an ordered sequence of turns, each a role tag
    and a list of text parts, as the chat handler stores them. */
module Transcript {

  /** A stored turn: `{"role": role, "parts": parts}`. */
  datatype Turn = Turn(role: string, parts: seq<string>)

  const USER_ROLE: string := "user"
  const MODEL_ROLE: string := "model"

  /** The turn recorded for the user's message. */
  function UserTurn(message: string): Turn
  {
    Turn(USER_ROLE, [message])
  }

  /** The turn recorded for the generated reply. */
  function ModelTurn(reply: string): Turn
  {
    Turn(MODEL_ROLE, [reply])
  }

  /** The role the turn at position `i` must carry: user first, then model. */
  function RoleAt(i: nat): string
  {
    if i % 2 == 0 then USER_ROLE else MODEL_ROLE
  }

  /** The session invariant: whole user/model pairs, alternating and starting
      with the user, each turn holding exactly one text part. */
  ghost predicate Alternating(h: seq<Turn>)
  {
    && |h| % 2 == 0
    && forall i :: 0 <= i < |h| ==> h[i].role == RoleAt(i) && |h[i].parts| == 1
  }

  /** Every turn has a first part, which is what rendering a transcript reads. */
  ghost predicate Renderable(h: seq<Turn>)
  {
    forall i :: 0 <= i < |h| ==> |h[i].parts| > 0
  }

  lemma AlternatingIsRenderable(h: seq<Turn>)
    requires Alternating(h)
    ensures Renderable(h)
  {
  }

  /** Appending two turns keeps the invariant exactly when the first is a
      one-part user turn and the second a one-part model turn. */
  lemma {:induction false} AlternatingExtend(h: seq<Turn>, a: Turn, b: Turn)
    requires Alternating(h)
    ensures Alternating(h + [a, b]) <==>
              a.role == "user" && |a.parts| == 1 && b.role == "model" && |b.parts| == 1
  {
    var g := h + [a, b];
    assert g[|h|] == a && g[|h| + 1] == b;
    assert |h| % 2 == 0 && (|h| + 1) % 2 == 1;
    if a.role == "user" && |a.parts| == 1 && b.role == "model" && |b.parts| == 1 {
      forall i | 0 <= i < |g|
        ensures g[i].role == RoleAt(i) && |g[i].parts| == 1
      {
        if i < |h| { assert g[i] == h[i]; }
      }
    }
  }

  /** The text a turn carries: its first part (a stored turn has exactly one). */
  function TextOf(t: Turn): string
  {
    if t.parts == [] then "" else t.parts[0]
  }

  /** The user's messages of a transcript made of whole exchanges, in the
      order they were sent: the text of every even-numbered turn. */
  function UserMessages(h: seq<Turn>): (messages: seq<string>)
    ensures |messages| == |h| / 2
  {
    seq(|h| / 2, i requires 0 <= i < |h| / 2 => TextOf(h[2 * i]))
  }

  /** Recording one exchange after whole exchanges adds its message at the
      end of the user's messages and leaves the earlier ones as they were. */
  lemma UserMessagesExtend(h: seq<Turn>, message: string, reply: string)
    requires |h| % 2 == 0
    ensures UserMessages(h + [UserTurn(message), ModelTurn(reply)]) == UserMessages(h) + [message]
  {
  }

  /** A transcript satisfies the invariant exactly when it is a sequence of
      (user message, model reply) pairs. */
  ghost predicate IsPairs(h: seq<Turn>)
    decreases |h|
  {
    || h == []
    || (&& |h| >= 2
        && |h[0].parts| == 1 && h[0] == UserTurn(h[0].parts[0])
        && |h[1].parts| == 1 && h[1] == ModelTurn(h[1].parts[0])
        && IsPairs(h[2..]))
  }

  lemma {:induction false} AlternatingIffPairs(h: seq<Turn>)
    ensures Alternating(h) <==> IsPairs(h)
    decreases |h|
  {
    if |h| >= 2 {
      var rest := h[2..];
      AlternatingIffPairs(rest);
      if Alternating(h) {
        forall i | 0 <= i < |rest| ensures rest[i].role == RoleAt(i) && |rest[i].parts| == 1 {
          assert rest[i] == h[i + 2];
        }
        assert h[0].role == "user" && h[1].role == "model";
      }
      if IsPairs(h) {
        forall i | 0 <= i < |h| ensures h[i].role == RoleAt(i) && |h[i].parts| == 1 {
          if i >= 2 { assert h[i] == rest[i - 2]; }
        }
      }
    } else if |h| == 1 {
      assert !Alternating(h);
    }
  }
}
