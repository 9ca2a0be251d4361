/** The chat endpoint's effect on the process-wide transcript store: resolve
    the session id, render the prompt from the stored transcript, hand it to
    the generator, and only on success record the user turn and the model turn.

    The transition itself (`ChatStep`) takes what the generator returned as a
    value, so it can be reasoned about for every possible answer; the in-place
    endpoint (`SessionStore.Chat`) takes the generator as a function from
    prompt to answer and applies it to the prompt `PromptFor` describes. The
    freshly minted session id is a parameter (`freshId`). */
module Sessions {

  import opened Wrappers
  import opened Text
  import opened Transcript
  import opened Prompt

  /** Session id to transcript. */
  type Store = map<string, seq<Turn>>

  /** What the generator gives back for one prompt. */
  datatype Generation = Generated(text: string) | GenerationFailed(detail: string)

  /** The chat endpoint's successful body `{response, session_id}`. */
  datatype ChatResponse = ChatResponse(response: string, sessionId: string)

  /** A reply, or the server error raised when generation fails. */
  datatype ChatOutcome = Replied(body: ChatResponse) | ServerError(detail: string)

  /** Every stored transcript keeps the alternation invariant. */
  ghost predicate StoreInvariant(store: Store)
  {
    forall id :: id in store ==> Alternating(store[id])
  }

  /** Every stored turn has a first part, so any transcript can be rendered. */
  ghost predicate StoreRenderable(store: Store)
  {
    forall id :: id in store ==> Renderable(store[id])
  }

  lemma InvariantIsRenderable(store: Store)
    requires StoreInvariant(store)
    ensures StoreRenderable(store)
  {
  }

  /** The session id the handler uses: a supplied non-empty id as it is; an
      absent or empty one is replaced by the freshly minted id. */
  function ResolveSessionId(requested: Option<string>, freshId: string): (id: string)
    ensures requested.Some? && requested.value != "" ==> id == requested.value
    ensures requested.None? || requested.value == "" ==> id == freshId
    ensures freshId != "" ==> id != ""
  {
    if requested.Some? && requested.value != "" then requested.value else freshId
  }

  /** The stored transcript of a session, empty for an unknown one. */
  function Lookup(store: Store, id: string): seq<Turn>
  {
    if id in store then store[id] else []
  }

  /** The prompt a call hands to the generator: the stored transcript of the
      session the call resolves to, rendered, followed by the new message. */
  function PromptFor(store: Store, message: string, requested: Option<string>, freshId: string): string
    requires StoreRenderable(store)
  {
    var id := ResolveSessionId(requested, freshId);
    assert Renderable(Lookup(store, id));
    ComposePrompt(Lookup(store, id), message)
  }

  /** One call of the chat endpoint, given what the generator returned for
      its prompt: the new store and the outcome. */
  function ChatStep(store: Store, message: string, requested: Option<string>, freshId: string,
                    generated: Generation): (result: (Store, ChatOutcome))
  {
    var id := ResolveSessionId(requested, freshId);
    var history := Lookup(store, id);
    match generated
    case GenerationFailed(detail) => (store, ServerError(detail))
    case Generated(text) =>
      var reply := Strip(text);
      (store[id := history + [UserTurn(message), ModelTurn(reply)]], Replied(ChatResponse(reply, id)))
  }

  /** A call fails exactly when the generator fails; the error carries the
      generator's detail and the store is left as it was: no turn is
      recorded and no session is created. */
  lemma ChatFailureChangesNothing(store: Store, message: string, requested: Option<string>,
                                  freshId: string, generated: Generation)
    ensures var result := ChatStep(store, message, requested, freshId, generated);
            && (result.1.ServerError? <==> generated.GenerationFailed?)
            && (result.1.ServerError? ==> result.0 == store && result.1.detail == generated.detail)
  {
  }

  /** A successful call answers with the stripped generated text and the
      session id it used, and the session's transcript becomes the earlier
      turns followed by the user turn and the model turn holding exactly that
      answer; the session exists afterwards and no other key is added. */
  lemma ChatSuccessAppendsExchange(store: Store, message: string, requested: Option<string>,
                                   freshId: string, generated: Generation)
    ensures var result := ChatStep(store, message, requested, freshId, generated);
            var id := ResolveSessionId(requested, freshId);
            result.1.Replied? ==>
              && generated.Generated?
              && result.1.body.sessionId == id
              && result.1.body.response == Strip(generated.text)
              && result.0.Keys == store.Keys + {id}
              && result.0[id] == Lookup(store, id) + [UserTurn(message), ModelTurn(result.1.body.response)]
  {
  }

  /** A call changes at most its own session's transcript. */
  lemma ChatTouchesOnlyItsSession(store: Store, message: string, requested: Option<string>,
                                  freshId: string, generated: Generation, other: string)
    requires other != ResolveSessionId(requested, freshId)
    ensures var result := ChatStep(store, message, requested, freshId, generated);
            && (other in result.0 <==> other in store)
            && Lookup(result.0, other) == Lookup(store, other)
  {
  }

  /** The chat endpoint keeps the alternation invariant of every transcript. */
  lemma ChatPreservesInvariant(store: Store, message: string, requested: Option<string>,
                               freshId: string, generated: Generation)
    requires StoreInvariant(store)
    ensures StoreInvariant(ChatStep(store, message, requested, freshId, generated).0)
  {
  }

  /** After a successful call on a session that already has turns, the next
      call's prompt on that session is the previous prompt with its cue
      replaced by the recorded answer, then the new user line and the cue. */
  lemma NextCallPrompt(store: Store, id: string, message: string, text: string, next: string)
    requires StoreInvariant(store) && id != "" && Lookup(store, id) != []
    ensures StoreRenderable(store)
    ensures var after := ChatStep(store, message, Some(id), id, Generated(text)).0;
            var p := PromptFor(store, message, Some(id), id);
            && StoreRenderable(after)
            && |CUE| <= |p|
            && PromptFor(after, next, Some(id), id)
               == p[..|p| - |CUE|] + "\nDoctor: " + Strip(text) + "\nUser: " + next + CUE
  {
    InvariantIsRenderable(store);
    ChatPreservesInvariant(store, message, Some(id), id, Generated(text));
    var after := ChatStep(store, message, Some(id), id, Generated(text)).0;
    InvariantIsRenderable(after);
    var h := Lookup(store, id);
    assert Renderable(h);
    assert Lookup(after, id) == h + [UserTurn(message), ModelTurn(Strip(text))];
    NextPromptExtendsPrevious(h, message, Strip(text), next);
  }

  /** The turns recorded by successful calls with these messages and these
      generated texts, in call order. */
  function Exchanges(messages: seq<string>, texts: seq<string>): (turns: seq<Turn>)
    requires |texts| == |messages|
    ensures |turns| == 2 * |messages|
  {
    if messages == [] then []
    else
      var rest := Exchanges(messages[1..], texts[1..]);
      [UserTurn(messages[0]), ModelTurn(Strip(texts[0]))] + rest
  }

  /** `messages` sent one after another to the session `id`, the generator
      answering the k-th call with `texts[k]`. */
  function ChatMany(store: Store, id: string, messages: seq<string>, texts: seq<string>): Store
    requires |texts| == |messages| && id != ""
    decreases |messages|
  {
    if messages == [] then store
    else
      var next := ChatStep(store, messages[0], Some(id), id, Generated(texts[0])).0;
      ChatMany(next, id, messages[1..], texts[1..])
  }

  /** A successful call quoting session `id` appends its exchange there. */
  lemma ChatOnSession(store: Store, id: string, message: string, text: string)
    requires id != ""
    ensures Lookup(ChatStep(store, message, Some(id), id, Generated(text)).0, id)
            == Lookup(store, id) + [UserTurn(message), ModelTurn(Strip(text))]
  {
  }

  /** Successful calls on one session append their exchanges after the
      earlier turns, in call order, two turns per call. */
  lemma {:induction false} RepeatedChats(store: Store, id: string, messages: seq<string>,
                                         texts: seq<string>)
    requires |texts| == |messages| && id != ""
    ensures Lookup(ChatMany(store, id, messages, texts), id) == Lookup(store, id) + Exchanges(messages, texts)
    decreases |messages|
  {
    if messages == [] {
      assert Lookup(store, id) + [] == Lookup(store, id);
    } else {
      var exchange := [UserTurn(messages[0]), ModelTurn(Strip(texts[0]))];
      var next := ChatStep(store, messages[0], Some(id), id, Generated(texts[0])).0;
      ChatOnSession(store, id, messages[0], texts[0]);
      RepeatedChats(next, id, messages[1..], texts[1..]);
      var rest := Exchanges(messages[1..], texts[1..]);
      assert Exchanges(messages, texts) == exchange + rest;
      assert Lookup(store, id) + exchange + rest == Lookup(store, id) + (exchange + rest);
    }
  }

  /** Successful calls on one session leave every other session as it was. */
  lemma {:induction false} RepeatedChatsFrame(store: Store, id: string, messages: seq<string>,
                                              texts: seq<string>, other: string)
    requires |texts| == |messages| && id != "" && other != id
    ensures Lookup(ChatMany(store, id, messages, texts), other) == Lookup(store, other)
    decreases |messages|
  {
    if messages != [] {
      var next := ChatStep(store, messages[0], Some(id), id, Generated(texts[0])).0;
      assert Lookup(next, other) == Lookup(store, other);
      RepeatedChatsFrame(next, id, messages[1..], texts[1..], other);
    }
  }

  /** Appending exchanges to an alternating transcript keeps it alternating. */
  lemma {:induction false} ExchangesKeepAlternation(h: seq<Turn>, messages: seq<string>,
                                                    texts: seq<string>)
    requires Alternating(h) && |texts| == |messages|
    ensures Alternating(h + Exchanges(messages, texts))
    decreases |messages|
  {
    if messages == [] {
      assert h + [] == h;
    } else {
      var exchange := [UserTurn(messages[0]), ModelTurn(Strip(texts[0]))];
      var rest := Exchanges(messages[1..], texts[1..]);
      assert h + Exchanges(messages, texts) == (h + exchange) + rest;
      AlternatingExtend(h, exchange[0], exchange[1]);
      ExchangesKeepAlternation(h + exchange, messages[1..], texts[1..]);
    }
  }

  /** Appending exchanges after whole exchanges adds exactly their messages to
      the user's messages, in order. */
  lemma {:induction false} ExchangesAddMessages(h: seq<Turn>, messages: seq<string>,
                                                texts: seq<string>)
    requires |h| % 2 == 0 && |texts| == |messages|
    ensures UserMessages(h + Exchanges(messages, texts)) == UserMessages(h) + messages
    decreases |messages|
  {
    if messages == [] {
      assert h + [] == h;
      assert UserMessages(h) + [] == UserMessages(h);
    } else {
      var exchange := [UserTurn(messages[0]), ModelTurn(Strip(texts[0]))];
      var rest := Exchanges(messages[1..], texts[1..]);
      assert h + Exchanges(messages, texts) == (h + exchange) + rest;
      UserMessagesExtend(h, messages[0], Strip(texts[0]));
      ExchangesAddMessages(h + exchange, messages[1..], texts[1..]);
      assert UserMessages(h) + [messages[0]] + messages[1..] == UserMessages(h) + messages;
    }
  }

  /** Successful calls keep the invariant of the store, and the user's
      messages of the session gain exactly the messages sent, in call order. */
  lemma RepeatedChatsKeepOrder(store: Store, id: string, messages: seq<string>, texts: seq<string>)
    requires StoreInvariant(store) && |texts| == |messages| && id != ""
    ensures StoreInvariant(ChatMany(store, id, messages, texts))
    ensures UserMessages(Lookup(ChatMany(store, id, messages, texts), id))
            == UserMessages(Lookup(store, id)) + messages
  {
    var after := ChatMany(store, id, messages, texts);
    RepeatedChats(store, id, messages, texts);
    assert Alternating(Lookup(store, id));
    ExchangesKeepAlternation(Lookup(store, id), messages, texts);
    ExchangesAddMessages(Lookup(store, id), messages, texts);
    forall other | other in after ensures Alternating(after[other]) {
      if other != id {
        RepeatedChatsFrame(store, id, messages, texts, other);
        assert Alternating(Lookup(store, other));
      }
    }
  }

  /** A new conversation: a first message without a session id, then a second
      one quoting the id returned. Both replies carry the minted id and the
      session holds user, model, user, model turns in call order. */
  lemma FirstTwoChats(freshId: string, secondFreshId: string, text1: string, text2: string)
    requires freshId != ""
    ensures var first := ChatStep(map[], "I have chest pain", None, freshId, Generated(text1));
            && first.1.Replied? && first.1.body.sessionId == freshId
            && var second := ChatStep(first.0, "Is it serious?", Some(first.1.body.sessionId),
                                      secondFreshId, Generated(text2));
               && second.1.Replied? && second.1.body.sessionId == freshId
               && first.0.Keys == second.0.Keys == {freshId}
               && second.0[freshId] == [UserTurn("I have chest pain"), ModelTurn(Strip(text1)),
                                        UserTurn("Is it serious?"), ModelTurn(Strip(text2))]
  {
  }

  /** The process-wide transcript store and the chat endpoint that updates it. */
  class SessionStore {

    var histories: Store

    ghost predicate Valid()
      reads this
    {
      StoreInvariant(histories)
    }

    /** The store starts empty. */
    constructor ()
      ensures Valid() && histories == map[]
    {
      histories := map[];
    }

    /** One chat call, performed in place: the prompt handed to the
        generator is the one `PromptFor` describes, and the new store and the
        outcome are those of `ChatStep` for what the generator returned, so
        the transcript is only touched once the generator has returned. */
    method Chat(message: string, requested: Option<string>, freshId: string,
                generate: string -> Generation) returns (outcome: ChatOutcome)
      requires Valid()
      modifies this
      ensures Valid()
      ensures var generated := generate(PromptFor(old(histories), message, requested, freshId));
              (histories, outcome) == ChatStep(old(histories), message, requested, freshId, generated)
      ensures outcome.ServerError? ==> histories == old(histories)
    {
      InvariantIsRenderable(histories);
      var sessionId := ResolveSessionId(requested, freshId);
      var history := Lookup(histories, sessionId);
      var prompt := ComposePrompt(history, message);
      var generated := generate(prompt);
      ChatPreservesInvariant(histories, message, requested, freshId, generated);
      match generated
      case GenerationFailed(detail) =>
        outcome := ServerError(detail);
      case Generated(text) =>
        var responseText := Strip(text);
        history := history + [UserTurn(message)];
        history := history + [ModelTurn(responseText)];
        assert history == Lookup(histories, sessionId) + [UserTurn(message), ModelTurn(responseText)];
        histories := histories[sessionId := history];
        outcome := Replied(ChatResponse(responseText, sessionId));
    }
  }
}
