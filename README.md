# Heart-health chatbot: session store, prompt composer and login

This project models the logic core of a small FastAPI heart-health chatbot
(`main.py`) and proves properties of that model in Dafny. The model covers
three parts of the program:

- **Login check** (`Auth`). `POST /api/login` compares the submitted username
  and password with the two hard-coded credentials. On a match it answers
  `{"success": true}`. Otherwise it answers `{"success": false,
  "message": "Incorrect username or password"}`.
- **Prompt composer** (`Prompt`, with `Text` and `Transcript`). The chat
  handler renders a session's stored turns as `User: …` / `Doctor: …` lines
  joined by newlines. It places them between the fixed doctor instruction
  (`SYSTEM_PROMPT`) and the new user line, and appends the cue
  `Doctor (keep it brief and direct):`.
- **Transcript store and chat step** (`Sessions`). The store is a
  process-wide map from session id to the list of `{role, parts}` turns.
  - A chat call first resolves the session id: Python's `or` mints a fresh
    id for an absent or empty one.
  - It then renders the prompt from that session's stored turns and hands it
    to the generator.
  - Only when generation succeeds does it append the user turn and the model
    turn (the stripped reply) and write the transcript back.
  - The store is modelled twice: as a pure transition function (`ChatStep`)
    and as a class (`SessionStore`) whose `Chat` method updates its map field
    in place and is proved equal to that transition.

Modelling choices:

- **Generator.** `ChatStep` takes the generator's answer as a value
  (`Generated(text)` or `GenerationFailed(detail)`), so every lemma holds for
  every possible answer. `SessionStore.Chat` takes the generator as a
  function from prompt to answer and applies it to the prompt `PromptFor`
  describes.
- **Fresh id.** The id that `uuid.uuid4()` would mint is the parameter
  `freshId`.
- **Whitespace.** `str.strip()` is modelled over Python's `str.isspace()`
  characters, written out as `Text.SPACES`.
- **Line endings.** `main.py` is stored with CRLF line endings. Python reads
  the line breaks inside the triple-quoted `SYSTEM_PROMPT` as `"\n"`, so
  `Prompt.SYSTEM_PROMPT` uses `"\n"`. It keeps the two trailing spaces of the
  three bullet lines and of the instruction's first line.

Files:

| file | module |
|---|---|
| `wrappers.dfy` | `Wrappers` (Option) |
| `text.dfy` | `Text`: strip, `"\n".join`, `split("\n")` |
| `transcript.dfy` | `Transcript`: turns and the alternation invariant |
| `prompt.dfy` | `Prompt`: the instruction and the prompt layout |
| `auth.dfy` | `Auth`: the login check |
| `sessions.dfy` | `Sessions`: the chat transition and the `SessionStore` class |

## Model

| member | source | states |
|---|---|---|
| Auth.Login | main.py:103-107 | Success exactly when the username is "linsija" and the password is "linsi123". On success there is no message. Otherwise the message is "Incorrect username or password". |
| Text.Lead | main.py:146 | The number of whitespace characters a text starts with, counted one character at a time. Its contract bounds it by the text's length, and `LeadIsSpace` characterises it. |
| Text.Trail | main.py:146 | The number of whitespace characters a text ends with. Its contract bounds it by the text's length, and `TrailIsSpace` characterises it. |
| Text.Strip | main.py:146 | `response.text.strip()`: no ensures. Defined as the text without its `Lead` leading and then its `Trail` trailing whitespace characters, and characterised by `StripSpec`, `StripEmpty` and `StripIdempotent`. |
| Text.LeadIsSpace | main.py:146 | `Lead(s)` is the length of the leading whitespace run: every character before it is whitespace and the next one is not. |
| Text.TrailIsSpace | main.py:146 | `Trail(s)` is the length of the trailing whitespace run: every character after the cut is whitespace and the one before it is not. |
| Text.StripSpec | main.py:146 | `Strip(s)` is the slice of `s` that starts after the leading whitespace. Every character outside the slice is whitespace, and the result neither starts nor ends with whitespace. |
| Text.StripEmpty | main.py:146 | A reply strips to the empty string exactly when it is all whitespace. |
| Text.StripIdempotent | main.py:146 | Stripping a stripped reply changes nothing. |
| Text.Join | main.py:133-135 | `"\n".join(lines)`: no ensures. Defined as "" for no lines, the line itself for one, and the first line, a newline and the join of the rest otherwise. `JoinSnoc` and `SplitJoin` state its laws. |
| Text.JoinSnoc | main.py:133-135 | For at least one earlier line, joining with "\n" one more line appends a newline and that line to the earlier joined text. With no earlier line the result is the new line alone. |
| Text.SplitJoin | main.py:133-135 | For a non-empty list of newline-free lines, splitting the joined text at "\n" gives back the lines. The empty list joins to "", which splits into one empty piece. |
| Transcript.UserTurn | main.py:149 | No ensures: the turn `{"role": "user", "parts": [message]}`. |
| Transcript.ModelTurn | main.py:150 | No ensures: the turn `{"role": "model", "parts": [reply]}`. |
| Transcript.Alternating | main.py:149-151 | The store invariant, a predicate with no ensures. A transcript has even length, turn i has role "user" for even i and "model" for odd i, and every turn has exactly one part. `AlternatingIffPairs` proves it equal to the pair-by-pair form. |
| Transcript.AlternatingIsRenderable | main.py:134 | Every turn of an alternating transcript has a first part, so `entry['parts'][0]` is defined for every stored turn. |
| Transcript.AlternatingExtend | main.py:149-150 | An alternating transcript stays alternating after two more turns exactly when they are a one-part user turn followed by a one-part model turn. |
| Transcript.AlternatingIffPairs | main.py:149-151 | The index-based alternation invariant holds exactly when the transcript is a sequence of (user, model) pairs, each turn with one part. |
| Transcript.UserMessages | main.py:149 | The user's messages of a transcript: the text of every even-numbered turn, one per whole exchange. |
| Transcript.UserMessagesExtend | main.py:149-150 | After whole exchanges (a transcript of even length), appending an exchange adds its message at the end of the user's messages. |
| Prompt.RenderTurn | main.py:134 | No ensures: "User: " followed by the turn's first part when its role is "user", and "Doctor: " followed by it for any other role. |
| Prompt.RenderLines | main.py:133-135 | No ensures: the rendered line of every turn, in transcript order (the list comprehension). `RenderedLabelsAlternate` and `OneLinePerTurn` state its properties. |
| Prompt.RenderHistory | main.py:133-135 | No ensures: `conversation_history`, the rendered lines joined with "\n". |
| Prompt.Layout | main.py:138 | No ensures: the f-string: instruction, "\n\n", history, "\nUser: ", message and the cue "\nDoctor (keep it brief and direct):" (`Prompt.CUE`). `LayoutParts` and `LayoutExtend` state its laws. |
| Prompt.ComposePrompt | main.py:133-138 | No ensures: the prompt for a transcript and a message, `Layout` over `Prompt.SYSTEM_PROMPT` (the instruction of main.py:57-65) and `RenderHistory`. `PromptShape`, `EmptyTranscriptPrompt`, `NextPromptExtendsPrevious` and `PromptAfterFirstExchange` characterise it. |
| Prompt.PromptShape | main.py:133-138 | The prompt starts with the instruction and a blank line, ends with "\nUser: " + message + the cue, and between them holds exactly the rendered history. |
| Prompt.LayoutParts | main.py:138 | The layout's prefix, middle and suffix are the instruction plus "\n\n", the history, and "\nUser: " + message + the cue. |
| Prompt.EmptyTranscriptPrompt | main.py:133-138 | With no prior turns the prompt is SYSTEM_PROMPT + "\n\n\nUser: " + message + "\nDoctor (keep it brief and direct):". |
| Prompt.RenderedLabelsAlternate | main.py:133-134 | In an alternating transcript, line i is "User: " for even i and "Doctor: " for odd i, followed by that turn's text. |
| Prompt.OneLinePerTurn | main.py:133-135 | For a non-empty transcript whose texts have no newline, the rendered history splits back into exactly one line per turn, in transcript order. An empty transcript renders as "", which is one empty line rather than none. |
| Prompt.LayoutExtend | main.py:138 | Adding a user line and a doctor line to the history replaces the cue with the doctor line, then adds the next user line and the cue. |
| Prompt.NextPromptExtendsPrevious | main.py:133-138 | After an exchange is appended to a non-empty transcript, the next prompt is the previous prompt without its cue, then "\nDoctor: " + reply + "\nUser: " + next message + the cue. |
| Prompt.PromptAfterFirstExchange | main.py:133-138 | After one exchange the prompt is SYSTEM_PROMPT + "\n\nUser: " + message + "\nDoctor: " + reply + "\nUser: " + next message + the cue. |
| Sessions.Lookup | main.py:130 | No ensures: `chat_histories.get(session_id, [])`, the stored transcript or the empty one for an unknown id. |
| Sessions.InvariantIsRenderable | main.py:130-134 | A store whose transcripts all alternate can render any of them. |
| Sessions.ResolveSessionId | main.py:123 | A supplied non-empty id is used unchanged. An absent or empty id is replaced by the fresh id. A non-empty fresh id gives a non-empty session id. |
| Sessions.PromptFor | main.py:123-138 | No ensures: the prompt a call hands to the generator, `ComposePrompt` over the transcript stored under the resolved session id and the new message. `NextCallPrompt` relates two consecutive calls. |
| Sessions.ChatStep | main.py:117-159 | The chat transition, with no ensures of its own. It resolves the id and looks up the transcript. On a failed generation it keeps the store and returns the error detail. On `Generated(text)` it stores the earlier turns plus the user turn and the model turn holding `Strip(text)`, and replies with that text and the id. Characterised by `ChatFailureChangesNothing`, `ChatSuccessAppendsExchange`, `ChatTouchesOnlyItsSession` and `ChatPreservesInvariant`. |
| Sessions.ChatFailureChangesNothing | main.py:140-159 | The call fails exactly when generation fails. The error carries the generator's detail, and the store is unchanged: no turn is appended and no session is created. |
| Sessions.ChatSuccessAppendsExchange | main.py:146-155 | On success, the response is the stripped generated text and the session id is the resolved one. The session's transcript is the earlier turns followed by the user turn and the model turn holding that same response. Exactly that key is added if it was missing. |
| Sessions.ChatTouchesOnlyItsSession | main.py:151 | Every other session keeps its transcript, and its presence in the store. |
| Sessions.ChatPreservesInvariant | main.py:149-151 | A call keeps every transcript in the store alternating user, model, user, model. |
| Sessions.NextCallPrompt | main.py:130-151 | After a successful call on a session with earlier turns, the next call's prompt on that session is the previous prompt without its cue, then the recorded reply, the new user line and the cue. |
| Sessions.Exchanges | main.py:149-150 | Each successful call records exactly two turns. |
| Sessions.ChatMany | main.py:117-159 | No ensures: successive successful calls on one session id, the k-th generator answer being the k-th text. `RepeatedChats`, `RepeatedChatsFrame` and `RepeatedChatsKeepOrder` characterise it. |
| Sessions.ChatOnSession | main.py:149-151 | A successful call quoting a session appends its exchange to that session's transcript. |
| Sessions.RepeatedChats | main.py:117-159 | After successful calls on one session, its transcript is the earlier turns followed by each call's user turn and stripped reply, in call order. |
| Sessions.RepeatedChatsFrame | main.py:151 | Successful calls on one session leave every other session's transcript as it was. |
| Sessions.ExchangesKeepAlternation | main.py:149-150 | Appending recorded exchanges keeps a transcript alternating. |
| Sessions.ExchangesAddMessages | main.py:149-150 | After whole exchanges (a transcript of even length), appending recorded exchanges adds exactly their messages, in order, to the user's messages. |
| Sessions.RepeatedChatsKeepOrder | main.py:117-159 | Successful calls keep the store's invariant. The session's user messages gain exactly the messages sent, in call order. |
| Sessions.FirstTwoChats | main.py:117-159 | A first message without an id followed by a second quoting the returned id: both replies carry the minted id. The store holds that one session, with turns user, model, user, model in call order. |
| Sessions.SessionStore.constructor | main.py:78 | The store starts empty and satisfies the invariant. |
| Sessions.SessionStore.Chat | main.py:117-159 | The call keeps the invariant and hands the generator the prompt `PromptFor` describes. The new store and outcome are `ChatStep`'s for the generator's answer. A server error leaves the store unchanged. |

## Left out

- FastAPI routing, the HTML pages, the static mount, CORS, request validation and the global exception handler (main.py:30-45, 89-101, 109-115) are framework plumbing. A failed call is modelled only by `ServerError(detail)` and its effect on the store. The HTTP status and the exact error body are not modelled.
- The Gemini client (`genai.configure`, `GenerativeModel`, `generate_content`, `response.text`) is a foreign call. Its answer is a parameter (`Generation`), and `SessionStore.Chat` receives it as a function of the prompt.
- Sessions.ChatStep: `configure_genai()` (main.py:127) runs outside the `try`, so its failure reaches the global handler rather than the `HTTPException` path. Both paths answer with a server error and leave the store unchanged. The model folds both into `GenerationFailed`.
- Sessions.ResolveSessionId: the minted id is the parameter `freshId`. The uniqueness of `uuid.uuid4()` is not modelled, so a fresh id that equals an existing session's id would continue that session.
- Sessions.SessionStore.Chat: the source appends to the very list it read from the store and then stores it again. The model builds the new sequence and assigns it into the map. Nothing else can read that list between the appends and the write-back, so the stored result is the same. Aliasing of that list is not modelled.
- The `/api/test-key` endpoint, environment loading and logging (main.py:15-27, 162-180) are I/O.
- The request's `history` field (main.py:71) is never read by the handler.
- Concurrent chat requests are not modelled. Each call is one sequential step over the store.
- Prompt.OneLinePerTurn: the one-line-per-turn property is stated for a non-empty transcript whose texts have no newline. The source does not reject a message or reply that contains a newline; such a turn spans several prompt lines.
