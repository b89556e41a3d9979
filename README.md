# Conversation history of the real-estate chat backend

This project models the conversation core of a Flask backend for a Dubai
real-estate assistant (`main.py`). A chat request carries a `message`. The
endpoint validates and strips it. `answer_query` builds a prompt from the
fixed user preferences, the newest ten turns of the process-wide
`conversation_history` and the message, then calls a language-model service.
When the call returns, the exchange is recorded as a user turn followed by an
assistant turn.

The modules follow the parts of that flow:

- `Text` (text.dfy) gives the two Python string operations the core calls,
  `str.strip()` (main.py:146, 150) and `str.join` (main.py:93, 107, 112).
  `IsSpace` is the whitespace class that `str.strip()` tests (CPython's
  `Py_UNICODE_ISSPACE`), and `Strip` is written the way CPython computes it,
  from the two indices it keeps. `Split` is not called by main.py: it is a
  specification device, the inverse of `Join`, used to state the line
  structure of the rendered history block.
- `History` (history.dfy) holds turns and `get_relevant_history`, both as
  written and as a window on a natural-number maximum. It also has the
  rendering at main.py:93, the trim at main.py:127-128, and the append of
  completed exchanges.
- `Prompt` (prompt.dfy) holds `user_context` and the variables passed to the
  prompt template.
- `Chat` (chat.dfy) holds `answer_query` as a method that changes the
  caller's list in place, the request validation of `chat_endpoint`, and the
  endpoint itself as a method of the class that owns the global history.

The language-model service is a parameter `llm` of type
`PromptVariables -> Outcome`. It maps the prompt to either the reply text or
the error the call raised. The wall clock is a parameter `currentTime` that
holds the formatted time.

The comment at main.py:126 says "Trim history if needed": the intent is a
shared history of at most 2 × `MAX_HISTORY_LENGTH` = 20 turns, oldest
evicted first. But `chat_history = chat_history[-MAX_HISTORY_LENGTH * 2:]`
at main.py:128 only rebinds the local name. The caller's list, the global at
main.py:51, is never shortened. The model follows the code (see also
"## Findings"):

- `AnswerQuery` appends two turns and keeps the trimmed copy only in a
  discarded local.
- `HistoryOutgrowsTrimBound` shows that eleven exchanges leave 22 turns.
- `TrimKeepsWindow` and `PromptIgnoresTrim` show that the trim would not have
  changed any prompt. Only the newest ten turns reach the prompt either way.

## Model

| member | source | states |
|---|---|---|
| `Text.Strip` | main.py:146-150 | `str.strip()` returns a trimmed piece of the input with whitespace on both sides of it, and it is empty exactly when the input is all whitespace |
| `Text.StripSurrounded` | main.py:150 | for a trimmed string with any whitespace on either side, stripping gives back exactly that string (this fixes `Strip` uniquely) |
| `Text.StripIdempotent` | main.py:150 | stripping an already stripped message changes nothing |
| `Text.StripPadded` | main.py:146-150 | extra surrounding whitespace does not change what is kept |
| `Text.JoinAppend` | main.py:93 | joining one more part adds one separator and that part at the end |
| `Text.SplitJoin` | main.py:93 | splitting a join at the separator gives the parts back, one per part and in order, when no part contains the separator |
| `Text.JoinSplit` | main.py:93 | joining the pieces of a split gives the string back |
| `History.RelevantHistory` | main.py:53-57 | the selected window has length `min(len(history), max_length)` and is the trailing part of the history in its original order; for a short history it is the whole history |
| `History.RelevantHistoryEvictsOldest` | main.py:57 | the window is what remains after evicting the oldest turns one at a time |
| `History.AsWrittenIsWindow` | main.py:53-57 | for every maximum of at least 1, including the default 10, `get_relevant_history` as written returns that window, and the empty list for an empty history |
| `History.AsWrittenZeroKeepsEverything` | main.py:57 | with a maximum of 0 the code returns every turn of a non-empty history, where the window is empty |
| `History.WindowOfWindow` | main.py:53-57 | the window of a wider window is the narrower window |
| `History.WindowSlides` | main.py:53-57 | the window of a grown history is the window of the old window plus the new turns |
| `History.TrimKeepsWindow` | main.py:126-128 | the trimmed copy is exactly the twenty-turn window, the newest `min(len(history), 20)` turns in order (with `RelevantHistoryEvictsOldest`, oldest evicted first), and it has the same ten-turn window as the full history |
| `History.RenderHistoryEmpty` | main.py:93 | the rendered history block is the empty string exactly when no turns are selected |
| `History.RenderHistoryLines` | main.py:93 | when no content holds a line break, the block splits into one `role: content` line per turn, in chronological order |
| `History.RenderHistoryAppend` | main.py:93 | rendering one more turn adds a line break and that turn's line at the end |
| `History.ReplayShape` | main.py:123-128 | after any series of completed exchanges, the list has grown by two turns per exchange, the earlier turns are unchanged, and each exchange sits at its own pair of positions with the user turn first; nothing is evicted |
| `History.HistoryOutgrowsTrimBound` | main.py:126-128 | starting from the empty global list, more than ten exchanges leave more than 20 turns |
| `History.AppendKeepsAlternating` | main.py:123-124 | appending an exchange keeps the history an even-length alternation of user and assistant turns |
| `History.WindowOfAlternating` | main.py:53-57 | a window of even size over such a history is itself an alternation that starts with a user turn |
| `Prompt.PromptHistoryEmpty` | main.py:63-93 | the history block of the prompt is empty exactly when the caller's history is empty |
| `Prompt.PromptHistoryLines` | main.py:63-93 | when no content of the newest ten turns holds a line break (older turns may hold any text), the prompt's history block has one line for each of the newest `min(len(history), 10)` turns, oldest first |
| `Prompt.PromptIgnoresTrim` | main.py:126-128 | a prompt built from the trimmed copy equals the one built from the full history |
| `Chat.AnswerQuery` | main.py:59-134 | the model sees the history as it was on entry; if the call raises, the same error is returned and the list is unchanged; if it returns, the list becomes the old list plus the user turn and then the assistant turn, and the reply returned is the assistant turn's content |
| `Chat.ValidateChatRequest` | main.py:144-150 | a request passes exactly when it is a JSON object whose `message` is a string that is not all whitespace, and the message passed on is that string stripped (non-empty and trimmed); it is refused with "no message" exactly when the body is falsy or its message is missing or blank; anything else is an exception |
| `Chat.AcceptedMessageIsStripped` | main.py:146-150 | a message padded with whitespace is accepted as the stripped text |
| `History.GetRelevantHistoryAsWritten` | main.py:53-57 | `get_relevant_history` exactly as written, for any integer maximum: the result is a trailing part of the history and is the whole history when it is short enough; `AsWrittenIsWindow` and `AsWrittenZeroKeepsEverything` relate it to the window |
| `History.RenderTurn` | main.py:93 | renders one turn as `role: content`; its line structure is stated by `RenderHistoryLines` and `RenderHistoryAppend` |
| `History.RenderHistory` | main.py:93 | joins the rendered turns with `"\n"`; `RenderHistoryEmpty`, `RenderHistoryLines` and `RenderHistoryAppend` carry its properties |
| `History.TrimmedCopy` | main.py:127-128 | the list the trim builds and binds to the local name only (`AnswerQuery` computes it into a discarded local); `TrimKeepsWindow` and `PromptIgnoresTrim` carry its properties |
| `History.AppendExchange` | main.py:123-124 | the two appends of a completed exchange, the user turn and then the assistant turn; `ReplayShape` and `AppendKeepsAlternating` carry its properties |
| `Prompt.AssemblePrompt` | main.py:63-115 | the variables handed to the prompt template: the message as query, the preferences with areas and amenities joined by `", "`, the rendered ten-turn window and the time; `PromptHistoryEmpty`, `PromptHistoryLines` and `PromptIgnoresTrim` carry its properties |
| `Prompt.DefaultUserContext` | main.py:33-40 | the fixed `user_context`: apartment, the three preferred areas, a 500000 to 2000000 budget, two bedrooms, to buy, and three amenities; nothing changes it |
| `Text.IsSpace` | main.py:146-150 | the whitespace class that `str.strip()` removes (CPython's `Py_UNICODE_ISSPACE`); `Strip`, `StripSurrounded` and `StripPadded` state what is removed in its terms |
| `Text.Join` | main.py:93-112 | `sep.join(parts)`: the parts in order with the separator between neighbours; `JoinAppend`, `SplitJoin` and `JoinSplit` carry its properties |
| `History.SliceFrom` | main.py:57 | Python's `s[start:]` with a negative start counted from the end and both ends clamped; `GetRelevantHistoryAsWritten`, `AsWrittenIsWindow` and `AsWrittenZeroKeepsEverything` state what it selects in `history[-max_length:]` |
| `History.RenderedLines` | main.py:93 | the list comprehension: one `role: content` line per turn, in order; `RenderHistoryLines` and `RenderHistoryAppend` carry its properties |
| `History.RoleName` | main.py:123-124 | the strings `"user"` and `"assistant"` stored under `"role"`; `RenderHistoryLines` relies on neither holding a line break |
| `Chat.Truthy` | main.py:146 | Python truthiness of the decoded body (`not data`); `ValidateChatRequest` refuses exactly the falsy bodies as carrying no message |
| `Chat.MessageValue` | main.py:146-150 | `data.get('message', '')`: the value under `"message"`, or `""` when the key is missing; `ValidateChatRequest` and `AcceptedMessageIsStripped` state the outcome in its terms |
| `Chat.TurnList.constructor` | main.py:51 | a Python list of turns holding the given turns; the global history is one, updated in place by `AnswerQuery` |
| `Chat.ErrorMessage` | main.py:146-170 | the `"error"` texts of the endpoint: `No message provided`, `No response generated`, `Failed to process chat: ` with the raised error, and the `Server error: ` prefix; `ChatEndpoint` sends them |
| `Chat.ValidWindowAlternates` | main.py:53-63 | whenever the global history is valid, the ten-turn window the next prompt is built from alternates user and assistant turns and starts with a user turn |
| `Chat.App.constructor` | main.py:51 | the global history starts empty |
| `Chat.App.ChatEndpoint` | main.py:141-170 | a missing or blank message answers 400 `No message provided`, and an exception while reading the request answers 500; in both cases the model is not called and the history is unchanged; otherwise `answer_query` receives the stripped message; a raised error answers 500 and leaves the history unchanged; a reply is recorded as one exchange and sent as plain text, but an empty reply answers 500 `No response generated` although it has been recorded |

## Left out

- Flask, the routes, CORS, logging, dotenv and the API-key check (main.py:1-27, 136-139, 172-174): framework and I/O plumbing.
- `ChatGroq` and `llm.invoke` are an opaque network service. They become the parameter `llm`, a function from the prompt to a reply or a raised error. A service that answers the same prompt differently on different calls is represented by the function given for each call.
- The LangChain templates and the exact system-prompt text (main.py:66-90, 99-115) are a foreign library. Only the variables handed to the template are modelled. Among them the areas and the amenities are joined with `", "`, and the budget numbers are passed as they are, which the template formats.
- `datetime.now()` (main.py:96) reads the wall clock. It becomes the `currentTime` parameter.
- The text of unexpected exceptions is Python's own wording. For `ServerError` only the prefix `"Server error: "` is modelled; in `FailedToProcess` it is the error string the model call raised.
- How Flask's `request.json` reacts to a body that is not JSON depends on the Flask version. The model treats it as raising, which the outer handler turns into a 500. JSON numbers are exact reals, so NaN and infinities are not represented.
- Concurrent requests on the shared list (`threaded=True`) are out of scope for a sequential model.
- The browser clients (static/js/app.js, react-ai-assistant/src/App.jsx) are not part of this model.
- There is no audio cache, speech endpoint, response cache or rate limiter in main.py, so none is modelled.
- `RenderHistoryLines` and `PromptHistoryLines` count one line per turn only when no rendered content holds a line break (`SingleLine`); for `PromptHistoryLines` that is the newest ten turns only. The system prompt asks for replies of one or two paragraphs (main.py:85), so assistant turns usually do hold line breaks and the count rarely applies to the real history. The structure that holds without the condition is `RenderHistoryAppend`: each turn adds `"\n"` and its `role: content` text at the end, with `RenderHistoryEmpty` for the start.
- `get_relevant_history` returns the caller's own list object when the list is short. That aliasing is not modelled because the result is only read.

## Findings

| source | as written | input that shows it | evidently intended | confidence | as-written member | corrected member |
|---|---|---|---|---|---|---|
| main.py:57 | `history[-max_length:]` with `max_length == 0` is `history[0:]`, so the whole history is returned | `get_relevant_history([t], 0)` returns `[t]` | a maximum of 0 selects no turns | not executed; main.py only ever uses the default 10, where both agree (`History.AsWrittenIsWindow`) | `History.AsWrittenZeroKeepsEverything` (about `History.GetRelevantHistoryAsWritten`) | `History.RelevantHistory` |
| main.py:126-128 | `chat_history = chat_history[-MAX_HISTORY_LENGTH * 2:]` rebinds the local name only, so the caller's list (the global at main.py:51) is never trimmed | eleven successful exchanges from the empty global list leave 22 turns | the global list keeps at most the 20 newest turns ("Trim history if needed", main.py:126) | not executed; the prompt is unaffected, since only the newest ten turns reach it either way (`Prompt.PromptIgnoresTrim`) | `Chat.AnswerQuery`, `History.HistoryOutgrowsTrimBound` | `History.TrimKeepsWindow` (about `History.TrimmedCopy`) |
