/** What `answer_query` hands to the prompt template of main.py: the fixed
    user preferences, the rendered history window and the new message. */
module Prompt {
  import opened Text
  import opened History

  /** `user_context`: the fixed preferences of the single user. */
  datatype UserContext = UserContext(
    propertyType: string,
    preferredAreas: seq<string>,
    budgetMin: int,
    budgetMax: int,
    bedrooms: string,
    purpose: string,
    amenities: seq<string>)

  /** The preferences the process starts with; nothing ever changes them. */
  const DefaultUserContext: UserContext := UserContext(
    "Apartment",
    ["Dubai Marina", "Downtown Dubai", "Palm Jumeirah"],
    500000, 2000000,
    "2", "Buy",
    ["Swimming Pool", "Gym", "Parking"])

  /** The values substituted into the system template and the human template
      (the keyword arguments of `format_prompt`). */
  datatype PromptVariables = PromptVariables(
    query: string,
    propertyType: string,
    preferredAreas: string,
    budgetMin: int,
    budgetMax: int,
    bedrooms: string,
    purpose: string,
    amenities: string,
    history: string,
    currentTime: string)

  /** The prompt for `message` given the caller's history as it stands before
      the exchange, the preferences and the formatted clock reading. */
  function AssemblePrompt(message: string, chatHistory: seq<Turn>, ctx: UserContext, currentTime: string): PromptVariables {
    PromptVariables(
      message,
      ctx.propertyType,
      Join(ctx.preferredAreas, ", "),
      ctx.budgetMin,
      ctx.budgetMax,
      ctx.bedrooms,
      ctx.purpose,
      Join(ctx.amenities, ", "),
      RenderHistory(RelevantHistory(chatHistory, MaxHistoryLength)),
      currentTime)
  }

  /** The history block is empty exactly when the history is. */
  lemma PromptHistoryEmpty(message: string, chatHistory: seq<Turn>, ctx: UserContext, currentTime: string)
    ensures AssemblePrompt(message, chatHistory, ctx, currentTime).history == "" <==> chatHistory == []
  {
  }

  /** When no content of the newest ten turns holds a line break, the
      history block has one line for each of the newest
      `min(len(history), 10)` turns, oldest first. Older turns may hold any
      text. */
  lemma PromptHistoryLines(message: string, chatHistory: seq<Turn>, ctx: UserContext, currentTime: string)
    requires chatHistory != []
    requires forall k :: 0 <= k < |chatHistory| && |chatHistory| - k <= MaxHistoryLength ==> SingleLine(chatHistory[k])
    ensures var lines := Split(AssemblePrompt(message, chatHistory, ctx, currentTime).history, '\n');
      var n := |chatHistory|;
      && |lines| == (if n <= MaxHistoryLength then n else MaxHistoryLength)
      && forall k :: 0 <= k < |lines| ==> lines[k] == RenderTurn(chatHistory[n - |lines| + k])
  {
    var w := RelevantHistory(chatHistory, MaxHistoryLength);
    forall k | 0 <= k < |w| ensures SingleLine(w[k]) {
      assert w[k] == chatHistory[|chatHistory| - |w| + k];
    }
    RenderHistoryLines(w);
  }

  /** The discarded trim would not have changed any later prompt. */
  lemma PromptIgnoresTrim(message: string, chatHistory: seq<Turn>, ctx: UserContext, currentTime: string)
    ensures AssemblePrompt(message, TrimmedCopy(chatHistory), ctx, currentTime)
         == AssemblePrompt(message, chatHistory, ctx, currentTime)
  {
    TrimKeepsWindow(chatHistory);
  }
}
