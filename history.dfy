/** The conversation history of main.py: turns, the trailing window that
    `get_relevant_history` selects, the text block rendered from it, and the
    two turns each completed exchange appends. */
module History {
  import opened Text

  /** `MAX_HISTORY_LENGTH`. */
  const MaxHistoryLength: nat := 10

  datatype Role = User | Assistant

  /** One entry of the history list, `{"role": ..., "content": ...}`. */
  datatype Turn = Turn(role: Role, content: string)

  /** The string stored under `"role"`. */
  function RoleName(r: Role): string {
    match r
    case User => "user"
    case Assistant => "assistant"
  }

  // ---------------------------------------------------------------------
  // History selection

  /** Python's `s[start:]` for an integer `start`: a negative start counts
      from the end and both ends are clamped to the list. */
  function SliceFrom(s: seq<Turn>, start: int): seq<Turn> {
    var i := if start < 0 then (if start + |s| < 0 then 0 else start + |s|)
             else (if start > |s| then |s| else start);
    s[i..]
  }

  /** `get_relevant_history(history, max_length)` exactly as written, for any
      integer `max_length`. Because `history[-0:]` is `history[0:]`, a
      maximum of 0 keeps the whole list. */
  function GetRelevantHistoryAsWritten(history: seq<Turn>, maxLength: int): (r: seq<Turn>)
    ensures |r| <= |history| && r == history[|history| - |r|..]
    ensures |history| <= maxLength ==> r == history
  {
    if |history| == 0 then []
    else if |history| > maxLength then SliceFrom(history, -maxLength)
    else history
  }

  /** The trailing window of at most `maxLength` turns: the newest turns, in
      their original order, and all of them when there are few enough. */
  function RelevantHistory(history: seq<Turn>, maxLength: nat): (r: seq<Turn>)
    ensures |r| == if |history| <= maxLength then |history| else maxLength
    ensures r == history[|history| - |r|..]
  {
    if |history| > maxLength then history[|history| - maxLength..] else history
  }

  /** FIFO eviction: drop the oldest turn until at most `maxLength` remain. */
  function DropOldest(history: seq<Turn>, maxLength: nat): seq<Turn>
    decreases |history|
  {
    if |history| <= maxLength then history else DropOldest(history[1..], maxLength)
  }

  /** The window is what evicting the oldest turns first leaves. */
  lemma {:induction false} RelevantHistoryEvictsOldest(history: seq<Turn>, maxLength: nat)
    ensures RelevantHistory(history, maxLength) == DropOldest(history, maxLength)
    decreases |history|
  {
    if |history| > maxLength {
      RelevantHistoryEvictsOldest(history[1..], maxLength);
      assert history[1..][|history| - 1 - maxLength..] == history[|history| - maxLength..];
    }
  }

  /** For every positive maximum the code as written selects the window. */
  lemma AsWrittenIsWindow(history: seq<Turn>, maxLength: int)
    requires maxLength >= 1
    ensures GetRelevantHistoryAsWritten(history, maxLength) == RelevantHistory(history, maxLength)
  {
  }

  /** For a maximum of 0 the code as written returns every turn, where the
      window is empty. */
  lemma AsWrittenZeroKeepsEverything(history: seq<Turn>)
    requires history != []
    ensures GetRelevantHistoryAsWritten(history, 0) == history
    ensures RelevantHistory(history, 0) == []
  {
  }

  /** A window of a wider window is the narrower window itself. */
  lemma WindowOfWindow(history: seq<Turn>, narrow: nat, wide: nat)
    requires narrow <= wide
    ensures RelevantHistory(RelevantHistory(history, wide), narrow) == RelevantHistory(history, narrow)
  {
  }

  /** Taking the window before or after appending turns gives the same
      window: the window slides over the history. */
  lemma WindowSlides(history: seq<Turn>, added: seq<Turn>, maxLength: nat)
    ensures RelevantHistory(history + added, maxLength)
         == RelevantHistory(RelevantHistory(history, maxLength) + added, maxLength)
  {
    var w := RelevantHistory(history, maxLength);
    var lhs := RelevantHistory(history + added, maxLength);
    var rhs := RelevantHistory(w + added, maxLength);
    assert |lhs| == |rhs|;
    forall k | 0 <= k < |lhs| ensures lhs[k] == rhs[k] {
      var n := |lhs|;
      if k >= n - |added| {
        assert lhs[k] == added[k - (n - |added|)];
        assert rhs[k] == added[k - (n - |added|)];
      } else {
        assert lhs[k] == history[|history| + |added| - n + k];
        assert rhs[k] == w[|w| + |added| - n + k];
      }
    }
  }

  // ---------------------------------------------------------------------
  // The trim at main.py:127-128

  /** The list that `chat_history[-MAX_HISTORY_LENGTH * 2:]` builds when the
      history is longer than twice the window. It is bound to the local name
      only; the caller's list keeps every turn. */
  function TrimmedCopy(history: seq<Turn>): seq<Turn> {
    if |history| > MaxHistoryLength * 2 then history[|history| - MaxHistoryLength * 2..] else history
  }

  /** Had the trim reached the caller's list it would hold exactly the
      newest `min(len, 20)` turns, the twenty-turn window, and the ten-turn
      window would be the same. */
  lemma TrimKeepsWindow(history: seq<Turn>)
    ensures TrimmedCopy(history) == RelevantHistory(history, MaxHistoryLength * 2)
    ensures var t := TrimmedCopy(history);
      |t| <= MaxHistoryLength * 2 && t == history[|history| - |t|..]
      && RelevantHistory(t, MaxHistoryLength) == RelevantHistory(history, MaxHistoryLength)
  {
  }

  // ---------------------------------------------------------------------
  // History rendering (main.py:93)

  /** `f"{msg['role']}: {msg['content']}"`. */
  function RenderTurn(t: Turn): string {
    RoleName(t.role) + ": " + t.content
  }

  /** The list comprehension: one rendered line per turn, in order. */
  function RenderedLines(turns: seq<Turn>): seq<string> {
    seq(|turns|, k requires 0 <= k < |turns| => RenderTurn(turns[k]))
  }

  /** `"\n".join(...)` of the rendered lines. */
  function RenderHistory(turns: seq<Turn>): string {
    Join(RenderedLines(turns), "\n")
  }

  /** The rendered block is empty exactly when there are no turns. */
  lemma RenderHistoryEmpty(turns: seq<Turn>)
    ensures RenderHistory(turns) == "" <==> turns == []
  {
  }

  /** A turn whose content has no line break renders to a single line. */
  predicate SingleLine(t: Turn) {
    '\n' !in t.content
  }

  /** When no content holds a line break, splitting the block at line breaks
      gives one line per turn, in chronological order, each `role: content`. */
  lemma RenderHistoryLines(turns: seq<Turn>)
    requires turns != []
    requires forall k :: 0 <= k < |turns| ==> SingleLine(turns[k])
    ensures var lines := Split(RenderHistory(turns), '\n');
      |lines| == |turns| && forall k :: 0 <= k < |turns| ==> lines[k] == RenderTurn(turns[k])
  {
    var lines := RenderedLines(turns);
    forall k | 0 <= k < |lines| ensures '\n' !in lines[k] {
      var t := turns[k];
      assert '\n' !in RoleName(t.role);
      assert lines[k] == RoleName(t.role) + ": " + t.content;
    }
    SplitJoin(lines, '\n');
  }

  /** Appending a turn to a non-empty history adds one line at the end. */
  lemma RenderHistoryAppend(turns: seq<Turn>, t: Turn)
    requires turns != []
    ensures RenderHistory(turns + [t]) == RenderHistory(turns) + "\n" + RenderTurn(t)
  {
    assert RenderedLines(turns + [t]) == RenderedLines(turns) + [RenderTurn(t)];
    JoinAppend(RenderedLines(turns), RenderTurn(t), "\n");
  }

  // ---------------------------------------------------------------------
  // Completed exchanges (main.py:123-124)

  /** One question and its answer. */
  datatype Exchange = Exchange(message: string, reply: string)

  /** The two appends of a completed exchange: the user turn, then the
      assistant turn. */
  function AppendExchange(history: seq<Turn>, e: Exchange): seq<Turn> {
    history + [Turn(User, e.message), Turn(Assistant, e.reply)]
  }

  /** The caller's list after a series of completed exchanges, oldest first. */
  function Replay(history: seq<Turn>, exchanges: seq<Exchange>): seq<Turn>
    decreases |exchanges|
  {
    if exchanges == [] then history
    else AppendExchange(Replay(history, exchanges[..|exchanges| - 1]), exchanges[|exchanges| - 1])
  }

  /** After any series of exchanges the list has grown by two turns per
      exchange, the earlier turns are untouched, and each exchange sits at
      its own pair of positions, user turn first. Nothing is ever evicted. */
  lemma {:induction false} ReplayShape(history: seq<Turn>, exchanges: seq<Exchange>)
    ensures var h := Replay(history, exchanges);
      && |h| == |history| + 2 * |exchanges|
      && h[..|history|] == history
      && forall k :: 0 <= k < |exchanges| ==>
           h[|history| + 2 * k] == Turn(User, exchanges[k].message)
           && h[|history| + 2 * k + 1] == Turn(Assistant, exchanges[k].reply)
    decreases |exchanges|
  {
    if exchanges != [] {
      var init := exchanges[..|exchanges| - 1];
      ReplayShape(history, init);
      var h0 := Replay(history, init);
      var h := Replay(history, exchanges);
      assert h == h0 + [Turn(User, exchanges[|exchanges| - 1].message), Turn(Assistant, exchanges[|exchanges| - 1].reply)];
      forall k | 0 <= k < |exchanges|
        ensures h[|history| + 2 * k] == Turn(User, exchanges[k].message)
        ensures h[|history| + 2 * k + 1] == Turn(Assistant, exchanges[k].reply)
      {
        if k < |init| {
          assert init[k] == exchanges[k];
        }
      }
      assert h[..|history|] == h0[..|history|];
    }
  }

  /** Starting from the empty list at process start, more than ten exchanges
      leave more than twenty turns: no twenty-turn bound is kept. */
  lemma HistoryOutgrowsTrimBound(exchanges: seq<Exchange>)
    requires |exchanges| > MaxHistoryLength
    ensures |Replay([], exchanges)| > MaxHistoryLength * 2
  {
    ReplayShape([], exchanges);
  }

  /** The list alternates user and assistant turns, starting with a user
      turn, and has even length: the shape every exchange keeps. */
  predicate Alternating(history: seq<Turn>) {
    |history| % 2 == 0
    && forall k :: 0 <= k < |history| ==> history[k].role == (if k % 2 == 0 then User else Assistant)
  }

  /** A completed exchange keeps the alternation. */
  lemma AppendKeepsAlternating(history: seq<Turn>, e: Exchange)
    requires Alternating(history)
    ensures Alternating(AppendExchange(history, e))
  {
  }

  /** A window of even size over an alternating list is itself alternating
      and so starts with a user turn (`Chat.ValidWindowAlternates` applies it
      to the process-wide history). */
  lemma WindowOfAlternating(history: seq<Turn>, maxLength: nat)
    requires Alternating(history) && maxLength % 2 == 0
    ensures Alternating(RelevantHistory(history, maxLength))
  {
  }
}
