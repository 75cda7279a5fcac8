/** The per-user conversation history of the relay, as values: the two line
    formats, the eviction of the oldest line, the newline join that becomes
    the prompt context, the reply chosen from the outcome of the generation
    call, and what the history holds after any number of exchanges. */
module Conversation {
  import opened Wrappers

  /** Prefix of the history line recorded for a user's message. */
  const UserLabel: string := "ユーザー: "
  /** Prefix of the history line recorded for the assistant's reply. */
  const AssistantLabel: string := "さくら: "
  /** Reply used when the generation response carries no text. */
  const NoTextReply: string := "エラーが発生しました"
  /** Reply used when the generation call raised. */
  const BusyReply: string := "ちょっと今忙しいからあとでねー"
  /** A history at least this long loses its oldest line before a message
      is recorded. Only one line is evicted per message. */
  const EvictAt: nat := 2

  // ---------------------------------------------------------------------
  // History lines

  function UserLine(message: string): string { UserLabel + message }

  function AssistantLine(reply: string): string { AssistantLabel + reply }

  datatype Speaker = User | Assistant

  /** A turn of the conversation, as a history line encodes it. */
  datatype Turn = Turn(speaker: Speaker, text: string)

  /** Reads a history line back as a turn; the inverse of the two formats. */
  function ParseLine(line: string): Option<Turn> {
    if UserLabel <= line then Some(Turn(User, line[|UserLabel|..]))
    else if AssistantLabel <= line then Some(Turn(Assistant, line[|AssistantLabel|..]))
    else None
  }

  /** The labels tell the speakers apart and keep the whole text. */
  lemma ParseFormattedLines(message: string, reply: string)
    ensures ParseLine(UserLine(message)) == Some(Turn(User, message))
    ensures ParseLine(AssistantLine(reply)) == Some(Turn(Assistant, reply))
  {
    assert UserLine(message)[|UserLabel|..] == message;
    assert AssistantLine(reply)[|AssistantLabel|..] == reply;
    assert AssistantLine(reply)[0] != UserLabel[0];
  }

  // ---------------------------------------------------------------------
  // Reply selection

  /** What the generation call produced: a response with text, a response
      without a `text` attribute, or an exception. */
  datatype GenOutcome = Text(text: string) | NoText | Raised

  /** The reply sent back and recorded; a failed generation is replaced by a
      fixed sentence and never reaches the caller as an error. */
  function SelectReply(outcome: GenOutcome): (reply: string)
    ensures outcome.Text? ==> reply == outcome.text
    ensures outcome.NoText? ==> reply == NoTextReply
    ensures outcome.Raised? ==> reply == BusyReply
    ensures !outcome.Text? ==> reply != ""
  {
    match outcome
    case Text(t) => t
    case NoText => NoTextReply
    case Raised => BusyReply
  }

  // ---------------------------------------------------------------------
  // One message

  /** The history before a message is recorded: lazily empty for a user not
      seen before. */
  function HistoryOf(sessions: map<string, seq<string>>, user: string): seq<string> {
    if user in sessions then sessions[user] else []
  }

  /** Drops the oldest line when the history holds at least two. */
  function Evict(history: seq<string>): (kept: seq<string>)
    ensures |history| >= EvictAt ==> history == [history[0]] + kept
    ensures |history| < EvictAt ==> kept == history
  {
    if |history| >= EvictAt then history[1..] else history
  }

  /** The history after one message and its reply: one eviction at most,
      then the user's line and the assistant's line. */
  function NextHistory(history: seq<string>, message: string, reply: string): (next: seq<string>)
    ensures |next| == if |history| >= EvictAt then |history| + 1 else |history| + 2
    ensures next[..|next| - 2] == Evict(history)
    ensures next[|next| - 2..] == [UserLine(message), AssistantLine(reply)]
  {
    Evict(history) + [UserLine(message), AssistantLine(reply)]
  }

  /** Recording the user's line and then the assistant's line, one append
      after the other, yields the history after the message. */
  lemma NextHistorySteps(history: seq<string>, message: string, reply: string)
    ensures Evict(history) + [UserLine(message)] + [AssistantLine(reply)]
         == NextHistory(history, message, reply)
  {
  }

  // ---------------------------------------------------------------------
  // The prompt context: "\n".join of the history

  function JoinLines(lines: seq<string>): string {
    if |lines| == 0 then ""
    else if |lines| == 1 then lines[0]
    else JoinLines(lines[..|lines| - 1]) + "\n" + lines[|lines| - 1]
  }

  /** Where line k starts in the join: after every earlier line and the
      newline that follows it. */
  function LineOffset(lines: seq<string>, k: nat): nat
    requires k <= |lines|
  {
    if k == 0 then 0 else LineOffset(lines, k - 1) + |lines[k - 1]| + 1
  }

  lemma {:induction false} LineOffsetOfPrefix(lines: seq<string>, m: nat, k: nat)
    requires k <= m <= |lines|
    ensures LineOffset(lines[..m], k) == LineOffset(lines, k)
  {
    if k > 0 {
      LineOffsetOfPrefix(lines, m, k - 1);
    }
  }

  /** The join is every line plus one newline between each two. */
  lemma {:induction false} JoinLength(lines: seq<string>)
    requires |lines| >= 1
    ensures |JoinLines(lines)| + 1 == LineOffset(lines, |lines|)
  {
    var n := |lines|;
    if n > 1 {
      var init := lines[..n - 1];
      JoinLength(init);
      LineOffsetOfPrefix(lines, n - 1, n - 1);
    }
  }

  /** Every line occurs whole in the join, at its offset, and a newline
      follows every line but the last. Lines may themselves hold newlines. */
  lemma {:induction false} JoinPlacesLines(lines: seq<string>, k: nat)
    requires k < |lines|
    ensures LineOffset(lines, k) + |lines[k]| <= |JoinLines(lines)|
    ensures JoinLines(lines)[LineOffset(lines, k)..LineOffset(lines, k) + |lines[k]|] == lines[k]
    ensures k < |lines| - 1 ==>
      && LineOffset(lines, k) + |lines[k]| < |JoinLines(lines)|
      && JoinLines(lines)[LineOffset(lines, k) + |lines[k]|] == '\n'
  {
    var n := |lines|;
    if n > 1 {
      var init, last := lines[..n - 1], lines[n - 1];
      var p := JoinLines(init);
      var s := p + "\n" + last;
      assert JoinLines(lines) == s;
      JoinLength(init);
      var off := LineOffset(lines, k);
      if k < n - 1 {
        JoinPlacesLines(init, k);
        LineOffsetOfPrefix(lines, n - 1, k);
        assert init[k] == lines[k];
        assert s[off..off + |lines[k]|] == p[off..off + |lines[k]|];
        if k == n - 2 {
          LineOffsetOfPrefix(lines, n - 1, n - 1);
          assert off + |lines[k]| == |p|;
        } else {
          assert s[off + |lines[k]|] == p[off + |lines[k]|];
        }
      } else {
        LineOffsetOfPrefix(lines, n - 1, n - 1);
        assert off == |p| + 1;
        assert s[off..off + |last|] == last;
      }
    }
  }

  lemma JoinAppend(lines: seq<string>, line: string)
    ensures JoinLines(lines + [line]) == if lines == [] then line else JoinLines(lines) + "\n" + line
  {
    assert (lines + [line])[..|lines|] == lines;
  }

  /** Position of the last newline of a string. */
  function LastNewline(s: string): (i: nat)
    requires '\n' in s
    ensures i < |s| && s[i] == '\n'
    ensures forall k :: i < k < |s| ==> s[k] != '\n'
  {
    if s[|s| - 1] == '\n' then |s| - 1
    else
      var init := s[..|s| - 1];
      assert '\n' in init by {
        var j :| 0 <= j < |s| && s[j] == '\n';
        assert init[j] == '\n';
      }
      LastNewline(init)
  }

  /** str.split("\n"): the reference inverse of the join. */
  function SplitLines(s: string): (lines: seq<string>)
    ensures |lines| >= 1
    decreases |s|
  {
    if '\n' !in s then [s]
    else
      var i := LastNewline(s);
      SplitLines(s[..i]) + [s[i + 1..]]
  }

  /** Lines without newlines are recovered, in order, from their join. */
  lemma {:induction false} SplitJoin(lines: seq<string>)
    requires |lines| >= 1
    requires forall k :: 0 <= k < |lines| ==> '\n' !in lines[k]
    ensures SplitLines(JoinLines(lines)) == lines
  {
    var last := lines[|lines| - 1];
    if |lines| == 1 {
      assert JoinLines(lines) == last;
    } else {
      var init := lines[..|lines| - 1];
      SplitJoin(init);
      var p := JoinLines(init);
      var s := p + "\n" + last;
      assert JoinLines(lines) == s;
      LastNewlineBeforeLastLine(p, last);
      assert s[..|p|] == p;
      assert s[|p| + 1..] == last;
    }
  }

  /** In a join whose last line holds no newline, the last newline is the
      separator before that line. */
  lemma LastNewlineBeforeLastLine(p: string, last: string)
    requires '\n' !in last
    ensures '\n' in p + "\n" + last
    ensures LastNewline(p + "\n" + last) == |p|
  {
    var s := p + "\n" + last;
    assert s[|p|] == '\n';
    assert forall k :: |p| < k < |s| ==> s[k] == last[k - |p| - 1];
  }

  /** The prompt context built while handling a message: the join of the
      history after eviction and after the user's line is recorded, before
      the reply exists: the kept history's join, a newline, and the user's
      new line last. */
  function PromptContext(history: seq<string>, message: string): (context: string)
    ensures |UserLine(message)| <= |context|
    ensures context[|context| - |UserLine(message)|..] == UserLine(message)
    ensures Evict(history) == [] ==> context == UserLine(message)
    ensures Evict(history) != [] ==> context == JoinLines(Evict(history)) + "\n" + UserLine(message)
  {
    JoinAppend(Evict(history), UserLine(message));
    JoinLines(Evict(history) + [UserLine(message)])
  }

  /** When no line holds a newline, the context splits back into exactly the
      kept history followed by the user's new line. */
  lemma ContextSplitsIntoLines(history: seq<string>, message: string)
    requires forall k :: 0 <= k < |history| ==> '\n' !in history[k]
    requires '\n' !in message
    ensures SplitLines(PromptContext(history, message)) == Evict(history) + [UserLine(message)]
  {
    var lines := Evict(history) + [UserLine(message)];
    assert '\n' !in UserLabel;
    forall k | 0 <= k < |lines| ensures '\n' !in lines[k] {
      if k == |lines| - 1 {
        assert lines[k] == UserLabel + message;
      } else {
        assert lines[k] == history[if |history| >= EvictAt then k + 1 else k];
      }
    }
    SplitJoin(lines);
  }

  // ---------------------------------------------------------------------
  // Many messages

  /** One handled message of one user: what they sent and what was replied. */
  datatype Exchange = Exchange(message: string, reply: string)

  /** The exchanges a user has had so far: none for a user not seen before. */
  function ExchangesOf(log: map<string, seq<Exchange>>, user: string): seq<Exchange> {
    if user in log then log[user] else []
  }

  /** Every line the exchanges produced, oldest first: two per exchange. */
  function Transcript(xs: seq<Exchange>): (t: seq<string>)
    ensures |t| == 2 * |xs|
  {
    if xs == [] then []
    else
      var x := xs[|xs| - 1];
      Transcript(xs[..|xs| - 1]) + [UserLine(x.message), AssistantLine(x.reply)]
  }

  /** The history a user has after the exchanges, starting from none. */
  function Replay(xs: seq<Exchange>): seq<string> {
    if xs == [] then []
    else
      var x := xs[|xs| - 1];
      NextHistory(Replay(xs[..|xs| - 1]), x.message, x.reply)
  }

  lemma ReplayAppend(xs: seq<Exchange>, x: Exchange)
    ensures Replay(xs + [x]) == NextHistory(Replay(xs), x.message, x.reply)
  {
    assert (xs + [x])[..|xs|] == xs;
  }

  /** After n >= 1 messages the history is the transcript without only its
      oldest n - 1 lines: one line is evicted per message while two are
      added, so nothing caps the history at two entries. */
  lemma {:induction false} ReplayKeepsAllButOldest(xs: seq<Exchange>)
    requires |xs| >= 1
    ensures Replay(xs) == Transcript(xs)[|xs| - 1..]
  {
    var n := |xs|;
    var x := xs[n - 1];
    var init := xs[..n - 1];
    var pair := [UserLine(x.message), AssistantLine(x.reply)];
    if n == 1 {
      assert init == [];
    } else {
      ReplayKeepsAllButOldest(init);
      var t := Transcript(init);
      assert Replay(init) == t[n - 2..];
      assert |Replay(init)| == n >= EvictAt;
      calc {
        Replay(xs);
        Evict(t[n - 2..]) + pair;
        t[n - 1..] + pair;
        (t + pair)[n - 1..];
      }
    }
  }

  /** The history holds one line more than the number of messages handled:
      two after the first message, and one more after each later one. */
  lemma {:induction false} HistoryLength(xs: seq<Exchange>)
    requires |xs| >= 1
    ensures |Replay(xs)| == |xs| + 1
  {
    ReplayKeepsAllButOldest(xs);
  }

  /** The history ends with the latest message and its reply. */
  lemma HistoryEndsWithLatestExchange(xs: seq<Exchange>)
    requires |xs| >= 1
    ensures |Replay(xs)| >= 2
    ensures Replay(xs)[|Replay(xs)| - 2..] ==
      [UserLine(xs[|xs| - 1].message), AssistantLine(xs[|xs| - 1].reply)]
  {
  }

  /** From the second message on, the history exceeds two entries, although
      the check that precedes the appends is meant to keep two. This rules out
      only a cap of two lines; HistoryLength (n + 1 lines after n messages)
      rules out every fixed cap, two rounds of four lines included. */
  lemma {:induction false} HistoryNotCapped(xs: seq<Exchange>)
    requires |xs| >= 2
    ensures |Replay(xs)| > EvictAt
  {
    HistoryLength(xs);
  }
}
