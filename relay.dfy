/** The message handler of the relay: a process-wide table from LINE user
    id to that user's history lines, updated in place by every text message.
    The Gemini call and the LINE reply call are not modelled; their outcomes
    are inputs, and what the handler sends to them is returned. */
module Relay {
  import opened Conversation

  /** The persona template around the context and the new message. Its
      wording is not modelled; only where it places the two is. */
  const PromptHead: string := "<persona instructions>\n<history>\n"
  const PromptMiddle: string := "\n<new message>\n"
  const PromptTail: string := "\n"

  /** The text given to the generation call. */
  function PersonaPrompt(context: string, message: string): (prompt: string)
    ensures |prompt| == |PromptHead| + |context| + |PromptMiddle| + |message| + |PromptTail|
    ensures prompt[|PromptHead|..|PromptHead| + |context|] == context
    ensures prompt[|prompt| - |PromptTail| - |message|..|prompt| - |PromptTail|] == message
  {
    PromptHead + context + PromptMiddle + message + PromptTail
  }

  /** An inbound text-message event, as the LINE SDK hands it over. */
  datatype TextMessageEvent = TextMessageEvent(userId: string, text: string, replyToken: string)

  /** The reply the handler asks LINE to deliver. */
  datatype ReplyMessage = ReplyMessage(replyToken: string, text: string)

  class Bot {
    /** History lines per user, kept for the lifetime of the process. */
    var sessionData: map<string, seq<string>>
    /** Every exchange each user has had, oldest first. */
    ghost var exchanges: map<string, seq<Exchange>>

    /** Each known user has had at least one exchange, and their stored
        history is what replaying those exchanges from nothing yields. */
    ghost predicate Valid()
      reads this
    {
      ConsistentTables(sessionData, exchanges)
    }

    /** The table as the process starts: empty. */
    constructor ()
      ensures Valid()
      ensures sessionData == map[] && exchanges == map[]
    {
      sessionData := map[];
      exchanges := map[];
    }

    /** Handles one text message. `generation` is what the Gemini call
        produced and `deliveryRaised` whether the LINE reply call raised.
        Returns the prompt sent for generation, the reply sent back, and
        whether its delivery went through; a failed delivery is swallowed. */
    method HandleMessage(event: TextMessageEvent, generation: GenOutcome, deliveryRaised: bool)
      returns (prompt: string, reply: ReplyMessage, delivered: bool)
      requires Valid()
      modifies this
      ensures Valid()
      ensures reply == ReplyMessage(event.replyToken, SelectReply(generation))
      ensures delivered == !deliveryRaised
      ensures prompt == PersonaPrompt(
        PromptContext(HistoryOf(old(sessionData), event.userId), event.text), event.text)
      // the user's history is updated whatever the delivery outcome; nobody else's changes
      ensures sessionData == old(sessionData)[event.userId :=
        NextHistory(HistoryOf(old(sessionData), event.userId), event.text, SelectReply(generation))]
      ensures event.userId !in old(sessionData) ==>
        sessionData[event.userId] == [UserLine(event.text), AssistantLine(SelectReply(generation))]
      // the context is the history as it stood before the reply was recorded
      ensures prompt == PersonaPrompt(
        JoinLines(sessionData[event.userId][..|sessionData[event.userId]| - 1]), event.text)
      ensures exchanges == old(exchanges)[event.userId :=
        ExchangesOf(old(exchanges), event.userId) + [Exchange(event.text, SelectReply(generation))]]
    {
      var user := event.userId;
      ghost var table, log := sessionData, exchanges;

      if user !in sessionData {
        sessionData := sessionData[user := []];
      }
      ghost var entered := sessionData;
      // `history` is the list object the table holds for the user
      var history := sessionData[user];
      if |history| >= EvictAt {
        history := history[1..];
      }
      history := history + [UserLine(event.text)];
      sessionData := sessionData[user := history];
      ghost var withUserLine := history;

      var context := JoinLines(history);
      prompt := PersonaPrompt(context, event.text);
      var aiReply := SelectReply(generation);

      history := history + [AssistantLine(aiReply)];
      sessionData := sessionData[user := history];

      reply := ReplyMessage(event.replyToken, aiReply);
      delivered := !deliveryRaised;

      ghost var x := Exchange(event.text, aiReply);
      exchanges := exchanges[user := ExchangesOf(log, user) + [x]];
      assert exchanges == old(exchanges)[user := ExchangesOf(old(exchanges), user) + [x]];

      NextHistorySteps(HistoryOf(table, user), event.text, aiReply);
      DropLast(withUserLine, AssistantLine(aiReply));
      UpdateOverwrite(entered, user, withUserLine, history);
      if user !in table {
        UpdateOverwrite(table, user, [], history);
      }
      ConsistentAfterExchange(table, log, user, x);
    }
  }

  /** The invariant of the bot, on the two tables. */
  ghost predicate ConsistentTables(sessions: map<string, seq<string>>, log: map<string, seq<Exchange>>) {
    && sessions.Keys == log.Keys
    && forall u :: u in sessions ==> |log[u]| >= 1 && sessions[u] == Replay(log[u])
  }

  /** Recording one more exchange for a user keeps the tables consistent. */
  lemma ConsistentAfterExchange(sessions: map<string, seq<string>>, log: map<string, seq<Exchange>>,
                                user: string, x: Exchange)
    requires ConsistentTables(sessions, log)
    ensures ConsistentTables(
      sessions[user := NextHistory(HistoryOf(sessions, user), x.message, x.reply)],
      log[user := ExchangesOf(log, user) + [x]])
  {
    var past := ExchangesOf(log, user);
    var sessions' := sessions[user := NextHistory(HistoryOf(sessions, user), x.message, x.reply)];
    var log' := log[user := past + [x]];
    forall u | u in sessions' ensures |log'[u]| >= 1 && sessions'[u] == Replay(log'[u]) {
      if u == user {
        assert HistoryOf(sessions, user) == Replay(past);
        ReplayAppend(past, x);
      }
    }
  }

  lemma UpdateOverwrite<K, V>(m: map<K, V>, k: K, a: V, b: V)
    ensures m[k := a][k := b] == m[k := b]
  {
  }

  lemma DropLast<T>(s: seq<T>, x: T)
    ensures (s + [x])[..|s|] == s
  {
  }

  /** What the invariant means for a user's stored history: every line of
      their exchanges except the oldest n - 1, in order. */
  lemma StoredHistoryIsTranscriptSuffix(bot: Bot, user: string)
    requires bot.Valid()
    requires user in bot.sessionData
    ensures |bot.sessionData[user]| == |bot.exchanges[user]| + 1
    ensures bot.sessionData[user] ==
      Transcript(bot.exchanges[user])[|bot.exchanges[user]| - 1..]
  {
    ReplayKeepsAllButOldest(bot.exchanges[user]);
  }

  /** Two messages from one user on a fresh bot: the first reply survives
      the eviction, so the history holds three lines and not two. */
  method HistoryAfterTwoMessages(user: string, first: string, second: string,
                                 g1: GenOutcome, g2: GenOutcome)
    returns (lines: seq<string>)
    ensures lines == [AssistantLine(SelectReply(g1)), UserLine(second), AssistantLine(SelectReply(g2))]
    ensures |lines| > EvictAt
  {
    var bot := new Bot();
    var _, _, _ := bot.HandleMessage(TextMessageEvent(user, first, "token-1"), g1, false);
    ghost var afterFirst := [UserLine(first), AssistantLine(SelectReply(g1))];
    assert bot.sessionData[user] == afterFirst;
    var _, _, _ := bot.HandleMessage(TextMessageEvent(user, second, "token-2"), g2, true);
    assert Evict(afterFirst) == [AssistantLine(SelectReply(g1))];
    lines := bot.sessionData[user];
  }
}
