/**
 * The Discord side of the bridge. Lines shown from Minecraft are escaped
 * and queued. A fixed-rate flush joins a prefix of the queue into one Discord
 * message of at most 1000 bytes, under a rate counter. Discord messages from
 * the bridged channel become requests to speak in Minecraft, and each answer
 * to a request becomes a reaction on the Discord message.
 */
module DiscordBridge {
  import opened Wrappers
  import opened RustText
  import opened AvoidChatKick
  import opened Bridge

  /** The most bytes one flushed Discord message may take (half of Discord's limit). */
  const MaxPayloadBytes: nat := 1000
  /** What each line taken off the queue adds to `discord_ratelimit`. */
  const RatelimitPerLine: nat := 20
  /** From this value of `discord_ratelimit` on, a flush sends nothing. */
  const RatelimitMax: nat := 100

  /** Where a request came from, so that the answer can be put on it as a reaction. */
  datatype DiscordContext = DiscordContext(channelId: nat, messageId: nat)

  datatype Author = Author(name: string, discriminator: nat, bot: bool)

  /** A message posted on Discord (the gateway's `MessageCreate`). */
  datatype MessageCreate = MessageCreate(author: Author, channelId: nat, id: nat, content: string)

  /** A request to post `content` in a channel. */
  datatype CreateMessage = CreateMessage(channelId: nat, content: string)

  /** A request to react with `emoji` on a message. */
  datatype CreateReaction = CreateReaction(channelId: nat, messageId: nat, emoji: char)

  // ---------------------------------------------------------------------------
  // Markdown escaping
  // ---------------------------------------------------------------------------

  /** `content.replace('*', "\\*").replace('_', "\\_")`. */
  function EscapeMarkdown(s: string): string
  {
    Replace(Replace(s, '*', "\\*"), '_', "\\_")
  }

  /** How one character is escaped. */
  function EscapeChar(c: char): string
  {
    if c == '*' then "\\*" else if c == '_' then "\\_" else [c]
  }

  /** Reference definition of the escaping: each character on its own. */
  function EscapeEach(s: string): string
  {
    if s == [] then [] else EscapeChar(s[0]) + EscapeEach(s[1..])
  }

  /** The two replacements in a row escape each `*` and `_` exactly once and
      leave every other character alone: the underscores that the second pass
      sees are all original ones. */
  lemma {:induction false} EscapeMarkdownIsCharwise(s: string)
    ensures EscapeMarkdown(s) == EscapeEach(s)
  {
    if s != [] {
      var head := if s[0] == '*' then "\\*" else [s[0]];
      assert Replace(s, '*', "\\*") == head + Replace(s[1..], '*', "\\*");
      ReplaceAppend(head, Replace(s[1..], '*', "\\*"), '_', "\\_");
      if s[0] == '*' {
        ReplaceAbsent("\\*", '_', "\\_");
      } else {
        assert Replace([s[0]], '_', "\\_") == EscapeChar(s[0]);
      }
      EscapeMarkdownIsCharwise(s[1..]);
    }
  }

  /** Undo the escaping: a backslash followed by `*` or `_` stands for that character. */
  function Unescape(s: string): string
  {
    if s == [] then []
    else if |s| >= 2 && s[0] == '\\' && (s[1] == '*' || s[1] == '_') then [s[1]] + Unescape(s[2..])
    else [s[0]] + Unescape(s[1..])
  }

  lemma {:induction false} EscapeEachHead(s: string)
    requires s != []
    ensures EscapeEach(s) != [] && EscapeEach(s)[0] != '*' && EscapeEach(s)[0] != '_'
  {
  }

  /** Escaping loses nothing: unescaping gives the original line back. */
  lemma {:induction false} UnescapeEscapeMarkdown(s: string)
    ensures Unescape(EscapeMarkdown(s)) == s
  {
    EscapeMarkdownIsCharwise(s);
    UnescapeEscapeEach(s);
  }

  lemma {:induction false} UnescapeEscapeEach(s: string)
    ensures Unescape(EscapeEach(s)) == s
  {
    if s != [] {
      var rest := EscapeEach(s[1..]);
      var e := EscapeEach(s);
      assert e == EscapeChar(s[0]) + rest;
      UnescapeEscapeEach(s[1..]);
      if s[0] == '*' || s[0] == '_' {
        assert e[2..] == rest;
      } else if s[0] == '\\' {
        if rest != [] {
          EscapeEachHead(s[1..]);
        }
        assert e[1..] == rest;
      } else {
        assert e[1..] == rest;
      }
    }
  }

  /** The queue entries for a batch of lines, one per line, in order. */
  function EscapedEntries(events: seq<FromMinecraftEvent>): (r: seq<string>)
    ensures |r| == |events|
    ensures forall i :: 0 <= i < |events| ==> r[i] == EscapeMarkdown(events[i].content)
  {
    if events == [] then [] else EscapedEntries(events[..|events| - 1]) + [EscapeMarkdown(events[|events| - 1].content)]
  }

  // ---------------------------------------------------------------------------
  // Flushing
  // ---------------------------------------------------------------------------

  /** Whether `line` passes the flush's size test after the lines already
      accepted: their newline-join, one more byte and the line's own bytes
      must stay within the budget. The test adds the byte for a separator even
      when nothing has been accepted yet. */
  predicate Fits(accepted: seq<string>, line: string)
  {
    Utf8Len(Join(accepted, "\n")) + 1 + Utf8Len(line) <= MaxPayloadBytes
  }

  /** How far the greedy packing gets from position `j` of the queue. */
  function FitFrom(queue: seq<string>, j: nat): (r: nat)
    requires j <= |queue|
    ensures j <= r <= |queue|
    ensures forall k :: j <= k < r ==> Fits(queue[..k], queue[k])
    ensures r < |queue| ==> !Fits(queue[..r], queue[r])
    decreases |queue| - j
  {
    if j < |queue| && Fits(queue[..j], queue[j]) then FitFrom(queue, j + 1) else j
  }

  /** The number of queued lines one flush puts into its message. */
  function AcceptedCount(queue: seq<string>): nat
  {
    FitFrom(queue, 0)
  }

  /** The count of accepted lines is the only one where every line before it
      fits and the line at it, if any, does not. */
  lemma AcceptedCountUnique(queue: seq<string>, a: nat)
    requires a <= |queue|
    requires forall k :: 0 <= k < a ==> Fits(queue[..k], queue[k])
    requires a < |queue| ==> !Fits(queue[..a], queue[a])
    ensures AcceptedCount(queue) == a
  {
  }

  /** The joined payload of a flush never exceeds 1000 bytes. */
  lemma PayloadWithinBudget(queue: seq<string>)
    ensures Utf8Len(Join(queue[..AcceptedCount(queue)], "\n")) <= MaxPayloadBytes
  {
    var a := AcceptedCount(queue);
    if a == 1 {
      assert Fits(queue[..0], queue[0]);
      assert queue[..0] == [];
    } else if a > 1 {
      var prev := queue[..a - 1];
      assert Fits(prev, queue[a - 1]);
      JoinSnoc(prev, "\n", queue[a - 1]);
      assert prev + [queue[a - 1]] == queue[..a];
      Utf8LenAppend(Join(prev, "\n"), "\n");
      Utf8LenAppend(Join(prev, "\n") + "\n", queue[a - 1]);
    }
  }

  /** A line of 1000 bytes or more at the head of the queue is never accepted. */
  lemma OversizedHeadRejected(queue: seq<string>)
    requires queue != [] && Utf8Len(queue[0]) >= MaxPayloadBytes
    ensures AcceptedCount(queue) == 0
  {
    assert !Fits(queue[..0], queue[0]);
  }

  /** Three queued lines of 400 bytes: the first two are accepted (together
      801 bytes); the third fails the test (801 + 1 + 400 > 1000). */
  lemma ThreeLinesScenario(a: string, b: string, c: string)
    requires Utf8Len(a) == 400 && Utf8Len(b) == 400 && Utf8Len(c) == 400
    ensures AcceptedCount([a, b, c]) == 2
  {
    var q := [a, b, c];
    assert q[..0] == [] && q[..1] == [a] && q[..2] == [a, b];
    JoinSnoc([a], "\n", b);
    assert [a] + [b] == [a, b];
    Utf8LenAppend(a, "\n");
    Utf8LenAppend(a + "\n", b);
    assert Fits(q[..0], q[0]) && Fits(q[..1], q[1]) && !Fits(q[..2], q[2]);
    AcceptedCountUnique(q, 2);
  }

  // ---------------------------------------------------------------------------
  // Requests from Discord
  // ---------------------------------------------------------------------------

  /** The name shown in Minecraft: the plain name for accounts without a
      discriminator, otherwise `name#dddd` with the discriminator zero-padded
      to four digits. */
  function DisplayName(author: Author): string
  {
    if author.discriminator == 0 then author.name
    else author.name + "#" + PadLeft(Decimal(author.discriminator), 4, '0')
  }

  /** The display name can be read back: the name, then `#` and at least four
      digits whose value is the discriminator. */
  lemma DisplayNameReadsBack(author: Author)
    ensures author.discriminator == 0 ==> DisplayName(author) == author.name
    ensures author.discriminator != 0 ==>
      var r := DisplayName(author);
      var tag := r[|author.name| + 1..];
      && r[..|author.name|] == author.name
      && r[|author.name|] == '#'
      && |tag| >= 4 && AllDigits(tag) && ParseDecimal(tag) == author.discriminator
  {
    if author.discriminator != 0 {
      var r := DisplayName(author);
      assert r[|author.name| + 1..] == PadLeft(Decimal(author.discriminator), 4, '0');
      ZeroPaddedRoundTrip(author.discriminator, 4);
    }
  }

  /** Whether `discord_to_minecraft` lets a message through: not from a bot
      that has a discriminator, and posted in the bridged channel. */
  predicate Relayed(ev: MessageCreate, channelId: nat)
  {
    !(ev.author.bot && ev.author.discriminator != 0) && ev.channelId == channelId
  }

  /** The request a relayed message becomes. */
  function RequestFor(ev: MessageCreate): ToMinecraftEvent<DiscordContext>
  {
    ToMinecraftEvent(DisplayName(ev.author), ev.content, DiscordContext(ev.channelId, ev.id))
  }

  // ---------------------------------------------------------------------------
  // Reactions
  // ---------------------------------------------------------------------------

  /** Thumbs up for an acknowledged request, thumbs down when the bot is not
      on the server, a no-entry sign for an illegal line. */
  function ReactionEmoji(kind: BridgeInfoKind): char
  {
    match kind
    case Ack => '\U{1F44D}'
    case NotInServer => '\U{1F44E}'
    case IllegalMessage => '\U{1F6AB}'
  }

  /** Different answers give different reactions. */
  lemma ReactionEmojiInjective(a: BridgeInfoKind, b: BridgeInfoKind)
    ensures ReactionEmoji(a) == ReactionEmoji(b) <==> a == b
  {
  }

  /** `handle_bridge_info_events`: one reaction per answer, on the message the
      request came from. */
  method HandleBridgeInfoEvents(events: seq<BridgeInfoEvent<DiscordContext>>) returns (reactions: seq<CreateReaction>)
    ensures |reactions| == |events|
    ensures forall i :: 0 <= i < |events| ==>
      reactions[i] == CreateReaction(events[i].context.channelId, events[i].context.messageId, ReactionEmoji(events[i].kind))
  {
    reactions := [];
    var i := 0;
    while i < |events|
      invariant 0 <= i <= |events| && |reactions| == i
      invariant forall k :: 0 <= k < i ==>
        reactions[k] == CreateReaction(events[k].context.channelId, events[k].context.messageId, ReactionEmoji(events[k].kind))
    {
      var event := events[i];
      reactions := reactions + [CreateReaction(event.context.channelId, event.context.messageId, ReactionEmoji(event.kind))];
      i := i + 1;
    }
  }

  // ---------------------------------------------------------------------------
  // The bridge resource
  // ---------------------------------------------------------------------------

  /** The `DiscordBridge` resource. `discordRatelimit` counts the ticks until
      the rate limit is fully reset. */
  class DiscordBridge {
    const channelId: nat
    var discordQueue: seq<string>
    var discordRatelimit: nat

    constructor (channelId: nat)
      ensures this.channelId == channelId && discordQueue == [] && discordRatelimit == 0
    {
      this.channelId := channelId;
      discordQueue := [];
      discordRatelimit := 0;
    }

    /** `minecraft_to_discord_queue`: escape each line and append it to the queue. */
    method MinecraftToDiscordQueue(events: seq<FromMinecraftEvent>)
      modifies this
      ensures discordQueue == old(discordQueue) + EscapedEntries(events)
      ensures discordRatelimit == old(discordRatelimit)
    {
      var i := 0;
      while i < |events|
        invariant 0 <= i <= |events|
        invariant discordQueue == old(discordQueue) + EscapedEntries(events[..i])
        invariant discordRatelimit == old(discordRatelimit)
      {
        assert events[..i + 1][..i] == events[..i];
        var content := EscapeMarkdown(events[i].content);
        discordQueue := discordQueue + [content];
        i := i + 1;
      }
      assert events[..i] == events;
    }

    /** `flush_to_discord_queue`: decay the counter; unless it is still at the
        limit, take lines off the front of the queue, charging 20 for each,
        until the queue is empty or a line fails the size test. That line has
        been taken off already and is dropped. The accepted lines, if any, go
        out as one message to the bridged channel. */
    method FlushToDiscordQueue() returns (message: Option<CreateMessage>)
      modifies this
      ensures var q := old(discordQueue); var d := Decay(old(discordRatelimit));
        if d >= RatelimitMax then
          discordQueue == q && discordRatelimit == d && message == None
        else
          var a := AcceptedCount(q);
          var popped := if a < |q| then a + 1 else a;
          && discordQueue == q[popped..]
          && discordRatelimit == d + RatelimitPerLine * popped
          && message == if a == 0 then None else Some(CreateMessage(channelId, Join(q[..a], "\n")))
      ensures message.Some? ==> Utf8Len(message.value.content) <= MaxPayloadBytes
    {
      discordRatelimit := Decay(discordRatelimit);
      if discordRatelimit >= RatelimitMax {
        // rate limited
        return None;
      }
      ghost var q := discordQueue;
      ghost var d := discordRatelimit;
      var sendingMessages: seq<string> := [];
      while discordQueue != []
        invariant |sendingMessages| <= |q|
        invariant sendingMessages == q[..|sendingMessages|]
        invariant discordQueue == q[|sendingMessages|..]
        invariant discordRatelimit == d + RatelimitPerLine * |sendingMessages|
        invariant forall k :: 0 <= k < |sendingMessages| ==> Fits(q[..k], q[k])
        decreases |discordQueue|
      {
        var content := discordQueue[0];
        discordQueue := discordQueue[1..];
        discordRatelimit := discordRatelimit + RatelimitPerLine;
        if Utf8Len(Join(sendingMessages, "\n")) + 1 + Utf8Len(content) > MaxPayloadBytes {
          assert !Fits(q[..|sendingMessages|], q[|sendingMessages|]);
          break;
        }
        sendingMessages := sendingMessages + [content];
      }
      AcceptedCountUnique(q, |sendingMessages|);
      PayloadWithinBudget(q);
      if sendingMessages != [] {
        message := Some(CreateMessage(channelId, Join(sendingMessages, "\n")));
      } else {
        message := None;
      }
    }

    /** `discord_to_minecraft`: turn Discord messages into requests, in order,
        until the first one that is not relayed, which ends the batch. */
    method DiscordToMinecraft(events: seq<MessageCreate>) returns (requests: seq<ToMinecraftEvent<DiscordContext>>)
      ensures |requests| <= |events|
      ensures forall i :: 0 <= i < |requests| ==> Relayed(events[i], channelId) && requests[i] == RequestFor(events[i])
      ensures |requests| < |events| ==> !Relayed(events[|requests|], channelId)
    {
      requests := [];
      var i := 0;
      while i < |events|
        invariant 0 <= i <= |events| && |requests| == i
        invariant forall k :: 0 <= k < i ==> Relayed(events[k], channelId) && requests[k] == RequestFor(events[k])
      {
        var event := events[i];
        if event.author.bot && event.author.discriminator != 0 {
          return;
        }
        if event.channelId != channelId {
          return;
        }
        requests := requests + [RequestFor(event)];
        i := i + 1;
      }
    }
  }
}
