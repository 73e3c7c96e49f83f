/**
 * The systems of the Discord bridge plugin, run one after another. The
 * Minecraft-to-Discord frame follows the order the systems are declared in;
 * the Discord-to-Minecraft frame follows the flow of data, which is the
 * reverse of their `.after`/`.before` constraints. Each event bus becomes the
 * sequence one system returns and the next system takes.
 */
module Relay {
  import opened Wrappers
  import opened AvoidChatKick
  import opened Bridge
  import opened DiscordBridge

  /** Minecraft to Discord: `from_minecraft`, then `pop_no_longer_recent_messages`,
      then `minecraft_to_discord_queue`, which reads every line the first two
      wrote, observed lines first. */
  method RelayFromMinecraft(recent: RecentFromMinecraft, discord: DiscordBridge,
                            packets: seq<ChatPacket>, ownName: string, now: nat)
    returns (shown: seq<FromMinecraftEvent>)
    requires recent.Valid()
    modifies recent, discord
    ensures recent.Valid()
    ensures var b := ObserveBatch(old(recent.messages), packets, ownName, now);
      var k := PopCount(b.window, now);
      && recent.messages == b.window[k..]
      && shown == b.emitted + FinalNotices(b.window[..k])
      && discord.discordQueue == old(discord.discordQueue) + EscapedEntries(shown)
      && discord.discordRatelimit == old(discord.discordRatelimit)
  {
    var observed := recent.FromMinecraft(packets, ownName, now);
    var evicted := recent.PopNoLongerRecentMessages(now);
    shown := observed + evicted;
    discord.MinecraftToDiscordQueue(shown);
  }

  /** Discord to Minecraft: `discord_to_minecraft`, `to_minecraft`,
      `send_chat_listener` and `handle_bridge_info_events`. Every reaction
      belongs to a relayed Discord message, in order; every line queued on the
      local entity is the `/me` form of an acknowledged message. Every
      reaction but the last is 👍, so the batch stops at its first refusal. A message
      gets no reaction only when an earlier one ended the batch: by not being
      relayed, or by an answer other than `Ack`. */
  method RelayFromDiscord(discord: DiscordBridge, kick: AvoidKick,
                          messages: seq<MessageCreate>, local: Option<Entity>)
    returns (sends: seq<SendChatEvent>, reactions: seq<CreateReaction>)
    requires kick.Valid()
    modifies kick
    ensures kick.Valid() && kick.entities == old(kick.entities)
    ensures kick.states == EnqueueAll(old(kick.states), kick.entities, sends)
    ensures |sends| <= |reactions| <= |messages|
    ensures forall i :: 0 <= i < |reactions| ==>
      var m := messages[i];
      && Relayed(m, discord.channelId)
      && reactions[i] == CreateReaction(m.channelId, m.id, ReactionEmoji(InfoKindFor(local, DisplayName(m.author), m.content)))
    ensures forall i :: 0 <= i < |reactions| ==> (i < |sends| <==> reactions[i].emoji == ReactionEmoji(Ack))
    ensures forall i :: 0 <= i < |sends| ==>
      local.Some? && sends[i] == SendChatEvent(local.value, MeCommand(DisplayName(messages[i].author), messages[i].content))
    ensures forall i :: 0 <= i < |reactions| - 1 ==> reactions[i].emoji == ReactionEmoji(Ack)
    ensures |reactions| < |messages| ==>
      || !Relayed(messages[|reactions|], discord.channelId)
      || (reactions != [] && reactions[|reactions| - 1].emoji != ReactionEmoji(Ack))
  {
    var requests := discord.DiscordToMinecraft(messages);
    var infos;
    infos, sends := ToMinecraft(requests, local);
    kick.SendChatListener(sends);
    reactions := HandleBridgeInfoEvents(infos);
    forall i | 0 <= i < |reactions|
      ensures i < |sends| <==> reactions[i].emoji == ReactionEmoji(Ack)
    {
      ReactionEmojiInjective(infos[i].kind, Ack);
    }
    if |infos| < |requests| {
      ReactionEmojiInjective(infos[|infos| - 1].kind, Ack);
    }
  }
}
