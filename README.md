# Relay core of a Minecraft–Discord chat bridge

This project is a Dafny model of the relay logic of a Minecraft bot (built on
azalea and Bevy) that bridges in-game chat with a Discord channel. Each part is
a small state machine driven by ticks. The model has three parts and the wiring
between them:

- **Anti-kick throttle** (`AvoidChatKick`, in `avoid_chat_kick.dfy`). A line
  may go to the server only if it is at most 256 UTF-8 bytes long and has no
  character in U+0000–U+001F, no DEL (U+007F) and no section sign (U+00A7). Legal lines are queued on
  their bot entity. A token bucket drains them at a fixed rate:
  - each tick decays `chat_spam_tick_count` by one;
  - the smaller of `(100 - count) / 20` and the queue length is the number of lines sent;
  - each sent line adds 20 to the count.

  The model proves that the count never passes 100. That bound is also why the
  subtraction cannot underflow. The lines sent are exactly the FIFO prefix of
  the queue.
- **Recent-message window** (`Bridge`, in `bridge.dfy`). Chat received from
  Minecraft passes through a window of recent lines, which each eviction
  trims back to at most five.
  - A new line is shown and appended with count 1.
  - A repeat moves to the back with its count raised, and is shown as
    `line [xN]` only when N is a power of two.
  - Entries leave from the front once the window is too long or they have
    waited long enough (2, 8 or 16 seconds, by count).
  - An evicted entry whose last count was not shown leaves a final notice.

  Requests from Discord are routed as `/me <user> text` lines to the local bot
  entity. Each request handled gets one answer (`Ack`, `NotInServer` or
  `IllegalMessage`), and handling stops at the first refusal.
- **Discord side** (`DiscordBridge`, in `discord_bridge.dfy`).
  - Lines shown from Minecraft have `*` and `_` escaped and are queued.
  - A fixed-rate flush joins a greedy prefix of the queue into one message of
    at most 1000 bytes, under its own rate counter.
  - Discord messages from the bridged channel become requests, with the author
    shown as `name` or `name#dddd`.
  - Each answer becomes a reaction: 👍, 👎 or 🚫.
- **Wiring** (`Relay`, in `relay.dfy`). `RelayFromMinecraft` follows the
  declared order. `RelayFromDiscord` calls the systems in the order data flows
  through them: `discord_to_minecraft`, `to_minecraft`, `send_chat_listener`,
  `handle_bridge_info_events`. That is the reverse of the `.after`/`.before`
  constraints at `src/azalea_discord_bridge.rs:38-43` (see "## Left out").
  The event buses are the sequences one system returns and the next one takes.

`rust_text.dfy` (module `RustText`) states the Rust standard-library behaviour
the code relies on:
- `str::len` as a UTF-8 byte count;
- `join`;
- `replace` with a `char` pattern;
- the `{}` and `{:0>4}` renderings of integers;
- `is_power_of_two`.

`wrappers.dfy` holds `Option`.

Stateful parts of the source become classes whose fields the methods update.
The window is `Bridge.RecentFromMinecraft.messages`, the Discord resource is
`DiscordBridge.DiscordBridge`, and the entities with their components are
`AvoidChatKick.AvoidKick`. Each method is proved against a specification
function: `Observe`/`ObserveBatch`, `PopCount`/`FinalNotices`,
`EnqueueAll`, `Drained`/`DrainSends`, `AcceptedCount` and `EscapedEntries`.
The properties the source promises are proved about those functions.

Time is a `nat` count of nanoseconds. `now` is passed in where the source calls
`Instant::now()` or `elapsed()`. Whole seconds are taken by rounding down, as
`as_secs()` does.

Two behaviours of the code are easy to misread, and the model keeps them as
written:
- The flush takes the line that fails the size test off the queue and
  charges for it, but never sends it. It is lost: it is not left queued for
  the next flush (`FlushToDiscordQueue`, `ThreeLinesScenario`).
- In a frame, `from_minecraft` observes before `pop_no_longer_recent_messages`
  evicts (`src/azalea_bridge.rs:43`). So a line that arrives in the same frame
  as an eviction is counted against the window before the window is trimmed.

Several handlers leave their event loop with `return`. The rest of that run's
events stay unread, and the model's batch operations stop at the same point:
- `from_minecraft` on the bot's own line and on any repeat;
- `to_minecraft` on its first refusal;
- `discord_to_minecraft` on the first message it does not relay.

## Model

| member | source | states |
|---|---|---|
| RustText.Utf8LenAppend | src/azalea_discord_bridge.rs:93 | the byte length of a concatenation is the sum of the byte lengths, which is how the size test's `join` length adds up |
| RustText.Utf8LenBounds | src/azalea_avoid_chat_kick.rs:48 | a string takes between one and four bytes per character, and exactly one per character iff it is ASCII |
| RustText.ReplaceAppend | src/azalea_discord_bridge.rs:71-72 | `replace` distributes over concatenation |
| RustText.ParseDecimalOfDecimal | src/azalea_bridge.rs:235 | the decimal rendering of a count reads back as that count |
| RustText.ZeroPaddedRoundTrip | src/azalea_discord_bridge.rs:123 | `{:0>4}` of n has at least four characters, all digits, and reads back as n |
| RustText.PowerOfTwoMeansPow2 | src/azalea_bridge.rs:128 | the power-of-two test holds exactly for the numbers 2^k |
| AvoidChatKick.MessageLegalToMinecraft | src/azalea_avoid_chat_kick.rs:47-58 | legal iff the line is at most 256 UTF-8 bytes and no character is in U+0000–U+001F, U+007F or U+00A7; the empty line is legal |
| AvoidChatKick.NewSendChatEvent | src/azalea_avoid_chat_kick.rs:36-43 | gives an event exactly when the content is legal, and that event holds the entity and the content unchanged |
| AvoidChatKick.Decay | src/azalea_avoid_chat_kick.rs:86-89 | the counter drops by one when positive and stays at 0 otherwise |
| AvoidChatKick.DrainTickProperties | src/azalea_avoid_chat_kick.rs:91-95 | a drain tick sends n = min((100 − c′)/20, queue length) lines, where c′ is the decayed count; the new count is c′ + 20·n ≤ 100; no further line would fit unless the queue ran out; sent prefix plus kept suffix is the old queue |
| AvoidChatKick.SevenQueuedScenario | src/azalea_avoid_chat_kick.rs:87-95 | with count 0 and seven queued lines, a tick sends five and reaches 100; the next tick decays to 99 and sends none |
| AvoidChatKick.DrainOne | src/azalea_avoid_chat_kick.rs:85-103 | one entity's drain: the new state is `Drained(state)` and the lines sent are its first `DrainCount` queued lines, verbatim and in order, on that entity; the count stays within 100, so `100 - count` cannot underflow |
| AvoidChatKick.EnqueueAllAppends | src/azalea_avoid_chat_kick.rs:65-78 | after a batch an entity has a component iff it had one already, or it exists and the batch addresses it. Its queue is its old queue (empty if it had none) followed by exactly its lines of the batch, in order. Its count is kept, or 0 for a new component. Entities that do not exist are ignored |
| AvoidChatKick.EnqueueAllKeepsLimit | src/azalea_avoid_chat_kick.rs:73-76 | enqueueing keeps every counter within 100 (new components start at 0) |
| AvoidChatKick.AvoidKick.SendChatListener | src/azalea_avoid_chat_kick.rs:60-79 | the components become `EnqueueAll` of the old ones and the batch; the entities and the invariant are kept |
| AvoidChatKick.AvoidKick.DrainChatMessageQueue | src/azalea_avoid_chat_kick.rs:81-105 | every component becomes `Drained` of its old state and nothing else changes; the lines sent are each entity's drained prefix, entity by entity in query order; counters stay within 100 |
| Bridge.FormatForRepeatsReadsBack | src/azalea_bridge.rs:231-236 | count 1 gives the line unchanged; any other count gives the line, ` [x`, digits that read back as the count, and `]` |
| Bridge.IndexOfContent | src/azalea_bridge.rs:115-116 | finds the first entry holding the content, or reports that none does |
| Bridge.Observe | src/azalea_bridge.rs:106-146 | the bot's own line: no change, nothing shown, batch ends. A new line: appended with count 1 at `now` and shown verbatim. A repeat of entry i: the others keep their order, the entry moves to the back with count+1 at `now`, the batch ends, and it is shown (as `FormatForRepeats`) iff count+1 is a power of two |
| Bridge.ObserveKeepsValid | src/azalea_bridge.rs:115-142 | observing keeps the window's contents pairwise distinct and its counts positive |
| Bridge.ObserveBatchKeepsValid | src/azalea_bridge.rs:100-147 | a whole batch keeps the window valid |
| Bridge.FreshLinesAllShown | src/azalea_bridge.rs:137-146 | distinct new lines, none the bot's own, are all shown verbatim and in order, and each adds one entry |
| Bridge.RecentFromMinecraft.FromMinecraft | src/azalea_bridge.rs:94-148 | the window and the lines shown are those of `ObserveBatch`, which stops at the bot's own line or at the first repeat; the window stays valid |
| Bridge.RepeatOfOnlyEntry | src/azalea_bridge.rs:115-133 | seeing again the only line of a one-entry window raises its count and refreshes its time, and shows it iff the new count is a power of two |
| Bridge.SixRepeatsScenario | src/azalea_bridge.rs:127-133 | six arrivals of the same line (not the bot's own) from an empty window: each raises the one entry's count by one; the line is shown at the 1st arrival as it is, at the 2nd as `line [x2]`, at the 4th as `line [x4]`, and not at the 3rd, 5th or 6th |
| Bridge.PopCount | src/azalea_bridge.rs:196-216 | eviction takes only from the front and at most the whole window. Afterwards at most 5 entries remain, and the front one has not waited past its threshold. Every evicted entry was over the size limit or had waited past 16/8/2 seconds (count > 32 / > 16 / otherwise), in whole seconds rounded down |
| Bridge.FinalCountShownOnce | src/azalea_bridge.rs:221-222 | for any valid window and any line not the bot's own, the entry the observation leaves at the back was shown by that observation exactly when evicting it would give no final notice, so the count an entry has when it is evicted is shown exactly once: by the observation that set it, or by the eviction notice |
| Bridge.RecentFromMinecraft.PopNoLongerRecentMessages | src/azalea_bridge.rs:192-229 | the window becomes its suffix after `PopCount` entries; the lines shown are the evicted entries' final notices in order, one exactly for each with count > 2 that is not a power of two; the window stays valid |
| Bridge.SixRepeatsEvicted | src/azalea_bridge.rs:204-226 | an entry with count 6 is evicted once it has waited 3 seconds, leaving the notice `line [x6]` |
| AvoidChatKick.NoForbiddenCharAppend | src/azalea_avoid_chat_kick.rs:51-55 | a concatenation passes the character scan iff both parts do |
| Bridge.MeCommandBytes | src/azalea_bridge.rs:168 | the `/me <…> ` framing adds exactly seven bytes |
| Bridge.MeCommandLegality | src/azalea_bridge.rs:168-171 | `/me <user> text` is legal iff user and text together take at most 249 bytes and neither has a forbidden character |
| Bridge.ToMinecraft | src/azalea_bridge.rs:150-190 | one answer per request until the first refusal, which is the last answer. With no local entity the answer is `NotInServer`; otherwise `IllegalMessage` if the `/me` line is illegal, else `Ack`. A chat send goes out exactly for each `Ack`, on the local entity, holding exactly the formatted line |
| DiscordBridge.EscapeMarkdownIsCharwise | src/azalea_discord_bridge.rs:68-72 | the two `replace` calls escape each `*` as `\*` and each `_` as `\_`, once, and leave every other character alone |
| DiscordBridge.UnescapeEscapeMarkdown | src/azalea_discord_bridge.rs:68-72 | escaping loses nothing: unescaping returns the original line |
| DiscordBridge.DiscordBridge.MinecraftToDiscordQueue | src/azalea_discord_bridge.rs:63-76 | the queue becomes the old queue followed by one escaped entry per shown line, in order; the rate counter is untouched |
| DiscordBridge.FitFrom | src/azalea_discord_bridge.rs:90-97 | the greedy packing accepts a prefix in which every line passed the size test, and it stops only at the end of the queue or at a line that fails the test |
| DiscordBridge.AcceptedCountUnique | src/azalea_discord_bridge.rs:90-97 | that prefix length is the only one with this property |
| DiscordBridge.PayloadWithinBudget | src/azalea_discord_bridge.rs:93-99 | the newline-joined payload of the accepted lines is at most 1000 bytes |
| DiscordBridge.OversizedHeadRejected | src/azalea_discord_bridge.rs:90-96 | a head line of 1000 bytes or more is never accepted |
| DiscordBridge.ThreeLinesScenario | src/azalea_discord_bridge.rs:90-97 | of three 400-byte lines the first two are accepted and the third fails the test |
| DiscordBridge.DiscordBridge.FlushToDiscordQueue | src/azalea_discord_bridge.rs:78-105 | decays the counter. At or above 100 nothing else changes and nothing is sent. Otherwise the accepted prefix plus the line that failed the test (if any) leave the queue, 20 is charged for each, and at most one message goes to the bridge's channel: the newline-join of exactly the accepted lines, at most 1000 bytes, or none when no line was accepted |
| DiscordBridge.DisplayNameReadsBack | src/azalea_discord_bridge.rs:120-124 | discriminator 0 gives the name; otherwise the name, `#`, and at least four digits that read back as the discriminator |
| DiscordBridge.DiscordBridge.DiscordToMinecraft | src/azalea_discord_bridge.rs:107-135 | requests for the messages up to the first one from a bot with a discriminator or from another channel, which ends the batch; each carries the display name, the content, and the channel and message ids as context |
| DiscordBridge.ReactionEmojiInjective | src/azalea_discord_bridge.rs:141-164 | the three answers map to three different emoji |
| DiscordBridge.HandleBridgeInfoEvents | src/azalea_discord_bridge.rs:137-166 | one reaction per answer, on the request's channel and message: `Ack` 👍, `NotInServer` 👎, `IllegalMessage` 🚫 (the code points U+1F44D, U+1F44E, U+1F6AB agree with `src/main.rs` lines 56 and 63) |
| Relay.RelayFromMinecraft | src/azalea_discord_bridge.rs:33-37 | a frame observes the batch, then evicts from the resulting window; the Discord queue grows by the escaped observed lines followed by the escaped final notices |
| Relay.RelayFromDiscord | src/azalea_discord_bridge.rs:38-43 | every reaction belongs to a relayed Discord message, in order, and shows the answer `to_minecraft` gives its request; a `/me` line is queued on the local entity exactly for the reactions that are 👍; a message gets no reaction only when the batch ended before it, at a message not relayed or at a reaction other than 👍; every reaction but the last is 👍, so the batch stops at the first refusal |

## Left out

- Bevy's event buses deliver events a frame later when a reader runs before its writer. `Relay` calls the systems in one sequence instead. So the one-frame delays between `discord_to_minecraft`, `to_minecraft` and `handle_bridge_info_events` are not modelled.
- The events after a handler's early `return` stay unread and, in the source, are read first on the next frame, unless Bevy's two-frame event buffer has cleared them by then. `RelayFromMinecraft` and `RelayFromDiscord` model one frame and do not carry those unread events into the next one.
- `Commands` inserts a new `AvoidChatKick` component only when the frame ends. `SendChatListener` inserts it at once. In the source, two events in one frame for an entity without a component each insert their own one-line component, and only the last insert survives. The model instead keeps both lines.
- `query.single()` in `from_minecraft` panics when there is not exactly one local player. The bot's name is passed in as `ownName`, so the panic is not modelled.
- `to_minecraft` is given the local entity as an `Option`. `None` stands for every case where `get_single` fails, including more than one local entity.
- The entity order of `query.iter_mut()` is not known. `DrainChatMessageQueue` takes it as a parameter `order` (a distinct listing of the entities that have the component).
- `ChatPacket` is reduced to its sender name and its plain-text rendering. ANSI rendering and `println!` logging are left out because they are output only.
- Real time: `Instant::now()` and `elapsed()` become the `now` parameter (nanoseconds). The FixedUpdate rate is not modelled; flushing and draining are one call each per fixed tick.
- Integers are unbounded. `discord_ratelimit`, `chat_spam_tick_count` and `sent_count` are `usize` in the source. Only `chat_spam_tick_count` is bounded (by 100). `discord_ratelimit` and `sent_count` could in principle overflow, and the model does not capture that wrap-around.
- The Discord and Matrix clients (gateway, HTTP, caching, async polling) are not part of this model, and neither is the process setup in `src/main.rs`. They are network and process I/O; the model stops at the `CreateMessage`, `CreateReaction` and `MessageCreate` values they exchange.
