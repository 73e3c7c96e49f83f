/**
 * The platform-independent half of the bridge. Chat coming from Minecraft
 * passes through a window of recently seen lines, which collapses repeats into
 * `[xN]` notices. Requests to speak in Minecraft are routed to the local bot
 * entity as `/me <user> text` lines, after the anti-kick legality check.
 */
module Bridge {
  import opened Wrappers
  import opened RustText
  import opened AvoidChatKick

  /** Time is counted in nanoseconds, the resolution of `std::time::Instant`. */
  const NanosPerSecond: nat := 1_000_000_000
  /** The window is trimmed back to this many entries on every eviction pass. */
  const MaxRecent: nat := 5

  /** A received chat packet: the sender's username, when the packet names
      one, and the message rendered as plain text. */
  datatype ChatPacket = ChatPacket(username: Option<string>, message: string)

  /** One entry of the window: `sentCount` is how often `content` has been
      seen, `sentAt` when it was last seen. */
  datatype RecentMessage = RecentMessage(content: string, packet: ChatPacket, sentCount: nat, sentAt: nat)

  /** A line to show on the other platforms. */
  datatype FromMinecraftEvent = FromMinecraftEvent(content: string, packet: ChatPacket)

  /** A request from another platform to say something in Minecraft; `context`
      lets the requester match the answer to its request. */
  datatype ToMinecraftEvent<T> = ToMinecraftEvent(username: string, content: string, context: T)

  datatype BridgeInfoKind = Ack | NotInServer | IllegalMessage

  /** The answer to one `ToMinecraftEvent`. */
  datatype BridgeInfoEvent<T> = BridgeInfoEvent(kind: BridgeInfoKind, context: T)

  // ---------------------------------------------------------------------------
  // Repeat decoration
  // ---------------------------------------------------------------------------

  /** `format_for_repeats`: a line seen once is shown as it is, otherwise
      `"<message> [x<count>]"`. */
  function FormatForRepeats(message: string, sentCount: nat): string
  {
    if sentCount == 1 then message else message + " [x" + Decimal(sentCount) + "]"
  }

  /** The decoration can be read back: a count of 1 leaves the line alone,
      any other count is appended as ` [x<digits>]` whose digits give the count. */
  lemma FormatForRepeatsReadsBack(message: string, sentCount: nat)
    ensures sentCount == 1 ==> FormatForRepeats(message, sentCount) == message
    ensures sentCount != 1 ==>
      var r := FormatForRepeats(message, sentCount);
      var digits := r[|message| + 3..|r| - 1];
      && |r| == |message| + 4 + |Decimal(sentCount)|
      && r[..|message|] == message
      && r[|message|..|message| + 3] == " [x"
      && r[|r| - 1] == ']'
      && AllDigits(digits) && ParseDecimal(digits) == sentCount
  {
    if sentCount != 1 {
      var r := FormatForRepeats(message, sentCount);
      assert r[|message| + 3..|r| - 1] == Decimal(sentCount);
      ParseDecimalOfDecimal(sentCount);
    }
  }

  // ---------------------------------------------------------------------------
  // The window of recent messages
  // ---------------------------------------------------------------------------

  /** No two entries share a content, and every entry has been seen at least once. */
  ghost predicate WindowValid(w: seq<RecentMessage>)
  {
    && (forall i, j :: 0 <= i < j < |w| ==> w[i].content != w[j].content)
    && (forall i :: 0 <= i < |w| ==> w[i].sentCount >= 1)
  }

  /** The position of the first entry holding `content`, if any. */
  function FindContent(w: seq<RecentMessage>, content: string): (r: Option<nat>)
    ensures r.None? <==> forall k :: 0 <= k < |w| ==> w[k].content != content
    ensures r.Some? ==> r.value < |w| && w[r.value].content == content
    ensures r.Some? ==> forall k :: 0 <= k < r.value ==> w[k].content != content
  {
    if w == [] then None
    else if w[0].content == content then Some(0)
    else match FindContent(w[1..], content)
      case None => None
      case Some(k) => Some(k + 1)
  }

  /** The search loop of `from_minecraft`: the index of the first entry
      holding `content`. */
  method IndexOfContent(w: seq<RecentMessage>, content: string) returns (found: Option<nat>)
    ensures found == FindContent(w, content)
    ensures found.Some? ==> found.value < |w| && w[found.value].content == content
    ensures found.None? <==> forall k :: 0 <= k < |w| ==> w[k].content != content
  {
    var j := 0;
    while j < |w|
      invariant 0 <= j <= |w|
      invariant forall k :: 0 <= k < j ==> w[k].content != content
    {
      if w[j].content == content {
        return Some(j);
      }
      j := j + 1;
    }
    return None;
  }

  /** What observing one packet does. */
  datatype Observation = Observation(window: seq<RecentMessage>, emitted: Option<FromMinecraftEvent>, stop: bool)

  /** One iteration of `from_minecraft`. The bot's own line changes nothing and
      ends the batch. A new line is appended with count 1 and shown as it is.
      A repeat is moved to the back with its count raised and its time
      refreshed; it is shown, decorated, only when the new count is a power of
      two, and it ends the batch. */
  function Observe(w: seq<RecentMessage>, packet: ChatPacket, ownName: string, now: nat): (r: Observation)
    ensures packet.username == Some(ownName) ==> r == Observation(w, None, true)
    ensures packet.username != Some(ownName) && FindContent(w, packet.message).None? ==>
      r == Observation(w + [RecentMessage(packet.message, packet, 1, now)], Some(FromMinecraftEvent(packet.message, packet)), false)
    ensures packet.username != Some(ownName) && FindContent(w, packet.message).Some? ==>
      var i := FindContent(w, packet.message).value;
      && r.window == w[..i] + w[i + 1..] + [RecentMessage(packet.message, packet, w[i].sentCount + 1, now)]
      && r.stop
      && (r.emitted.Some? <==> IsPowerOfTwo(w[i].sentCount + 1))
      && (r.emitted.Some? ==> r.emitted.value == FromMinecraftEvent(FormatForRepeats(packet.message, w[i].sentCount + 1), packet))
  {
    if packet.username == Some(ownName) then Observation(w, None, true)
    else
      var content := packet.message;
      match FindContent(w, content)
      case Some(i) =>
        var count := w[i].sentCount + 1;
        var shown := if IsPowerOfTwo(count) then Some(FromMinecraftEvent(FormatForRepeats(content, count), packet)) else None;
        Observation(w[..i] + w[i + 1..] + [RecentMessage(content, packet, count, now)], shown, true)
      case None =>
        Observation(w + [RecentMessage(content, packet, 1, now)], Some(FromMinecraftEvent(content, packet)), false)
  }

  /** Taking entry `i` out of a valid window leaves a valid window in which
      no entry holds that entry's content. */
  lemma RemoveKeepsDistinct(w: seq<RecentMessage>, i: nat)
    requires WindowValid(w) && i < |w|
    ensures var u := w[..i] + w[i + 1..];
      && WindowValid(u)
      && forall k :: 0 <= k < |u| ==> u[k].content != w[i].content
  {
    var u := w[..i] + w[i + 1..];
    assert forall k :: 0 <= k < |u| ==> u[k] == if k < i then w[k] else w[k + 1];
    forall a, b | 0 <= a < b < |u| ensures u[a].content != u[b].content {
      var a' := if a < i then a else a + 1;
      var b' := if b < i then b else b + 1;
      assert u[a] == w[a'] && u[b] == w[b'] && a' < b';
    }
    forall k | 0 <= k < |u| ensures u[k].content != w[i].content {
      var k' := if k < i then k else k + 1;
      assert u[k] == w[k'] && k' != i;
    }
  }

  /** Observing keeps the window free of duplicate contents. */
  lemma ObserveKeepsValid(w: seq<RecentMessage>, packet: ChatPacket, ownName: string, now: nat)
    requires WindowValid(w)
    ensures WindowValid(Observe(w, packet, ownName, now).window)
  {
    if packet.username != Some(ownName) {
      var content := packet.message;
      match FindContent(w, content)
      case Some(i) =>
        RemoveKeepsDistinct(w, i);
      case None =>
    }
  }

  /** The result of a batch of packets: the window and the lines shown. */
  datatype Observed = Observed(window: seq<RecentMessage>, emitted: seq<FromMinecraftEvent>)

  function OptionToSeq<T>(o: Option<T>): seq<T>
  {
    if o.Some? then [o.value] else []
  }

  /** `from_minecraft` over a batch: packets are observed in order until one
      of them ends the batch. */
  function ObserveBatch(w: seq<RecentMessage>, packets: seq<ChatPacket>, ownName: string, now: nat): Observed
    decreases |packets|
  {
    if packets == [] then Observed(w, [])
    else
      var o := Observe(w, packets[0], ownName, now);
      if o.stop then Observed(o.window, OptionToSeq(o.emitted))
      else
        var rest := ObserveBatch(o.window, packets[1..], ownName, now);
        Observed(rest.window, OptionToSeq(o.emitted) + rest.emitted)
  }

  /** One step of a batch that has got as far as packet `i`. */
  lemma ObserveBatchStep(w: seq<RecentMessage>, packets: seq<ChatPacket>, i: nat, ownName: string, now: nat)
    requires i < |packets|
    ensures var o := Observe(w, packets[i], ownName, now);
      ObserveBatch(w, packets[i..], ownName, now) ==
        if o.stop then Observed(o.window, OptionToSeq(o.emitted))
        else var rest := ObserveBatch(o.window, packets[i + 1..], ownName, now);
          Observed(rest.window, OptionToSeq(o.emitted) + rest.emitted)
  {
    assert packets[i..][0] == packets[i] && packets[i..][1..] == packets[i + 1..];
  }

  lemma {:induction false} ObserveBatchKeepsValid(w: seq<RecentMessage>, packets: seq<ChatPacket>, ownName: string, now: nat)
    requires WindowValid(w)
    ensures WindowValid(ObserveBatch(w, packets, ownName, now).window)
    decreases |packets|
  {
    if packets != [] {
      ObserveKeepsValid(w, packets[0], ownName, now);
      var o := Observe(w, packets[0], ownName, now);
      if !o.stop {
        ObserveBatchKeepsValid(o.window, packets[1..], ownName, now);
      }
    }
  }

  /** A batch of lines none of which is the bot's own or already in the
      window, and no two alike, is shown in full and in order. */
  lemma {:induction false} FreshLinesAllShown(w: seq<RecentMessage>, packets: seq<ChatPacket>, ownName: string, now: nat)
    requires forall i :: 0 <= i < |packets| ==> packets[i].username != Some(ownName)
    requires forall i, k :: 0 <= i < |packets| && 0 <= k < |w| ==> w[k].content != packets[i].message
    requires forall i, j :: 0 <= i < j < |packets| ==> packets[i].message != packets[j].message
    ensures var b := ObserveBatch(w, packets, ownName, now);
      && |b.emitted| == |packets| && |b.window| == |w| + |packets|
      && (forall i :: 0 <= i < |packets| ==> b.emitted[i] == FromMinecraftEvent(packets[i].message, packets[i]))
    decreases |packets|
  {
    if packets != [] {
      var o := Observe(w, packets[0], ownName, now);
      var w' := w + [RecentMessage(packets[0].message, packets[0], 1, now)];
      assert o.window == w' && !o.stop;
      var rest := packets[1..];
      forall i, k | 0 <= i < |rest| && 0 <= k < |w'| ensures w'[k].content != rest[i].message {
        assert rest[i] == packets[i + 1];
        if k == |w| {
          assert w'[k].content == packets[0].message;
        } else {
          assert w'[k] == w[k];
        }
      }
      FreshLinesAllShown(w', rest, ownName, now);
    }
  }

  // ---------------------------------------------------------------------------
  // Eviction
  // ---------------------------------------------------------------------------

  /** How many whole seconds an entry waits before it may be evicted: longer
      for lines that were repeated a lot. */
  function MaxWaitSecs(sentCount: nat): nat
  {
    if sentCount > 32 then 16 else if sentCount > 16 then 8 else 2
  }

  /** Whole seconds since the entry was last seen (`elapsed().as_secs()`,
      which rounds down and is 0 for an instant in the future). */
  function AgeSecs(m: RecentMessage, now: nat): nat
  {
    if now >= m.sentAt then (now - m.sentAt) / NanosPerSecond else 0
  }

  predicate WaitedEnough(m: RecentMessage, now: nat)
  {
    AgeSecs(m, now) > MaxWaitSecs(m.sentCount)
  }

  /** How many entries `pop_no_longer_recent_messages` takes from the front. */
  function PopCount(w: seq<RecentMessage>, now: nat): (k: nat)
    ensures k <= |w|
    ensures |w| - k <= MaxRecent
    ensures k < |w| ==> !WaitedEnough(w[k], now)
    ensures forall j :: 0 <= j < k ==> |w| - j > MaxRecent || WaitedEnough(w[j], now)
    decreases |w|
  {
    if |w| > MaxRecent || (w != [] && WaitedEnough(w[0], now)) then 1 + PopCount(w[1..], now) else 0
  }

  lemma PopCountUnfold(w: seq<RecentMessage>, now: nat)
    ensures PopCount(w, now) ==
      if |w| > MaxRecent || (w != [] && WaitedEnough(w[0], now)) then 1 + PopCount(w[1..], now) else 0
  {
  }

  /** The notice an evicted entry leaves: its final count, unless the count is
      at most 2 or a power of two, because then it has already been shown. */
  function FinalNotice(m: RecentMessage): seq<FromMinecraftEvent>
  {
    if m.sentCount > 2 && !IsPowerOfTwo(m.sentCount)
    then [FromMinecraftEvent(FormatForRepeats(m.content, m.sentCount), m.packet)]
    else []
  }

  /** The notices of a run of evicted entries, in eviction order. */
  function FinalNotices(popped: seq<RecentMessage>): seq<FromMinecraftEvent>
  {
    if popped == [] then [] else FinalNotices(popped[..|popped| - 1]) + FinalNotice(popped[|popped| - 1])
  }

  lemma FinalNoticesSnoc(w: seq<RecentMessage>, k: nat)
    requires k < |w|
    ensures FinalNotices(w[..k + 1]) == FinalNotices(w[..k]) + FinalNotice(w[k])
  {
    assert w[..k + 1][..k] == w[..k];
  }

  lemma SuffixKeepsValid(w: seq<RecentMessage>, k: nat)
    requires WindowValid(w) && k <= |w|
    ensures WindowValid(w[k..])
  {
    assert forall i :: 0 <= i < |w| - k ==> w[k..][i] == w[k + i];
  }

  /** The count an entry has when it is evicted is shown exactly once: by
      the observation that set it, or by the eviction notice. The observation
      that leaves count `n` on the back entry shows it exactly when evicting
      that entry would give no notice. */
  lemma FinalCountShownOnce(w: seq<RecentMessage>, p: ChatPacket, ownName: string, now: nat)
    requires WindowValid(w) && p.username != Some(ownName)
    ensures var o := Observe(w, p, ownName, now);
      o.window != [] && (o.emitted.Some? <==> FinalNotice(o.window[|o.window| - 1]) == [])
  {
    match FindContent(w, p.message)
    case None =>
      assert IsPowerOfTwo(1);
    case Some(i) =>
      assert w[i].sentCount + 1 >= 2;
      assert IsPowerOfTwo(2);
  }

  // ---------------------------------------------------------------------------
  // The window resource
  // ---------------------------------------------------------------------------

  /** The `RecentFromMinecraft` resource: oldest entry at the front. */
  class RecentFromMinecraft {
    var messages: seq<RecentMessage>

    ghost predicate Valid()
      reads this
    {
      WindowValid(messages)
    }

    constructor ()
      ensures Valid() && messages == []
    {
      messages := [];
    }

    /** `from_minecraft`: observe a batch of packets at time `now`. */
    method FromMinecraft(packets: seq<ChatPacket>, ownName: string, now: nat) returns (emitted: seq<FromMinecraftEvent>)
      requires Valid()
      modifies this
      ensures Valid()
      ensures var b := ObserveBatch(old(messages), packets, ownName, now); messages == b.window && emitted == b.emitted
    {
      emitted := [];
      var i := 0;
      ObserveBatchKeepsValid(messages, packets, ownName, now);
      while i < |packets|
        invariant 0 <= i <= |packets|
        invariant var rest := ObserveBatch(messages, packets[i..], ownName, now);
          ObserveBatch(old(messages), packets, ownName, now) == Observed(rest.window, emitted + rest.emitted)
      {
        var packet := packets[i];
        ghost var o := Observe(messages, packet, ownName, now);
        ObserveBatchStep(messages, packets, i, ownName, now);
        if packet.username == Some(ownName) {
          // the bot's own line: the rest of the batch is not looked at
          return;
        }
        var content := packet.message;
        var found := IndexOfContent(messages, content);
        if found.Some? {
          // a repeat: move it to the back with its count raised
          var j := found.value;
          var recent := messages[j];
          var newCount := recent.sentCount + 1;
          messages := messages[..j] + messages[j + 1..] + [RecentMessage(content, packet, newCount, now)];
          if IsPowerOfTwo(newCount) {
            emitted := emitted + [FromMinecraftEvent(FormatForRepeats(content, newCount), packet)];
          }
          assert messages == o.window && o.stop;
          return;
        }
        ghost var emittedBefore := emitted;
        messages := messages + [RecentMessage(content, packet, 1, now)];
        emitted := emitted + [FromMinecraftEvent(content, packet)];
        assert messages == o.window && !o.stop && OptionToSeq(o.emitted) == [FromMinecraftEvent(content, packet)];
        ghost var rest := ObserveBatch(messages, packets[i + 1..], ownName, now);
        assert emittedBefore + ([FromMinecraftEvent(content, packet)] + rest.emitted) == emitted + rest.emitted;
        i := i + 1;
      }
      assert packets[i..] == [];
    }

    /** `pop_no_longer_recent_messages`: evict from the front while the window
        is over its size or its oldest entry has waited long enough, and give
        each evicted entry's final notice. */
    method PopNoLongerRecentMessages(now: nat) returns (emitted: seq<FromMinecraftEvent>)
      requires Valid()
      modifies this
      ensures Valid()
      ensures var k := PopCount(old(messages), now);
        messages == old(messages)[k..] && emitted == FinalNotices(old(messages)[..k])
    {
      emitted := [];
      ghost var k := 0;
      while true
        invariant 0 <= k <= |old(messages)|
        invariant messages == old(messages)[k..]
        invariant k + PopCount(messages, now) == PopCount(old(messages), now)
        invariant emitted == FinalNotices(old(messages)[..k])
        decreases |messages|
      {
        var waitedEnough := messages != [] && WaitedEnough(messages[0], now);
        PopCountUnfold(messages, now);
        if |messages| <= MaxRecent && !waitedEnough {
          break;
        }
        var front := messages[0];
        assert messages[1..] == old(messages)[k + 1..];
        messages := messages[1..];
        FinalNoticesSnoc(old(messages), k);
        if front.sentCount > 2 && !IsPowerOfTwo(front.sentCount) {
          emitted := emitted + [FromMinecraftEvent(FormatForRepeats(front.content, front.sentCount), front.packet)];
        }
        k := k + 1;
      }
      SuffixKeepsValid(old(messages), k);
    }
  }

  // ---------------------------------------------------------------------------
  // Scenario: one line repeated six times
  // ---------------------------------------------------------------------------

  /** The window after the line of `p` has been seen `n` times, last at `now`. */
  function RepeatWindow(p: ChatPacket, n: nat, now: nat): seq<RecentMessage>
  {
    [RecentMessage(p.message, p, n, now)]
  }

  /** The same line, not the bot's own, arriving six times, one frame each,
      from an empty window: each arrival takes the window from
      `RepeatWindow(n)` to `RepeatWindow(n + 1)`, and the line is shown at the
      first arrival as it is, at the second as `line [x2]` and at the fourth
      as `line [x4]`, and not otherwise. Once it has waited three seconds it is
      evicted with the notice `line [x6]` (`SixRepeatsEvicted`). */
  lemma SixRepeatsScenario(p: ChatPacket, ownName: string, now: nat)
    requires p.username != Some(ownName)
    ensures var o := Observe([], p, ownName, now);
      o.window == RepeatWindow(p, 1, now) && o.emitted == Some(FromMinecraftEvent(p.message, p))
    ensures var o := Observe(RepeatWindow(p, 1, now), p, ownName, now);
      o.window == RepeatWindow(p, 2, now) && o.emitted == Some(FromMinecraftEvent(p.message + " [x2]", p))
    ensures var o := Observe(RepeatWindow(p, 2, now), p, ownName, now);
      o.window == RepeatWindow(p, 3, now) && o.emitted == None
    ensures var o := Observe(RepeatWindow(p, 3, now), p, ownName, now);
      o.window == RepeatWindow(p, 4, now) && o.emitted == Some(FromMinecraftEvent(p.message + " [x4]", p))
    ensures var o := Observe(RepeatWindow(p, 4, now), p, ownName, now);
      o.window == RepeatWindow(p, 5, now) && o.emitted == None
    ensures var o := Observe(RepeatWindow(p, 5, now), p, ownName, now);
      o.window == RepeatWindow(p, 6, now) && o.emitted == None
  {
    SmallRepeatNotices(p.message);
    RepeatOfOnlyEntry(p, 1, now, ownName, now);
    RepeatOfOnlyEntry(p, 2, now, ownName, now);
    RepeatOfOnlyEntry(p, 3, now, ownName, now);
    RepeatOfOnlyEntry(p, 4, now, ownName, now);
    RepeatOfOnlyEntry(p, 5, now, ownName, now);
  }

  /** The notices and power-of-two tests the six-repeat scenario needs. */
  lemma SmallRepeatNotices(m: string)
    ensures IsPowerOfTwo(2) && !IsPowerOfTwo(3) && IsPowerOfTwo(4) && !IsPowerOfTwo(5) && !IsPowerOfTwo(6)
    ensures FormatForRepeats(m, 2) == m + " [x2]" && FormatForRepeats(m, 4) == m + " [x4]"
    ensures FormatForRepeats(m, 6) == m + " [x6]"
  {
    assert Decimal(2) == "2" && Decimal(4) == "4" && Decimal(6) == "6";
  }

  /** ... and once that entry has waited three seconds, the next eviction
      takes it and gives the notice `line [x6]`. */
  lemma SixRepeatsEvicted(p: ChatPacket, now: nat)
    ensures var w := RepeatWindow(p, 6, now);
      var k := PopCount(w, now + 3 * NanosPerSecond);
      k == 1 && FinalNotices(w[..k]) == [FromMinecraftEvent(p.message + " [x6]", p)]
  {
    var w := RepeatWindow(p, 6, now);
    assert w[1..] == [] && w[..1] == w && w[..0] == [];
    assert AgeSecs(w[0], now + 3 * NanosPerSecond) == 3;
    SmallRepeatNotices(p.message);
  }

  /** Seeing again the only line of a one-entry window. */
  lemma RepeatOfOnlyEntry(p: ChatPacket, n: nat, sentAt: nat, ownName: string, now: nat)
    requires p.username != Some(ownName)
    ensures var r := Observe([RecentMessage(p.message, p, n, sentAt)], p, ownName, now);
      && r.window == [RecentMessage(p.message, p, n + 1, now)]
      && r.emitted == if IsPowerOfTwo(n + 1) then Some(FromMinecraftEvent(FormatForRepeats(p.message, n + 1), p)) else None
  {
    var w := [RecentMessage(p.message, p, n, sentAt)];
    assert w[..0] + w[1..] == [];
  }

  // ---------------------------------------------------------------------------
  // Routing requests into Minecraft
  // ---------------------------------------------------------------------------

  /** The line a request becomes: `/me <username> content`. */
  function MeCommand(username: string, content: string): string
  {
    "/me <" + username + "> " + content
  }

  /** The answer `to_minecraft` gives one request. */
  function InfoKindFor(local: Option<Entity>, username: string, content: string): BridgeInfoKind
  {
    if local.None? then NotInServer
    else if !LegalToMinecraft(MeCommand(username, content)) then IllegalMessage
    else Ack
  }

  /** A request is legal exactly when name and text together take at most
      249 bytes (the framing takes 7) and neither holds a forbidden character. */
  lemma MeCommandLegality(username: string, content: string)
    ensures LegalToMinecraft(MeCommand(username, content)) <==>
      && Utf8Len(username) + Utf8Len(content) <= 249
      && NoForbiddenChar(username) && NoForbiddenChar(content)
  {
    MeCommandBytes(username, content);
    NoForbiddenCharAppend("/me <", username);
    NoForbiddenCharAppend("/me <" + username, "> ");
    NoForbiddenCharAppend("/me <" + username + "> ", content);
    assert NoForbiddenChar("/me <") && NoForbiddenChar("> ");
  }

  /** The framing of `/me <user> text` takes seven bytes. */
  lemma MeCommandBytes(username: string, content: string)
    ensures Utf8Len(MeCommand(username, content)) == 7 + Utf8Len(username) + Utf8Len(content)
  {
    Utf8LenAppend("/me <", username);
    Utf8LenAppend("/me <" + username, "> ");
    Utf8LenAppend("/me <" + username + "> ", content);
    assert Utf8Len("/me <") == 5 && Utf8Len("> ") == 2;
  }

  /** `to_minecraft`: answer each request in order and queue the legal ones on
      the local entity. Processing stops after the first request that is not
      acknowledged. */
  method ToMinecraft<T>(events: seq<ToMinecraftEvent<T>>, local: Option<Entity>)
    returns (infos: seq<BridgeInfoEvent<T>>, sends: seq<SendChatEvent>)
    ensures |infos| <= |events| && (events != [] ==> infos != [])
    ensures forall i :: 0 <= i < |infos| ==>
      infos[i] == BridgeInfoEvent(InfoKindFor(local, events[i].username, events[i].content), events[i].context)
    ensures forall i :: 0 <= i < |infos| - 1 ==> infos[i].kind == Ack
    ensures |infos| < |events| ==> infos[|infos| - 1].kind != Ack
    ensures |sends| <= |infos|
    ensures forall i :: 0 <= i < |infos| ==> (i < |sends| <==> infos[i].kind == Ack)
    ensures forall i :: 0 <= i < |sends| ==>
      local.Some? && sends[i] == SendChatEvent(local.value, MeCommand(events[i].username, events[i].content))
  {
    infos, sends := [], [];
    var i := 0;
    while i < |events|
      invariant 0 <= i <= |events|
      invariant |infos| == i && |sends| == i
      invariant local.None? ==> i == 0
      invariant forall k :: 0 <= k < i ==> infos[k] == BridgeInfoEvent(Ack, events[k].context)
      invariant forall k :: 0 <= k < i ==> InfoKindFor(local, events[k].username, events[k].content) == Ack
      invariant forall k :: 0 <= k < i ==>
        local.Some? && sends[k] == SendChatEvent(local.value, MeCommand(events[k].username, events[k].content))
    {
      var event := events[i];
      if local.None? {
        // the bot is not on the server
        infos := infos + [BridgeInfoEvent(NotInServer, event.context)];
        return;
      }
      var entity := local.value;
      var messageContent := MeCommand(event.username, event.content);
      var chatMessageEvent := NewSendChatEvent(entity, messageContent);
      if chatMessageEvent.None? {
        infos := infos + [BridgeInfoEvent(IllegalMessage, event.context)];
        return;
      }
      infos := infos + [BridgeInfoEvent(Ack, event.context)];
      sends := sends + [chatMessageEvent.value];
      i := i + 1;
    }
  }
}
