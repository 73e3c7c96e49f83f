/**
 * The anti-kick plugin: it checks that outbound chat lines are legal for the
 * Minecraft server, queues them per bot entity, and drains each queue once per
 * fixed tick under a token bucket. The bucket's counter goes up by 20 for each
 * line sent and down by 1 every tick. The drain never lets it pass 100.
 */
module AvoidChatKick {
  import opened Wrappers
  import opened RustText

  /** An ECS entity id; the bot's local player is one such entity. */
  type Entity = nat

  /** The highest `chat_spam_tick_count` the drain lets the counter reach. */
  const SpamLimit: nat := 100
  /** What one sent line adds to `chat_spam_tick_count`. */
  const SpamPerMessage: nat := 20
  /** Longest legal chat line, in UTF-8 bytes. */
  const MaxMessageBytes: nat := 256

  /** The per-entity `AvoidChatKick` component. */
  datatype AvoidChatKick = AvoidChatKick(queuedMessages: seq<string>, chatSpamTickCount: nat)

  /** A request to queue `content` for `entity` (the plugin's own event type). */
  datatype SendChatEvent = SendChatEvent(entity: Entity, content: string)

  /** A line handed to the Minecraft client for sending (`azalea::chat::SendChatEvent`). */
  datatype ChatLine = ChatLine(entity: Entity, content: string)

  // ---------------------------------------------------------------------------
  // Legality
  // ---------------------------------------------------------------------------

  /** The control characters U+0000 to U+001F, DEL (U+007F) and the section
      sign U+00A7, which Minecraft uses as its formatting escape. */
  predicate IsForbiddenChar(c: char)
  {
    c as int <= 0x1F || c as int == 0x7F || c as int == 0xA7
  }

  predicate NoForbiddenChar(s: string)
  {
    forall i :: 0 <= i < |s| ==> !IsForbiddenChar(s[i])
  }

  /** A concatenation is free of forbidden characters iff both parts are. */
  lemma NoForbiddenCharAppend(a: string, b: string)
    ensures NoForbiddenChar(a + b) <==> NoForbiddenChar(a) && NoForbiddenChar(b)
  {
    assert forall i :: 0 <= i < |a| ==> (a + b)[i] == a[i];
    assert forall i :: 0 <= i < |b| ==> (a + b)[|a| + i] == b[i];
  }

  /** A line the server accepts: at most 256 UTF-8 bytes and no forbidden character. */
  predicate LegalToMinecraft(message: string)
  {
    Utf8Len(message) <= MaxMessageBytes && NoForbiddenChar(message)
  }

  /** `message_legal_to_minecraft`: the byte-length test, then a scan of the
      characters that stops at the first forbidden one. */
  method MessageLegalToMinecraft(message: string) returns (legal: bool)
    ensures legal <==> Utf8Len(message) <= 256 && forall i :: 0 <= i < |message| ==> !IsForbiddenChar(message[i])
    ensures legal == LegalToMinecraft(message)
  {
    if Utf8Len(message) > MaxMessageBytes {
      return false;
    }
    var i := 0;
    while i < |message|
      invariant 0 <= i <= |message|
      invariant forall j :: 0 <= j < i ==> !IsForbiddenChar(message[j])
    {
      if IsForbiddenChar(message[i]) {
        return false;
      }
      i := i + 1;
    }
    return true;
  }

  /** `SendChatEvent::new`: a request exists only for a legal line, and it
      carries the line unchanged. */
  function NewSendChatEvent(entity: Entity, content: string): (r: Option<SendChatEvent>)
    ensures r.Some? <==> LegalToMinecraft(content)
    ensures r.Some? ==> r.value.entity == entity && r.value.content == content
  {
    if LegalToMinecraft(content) then Some(SendChatEvent(entity, content)) else None
  }

  // ---------------------------------------------------------------------------
  // The token bucket of one entity
  // ---------------------------------------------------------------------------

  /** The first step of a drain tick: the counter goes down by one unless it is 0. */
  function Decay(count: nat): (d: nat)
    ensures count > 0 ==> d == count - 1
    ensures count == 0 ==> d == 0
  {
    if count > 0 then count - 1 else 0
  }

  /** How many lines one drain tick sends: what fits under the limit, and no
      more than are queued. */
  function DrainCount(s: AvoidChatKick): nat
    requires s.chatSpamTickCount <= SpamLimit
  {
    var maxDrain := (SpamLimit - Decay(s.chatSpamTickCount)) / SpamPerMessage;
    if maxDrain < |s.queuedMessages| then maxDrain else |s.queuedMessages|
  }

  /** The component after one drain tick. */
  function Drained(s: AvoidChatKick): AvoidChatKick
    requires s.chatSpamTickCount <= SpamLimit
  {
    var n := DrainCount(s);
    AvoidChatKick(s.queuedMessages[n..], Decay(s.chatSpamTickCount) + SpamPerMessage * n)
  }

  /** A drain tick keeps the counter within the limit, sends as many lines as
      the limit allows (one more would pass it), and splits the queue into the
      sent prefix and the untouched rest. */
  lemma DrainTickProperties(s: AvoidChatKick)
    requires s.chatSpamTickCount <= SpamLimit
    ensures var n := DrainCount(s); var r := Drained(s);
      && n <= |s.queuedMessages|
      && r.chatSpamTickCount == Decay(s.chatSpamTickCount) + SpamPerMessage * n
      && r.chatSpamTickCount <= SpamLimit
      && (n < |s.queuedMessages| ==> r.chatSpamTickCount + SpamPerMessage > SpamLimit)
      && s.queuedMessages[..n] + r.queuedMessages == s.queuedMessages
  {
    var d := Decay(s.chatSpamTickCount);
    var m := (SpamLimit - d) / SpamPerMessage;
    assert SpamPerMessage * m <= SpamLimit - d < SpamPerMessage * m + SpamPerMessage;
  }

  /** The lines `entity`'s drain tick hands to the client, in queue order. */
  function LinesFor(entity: Entity, messages: seq<string>): (r: seq<ChatLine>)
    ensures |r| == |messages|
    ensures forall i :: 0 <= i < |r| ==> r[i] == ChatLine(entity, messages[i])
  {
    if messages == [] then [] else LinesFor(entity, messages[..|messages| - 1]) + [ChatLine(entity, messages[|messages| - 1])]
  }

  /** Every counter is within the limit. */
  predicate WithinLimit(states: map<Entity, AvoidChatKick>)
  {
    forall e :: e in states ==> states[e].chatSpamTickCount <= SpamLimit
  }

  /** All lines a drain tick sends when the entities are visited in `order`. */
  function DrainSends(states: map<Entity, AvoidChatKick>, order: seq<Entity>): seq<ChatLine>
    requires WithinLimit(states)
    requires forall e :: e in order ==> e in states
  {
    if order == [] then []
    else
      var e := order[|order| - 1];
      DrainSends(states, order[..|order| - 1]) + LinesFor(e, states[e].queuedMessages[..DrainCount(states[e])])
  }

  lemma DrainSendsSnoc(states: map<Entity, AvoidChatKick>, order: seq<Entity>, i: nat)
    requires WithinLimit(states)
    requires forall e :: e in order ==> e in states
    requires i < |order|
    ensures DrainSends(states, order[..i + 1])
         == DrainSends(states, order[..i]) + LinesFor(order[i], states[order[i]].queuedMessages[..DrainCount(states[order[i]])])
  {
    assert order[..i + 1][..i] == order[..i];
  }

  predicate Distinct(order: seq<Entity>)
  {
    forall i, j :: 0 <= i < j < |order| ==> order[i] != order[j]
  }

  /** Part way through a drain over `order`: the first `i` entities have had
      their tick and the others are as they were. */
  ghost predicate DrainedUpTo(before: map<Entity, AvoidChatKick>, now: map<Entity, AvoidChatKick>, order: seq<Entity>, i: nat)
  {
    && WithinLimit(before)
    && i <= |order|
    && now.Keys == before.Keys
    && (forall e :: e in order <==> e in before)
    && Distinct(order)
    && (forall j :: 0 <= j < i ==> now[order[j]] == Drained(before[order[j]]))
    && (forall j :: i <= j < |order| ==> now[order[j]] == before[order[j]])
  }

  lemma DrainedUpToCurrent(before: map<Entity, AvoidChatKick>, now: map<Entity, AvoidChatKick>, order: seq<Entity>, i: nat)
    requires DrainedUpTo(before, now, order, i) && i < |order|
    ensures order[i] in now && now[order[i]] == before[order[i]]
    ensures before[order[i]].chatSpamTickCount <= SpamLimit
  {
  }

  lemma DrainedUpToStep(before: map<Entity, AvoidChatKick>, now: map<Entity, AvoidChatKick>, order: seq<Entity>, i: nat)
    requires DrainedUpTo(before, now, order, i) && i < |order|
    ensures DrainedUpTo(before, now[order[i] := Drained(before[order[i]])], order, i + 1)
  {
    var now' := now[order[i] := Drained(before[order[i]])];
    forall j | 0 <= j < |order| && j != i ensures now'[order[j]] == now[order[j]] {
      assert order[j] != order[i];
    }
  }

  lemma DrainedUpToAll(before: map<Entity, AvoidChatKick>, now: map<Entity, AvoidChatKick>, order: seq<Entity>)
    requires DrainedUpTo(before, now, order, |order|)
    ensures now.Keys == before.Keys && WithinLimit(now)
    ensures forall e :: e in now ==> now[e] == Drained(before[e])
  {
    forall e | e in now ensures now[e] == Drained(before[e]) && now[e].chatSpamTickCount <= SpamLimit {
      var j :| 0 <= j < |order| && order[j] == e;
      DrainTickProperties(before[e]);
    }
  }

  /** The scenario of a full bucket: from a counter of 0 with seven lines
      queued, one tick sends five and leaves the counter at 100; the next tick
      decays it to 99 and sends nothing. */
  lemma SevenQueuedScenario(lines: seq<string>)
    requires |lines| == 7
    ensures var s := AvoidChatKick(lines, 0);
      && DrainCount(s) == 5 && Drained(s) == AvoidChatKick(lines[5..], 100)
      && DrainCount(Drained(s)) == 0 && Drained(Drained(s)) == AvoidChatKick(lines[5..], 99)
  {
  }

  // ---------------------------------------------------------------------------
  // Enqueueing
  // ---------------------------------------------------------------------------

  /** `send_chat_listener` for one event: an entity that does not exist is
      skipped; one with a component gets the line appended; one without gets a
      new component holding just that line. */
  function Enqueue(states: map<Entity, AvoidChatKick>, entities: set<Entity>, ev: SendChatEvent): map<Entity, AvoidChatKick>
  {
    if ev.entity !in entities then states
    else if ev.entity in states then
      states[ev.entity := AvoidChatKick(states[ev.entity].queuedMessages + [ev.content], states[ev.entity].chatSpamTickCount)]
    else states[ev.entity := AvoidChatKick([ev.content], 0)]
  }

  /** The components after a batch of events, handled in order. */
  function EnqueueAll(states: map<Entity, AvoidChatKick>, entities: set<Entity>, events: seq<SendChatEvent>): map<Entity, AvoidChatKick>
  {
    if events == [] then states
    else Enqueue(EnqueueAll(states, entities, events[..|events| - 1]), entities, events[|events| - 1])
  }

  /** The lines of `events` addressed to `e`, in event order. */
  function ContentsFor(events: seq<SendChatEvent>, e: Entity): seq<string>
  {
    if events == [] then []
    else ContentsFor(events[..|events| - 1], e) + (if events[|events| - 1].entity == e then [events[|events| - 1].content] else [])
  }

  /** The queue of `e`, empty when `e` has no component. */
  function QueueOf(states: map<Entity, AvoidChatKick>, e: Entity): seq<string>
  {
    if e in states then states[e].queuedMessages else []
  }

  /** After a batch, every existing entity's queue is its old queue followed
      by the lines addressed to it, in order; its counter is what it was, or 0
      for a component the batch created; a component exists afterwards exactly
      when it existed before or the batch addressed its existing entity; and a
      non-existent entity gets nothing. */
  lemma {:induction false} EnqueueAllAppends(states: map<Entity, AvoidChatKick>, entities: set<Entity>, events: seq<SendChatEvent>, e: Entity)
    ensures var r := EnqueueAll(states, entities, events);
      && (e in r <==> e in states || (e in entities && ContentsFor(events, e) != []))
      && (e in entities ==> QueueOf(r, e) == QueueOf(states, e) + ContentsFor(events, e))
      && (e !in entities ==> QueueOf(r, e) == QueueOf(states, e))
      && (e in r ==> r[e].chatSpamTickCount == if e in states then states[e].chatSpamTickCount else 0)
  {
    if events != [] {
      EnqueueAllAppends(states, entities, events[..|events| - 1], e);
    }
  }

  /** A batch never creates or raises a counter, so the limit survives it. */
  lemma {:induction false} EnqueueAllKeepsLimit(states: map<Entity, AvoidChatKick>, entities: set<Entity>, events: seq<SendChatEvent>)
    requires forall e :: e in states ==> states[e].chatSpamTickCount <= SpamLimit
    requires states.Keys <= entities
    ensures var r := EnqueueAll(states, entities, events);
      r.Keys <= entities && forall e :: e in r ==> r[e].chatSpamTickCount <= SpamLimit
  {
    if events != [] {
      EnqueueAllKeepsLimit(states, entities, events[..|events| - 1]);
    }
  }

  /** One entity's share of `drain_chat_message_queue`: decay the counter,
      size the drain by the headroom left under the limit, charge for it, and
      hand over that many lines from the front of the queue. */
  method DrainOne(entity: Entity, state: AvoidChatKick) returns (next: AvoidChatKick, sent: seq<ChatLine>)
    requires state.chatSpamTickCount <= SpamLimit
    ensures next == Drained(state)
    ensures sent == LinesFor(entity, state.queuedMessages[..DrainCount(state)])
    ensures next.chatSpamTickCount <= SpamLimit
  {
    var count := Decay(state.chatSpamTickCount);
    // the subtraction cannot go below zero because the counter is within the limit
    var headroom: nat := SpamLimit - count;
    var maxDrain := headroom / SpamPerMessage;
    var len := if maxDrain < |state.queuedMessages| then maxDrain else |state.queuedMessages|;
    count := count + len * SpamPerMessage;
    sent := [];
    var k := 0;
    while k < len
      invariant 0 <= k <= len
      invariant sent == LinesFor(entity, state.queuedMessages[..k])
    {
      assert state.queuedMessages[..k + 1][..k] == state.queuedMessages[..k];
      sent := sent + [ChatLine(entity, state.queuedMessages[k])];
      k := k + 1;
    }
    next := AvoidChatKick(state.queuedMessages[len..], count);
    DrainTickProperties(state);
  }

  // ---------------------------------------------------------------------------
  // The plugin's state
  // ---------------------------------------------------------------------------

  /** The entities of the world and the `AvoidChatKick` components attached to them. */
  class AvoidKick {
    var entities: set<Entity>
    var states: map<Entity, AvoidChatKick>

    /** Components belong to existing entities and no counter passes the limit. */
    ghost predicate Valid()
      reads this
    {
      states.Keys <= entities && WithinLimit(states)
    }

    constructor (entities: set<Entity>)
      ensures Valid() && this.entities == entities && states == map[]
    {
      this.entities := entities;
      states := map[];
    }

    /** `send_chat_listener`: queue each event's line on its entity. */
    method SendChatListener(events: seq<SendChatEvent>)
      requires Valid()
      modifies this
      ensures Valid() && entities == old(entities)
      ensures states == EnqueueAll(old(states), entities, events)
    {
      var i := 0;
      while i < |events|
        invariant 0 <= i <= |events|
        invariant entities == old(entities)
        invariant states == EnqueueAll(old(states), entities, events[..i])
      {
        assert events[..i + 1][..i] == events[..i];
        var ev := events[i];
        if ev.entity in entities {
          if ev.entity in states {
            var state := states[ev.entity];
            states := states[ev.entity := AvoidChatKick(state.queuedMessages + [ev.content], state.chatSpamTickCount)];
          } else {
            states := states[ev.entity := AvoidChatKick([ev.content], 0)];
          }
        }
        i := i + 1;
      }
      assert events[..i] == events;
      EnqueueAllKeepsLimit(old(states), entities, events);
    }

    /** `drain_chat_message_queue`: one fixed tick for every component, visited
        in `order` (the query's iteration order). */
    method DrainChatMessageQueue(order: seq<Entity>) returns (sent: seq<ChatLine>)
      requires Valid()
      requires Distinct(order)
      requires forall e :: e in order <==> e in states
      modifies this
      ensures Valid() && entities == old(entities) && states.Keys == old(states).Keys
      ensures forall e :: e in states ==> states[e] == Drained(old(states)[e])
      ensures sent == DrainSends(old(states), order)
    {
      sent := [];
      var i := 0;
      while i < |order|
        invariant 0 <= i <= |order|
        invariant entities == old(entities)
        invariant DrainedUpTo(old(states), states, order, i)
        invariant sent == DrainSends(old(states), order[..i])
      {
        var entity := order[i];
        DrainedUpToCurrent(old(states), states, order, i);
        var state, lines := DrainOne(entity, states[entity]);
        sent := sent + lines;
        DrainedUpToStep(old(states), states, order, i);
        states := states[entity := state];
        DrainSendsSnoc(old(states), order, i);
        i := i + 1;
      }
      assert order[..i] == order;
      DrainedUpToAll(old(states), states, order);
    }
  }
}
