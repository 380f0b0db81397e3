/** The fraud consumer's queues: parsing, the once-only key, retries through wait queues, and
    the dead-letter queue. */
module FraudRetry {
  import opened Basics

  datatype RoutingKey = FundsWithdrawnKey | TransferCompletedKey | Unsupported(code: nat)

  type EventKey = int

  const MAX_ATTEMPTS: nat := 3
  const DELAYS: seq<nat> := [1000, 2000, 4000]

  /** A wait queue is declared for each delay and supported key; it dead-letters to the main
      exchange under that key. */
  datatype WaitQueue = WaitQueue(delay: nat, key: RoutingKey)

  predicate Supported(key: RoutingKey) {
    key in {FundsWithdrawnKey, TransferCompletedKey}
  }

  predicate Declared(q: WaitQueue) {
    q.delay in DELAYS && Supported(q.key)
  }

  datatype Place =
    | Main
    | Waiting(queue: WaitQueue)
    | Processed
    | Duplicate
    | DeadLettered
    | Lost                      // sent to a queue that does not exist, or dead-lettered to nobody

  datatype Message = Message(
    event: EventKey,
    parses: bool,
    routing: Option<RoutingKey>,
    retries: nat,
    place: Place,
    handled: nat)

  datatype Luck = Fine | KeyStoreThrows | CheckThrows

  datatype Consumer = Consumer(msgs: map<nat, Message>, keys: set<EventKey>, starts: seq<EventKey>)

  datatype Action =
    | Publish(id: nat, event: EventKey, parses: bool, routing: Option<RoutingKey>, header: nat)
    | Deliver(id: nat, luck: Luck)
    | WaitOver(id: nat)
    | KeyExpires(event: EventKey)

  // ---- what the consumer does with one message ----

  function Delay(retries: nat): nat {
    if retries < |DELAYS| then DELAYS[retries] else DELAYS[|DELAYS| - 1]
  }

  function AfterError(m: Message): Message {
    if m.retries >= MAX_ATTEMPTS then m.(place := DeadLettered)
    else if m.routing.None? || !Supported(m.routing.value) then m.(place := DeadLettered)
    else m.(place := Waiting(WaitQueue(Delay(m.retries), m.routing.value)), retries := m.retries + 1)
  }

  predicate Starts(m: Message, keys: set<EventKey>, luck: Luck) {
    m.parses && luck != KeyStoreThrows && m.event !in keys
  }

  function Handled(m0: Message, keys: set<EventKey>, luck: Luck): Message {
    var m := m0.(handled := m0.handled + 1);
    if !m.parses then m.(place := DeadLettered)
    else if luck == KeyStoreThrows then AfterError(m)
    else if m.event in keys then m.(place := Duplicate)
    else if luck == CheckThrows then AfterError(m)
    else m.(place := Processed)
  }

  /** Back to the main queue, under the routing key its wait queue dead-letters with. */
  function Returned(m: Message): Message
    requires m.place.Waiting?
  {
    if !Declared(m.place.queue) then m.(place := Lost)
    else m.(place := Main, routing := Some(m.place.queue.key))
  }

  function Step(s: Consumer, a: Action): Consumer {
    match a
    case Publish(id, event, parses, routing, header) =>
      if id in s.msgs then s else s.(msgs := s.msgs[id := Message(event, parses, routing, header, Main, 0)])
    case Deliver(id, luck) =>
      if id !in s.msgs || s.msgs[id].place != Main then s
      else
        var m := s.msgs[id];
        var started := Starts(m, s.keys, luck);
        Consumer(s.msgs[id := Handled(m, s.keys, luck)],
                 if started then s.keys + {m.event} else s.keys,
                 if started then s.starts + [m.event] else s.starts)
    case WaitOver(id) =>
      if id !in s.msgs || !s.msgs[id].place.Waiting? then s
      else s.(msgs := s.msgs[id := Returned(s.msgs[id])])
    case KeyExpires(event) => s.(keys := s.keys - {event})
  }

  function Run(s: Consumer, actions: seq<Action>): Consumer
    decreases |actions|
  {
    if actions == [] then s else Step(Run(s, actions[..|actions| - 1]), actions[|actions| - 1])
  }

  const IDLE := Consumer(map[], {}, [])

  // ---- every message ends ----

  /** How often a message can still be handled. */
  function Chances(m: Message): nat {
    if m.place == Main || m.place.Waiting? then 1 + (if m.retries < MAX_ATTEMPTS then MAX_ATTEMPTS - m.retries else 0)
    else 0
  }

  predicate AtEnd(m: Message) {
    m.place == Processed || m.place == Duplicate || m.place == DeadLettered
  }

  ghost predicate MsgOk(m: Message) {
    && (m.place == Main || m.place.Waiting? || AtEnd(m))
    && m.handled + Chances(m) <= 1 + MAX_ATTEMPTS
    && (m.place.Waiting? ==> Declared(m.place.queue) && m.routing == Some(m.place.queue.key))
  }

  ghost predicate MsgsOk(s: Consumer) {
    forall id <- s.msgs :: MsgOk(s.msgs[id])
  }

  lemma HandledOk(m: Message, keys: set<EventKey>, luck: Luck)
    requires MsgOk(m) && m.place == Main
    ensures MsgOk(Handled(m, keys, luck))
  {
    assert m.retries < MAX_ATTEMPTS ==> Delay(m.retries) in DELAYS by {
      assert DELAYS[0] in DELAYS && DELAYS[1] in DELAYS && DELAYS[2] in DELAYS;
    }
  }

  lemma StepOk(s: Consumer, a: Action)
    requires MsgsOk(s)
    ensures MsgsOk(Step(s, a))
  {
    if a.Deliver? && a.id in s.msgs && s.msgs[a.id].place == Main {
      HandledOk(s.msgs[a.id], s.keys, a.luck);
    }
  }

  /** In every run each message is handled at most four times; it is always queued, waiting or at
      one of its three ends, and never sent to a queue that is not there; while it waits, its
      queue leads back under the routing key it came with. */
  lemma {:induction false} HandledAtMostFourTimes(actions: seq<Action>)
    ensures MsgsOk(Run(IDLE, actions))
    ensures forall id <- Run(IDLE, actions).msgs ::
              Run(IDLE, actions).msgs[id].handled <= 4 && Run(IDLE, actions).msgs[id].place != Lost
    decreases |actions|
  {
    if actions != [] {
      HandledAtMostFourTimes(actions[..|actions| - 1]);
      StepOk(Run(IDLE, actions[..|actions| - 1]), actions[|actions| - 1]);
    }
  }

  function Work(m: Message): nat {
    2 * Chances(m) + (if m.place.Waiting? then 1 else 0)
  }

  /** A message that has ended is left alone; any other has a step, and each of its steps brings
      it closer to its end and keeps its routing key. */
  lemma EveryStepCounts(s: Consumer, a: Action, id: nat)
    requires MsgsOk(s) && id in s.msgs
    ensures var m, m' := s.msgs[id], Step(s, a).msgs[id];
            && (AtEnd(m) ==> m' == m)
            && (m' != m ==> Work(m') < Work(m) && m'.routing == m.routing && m'.event == m.event)
    ensures var m, m' := s.msgs[id], Step(s, a).msgs[id];
            && (!AtEnd(m) ==> m.place == Main || m.place.Waiting?)
            && (m.place == Main && a.Deliver? && a.id == id ==> m' != m)
            && (m.place.Waiting? && a == WaitOver(id) ==> m' != m)
  {
    assert MsgOk(s.msgs[id]);
    if a.Deliver? && a.id == id && s.msgs[id].place == Main {
      HandledOk(s.msgs[id], s.keys, a.luck);
      assert Step(s, a).msgs[id].handled == s.msgs[id].handled + 1;
    }
  }

  /** The verdict on one delivery, and when each comes: unparsed or out of retries to the dead letters, seen
      before as a duplicate, checked as processed, and otherwise once more, after one second, then two,
      then four, under the same routing key. */
  lemma VerdictExactly(m: Message, keys: set<EventKey>, luck: Luck)
    ensures var m' := Handled(m, keys, luck);
            var fails := luck == KeyStoreThrows || (luck == CheckThrows && m.event !in keys);
            var again := m.retries < 3 && m.routing.Some? && m.routing.value in {FundsWithdrawnKey, TransferCompletedKey};
            && (m'.place == DeadLettered <==> !m.parses || (fails && !again))
            && (m'.place == Duplicate <==> m.parses && luck != KeyStoreThrows && m.event in keys)
            && (m'.place == Processed <==> m.parses && luck == Fine && m.event !in keys)
            && (m'.place.Waiting? <==> m.parses && fails && again)
            && (m'.place.Waiting? ==>
                  && m'.retries == m.retries + 1
                  && m'.place.queue.key == m.routing.value
                  && m'.place.queue.delay == (if m.retries == 0 then 1000 else if m.retries == 1 then 2000 else 4000))
            && (!m'.place.Waiting? ==> m'.retries == m.retries)
            && m'.handled == m.handled + 1
            && m'.event == m.event && m'.parses == m.parses && m'.routing == m.routing
  {
  }

  /** A message on its n-th retry, and in the wait before the next. */
  function Queued(event: EventKey, key: RoutingKey, n: nat): Consumer {
    Consumer(map[0 := Message(event, true, Some(key), n, Main, n)], {}, [])
  }

  lemma OneMoreTry(event: EventKey, key: RoutingKey, n: nat)
    requires Supported(key) && n < 3
    ensures Step(Step(Queued(event, key, n), Deliver(0, KeyStoreThrows)), WaitOver(0)) == Queued(event, key, n + 1)
  {
    VerdictExactly(Message(event, true, Some(key), n, Main, n), {}, KeyStoreThrows);
    var waiting := Handled(Message(event, true, Some(key), n, Main, n), {}, KeyStoreThrows);
    assert Step(Queued(event, key, n), Deliver(0, KeyStoreThrows)) == Consumer(map[0 := waiting], {}, []);
    assert DELAYS[0] in DELAYS && DELAYS[1] in DELAYS && DELAYS[2] in DELAYS;
  }

  lemma Later(before: seq<Action>, a: Action) returns (longer: seq<Action>)
    ensures longer == before + [a] && Run(IDLE, longer) == Step(Run(IDLE, before), a)
  {
    longer := before + [a];
    assert longer[..|before|] == before;
  }

  lemma {:induction false} ThrowsAgain(event: EventKey, key: RoutingKey, n: nat) returns (actions: seq<Action>)
    requires Supported(key) && n <= 3
    ensures Run(IDLE, actions) == Queued(event, key, n)
  {
    if n == 0 {
      actions := Later([], Publish(0, event, true, Some(key), 0));
    } else {
      actions := ThrowsAgain(event, key, n - 1);
      actions := Later(actions, Deliver(0, KeyStoreThrows));
      actions := Later(actions, WaitOver(0));
      OneMoreTry(event, key, n - 1);
    }
  }

  /** A message whose handling always throws is handled four times and then dead-lettered, unchecked. */
  lemma GivesUp(event: EventKey, key: RoutingKey) returns (actions: seq<Action>)
    requires Supported(key)
    ensures var s := Run(IDLE, actions);
            && s.starts == [] && 0 in s.msgs && s.msgs[0].place == DeadLettered && s.msgs[0].handled == 4
  {
    actions := ThrowsAgain(event, key, 3);
    actions := Later(actions, Deliver(0, KeyStoreThrows));
  }

  // ---- checks start once ----

  function Count(starts: seq<EventKey>, event: EventKey): nat {
    if starts == [] then 0
    else Count(starts[..|starts| - 1], event) + (if starts[|starts| - 1] == event then 1 else 0)
  }

  function Expiries(actions: seq<Action>, event: EventKey): nat {
    if actions == [] then 0
    else Expiries(actions[..|actions| - 1], event) + (if actions[|actions| - 1] == KeyExpires(event) then 1 else 0)
  }

  lemma CountStep(s: Consumer, a: Action, event: EventKey)
    ensures var s' := Step(s, a);
            Count(s'.starts, event) + (if event in s'.keys then 0 else 1)
            <= Count(s.starts, event) + (if event in s.keys then 0 else 1) + (if a == KeyExpires(event) then 1 else 0)
  {
    var s' := Step(s, a);
    if s'.starts != s.starts {
      assert s'.starts[..|s'.starts| - 1] == s.starts;
    }
  }

  /** The checks of an event start at most once for each life of its key, however many messages
      carry it and however often they are retried. */
  lemma {:induction false} ChecksStartOnce(actions: seq<Action>, event: EventKey)
    ensures var s := Run(IDLE, actions);
            Count(s.starts, event) + (if event in s.keys then 0 else 1) <= 1 + Expiries(actions, event)
    decreases |actions|
  {
    if actions != [] {
      ChecksStartOnce(actions[..|actions| - 1], event);
      CountStep(Run(IDLE, actions[..|actions| - 1]), actions[|actions| - 1], event);
    }
  }

  lemma UncheckedStep(t: Consumer, a: Action, id: nat)
    requires id in t.msgs && t.msgs[id].event in t.keys && t.msgs[id].place != Processed
    requires a != KeyExpires(t.msgs[id].event)
    ensures var t' := Step(t, a);
            && id in t'.msgs && t'.msgs[id].event == t.msgs[id].event && t'.msgs[id].event in t'.keys
            && t'.msgs[id].place != Processed
            && Count(t'.starts, t'.msgs[id].event) == Count(t.starts, t.msgs[id].event)
  {
    var t' := Step(t, a);
    if t'.starts != t.starts {
      assert t'.starts[..|t'.starts| - 1] == t.starts;
    }
  }

  /** The other side of it: once the checks have started, a retry cannot repeat them. While the
      key lives, no message of the event that was not processed before is processed later:
      if the checks threw, it ends acknowledged as a duplicate, or dead-lettered. */
  lemma {:induction false} FailedChecksAreNotRepeated(s: Consumer, actions: seq<Action>, id: nat)
    requires id in s.msgs && s.msgs[id].event in s.keys && s.msgs[id].place != Processed
    requires Expiries(actions, s.msgs[id].event) == 0
    ensures var t := Run(s, actions);
            && id in t.msgs && t.msgs[id].event == s.msgs[id].event && t.msgs[id].event in t.keys
            && t.msgs[id].place != Processed
            && Count(t.starts, t.msgs[id].event) == Count(s.starts, t.msgs[id].event)
    decreases |actions|
  {
    if actions != [] {
      var before := actions[..|actions| - 1];
      FailedChecksAreNotRepeated(s, before, id);
      UncheckedStep(Run(s, before), actions[|actions| - 1], id);
    }
  }

  // ---- which events get through ----

  predicate Got(s: Consumer, event: EventKey) {
    exists id <- s.msgs :: s.msgs[id].event == event && s.msgs[id].place == Processed
  }

  /** This delivery starts the event's checks, and they go through. */
  predicate ChecksPass(s: Consumer, a: Action, event: EventKey) {
    && a.Deliver? && a.id in s.msgs && s.msgs[a.id].place == Main && s.msgs[a.id].event == event
    && Starts(s.msgs[a.id], s.keys, a.luck) && a.luck == Fine
  }

  predicate EverPass(actions: seq<Action>, event: EventKey)
    decreases |actions|
  {
    actions != [] &&
    var before, a := actions[..|actions| - 1], actions[|actions| - 1];
    EverPass(before, event) || ChecksPass(Run(IDLE, before), a, event)
  }

  lemma GotStep(s: Consumer, a: Action, event: EventKey)
    ensures Got(Step(s, a), event) <==> Got(s, event) || ChecksPass(s, a, event)
  {
    var s' := Step(s, a);
    if ChecksPass(s, a, event) {
      assert s'.msgs[a.id].event == event && s'.msgs[a.id].place == Processed;
    }
    if id :| id in s.msgs && s.msgs[id].event == event && s.msgs[id].place == Processed {
      assert id in s'.msgs && s'.msgs[id] == s.msgs[id];
    }
    if id :| id in s'.msgs && s'.msgs[id].event == event && s'.msgs[id].place == Processed {
      assert id in s.msgs && s.msgs[id].event == event;
      assert s.msgs[id].place == Processed || a.id == id;
    }
  }

  /** Over every run an event gets through to the end of its checks, in whichever of its messages,
      exactly when one of the deliveries that start the checks meets no error. Retries alone
      never help. */
  lemma {:induction false} ProcessedExactly(actions: seq<Action>, event: EventKey)
    ensures Got(Run(IDLE, actions), event) <==> EverPass(actions, event)
    decreases |actions|
  {
    if actions != [] {
      var before, a := actions[..|actions| - 1], actions[|actions| - 1];
      ProcessedExactly(before, event);
      GotStep(Run(IDLE, before), a, event);
    }
  }

  /** What happened at the first delivery that started the event's checks. */
  function FirstStart(actions: seq<Action>, event: EventKey): Option<Luck>
    decreases |actions|
  {
    if actions == [] then None
    else
      var before, a := actions[..|actions| - 1], actions[|actions| - 1];
      var s := Run(IDLE, before);
      if FirstStart(before, event).Some? then FirstStart(before, event)
      else if a.Deliver? && a.id in s.msgs && s.msgs[a.id].place == Main && s.msgs[a.id].event == event
              && Starts(s.msgs[a.id], s.keys, a.luck) then Some(a.luck)
      else None
  }

  /** As long as the key does not expire, that delivery decides: the event gets through if and only if it
      met no error, whatever is delivered later. */
  lemma {:induction false} FirstDeliveryDecides(actions: seq<Action>, event: EventKey)
    requires Expiries(actions, event) == 0
    ensures var s := Run(IDLE, actions);
            && (event in s.keys <==> FirstStart(actions, event).Some?)
            && (Got(s, event) <==> FirstStart(actions, event) == Some(Fine))
    decreases |actions|
  {
    if actions != [] {
      var before, a := actions[..|actions| - 1], actions[|actions| - 1];
      FirstDeliveryDecides(before, event);
      GotStep(Run(IDLE, before), a, event);
    }
  }

  /** Published with no header, its checks thrown out of, and in its first wait queue. */
  function Postponed(event: EventKey, key: RoutingKey): Consumer {
    Consumer(map[0 := Message(event, true, Some(key), 1, Waiting(WaitQueue(1000, key)), 1)], {event}, [event])
  }

  lemma ThrowsOnce(event: EventKey, key: RoutingKey)
    requires Supported(key)
    ensures Step(Step(IDLE, Publish(0, event, true, Some(key), 0)), Deliver(0, CheckThrows)) == Postponed(event, key)
  {
    var m := Message(event, true, Some(key), 0, Main, 0);
    assert Step(IDLE, Publish(0, event, true, Some(key), 0)) == Consumer(map[0 := m], {}, []);
    assert [] + [event] == [event] && {} + {event} == {event};
  }

  lemma ComesBack(event: EventKey, key: RoutingKey)
    requires Supported(key)
    ensures Step(Step(Postponed(event, key), WaitOver(0)), Deliver(0, Fine))
         == Consumer(map[0 := Message(event, true, Some(key), 1, Duplicate, 2)], {event}, [event])
  {
    assert DELAYS[0] in DELAYS;
    assert Step(Postponed(event, key), WaitOver(0))
        == Consumer(map[0 := Message(event, true, Some(key), 1, Main, 1)], {event}, [event]);
  }

  /** A supported message whose checks throw once: it waits, is delivered again with nothing wrong,
      and is acknowledged as a duplicate of itself. Nobody has checked the event. */
  lemma CheckedByNobody(event: EventKey, key: RoutingKey) returns (actions: seq<Action>)
    requires Supported(key)
    ensures var s := Run(IDLE, actions);
            && 0 in s.msgs && s.msgs[0].event == event && s.msgs[0].place == Duplicate && s.msgs[0].handled == 2
            && s.starts == [event] && !Got(s, event)
  {
    ThrowsOnce(event, key);
    ComesBack(event, key);
    actions := Later([], Publish(0, event, true, Some(key), 0));
    actions := Later(actions, Deliver(0, CheckThrows));
    actions := Later(actions, WaitOver(0));
    actions := Later(actions, Deliver(0, Fine));
  }

  // ---- the consumer, in the code's steps ----

  class Channel {
    var acked: bool
    var nacked: bool
    var sent: Option<(WaitQueue, nat)>

    constructor ()
      ensures !acked && !nacked && sent == None
    {
      acked, nacked, sent := false, false, None;
    }
  }

  class KeyStore {
    var keys: set<EventKey>

    constructor ()
      ensures keys == {}
    {
      keys := {};
    }
  }

  class FraudDetectionConsumer {
    const store: KeyStore

    constructor (store: KeyStore)
      ensures this.store == store
    {
      this.store := store;
    }

    /** Where the channel operations leave the message: one verdict each time. */
    ghost predicate Settles(channel: Channel, before: Message, after: Message)
      reads channel
    {
      match after.place
      case Waiting(q) => channel.acked && !channel.nacked && channel.sent == Some((q, after.retries))
      case DeadLettered => !channel.acked && channel.nacked && channel.sent == None
      case _ => channel.acked && !channel.nacked && channel.sent == None
    }

    /** Handle one delivery. `started` says whether the checks began. A message that does not parse, or that
        throws and cannot be retried, is rejected; one that throws and can be is acknowledged and sent
        again; every other is acknowledged. */
    method HandleMessage(m: Message, channel: Channel, luck: Luck) returns (started: bool)
      requires m.place == Main
      requires !channel.acked && !channel.nacked && channel.sent == None
      modifies channel, store
      ensures Settles(channel, m, Handled(m, old(store.keys), luck))
      ensures started == Starts(m, old(store.keys), luck)
      ensures store.keys == if started then old(store.keys) + {m.event} else old(store.keys)
      ensures var throws := luck == KeyStoreThrows || (luck == CheckThrows && m.event !in old(store.keys));
              var again := m.retries < 3 && m.routing.Some? && Supported(m.routing.value);
              && channel.acked != channel.nacked
              && (channel.nacked <==> !m.parses || (throws && !again))
              && (channel.sent.Some? <==> m.parses && throws && again)
    {
      started := false;
      if !m.parses {
        channel.nacked := true;
        return;
      }
      if luck == KeyStoreThrows {
        HandleProcessingError(m, channel);
        return;
      }
      if m.event in store.keys {
        channel.acked := true;
        return;
      }
      store.keys := store.keys + {m.event};
      started := true;
      if luck == CheckThrows {
        HandleProcessingError(m, channel);
        return;
      }
      channel.acked := true;
    }

    method HandleProcessingError(m: Message, channel: Channel)
      requires m.place == Main
      requires !channel.acked && !channel.nacked && channel.sent == None
      modifies channel
      ensures Settles(channel, m, AfterError(m))
    {
      if m.retries < MAX_ATTEMPTS {
        if m.routing.None? || !Supported(m.routing.value) {
          channel.nacked := true;
          return;
        }
        var delay := Delay(m.retries);
        channel.sent := Some((WaitQueue(delay, m.routing.value), m.retries + 1));
        channel.acked := true;
      } else {
        channel.nacked := true;
      }
    }
  }
}
