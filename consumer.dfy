/** `callback`: format the inbound record, publish the result to the Slack
    sender's routing key, and only then acknowledge the inbound delivery. */
module Consumer {
  import opened Wrappers
  import opened Records
  import opened Formatter

  const EXCHANGE := "regner"
  const ROUTING_KEY := "slack.send.webhook"
  /** AMQP delivery mode 2: the broker keeps the message on disk. */
  const PERSISTENT := 2

  /** The inbound message body, already decoded from JSON. */
  datatype Envelope = Envelope(zkbData: ZkbData, kill: bool, webhook: string)

  /** The outbound message body, before it is encoded as JSON. */
  datatype Outbound = Outbound(webhook: string, message: Payload)

  /** What the service asks of the broker. */
  datatype Event =
    | Publish(exchange: string, routingKey: string, body: Outbound, deliveryMode: int)
    | Ack(deliveryTag: nat)

  /** How one callback ends: acknowledged, or with the exception that stopped it. */
  datatype Outcome = Acked | FormatFailed(error: FormatError) | PublishFailed | AckFailed

  /** The broker channel, seen through the requests it has carried out.
      `budget` is how many more requests the connection carries out before it
      drops; a request made after that raises and never reaches the broker. The
      connection can therefore drop between any two requests, in particular
      between a publish and the acknowledgement that follows it. */
  class Channel {
    var budget: nat
    var events: seq<Event>

    constructor (budget: nat)
      ensures this.budget == budget && events == []
    {
      this.budget := budget;
      events := [];
    }

    method BasicPublish(exchange: string, routingKey: string, body: Outbound, deliveryMode: int) returns (ok: bool)
      modifies this
      ensures ok == (old(budget) > 0)
      ensures budget == if ok then old(budget) - 1 else old(budget)
      ensures events == old(events) + (if ok then [Publish(exchange, routingKey, body, deliveryMode)] else [])
    {
      ok := budget > 0;
      if ok {
        events := events + [Publish(exchange, routingKey, body, deliveryMode)];
        budget := budget - 1;
      }
    }

    method BasicAck(deliveryTag: nat) returns (ok: bool)
      modifies this
      ensures ok == (old(budget) > 0)
      ensures budget == if ok then old(budget) - 1 else old(budget)
      ensures events == old(events) + (if ok then [Ack(deliveryTag)] else [])
    {
      ok := budget > 0;
      if ok {
        events := events + [Ack(deliveryTag)];
        budget := budget - 1;
      }
    }
  }

  /** The requests one callback gets carried out by a connection that still
      carries out `budget` of them. */
  function CallbackEvents(env: Envelope, deliveryTag: nat, imageLink: ImageLink, budget: nat): seq<Event>
  {
    match FormatKillmailMessage(env.zkbData, env.kill, imageLink)
    case Err(_) => []
    case Ok(message) =>
      var publish := Publish(EXCHANGE, ROUTING_KEY, Outbound(env.webhook, message), PERSISTENT);
      if budget == 0 then []
      else if budget == 1 then [publish]
      else [publish, Ack(deliveryTag)]
  }

  /** Handles one delivery: format, publish, then acknowledge. Whatever raises
      ends the callback, and what was carried out before stays carried out. */
  method Callback(ch: Channel, env: Envelope, deliveryTag: nat, imageLink: ImageLink) returns (outcome: Outcome)
    modifies ch
    ensures ch.events == old(ch.events) + CallbackEvents(env, deliveryTag, imageLink, old(ch.budget))
    ensures ch.budget == old(ch.budget) - |CallbackEvents(env, deliveryTag, imageLink, old(ch.budget))|
    ensures outcome == match FormatKillmailMessage(env.zkbData, env.kill, imageLink)
      case Err(e) => FormatFailed(e)
      case Ok(_) => if old(ch.budget) == 0 then PublishFailed else if old(ch.budget) == 1 then AckFailed else Acked
    ensures AcksFollowPublishes(old(ch.events)) ==> AcksFollowPublishes(ch.events)
  {
    var formatted := FormatKillmailMessage(env.zkbData, env.kill, imageLink);
    if formatted.Err? {
      return FormatFailed(formatted.error);
    }
    var payload := Outbound(env.webhook, formatted.value);
    var published := ch.BasicPublish(EXCHANGE, ROUTING_KEY, payload, PERSISTENT);
    if !published {
      return PublishFailed;
    }
    var acked := ch.BasicAck(deliveryTag);
    outcome := if acked then Acked else AckFailed;
    if AcksFollowPublishes(old(ch.events)) {
      CallbackKeepsAcksAfterPublishes(old(ch.events), env, deliveryTag, imageLink, old(ch.budget));
    }
  }

  /** One callback acknowledges its delivery only right after publishing exactly
      the formatter's message, addressed to the inbound webhook, persistently, to
      regner/slack.send.webhook; when formatting fails it makes no request. The
      acknowledgement happens exactly when formatting succeeds and the
      connection lasts for both requests. */
  lemma CallbackPublishesThenAcks(env: Envelope, deliveryTag: nat, imageLink: ImageLink, budget: nat)
    ensures var r := CallbackEvents(env, deliveryTag, imageLink, budget);
      var f := FormatKillmailMessage(env.zkbData, env.kill, imageLink);
      && |r| <= 2
      && (f.Err? ==> r == [])
      && (r != [] ==> f.Ok? && r[0] == Publish("regner", "slack.send.webhook", Outbound(env.webhook, f.value), 2))
      && (forall i :: 0 <= i < |r| && r[i].Ack? ==> i == 1 && r[i] == Ack(deliveryTag))
      && (Ack(deliveryTag) in r <==> f.Ok? && budget >= 2)
  {
  }

  /** At-least-once delivery: when the connection drops between the publish and
      the acknowledgement, the message is out but the delivery stays
      unacknowledged, and handling its redelivery publishes the same message a
      second time. */
  lemma RedeliveryPublishesTwice(env: Envelope, firstTag: nat, secondTag: nat, imageLink: ImageLink, budget: nat)
    requires |env.zkbData.killmail.attackers| > 0
    requires budget >= 2
    ensures var first := CallbackEvents(env, firstTag, imageLink, 1);
      var second := CallbackEvents(env, secondTag, imageLink, budget);
      && |first| == 1 && first[0].Publish?
      && second == first + [Ack(secondTag)]
  {
  }

  /** A broker log in which every acknowledgement comes right after a publish. */
  ghost predicate AcksFollowPublishes(t: seq<Event>)
  {
    forall i :: 0 <= i < |t| && t[i].Ack? ==> 0 < i && t[i - 1].Publish?
  }

  /** Callbacks never acknowledge a delivery without the publish just before it,
      however the connection fails. */
  lemma CallbackKeepsAcksAfterPublishes(t: seq<Event>, env: Envelope, deliveryTag: nat, imageLink: ImageLink, budget: nat)
    requires AcksFollowPublishes(t)
    ensures AcksFollowPublishes(t + CallbackEvents(env, deliveryTag, imageLink, budget))
  {
    var r := CallbackEvents(env, deliveryTag, imageLink, budget);
    var t' := t + r;
    forall i | 0 <= i < |t'| && t'[i].Ack?
      ensures 0 < i && t'[i - 1].Publish?
    {
      if i < |t| {
        assert t'[i] == t[i] && t'[i - 1] == t[i - 1];
      } else {
        assert r[i - |t|].Ack?;
        assert i - |t| == 1;
        assert t'[i - 1] == r[0];
      }
    }
  }
}
