/**
 * The HTTP side of the event relay (src/microservices/events/index.js,
 * lines 48-73): three POST routes that each publish the request body to one
 * topic and acknowledge with 201 once the broker has taken it, and a health
 * route that answers without looking at the broker.
 *
 * The broker is not modelled: whether producer.send resolves is the parameter
 * `delivered` (false when it rejects, for instance before the producer has
 * connected). JSON.stringify is not modelled either: a message value is the
 * body it encodes, which makes the encoding injective.
 */
module EventRoutes {
  import opened Wrappers
  import opened EventTopics

  /** A parsed JSON request or response body. */
  datatype Json =
    | JNull
    | JBool(b: bool)
    | JNumber(n: int)
    | JString(s: string)
    | JArray(items: seq<Json>)
    | JObject(members: seq<(string, Json)>)

  /** JSON.stringify(data), kept as the body it encodes. */
  datatype MessageValue = Stringified(body: Json)

  datatype Message = Message(value: MessageValue)

  /** The argument of producer.send: a topic name and its messages. */
  datatype ProducerRecord = ProducerRecord(topic: string, messages: seq<Message>)

  datatype Verb = Get | Head | Post | OtherVerb

  datatype Request = Request(verb: Verb, path: string, body: Json)

  datatype Response = Response(status: nat, body: Json)

  /**
   * What handling a request does, in order: hand a record to producer.send
   * (and whether the send resolved), or send a response.
   */
  datatype Effect = Publish(record: ProducerRecord, delivered: bool) | Respond(response: Response)

  const MoviePath: string := "/api/events/movie"
  const UserPath: string := "/api/events/user"
  const PaymentPath: string := "/api/events/payment"
  const HealthPath: string := "/api/events/health"

  /** 201 {status: 'success'} */
  const Created: Response := Response(201, JObject([("status", JString("success"))]))

  /** res.json({status: true}): status 200 by default. */
  const Healthy: Response := Response(200, JObject([("status", JBool(true))]))

  /** The route table of the POST handlers: which path publishes to which topic. */
  function EventTopic(path: string): (t: Option<Topic>)
    ensures t.Some? ==> path == EventPath(t.value)
  {
    if path == MoviePath then Some(MovieEvents)
    else if path == UserPath then Some(UserEvents)
    else if path == PaymentPath then Some(PaymentEvents)
    else None
  }

  /** The POST path that publishes to topic `t`. */
  function EventPath(t: Topic): string
  {
    match t
    case MovieEvents => MoviePath
    case UserEvents => UserPath
    case PaymentEvents => PaymentPath
  }

  /** The route table is a bijection between the three POST paths and the three topics. */
  lemma RouteTableBijective(path: string, t: Topic)
    ensures EventTopic(EventPath(t)) == Some(t)
    ensures EventTopic(path) == Some(t) ==> path == EventPath(t)
    ensures EventTopic(path).Some? <==> path in {MoviePath, UserPath, PaymentPath}
  {
  }

  /** sendToKafka(topic, data): the record handed to producer.send, one message with the stringified data. */
  function SendToKafka(topic: Topic, data: Json): ProducerRecord
  {
    ProducerRecord(Name(topic), [Message(Stringified(data))])
  }

  /**
   * One request. A POST to an event path publishes the body to its topic and
   * then, only if the send resolved, answers 201; when the send rejects, the
   * error propagates and no response is produced here. GET (and HEAD, which
   * Express routes with GET) on the health path answers 200 {status: true}.
   * Any other request is not handled by these routes (the effects are empty).
   */
  function Handle(req: Request, delivered: bool): (e: seq<Effect>)
    ensures |e| <= 2
    ensures e != [] ==>
              (req.verb == Post && EventTopic(req.path).Some?) ||
              ((req.verb == Get || req.verb == Head) && req.path == HealthPath)
  {
    match EventTopic(req.path)
    case Some(t) =>
      if req.verb == Post then
        [Publish(SendToKafka(t, req.body), delivered)] + (if delivered then [Respond(Created)] else [])
      else []
    case None =>
      if (req.verb == Get || req.verb == Head) && req.path == HealthPath then [Respond(Healthy)] else []
  }

  /** The records a sequence of effects hands to the broker. */
  function Published(effects: seq<Effect>): (records: seq<ProducerRecord>)
    ensures |records| <= |effects|
  {
    if effects == [] then []
    else (if effects[0].Publish? then [effects[0].record] else []) + Published(effects[1..])
  }

  /** The records of consecutive effects are the records of each part, in order. */
  lemma {:induction false} PublishedAppend(a: seq<Effect>, b: seq<Effect>)
    ensures Published(a + b) == Published(a) + Published(b)
  {
    if a != [] {
      assert (a + b)[0] == a[0];
      assert (a + b)[1..] == a[1..] + b;
      PublishedAppend(a[1..], b);
    } else {
      assert a + b == b;
    }
  }

  /**
   * A POST to an event path hands exactly one record to the broker, for the
   * route's topic, holding exactly one message whose value is the body; and
   * answers 201 exactly when the send resolved.
   */
  lemma {:induction false} PostPublishesOnce(req: Request, delivered: bool, t: Topic)
    requires req.verb == Post && req.path == EventPath(t)
    ensures var e := Handle(req, delivered);
      && Published(e) == [ProducerRecord(Name(t), [Message(Stringified(req.body))])]
      && (Respond(Created) in e <==> delivered)
      && (forall i :: 0 <= i < |e| && e[i].Respond? ==> e[i].response == Created)
  {
    RouteTableBijective(req.path, t);
    var e := Handle(req, delivered);
    var publish := Publish(SendToKafka(t, req.body), delivered);
    var answer := if delivered then [Respond(Created)] else [];
    assert e == [publish] + answer;
    PublishedAppend([publish], answer);
    assert Published([publish]) == [publish.record] by {
      assert [publish][1..] == [];
    }
    if delivered {
      assert answer[1..] == [];
    }
  }

  /**
   * A success response is never sent before the send has resolved: every 201
   * is preceded, in the same request, by a delivered publish.
   */
  lemma CreatedOnlyAfterDelivery(req: Request, delivered: bool)
    ensures var e := Handle(req, delivered);
      forall i :: 0 <= i < |e| && e[i] == Respond(Created) ==>
        exists j :: 0 <= j < i && e[j].Publish? && e[j].delivered
  {
    var e := Handle(req, delivered);
    forall i | 0 <= i < |e| && e[i] == Respond(Created)
      ensures exists j :: 0 <= j < i && e[j].Publish? && e[j].delivered
    {
      assert Created != Healthy;
      assert i == 1 && e[0].Publish? && e[0].delivered;
    }
  }

  /** The health route answers 200 {status: true} and never involves the broker. */
  lemma HealthIgnoresBroker(req: Request)
    requires req.verb == Get && req.path == HealthPath
    ensures Handle(req, true) == Handle(req, false) == [Respond(Healthy)]
    ensures Published(Handle(req, true)) == []
  {
    assert EventTopic(HealthPath) == None;
    assert [Respond(Healthy)][1..] == [];
  }

  /** Only a POST to one of the three event paths publishes anything. */
  lemma {:induction false} NoPublishElsewhere(req: Request, delivered: bool)
    requires req.verb != Post || EventTopic(req.path).None?
    ensures Published(Handle(req, delivered)) == []
  {
    var e := Handle(req, delivered);
    if e != [] {
      assert e == [Respond(Healthy)];
      assert e[1..] == [];
    }
  }

  /**
   * Every record the relay publishes goes to one of the topics its own
   * consumer subscribes to at startup.
   */
  lemma {:induction false} PublishedTopicsAreSubscribed(req: Request, delivered: bool)
    ensures forall r :: r in Published(Handle(req, delivered)) ==>
              exists i :: 0 <= i < |Topics| && r.topic == Name(Topics[i])
  {
    var t := EventTopic(req.path);
    if req.verb == Post && t.Some? {
      PostPublishesOnce(req, delivered, t.value);
      var k := if t.value == MovieEvents then 0 else if t.value == UserEvents then 1 else 2;
      assert Topics[k] == t.value;
    } else {
      NoPublishElsewhere(req, delivered);
    }
  }
}
