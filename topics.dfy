/**
 * The three broker topics of the event relay (the TOPICS array,
 * src/microservices/events/index.js, line 14).
 */
module EventTopics {

  datatype Topic = MovieEvents | UserEvents | PaymentEvents

  /** The topic's name on the broker. */
  function Name(t: Topic): string
  {
    match t
    case MovieEvents => "movie-events"
    case UserEvents => "user-events"
    case PaymentEvents => "payment-events"
  }

  /** TOPICS, in the order the consumer subscribes. */
  const Topics: seq<Topic> := [MovieEvents, UserEvents, PaymentEvents]

  /** Every topic is in TOPICS exactly once, and distinct topics have distinct names. */
  lemma TopicsComplete(t: Topic, u: Topic)
    ensures multiset(Topics)[t] == 1
    ensures Name(t) == Name(u) <==> t == u
  {
    if t != u {
      assert Name(t)[0] != Name(u)[0];
    }
  }
}
