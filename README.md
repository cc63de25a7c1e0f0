# Migration router and event relay, in Dafny

This project models the two services of the cinema platform that hold real
decision logic. It proves what each of them guarantees.

**The migration router** (`src/microservices/proxy/index.js`) sits in front of
the monolith while the movies API moves to its own service. The model covers
the following:

- At startup it reads four environment variables.
- It refuses to start when the monolith URL is missing.
- It also refuses when gradual migration is on and the movies-service URL is missing.
- For every request whose path matches `^/api/movies(/.*)?$`, it picks a target:
  - always the monolith when migration is off;
  - otherwise the movies service exactly when a random draw in [0, 100) is below the configured percentage.
- It forwards the request to that target with its path unchanged.

The percentage is JavaScript's `parseInt(v, 10) || 0`. It is modelled
character by character in `js_numbers.dfy`, where decimal rendering round-trips
through it. The draw is a parameter, so routing is deterministic. From that
follow the disabled, 0 % and 100 % cases, and an exact count over an evenly
spaced grid of draws.

**The event relay** (`src/microservices/events/index.js`) takes domain events
over HTTP and publishes them to a broker. The model covers:

- the broker list, which is `KAFKA_BROKERS` split at commas, or `localhost:9092`;
- the startup retry loop `startKafka`, written as an imperative method with a trace of its actions and proved equal to a recursive reference definition;
- the single-message publish `sendToKafka`;
- the three POST routes and the health route.

The broker is an oracle that says whether each call succeeds. Every property of
the loop then holds for every possible broker behaviour:

- attempt numbering and counts;
- waits of 2000 ms, each followed by a restart from the producer connect;
- exit with status 1 after the tenth failure, with no further wait;
- the ordered subscriptions before the consumer starts.

Files:

| file | module | what |
|---|---|---|
| `common.dfy` | `Wrappers` | `Option` |
| `js_numbers.dfy` | `JsNumbers` | `parseInt(s, 10)`, decimal rendering |
| `proxy.dfy` | `MigrationProxy` | router configuration, startup, path match, target selection |
| `broker_list.dfy` | `BrokerList` | `split(',')`, its inverse, the broker list |
| `topics.dfy` | `EventTopics` | the three topics |
| `kafka_startup.dfy` | `KafkaStartup` | the connect/retry loop and its trace |
| `event_routes.dfy` | `EventRoutes` | routes, publishing, health |

The code never clamps the migration percentage: 150 sends every request to the
movies service, and a negative value sends every request to the monolith (see
`PercentAtMostZeroAllMonolith`, `PercentAtLeastHundredAllMovies` and
`MoviesShare`).

## Model

| member | source | states |
|---|---|---|
| MigrationProxy.GradualMigration | src/microservices/proxy/index.js:8 | migration is on exactly when GRADUAL_MIGRATION is the string "true" |
| MigrationProxy.MigrationPercent | src/microservices/proxy/index.js:9 | whenever parseInt reads a number from MOVIES_MIGRATION_PERCENT, that number is the percentage; a non-zero percentage is always such a number, so NaN and an unset variable give 0 |
| MigrationProxy.Start | src/microservices/proxy/index.js:6-17 | startup fails with the monolith error exactly when MONOLITH_URL is unset or empty; it fails with the movies-service error exactly when the monolith URL is set, migration is on and MOVIES_SERVICE_URL is unset or empty; a started router is valid and holds the environment's URLs, flag and parsed percentage |
| MigrationProxy.Choose | src/microservices/proxy/index.js:20-26 | the movies service is chosen exactly when migration is on and the draw is below the percentage; otherwise the monolith |
| MigrationProxy.SelectTarget | src/microservices/proxy/index.js:20-26 | the chosen target is never empty and is always the monolith URL or the movies-service URL |
| MigrationProxy.DisabledAlwaysMonolith | src/microservices/proxy/index.js:21-22 | with migration off, every draw and every percentage give the monolith |
| MigrationProxy.EnabledSplitsOnDraw | src/microservices/proxy/index.js:24-25 | with migration on, a draw goes to the movies service exactly when it is below the percentage |
| MigrationProxy.PercentAtMostZeroAllMonolith | src/microservices/proxy/index.js:24-25 | a percentage of 0 or below sends every draw in [0, 100) to the monolith |
| MigrationProxy.PercentAtLeastHundredAllMovies | src/microservices/proxy/index.js:24-25 | with migration on, a percentage of 100 or above sends every draw in [0, 100) to the movies service |
| MigrationProxy.MoviesShare | src/microservices/proxy/index.js:21-25 | of the draws 0..n-1, exactly the percentage clamped to [0, n] go to the movies service when migration is on, and none when it is off |
| MigrationProxy.MatchDotStarEnd | src/microservices/proxy/index.js:19 | `.*$` matches exactly the strings without a line terminator |
| MigrationProxy.MatchesMoviesRoute | src/microservices/proxy/index.js:19 | the matcher accepts exactly "/api/movies" and "/api/movies/" followed by characters other than line terminators |
| MigrationProxy.RouteMatchesSubpaths | src/microservices/proxy/index.js:19 | every "/api/movies/" + rest without a line terminator is routed |
| MigrationProxy.RouteMatchesExamples | src/microservices/proxy/index.js:19 | "/api/movies" and "/api/movies/" are routed |
| MigrationProxy.RouteRejectsExamples | src/microservices/proxy/index.js:19 | "/api/moviesX", "/api/movie" and "/api/users" are not routed |
| MigrationProxy.RewritePath | src/microservices/proxy/index.js:31 | the path rewrite is the identity; Handle's contract states that the forwarded path is the request's path |
| MigrationProxy.Handle | src/microservices/proxy/index.js:19-32 | a request is forwarded exactly when its path matches; it is sent to the target the draw and percentage select (the movies service exactly when migration is on and the draw is below the percentage, the monolith otherwise), which is one of the two configured URLs, with the path unchanged and changeOrigin set |
| MigrationProxy.ServedOnlyAfterStartup | src/microservices/proxy/index.js:11-26 | a missing monolith URL, or migration on without a movies URL, means no router; a started router sends every routed request to the target its draw selects, one of the two non-empty configured URLs |
| MigrationProxy.MoviesUrlOnlyNeededWhenMigrating | src/microservices/proxy/index.js:15-17 | with a monolith URL and no movies URL, startup succeeds exactly when migration is off |
| MigrationProxy.PercentDefaultsToZero | src/microservices/proxy/index.js:9 | an unset percentage, or one whose first non-blank character is neither a digit nor a sign, reads as 0 |
| MigrationProxy.PercentWithPadding | src/microservices/proxy/index.js:9 | parseInt skips leading blanks and stops at the first non-digit: " 30%" reads as 30 |
| MigrationProxy.PercentRoundTrip | src/microservices/proxy/index.js:9 | any integer written in decimal is read back exactly, with no clamping |
| MigrationProxy.PercentReadsDigits | src/microservices/proxy/index.js:9 | a value made of blanks, an optional sign, digits and then a non-digit or the end (such as "+25", "025" or "25abc") gives the signed value of those digits as the percentage |
| JsNumbers.TrimStart | src/microservices/proxy/index.js:9 | the result is a suffix of the input; everything removed is white space, and what remains does not start with white space |
| JsNumbers.LeadingDigits | src/microservices/proxy/index.js:9 | the result is the longest prefix made only of digits |
| JsNumbers.ParseInt10 | src/microservices/proxy/index.js:9 | parseInt(s, 10) skips leading white space, reads an optional sign and then the leading digits; ParseIntReadsDigits gives the value whenever a digit follows the blanks and the sign, ParseIntNaN gives NaN in every other case; TrimStart, LeadingDigits, ParseIntDecimal and ParseIntIgnoresPadding state the rest |
| JsNumbers.ParseIntDecimal | src/microservices/proxy/index.js:9 | parseInt(Decimal(n), 10) == n for every integer n, where Decimal(n) is n's plain decimal digits with a '-' when negative |
| JsNumbers.ParseIntIgnoresPadding | src/microservices/proxy/index.js:9 | leading white space and trailing text that does not start with a digit do not change the number parseInt reads from the decimal form of any integer, negative ones included |
| JsNumbers.ParseIntReadsDigits | src/microservices/proxy/index.js:9 | after leading white space, an optional '-' or '+' and a run of digits (leading zeros allowed) ended by a non-digit or the end, parseInt reads the value of those digits, negated for '-' |
| JsNumbers.ParseIntNaN | src/microservices/proxy/index.js:9 | a string in which no digit follows the leading blanks and the optional sign ("abc", "", "-", "+x", " -%") reads as NaN, which the `or 0` fallback turns into 0 |
| BrokerList.Split | src/microservices/events/index.js:9 | split gives at least one piece, and no piece contains the separator |
| BrokerList.JoinSplit | src/microservices/events/index.js:9 | joining the pieces of a split with the separator gives back the original string |
| BrokerList.SplitJoin | src/microservices/events/index.js:9 | splitting the join of separator-free pieces gives back the pieces |
| BrokerList.SplitCount | src/microservices/events/index.js:9 | there is one piece more than there are separators |
| BrokerList.Brokers | src/microservices/events/index.js:9 | the broker list is never empty, and it is exactly ["localhost:9092"] when KAFKA_BROKERS is unset or empty |
| BrokerList.BrokersFromEnv | src/microservices/events/index.js:9 | for a non-empty KAFKA_BROKERS the brokers are its comma-separated pieces: they rejoin to it, there are commas + 1 of them, and none contains a comma |
| BrokerList.SingleBroker | src/microservices/events/index.js:9 | "kafka:9092" gives the one broker "kafka:9092" |
| BrokerList.TwoBrokers | src/microservices/events/index.js:9 | "a:1,b:2" gives ["a:1", "b:2"] |
| BrokerList.TrailingComma | src/microservices/events/index.js:9 | "a:1," gives ["a:1", ""]: empty pieces are kept |
| EventTopics.TopicsComplete | src/microservices/events/index.js:14 | each topic appears in TOPICS exactly once, and distinct topics have distinct names |
| KafkaStartup.TryAttempt | src/microservices/events/index.js:19-31 | one attempt succeeds exactly as the reference says, and its actions are the reference's actions for that attempt |
| KafkaStartup.StartKafka | src/microservices/events/index.js:16-41 | the loop's result and its trace of actions equal the reference definitions Outcome and Trace from attempt 1 |
| KafkaStartup.RetryStep | src/microservices/events/index.js:32-39 | after a failed attempt that is not the tenth, the loop goes on to the next attempt with the same outcome, and its trace grows by the attempt's actions and one 2000 ms wait |
| KafkaStartup.TraceStep | src/microservices/events/index.js:32-39 | the trace after a failed attempt that is not the tenth is that attempt's actions, one 2000 ms wait, then the trace of the next attempt |
| KafkaStartup.AllSucceedIff | src/microservices/events/index.js:19-24 | a sequence of awaited calls gets through exactly when every call in it succeeds |
| KafkaStartup.AttemptSucceedsIff | src/microservices/events/index.js:19-24 | an attempt succeeds exactly when the producer connect, the consumer connect and all three subscriptions succeed |
| KafkaStartup.PerformShape | src/microservices/events/index.js:19-29 | an attempt's actions are its own calls; the last action starts the consumer exactly when every call succeeded, and otherwise it is the failed call; an attempt never waits |
| KafkaStartup.FailedAttemptCalls | src/microservices/events/index.js:19-33 | a failed attempt is made only of its own calls, and the last one is a call that failed |
| KafkaStartup.SucceededAttemptCalls | src/microservices/events/index.js:19-31 | a successful attempt ends by starting the consumer, after calls of its own only |
| KafkaStartup.AttemptStartsWithProducer | src/microservices/events/index.js:20 | every attempt starts by connecting the producer |
| KafkaStartup.AttemptShape | src/microservices/events/index.js:19-24 | an attempt connects the producer first and exactly once, and never waits |
| KafkaStartup.AttemptsMadeBounds | src/microservices/events/index.js:17-18 | the loop ends at the attempt it started from or a later one, and at the tenth at the latest |
| KafkaStartup.ConnectOutcome | src/microservices/events/index.js:16-41 | the loop connects on the first attempt that succeeds, and every earlier attempt failed; it exits with status 1 exactly when all attempts up to the tenth fail |
| KafkaStartup.ConnectCounts | src/microservices/events/index.js:17-38 | a run that ends after attempt n connects the producer n times and waits n - 1 times: k - 1 waits when it connects on attempt k, 9 when it exits |
| KafkaStartup.RetriesRestart | src/microservices/events/index.js:18-38 | the trace starts with connecting the producer; every wait lasts 2000 ms and is followed by connecting the producer again |
| KafkaStartup.AttemptNumbering | src/microservices/events/index.js:17-18 | every call belongs to an attempt numbered from the first to the last one made, never beyond 10 |
| KafkaStartup.SuccessfulAttempt | src/microservices/events/index.js:20-29 | a successful attempt is exactly: producer connect, consumer connect, subscribe to movie-events, user-events, payment-events from the beginning, then start the consumer |
| KafkaStartup.ConnectedEnding | src/microservices/events/index.js:22-31 | a run that connects on attempt k ends with attempt k's six actions: both connects, the three ordered subscriptions, then the consumer start |
| KafkaStartup.ConsumerStartsLast | src/microservices/events/index.js:25-31 | in a run that connects, the consumer is started once, as the very last action |
| KafkaStartup.ExitedNeverStartsConsumer | src/microservices/events/index.js:34-37 | a run that exits never starts the consumer |
| KafkaStartup.ExitedEndsWithFailure | src/microservices/events/index.js:34-38 | a run that exits ends with a failed call of attempt 10, and no wait follows it |
| EventRoutes.EventTopic | src/microservices/events/index.js:56-69 | a path publishes to a topic only if it is that topic's POST path; RouteTableBijective states the full correspondence |
| EventRoutes.SendToKafka | src/microservices/events/index.js:48-54 | the record handed to the broker; PostPublishesOnce states it is one message with the body, to the route's topic |
| EventRoutes.Handle | src/microservices/events/index.js:56-73 | a request has at most two effects, and has any only when it is a POST to an event path or a GET or HEAD on the health path; PostPublishesOnce, CreatedOnlyAfterDelivery, HealthIgnoresBroker and NoPublishElsewhere state the rest |
| EventRoutes.RouteTableBijective | src/microservices/events/index.js:56-69 | the POST routes and the topics are in one-to-one correspondence: movie, user and payment paths publish to movie-events, user-events and payment-events, and no other path publishes |
| EventRoutes.PostPublishesOnce | src/microservices/events/index.js:48-69 | a POST to an event path publishes exactly one record, to the route's topic, with exactly one message whose value is the serialised body; it answers 201 {status: "success"} exactly when the send resolved, and gives no other response |
| EventRoutes.CreatedOnlyAfterDelivery | src/microservices/events/index.js:56-58 | every 201 is preceded, in the same request, by a publish that resolved; a failed send never yields 201 |
| EventRoutes.HealthIgnoresBroker | src/microservices/events/index.js:71-73 | GET on the health path answers 200 {status: true} whatever the broker does, and publishes nothing |
| EventRoutes.NoPublishElsewhere | src/microservices/events/index.js:48-73 | only a POST to one of the three event paths publishes anything |
| EventRoutes.PublishedTopicsAreSubscribed | src/microservices/events/index.js:14-69 | every record the relay publishes goes to a topic its own consumer subscribes to at startup |

## Left out

- `Math.random()` (src/microservices/proxy/index.js:24) is not modelled. The draw `r` is a real parameter, and the lemmas that need it assume 0 <= r < 100. Floating-point rounding of `Math.random() * 100` is not modelled.
- The forwarding itself (src/microservices/proxy/index.js:28-32) is not modelled. Streaming, header handling and the Host rewrite are done by http-proxy-middleware, which is not part of this model. `Handle` records only the target, the rewritten path and `changeOrigin`.
- Express routing internals for the relay's string routes (src/microservices/events/index.js:56, 61, 66, 71) are not modelled: case-insensitive matching and trailing-slash tolerance. Those paths are compared as exact strings. HEAD is routed with GET, as Express does.
- In the router, `path` in `MigrationProxy.Handle` stands for the request's pathname: Express tests the route (src/microservices/proxy/index.js:19) against the pathname without the query string. The query string, which the proxy forwards untouched, is not modelled. Neither are Express's URL decoding of the `(\/.*)` subpath, its 400 answer for a subpath with an undecodable escape, and the mount-path stripping that `app.use` applies before the proxy reads the URL.
- JsNumbers.ParseInt10: integers are unbounded, so precision loss above 2^53 and `Infinity` for very long digit strings are not modelled.
- The JSON body parser and its 400 answer for malformed bodies are not modelled. A request body is an already-parsed `Json` value.
- JSON.stringify is not modelled: a message value is the body it encodes, which makes serialisation injective by construction.
- The kafkajs client is not modelled: its connection, subscription and send semantics and its wire protocol. Whether each call succeeds is an oracle `ok(attempt, call)` for startup and a boolean `delivered` for a send.
- `setTimeout` (src/microservices/events/index.js:38) is not modelled as time. Each wait is a `Wait(2000)` action in the trace.
- `process.exit(1)` is not modelled as stopping the process. It is the terminal result `Exited(1)`.
- The outer `.catch` of `startKafka()` (src/microservices/events/index.js:43-46) is not modelled, because the loop catches every error itself.
- `consumer.run` is not awaited in the source, so it cannot fail an attempt. It is recorded as the `RunConsumer` action. The consumer's `eachMessage` logging callback is not modelled.
- The concurrency between `app.listen` and `startKafka` is not modelled: a request can arrive before the producer is connected. A send attempted then is covered only as `delivered == false`.
- What the caller sees when a send rejects is not modelled. That depends on the Express version: an unhandled rejection or a 500. The model records only that no 201 is sent.
- `morgan` logging, every `console` call and the default ports (8000 and 8082) are not modelled.
