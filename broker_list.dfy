/**
 * The broker list of the event relay (src/microservices/events/index.js, line 9):
 * KAFKA_BROKERS split at every comma when it is set and non-empty, and
 * otherwise the single broker localhost:9092.
 */
module BrokerList {
  import opened Wrappers

  const DefaultBroker: string := "localhost:9092"

  /** JavaScript's s.split(c) for a one-character separator: empty pieces are kept. */
  function Split(s: string, sep: char): (parts: seq<string>)
    ensures |parts| >= 1
    ensures forall i :: 0 <= i < |parts| ==> sep !in parts[i]
  {
    if s == [] then [""]
    else
      var rest := Split(s[1..], sep);
      if s[0] == sep then [""] + rest else [[s[0]] + rest[0]] + rest[1..]
  }

  /** parts.join(c): the inverse of Split. */
  function Join(parts: seq<string>, sep: char): string
    requires |parts| >= 1
  {
    if |parts| == 1 then parts[0] else parts[0] + [sep] + Join(parts[1..], sep)
  }

  /** Number of occurrences of c in s. */
  function Occurrences(s: string, c: char): nat
  {
    if s == [] then 0 else (if s[0] == c then 1 else 0) + Occurrences(s[1..], c)
  }

  /** Splitting loses nothing: joining the pieces with the separator gives the string back. */
  lemma {:induction false} JoinSplit(s: string, sep: char)
    ensures Join(Split(s, sep), sep) == s
  {
    if s != [] {
      var rest := Split(s[1..], sep);
      JoinSplit(s[1..], sep);
      if s[0] == sep {
        assert Split(s, sep)[1..] == rest;
      } else {
        var parts := Split(s, sep);
        if |rest| == 1 {
          assert parts == [[s[0]] + rest[0]];
        } else {
          assert parts[1..] == rest[1..];
          assert Join(rest, sep) == rest[0] + [sep] + Join(rest[1..], sep);
        }
      }
    }
  }

  /** One piece per comma, plus one. */
  lemma {:induction false} SplitCount(s: string, sep: char)
    ensures |Split(s, sep)| == Occurrences(s, sep) + 1
  {
    if s != [] {
      SplitCount(s[1..], sep);
    }
  }

  /** The other direction: pieces without the separator are recovered from their join. */
  lemma {:induction false} SplitJoin(parts: seq<string>, sep: char)
    requires |parts| >= 1
    requires forall i :: 0 <= i < |parts| ==> sep !in parts[i]
    ensures Split(Join(parts, sep), sep) == parts
  {
    if |parts| == 1 {
      SplitNoSeparator(parts[0], sep);
    } else {
      SplitJoin(parts[1..], sep);
      SplitPrefix(parts[0], Join(parts[1..], sep), sep);
      assert Join(parts, sep) == parts[0] + ([sep] + Join(parts[1..], sep));
      assert [parts[0]] + parts[1..] == parts;
    }
  }

  lemma {:induction false} SplitNoSeparator(p: string, sep: char)
    requires sep !in p
    ensures Split(p, sep) == [p]
  {
    if p != [] {
      SplitNoSeparator(p[1..], sep);
      assert p[0] != sep;
      assert [p[0]] + p[1..] == p;
    }
  }

  /** Split(p + [sep] + t) starts with the piece p, then carries on with Split(t). */
  lemma {:induction false} SplitPrefix(p: string, t: string, sep: char)
    requires sep !in p
    ensures Split(p + ([sep] + t), sep) == [p] + Split(t, sep)
  {
    if p == [] {
      assert p + ([sep] + t) == [sep] + t;
      assert ([sep] + t)[1..] == t;
    } else {
      assert (p + ([sep] + t))[1..] == p[1..] + ([sep] + t);
      SplitPrefix(p[1..], t, sep);
      assert [p[0]] + p[1..] == p;
    }
  }

  /** KAFKA_BROKERS ? KAFKA_BROKERS.split(',') : ['localhost:9092'] */
  function Brokers(env: Option<string>): (brokers: seq<string>)
    ensures |brokers| >= 1
    ensures env.None? || env == Some("") ==> brokers == [DefaultBroker]
  {
    match env
    case Some(v) => if v != "" then Split(v, ',') else [DefaultBroker]
    case None => [DefaultBroker]
  }

  /**
   * When KAFKA_BROKERS is set and non-empty, the brokers are exactly its
   * comma-separated pieces: none contains a comma, there is one more than
   * there are commas, and joined back with commas they give the variable.
   */
  lemma BrokersFromEnv(v: string)
    requires v != ""
    ensures var b := Brokers(Some(v));
              && Join(b, ',') == v
              && |b| == Occurrences(v, ',') + 1
              && forall i :: 0 <= i < |b| ==> ',' !in b[i]
  {
    JoinSplit(v, ',');
    SplitCount(v, ',');
  }

  lemma SingleBroker()
    ensures Brokers(Some("kafka:9092")) == ["kafka:9092"]
  {
    SplitNoSeparator("kafka:9092", ',');
  }

  lemma TwoBrokers()
    ensures Brokers(Some("a:1,b:2")) == ["a:1", "b:2"]
  {
    assert "a:1,b:2" == "a:1" + ([','] + "b:2");
    SplitPrefix("a:1", "b:2", ',');
    SplitNoSeparator("b:2", ',');
  }

  /** A trailing comma leaves an empty broker entry, as split(',') does. */
  lemma TrailingComma()
    ensures Brokers(Some("a:1,")) == ["a:1", ""]
  {
    assert "a:1," == "a:1" + ([','] + "");
    SplitPrefix("a:1", "", ',');
  }
}
