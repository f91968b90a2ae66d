/**
 * The MQTT client wrapper of the IoT service: a registry of topic filters and their
 * handlers, and dispatch of each incoming message to every handler whose filter matches.
 *
 * Topic filters follow section 4.7 of the MQTT 3.1.1 standard: levels are separated by
 * '/', '+' matches exactly one level and '#' matches the parent level and any number of
 * child levels. The matcher as written requires the topic and the filter to have the
 * same number of levels even when the filter ends in '#'; `TopicMatchesAsWritten` keeps
 * that behaviour and `TopicMatches` is the standard one, which the broker uses.
 *
 * The network client is reduced to a `connected` flag and the outcome of the SUBSCRIBE
 * acknowledgement; handlers are identified by number.
 */
module MqttBroker {
  import opened Wrappers
  import opened JsText

  type Levels = seq<string>

  function LevelsOf(s: string): Levels
  {
    Split(s, '/')
  }

  // ---------------------------------------------------------------------------
  // Matching as written
  // ---------------------------------------------------------------------------

  /** The level loop of `topicMatches` on equally long level lists. */
  function LevelsMatch(t: Levels, f: Levels): bool
    requires |t| == |f|
  {
    if f == [] then true
    else if f[0] == "+" then LevelsMatch(t[1..], f[1..])
    else if f[0] == "#" then true
    else f[0] == t[0] && LevelsMatch(t[1..], f[1..])
  }

  /** `topicMatches` as written: unequal level counts never match, '#' included. */
  function MatchesAsWritten(t: Levels, f: Levels): bool
  {
    |t| == |f| && LevelsMatch(t, f)
  }

  method TopicMatchesAsWritten(topic: string, pattern: string) returns (b: bool)
    ensures b == MatchesAsWritten(LevelsOf(topic), LevelsOf(pattern))
  {
    var topicParts := Split(topic, '/');
    var patternParts := Split(pattern, '/');
    if |patternParts| != |topicParts| {
      return false;
    }
    var i := 0;
    while i < |patternParts|
      invariant 0 <= i <= |patternParts|
      invariant LevelsMatch(topicParts, patternParts) == LevelsMatch(topicParts[i..], patternParts[i..])
    {
      assert topicParts[i..][1..] == topicParts[i + 1..] && patternParts[i..][1..] == patternParts[i + 1..];
      if patternParts[i] == "+" {
        i := i + 1;
        continue;
      }
      if patternParts[i] == "#" {
        return true;
      }
      if patternParts[i] != topicParts[i] {
        return false;
      }
      i := i + 1;
    }
    return true;
  }

  // ---------------------------------------------------------------------------
  // Matching per section 4.7 of MQTT 3.1.1
  // ---------------------------------------------------------------------------

  /** '+' takes one level, '#' takes the rest (possibly none), any other level must be equal. */
  function Matches(t: Levels, f: Levels): bool
  {
    if f == [] then t == []
    else if f[0] == "#" then true
    else if t == [] then false
    else (f[0] == "+" || f[0] == t[0]) && Matches(t[1..], f[1..])
  }

  /** `topicMatches` corrected: the same loop, with '#' also accepting a longer or a parent topic. */
  method TopicMatches(topic: string, pattern: string) returns (b: bool)
    ensures b == Matches(LevelsOf(topic), LevelsOf(pattern))
  {
    var topicParts := Split(topic, '/');
    var patternParts := Split(pattern, '/');
    var i := 0;
    while i < |patternParts|
      invariant 0 <= i <= |patternParts| && i <= |topicParts|
      invariant Matches(topicParts, patternParts) == Matches(topicParts[i..], patternParts[i..])
    {
      if patternParts[i] == "#" {
        return true;
      }
      if i >= |topicParts| {
        return false;
      }
      assert topicParts[i..][1..] == topicParts[i + 1..] && patternParts[i..][1..] == patternParts[i + 1..];
      if patternParts[i] != "+" && patternParts[i] != topicParts[i] {
        return false;
      }
      i := i + 1;
    }
    return |topicParts| == |patternParts|;
  }

  /** Every topic matches itself, under both matchers. */
  lemma {:induction false} MatchesSelf(t: Levels)
    ensures Matches(t, t) && MatchesAsWritten(t, t)
  {
    if t != [] {
      MatchesSelf(t[1..]);
    }
  }

  /** The matcher as written never accepts what the standard rejects. */
  lemma {:induction false} AsWrittenIsStricter(t: Levels, f: Levels)
    requires MatchesAsWritten(t, f)
    ensures Matches(t, f)
  {
    if f != [] && f[0] != "#" {
      AsWrittenIsStricter(t[1..], f[1..]);
    }
  }

  /** Without '#' in the filter the two matchers agree, and a match needs equal level counts. */
  lemma {:induction false} AgreeWithoutHash(t: Levels, f: Levels)
    requires "#" !in f
    ensures Matches(t, f) == MatchesAsWritten(t, f)
    ensures Matches(t, f) ==> |t| == |f|
  {
    if f != [] && t != [] {
      assert "#" !in f[1..];
      AgreeWithoutHash(t[1..], f[1..]);
    }
  }

  /** '+' stands for exactly one level. */
  lemma PlusMatchesAnyOneLevel(prefix: Levels, level: string, rest: Levels)
    ensures Matches(prefix + [level] + rest, prefix + ["+"] + rest)
  {
    MatchesSelf(rest);
    PlusStep(prefix, level, rest);
  }

  lemma {:induction false} PlusStep(prefix: Levels, level: string, rest: Levels)
    ensures Matches(prefix + [level] + rest, prefix + ["+"] + rest) == Matches(rest, rest)
  {
    if prefix == [] {
      assert ([level] + rest)[1..] == rest && (["+"] + rest)[1..] == rest;
    } else {
      assert (prefix + [level] + rest)[1..] == prefix[1..] + [level] + rest;
      assert (prefix + ["+"] + rest)[1..] == prefix[1..] + ["+"] + rest;
      PlusStep(prefix[1..], level, rest);
      MatchesSelf(rest);
    }
  }

  /** A filter ending in '#' takes its parent topic and every topic below it. */
  lemma {:induction false} HashMatchesParentAndChildren(prefix: Levels, below: Levels)
    ensures Matches(prefix + below, prefix + ["#"])
  {
    if prefix != [] {
      assert (prefix + below)[1..] == prefix[1..] + below;
      assert (prefix + ["#"])[1..] == prefix[1..] + ["#"];
      HashMatchesParentAndChildren(prefix[1..], below);
    } else {
      assert prefix + ["#"] == ["#"];
    }
  }

  /** The discrepancy: "eazepay/#" does not take "eazepay/devices/d1/telemetry" as written. */
  lemma HashAsWrittenMissesDeeperTopics()
    ensures !MatchesAsWritten(["eazepay", "devices", "d1", "telemetry"], ["eazepay", "#"])
    ensures Matches(["eazepay", "devices", "d1", "telemetry"], ["eazepay", "#"])
  {
    HashMatchesParentAndChildren(["eazepay"], ["devices", "d1", "telemetry"]);
    assert ["eazepay"] + ["devices", "d1", "telemetry"] == ["eazepay", "devices", "d1", "telemetry"];
    assert ["eazepay"] + ["#"] == ["eazepay", "#"];
  }

  // ---------------------------------------------------------------------------
  // The handler registry
  // ---------------------------------------------------------------------------

  type Handler = nat

  datatype Subscription = Subscription(pattern: string, handler: Handler)

  function Patterns(subs: seq<Subscription>): (ps: seq<string>)
    ensures |ps| == |subs| && forall i :: 0 <= i < |subs| ==> ps[i] == subs[i].pattern
  {
    seq(|subs|, i requires 0 <= i < |subs| => subs[i].pattern)
  }

  /** The handlers whose pattern matches, in registration order. */
  function MatchingHandlers(subs: seq<Subscription>, t: Levels): (hs: seq<Handler>)
    ensures forall h :: h in hs <==> exists i :: 0 <= i < |subs| && subs[i].handler == h
                                                && Matches(t, LevelsOf(subs[i].pattern))
    ensures |hs| <= |subs|
  {
    if subs == [] then []
    else
      var init := MatchingHandlers(subs[..|subs| - 1], t);
      var last := subs[|subs| - 1];
      assert forall i :: 0 <= i < |subs| - 1 ==> subs[..|subs| - 1][i] == subs[i];
      init + (if Matches(t, LevelsOf(last.pattern)) then [last.handler] else [])
  }

  class Broker {
    var connected: bool
    /** The `messageHandlers` map, in insertion order. */
    var handlers: seq<Subscription>

    /** A Map holds each key once. */
    ghost predicate Valid()
      reads this
    {
      forall i, j :: 0 <= i < j < |handlers| ==> handlers[i].pattern != handlers[j].pattern
    }

    constructor (connected: bool)
      ensures Valid() && this.connected == connected && handlers == []
    {
      this.connected := connected;
      handlers := [];
    }

    /**
     * `subscribe`: without a client it throws; a refused SUBSCRIBE leaves the registry
     * alone; otherwise `Map.set` replaces the handler of a known filter in place or
     * appends a new one.
     */
    method Subscribe(topic: string, handler: Handler, refused: bool) returns (error: Option<string>)
      requires Valid()
      modifies this
      ensures Valid() && connected == old(connected)
      ensures !connected <==> error == Some("MQTT client not connected")
      ensures error.Some? || refused ==> handlers == old(handlers)
      ensures error.None? && !refused ==>
        (if topic in Patterns(old(handlers))
         then |handlers| == |old(handlers)|
              && forall i :: 0 <= i < |handlers| ==>
                   handlers[i] == (if old(handlers)[i].pattern == topic then Subscription(topic, handler)
                                   else old(handlers)[i])
         else handlers == old(handlers) + [Subscription(topic, handler)])
    {
      if !connected {
        return Some("MQTT client not connected");
      }
      error := None;
      if refused {
        return;
      }
      var i := 0;
      while i < |handlers|
        invariant 0 <= i <= |handlers|
        invariant forall k :: 0 <= k < i ==> handlers[k].pattern != topic
      {
        if handlers[i].pattern == topic {
          handlers := handlers[i := Subscription(topic, handler)];
          return;
        }
        i := i + 1;
      }
      handlers := handlers + [Subscription(topic, handler)];
    }

    /**
     * `handleMessage`: a payload that is not JSON is dropped; otherwise every handler
     * whose filter matches the topic is called, in registration order.
     */
    method HandleMessage(topic: string, payloadIsJson: bool) returns (called: seq<Handler>)
      ensures !payloadIsJson ==> called == []
      ensures payloadIsJson ==> called == MatchingHandlers(handlers, LevelsOf(topic))
    {
      called := [];
      if !payloadIsJson {
        return;
      }
      for i := 0 to |handlers|
        invariant called == MatchingHandlers(handlers[..i], LevelsOf(topic))
      {
        var matches := TopicMatches(topic, handlers[i].pattern);
        assert handlers[..i + 1][..i] == handlers[..i];
        if matches {
          called := called + [handlers[i].handler];
        }
      }
      assert handlers[..|handlers|] == handlers;
    }
  }
}
