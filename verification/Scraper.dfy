/** The sidecar's scraper: request deltas between reads of the proxy's cumulative counter
    (edge-ingress-sidecar/src/caddy_metrics.rs). */
module Scraper {
  import opened Common

  datatype ScrapeDiff = ScrapeDiff(current: u64, previous: u64, rps: u32)

  function OrZero(c: Option<u64>): u64 { if c == None then 0 else c.value }

  /** The delta, cut to 32 bits; nothing when the counter is missing or has fallen. */
  function DiffScrapes(current: Option<u64>, previous: Option<u64>): ScrapeDiff {
    if current.Some? && previous.Some? && current.value >= previous.value
    then ScrapeDiff(current.value, previous.value, ((current.value - previous.value) as int % 0x1_0000_0000) as u32)
    else ScrapeDiff(OrZero(current), OrZero(previous), 0)
  }

  /** One tick: the fetch failed, or it gave a body with or without the counter. */
  datatype Tick = Failed | Body(counter: Option<u64>)

  /** The rates published over a run of ticks that starts with baseline `previous`. */
  function Published(ticks: seq<Tick>, previous: Option<u64>): seq<u32>
    decreases |ticks|
  {
    if ticks == [] then []
    else match ticks[0]
      case Failed => Published(ticks[1..], previous)
      case Body(c) => [DiffScrapes(c, previous).rps] + Published(ticks[1..], c)
  }

  /** The scraper's loop: a failed fetch keeps the baseline, a body replaces it. */
  method Scrape(ticks: seq<Tick>) returns (published: seq<u32>)
    ensures published == Published(ticks, None)
  {
    published := [];
    var previous: Option<u64> := None;
    for i := 0 to |ticks|
      invariant Published(ticks, None) == published + Published(ticks[i..], previous)
    {
      assert ticks[i..][0] == ticks[i] && ticks[i..][1..] == ticks[i + 1..];
      if ticks[i].Failed? {
        continue;
      }
      var current := ticks[i].counter;
      var diff := DiffScrapes(current, previous);
      previous := current;
      published := published + [diff.rps];
    }
  }

  function Total(rps: seq<u32>): nat
    decreases |rps|
  {
    if rps == [] then 0 else rps[0] as nat + Total(rps[1..])
  }

  // ---------------------------------------------------------------- against the requests really served

  /** What happens at the proxy and at the scraper. */
  datatype Event = Serve(n: nat) | Restart | Fetch(ok: bool, present: bool)

  function Served(events: seq<Event>): nat
    decreases |events|
  {
    if events == [] then 0 else (if events[0].Serve? then events[0].n else 0) + Served(events[1..])
  }

  /** A read of the counter saturates at 64 bits. */
  function Reading(counter: nat): u64 {
    if counter < 0x1_0000_0000_0000_0000 then counter as u64 else 0xFFFF_FFFF_FFFF_FFFF
  }

  /** The ticks the scraper sees while the proxy counts from `counter`, restarting at zero. */
  function Seen(events: seq<Event>, counter: nat): seq<Tick>
    decreases |events|
  {
    if events == [] then []
    else match events[0]
      case Serve(n) => Seen(events[1..], counter + n)
      case Restart => Seen(events[1..], 0)
      case Fetch(ok, present) =>
        [if !ok then Failed else Body(if present then Some(Reading(counter)) else None)] + Seen(events[1..], counter)
  }

  /** Requests counted since the baseline and not yet published. */
  function Pending(previous: Option<u64>, counter: nat): nat {
    if previous.Some? && Reading(counter) >= previous.value then (Reading(counter) - previous.value) as nat else 0
  }

  lemma {:induction false} PublishedAtMostServed(events: seq<Event>, counter: nat, previous: Option<u64>)
    ensures Total(Published(Seen(events, counter), previous)) <= Pending(previous, counter) + Served(events)
    decreases |events|
  {
    if events != [] {
      var rest := events[1..];
      match events[0]
      case Serve(n) =>
        PublishedAtMostServed(rest, counter + n, previous);
      case Restart =>
        PublishedAtMostServed(rest, 0, previous);
      case Fetch(ok, present) =>
        var ticks := Seen(events, counter);
        assert ticks[1..] == Seen(rest, counter);
        var next := if ok then ticks[0].counter else previous;
        PublishedAtMostServed(rest, counter, next);
        if ok {
          var rps := DiffScrapes(next, previous).rps;
          var later := Published(Seen(rest, counter), next);
          assert ([rps] + later)[1..] == later;
        }
    }
  }

  /** Scrape conservation: whatever fetches fail, whatever reads miss the counter and however often the
      proxy restarts, the published rates never add up to more than the requests served. */
  lemma NothingIsInvented(events: seq<Event>, counter: nat)
    ensures Total(Published(Seen(events, counter), None)) <= Served(events)
  {
    PublishedAtMostServed(events, counter, None);
  }

  // ---------------------------------------------------------------- when nothing is lost either

  /** Every fetched body has the counter and it never falls below the previous one. */
  ghost predicate Climbs(ticks: seq<Tick>, from: u64)
    decreases |ticks|
  {
    ticks == [] ||
    match ticks[0]
    case Failed => Climbs(ticks[1..], from)
    case Body(c) => c.Some? && c.value >= from && Climbs(ticks[1..], c.value)
  }

  /** The last value read. */
  ghost function LastRead(ticks: seq<Tick>, from: u64): (r: u64)
    requires Climbs(ticks, from)
    ensures r >= from
    decreases |ticks|
  {
    if ticks == [] then from
    else match ticks[0]
      case Failed => LastRead(ticks[1..], from)
      case Body(c) => LastRead(ticks[1..], c.value)
  }

  /** No single step is 2^32 or more. */
  ghost predicate SmallSteps(ticks: seq<Tick>, from: u64)
    requires Climbs(ticks, from)
    decreases |ticks|
  {
    ticks == [] ||
    match ticks[0]
    case Failed => SmallSteps(ticks[1..], from)
    case Body(c) => (c.value - from) as int < 0x1_0000_0000 && SmallSteps(ticks[1..], c.value)
  }

  /** While the counter climbs, the published rates add up to last minus first exactly when every
      single delta fits 32 bits, and to less otherwise. */
  lemma {:induction false} TelescopesIff(ticks: seq<Tick>, from: u64)
    requires Climbs(ticks, from)
    ensures Total(Published(ticks, Some(from))) <= (LastRead(ticks, from) - from) as int
    ensures Total(Published(ticks, Some(from))) == (LastRead(ticks, from) - from) as int <==> SmallSteps(ticks, from)
    decreases |ticks|
  {
    if ticks != [] {
      match ticks[0]
      case Failed =>
        TelescopesIff(ticks[1..], from);
      case Body(c) =>
        TelescopesIff(ticks[1..], c.value);
        var later := Published(ticks[1..], c);
        assert ([DiffScrapes(c, Some(from)).rps] + later)[1..] == later;
    }
  }

  /** A counter that has not fallen publishes its growth, cut to 32 bits. */
  lemma GrowthIsPublished(ticks: seq<Tick>, previous: u64, c: u64)
    requires c >= previous
    ensures Published([Body(Some(c))] + ticks, Some(previous)) ==
            [((c - previous) as int % 0x1_0000_0000) as u32] + Published(ticks, Some(c))
    ensures DiffScrapes(Some(c), Some(previous)).current == c
        && DiffScrapes(Some(c), Some(previous)).previous == previous
  {
    assert ([Body(Some(c))] + ticks)[1..] == ticks;
  }

  /** A body without the counter, or with a fallen one, publishes nothing and still replaces the baseline: the next
      body is measured against it. */
  lemma GapsPublishNothing(ticks: seq<Tick>, previous: Option<u64>, c: Option<u64>)
    requires c == None || previous == None || c.value < previous.value
    ensures Total(Published([Body(c)] + ticks, previous)) == Total(Published(ticks, c))
    ensures var d := DiffScrapes(c, previous);
            && d.rps == 0 && d.current == (if c == None then 0 else c.value)
            && d.previous == (if previous == None then 0 else previous.value)
  {
    assert ([Body(c)] + ticks)[1..] == ticks;
    var rest := Published(ticks, c);
    assert ([0 as u32] + rest)[1..] == rest;
  }

  /** The first read only sets the baseline. */
  lemma FirstReadPublishesNothing(first: u64, ticks: seq<Tick>)
    requires Climbs(ticks, first) && SmallSteps(ticks, first)
    ensures Total(Published([Body(Some(first))] + ticks, None)) == (LastRead(ticks, first) - first) as int
  {
    TelescopesIff(ticks, first);
    assert ([Body(Some(first))] + ticks)[1..] == ticks;
    var later := Published(ticks, Some(first));
    assert ([0 as u32] + later)[1..] == later;
  }
}
