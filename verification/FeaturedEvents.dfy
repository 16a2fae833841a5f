/** The featured-events section (`FeaturedEvents`): the first event is
    featured and the next five are shown as regular cards. */
module FeaturedEvents {
  import opened Wrappers
  import opened Types
  import opened Seqs

  /** `events[0]`, `undefined` for an empty list. */
  function Featured(events: seq<Event>): Option<Event> {
    if events == [] then None else Some(events[0])
  }

  /** `events.slice(1, 6)` */
  function Regular(events: seq<Event>): seq<Event> {
    Slice(events, 1, 6)
  }

  /** The cards shown: the featured card when there is a featured event
      (`featuredEvent && ...`), then the regular cards. */
  function Shown(events: seq<Event>): (r: seq<Event>) {
    (match Featured(events) case Some(e) => [e] case None => []) + Regular(events)
  }

  /** At most five regular events, taken from positions 1 to 5; together with
      the featured one they are exactly the first `min(6, n)` events, each
      position used once; an empty list shows nothing. */
  lemma ShownIsPrefix(events: seq<Event>)
    ensures |Regular(events)| == if |events| <= 1 then 0 else if |events| <= 6 then |events| - 1 else 5
    ensures forall i :: 0 <= i < |Regular(events)| ==> Regular(events)[i] == events[i + 1]
    ensures var n := if |events| < 6 then |events| else 6;
            Shown(events) == events[..n]
    ensures Featured(events).None? <==> Shown(events) == []
    ensures Featured(events).Some? ==> Shown(events)[0] == Featured(events).value
  {
    if events != [] {
      var n := if |events| < 6 then |events| else 6;
      assert Regular(events) == events[1..n];
      assert [events[0]] + events[1..n] == events[..n];
    }
  }
}
