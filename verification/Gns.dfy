/** Account id allocation and routing (templates/bank_dcn/internal/gns). Handlers run concurrently: what one
    has read from the tables may be stale by the time it writes. Segments are never changed once added and
    are pairwise disjoint. */
module Gns {
  import opened Common

  datatype Segment = Segment(dcn: string, start: int, end: int, endpoint: string, active: bool) {
    /** `start` itself is a boundary, never an account. */
    predicate Holds(id: int) { start < id <= end }
  }

  // ---------- picking and counting ----------

  function Count(counts: map<string, nat>, dcn: string): nat {
    if dcn in counts then counts[dcn] else 0
  }

  /** a is to be preferred to b: fewer accounts, then the smaller start. */
  predicate NoWorse(counts: map<string, nat>, a: Segment, b: Segment) {
    Count(counts, a.dcn) < Count(counts, b.dcn) || (Count(counts, a.dcn) == Count(counts, b.dcn) && a.start <= b.start)
  }

  method PickSegment(segs: seq<Segment>, counts: map<string, nat>) returns (best: Option<Segment>)
    ensures best.None? <==> forall i :: 0 <= i < |segs| ==> !segs[i].active
    ensures best.Some? ==> best.value in segs && best.value.active
    ensures best.Some? ==> forall i :: 0 <= i < |segs| && segs[i].active ==> NoWorse(counts, best.value, segs[i])
  {
    best := None;
    for i := 0 to |segs|
      invariant best.None? <==> forall j :: 0 <= j < i ==> !segs[j].active
      invariant best.Some? ==> best.value in segs && best.value.active
      invariant best.Some? ==> forall j :: 0 <= j < i && segs[j].active ==> NoWorse(counts, best.value, segs[j])
    {
      var s := segs[i];
      if s.active
         && (best.None? || Count(counts, s.dcn) < Count(counts, best.value.dcn)
             || (Count(counts, s.dcn) == Count(counts, best.value.dcn) && s.start < best.value.start)) {
        best := Some(s);
      }
    }
  }

  /** From the segment and the highest id read for it. */
  function NextAccountId(seg: Segment, highest: Option<int>): Option<int> {
    var id := if highest.Some? then highest.value + 1 else seg.start + 1;
    if id > seg.end then None else Some(id)
  }

  // ---------- the service ----------

  datatype Route = Route(dcn: string, endpoint: string)

  /** The tables and the cache, with what concurrent handlers have read: `readings` of a segment's highest
      id, `found` routes on their way into the cache. */
  datatype World = World(segs: seq<Segment>, routes: map<int, string>, cache: map<int, Route>,
                         readings: set<(Segment, Option<int>)>, found: set<(int, Route)>)

  datatype Action =
    | AddSegment(seg: Segment)
    | ReadHighest(k: nat)
    | Insert(reading: (Segment, Option<int>))
    | Rollback(id: int)
    | LookUp(id: int)
    | Backfill(entry: (int, Route))
    | Evict(id: int)

  function SegmentOf(segs: seq<Segment>, dcn: string): Option<Segment> {
    if segs == [] then None
    else if segs[|segs| - 1].dcn == dcn then Some(segs[|segs| - 1])
    else SegmentOf(segs[..|segs| - 1], dcn)
  }

  ghost predicate Fits(segs: seq<Segment>, seg: Segment) {
    forall i :: 0 <= i < |segs| ==>
      segs[i].dcn != seg.dcn && forall id :: segs[i].Holds(id) ==> !seg.Holds(id)
  }

  /** The highest id of a segment's routes. */
  ghost predicate IsHighest(routes: map<int, string>, dcn: string, highest: Option<int>) {
    match highest
    case None => forall id :: id in routes ==> routes[id] != dcn
    case Some(m) => m in routes && routes[m] == dcn && forall id :: id in routes && routes[id] == dcn ==> id <= m
  }

  /** allocate's insert, from an earlier reading; a taken id is a duplicate and changes nothing. */
  ghost function Inserted(w: World, seg: Segment, m: Option<int>): World {
    var next := NextAccountId(seg, m);
    if (seg, m) !in w.readings || next.None? || next.value in w.routes then w
    else w.(routes := w.routes[next.value := seg.dcn], found := w.found + {(next.value, Route(seg.dcn, seg.endpoint))})
  }

  /** Locate's query on a cache miss. */
  ghost function LookedUp(w: World, id: int): World {
    if id !in w.routes then w
    else
      var seg := SegmentOf(w.segs, w.routes[id]);
      if seg.None? then w else w.(found := w.found + {(id, Route(seg.value.dcn, seg.value.endpoint))})
  }

  /** One atomic step of some handler; `highest` is what the query returns to ReadHighest. */
  ghost function Step(w: World, a: Action, highest: Option<int>): World {
    match a
    case AddSegment(seg) => if seg.start > 0 && seg.end >= seg.start && Fits(w.segs, seg) then w.(segs := w.segs + [seg]) else w
    case ReadHighest(k) =>
      if k < |w.segs| && IsHighest(w.routes, w.segs[k].dcn, highest)
      then w.(readings := w.readings + {(w.segs[k], highest)}) else w
    case Insert((seg, m)) => Inserted(w, seg, m)
    case Rollback(id) => w.(routes := w.routes - {id})
    case LookUp(id) => LookedUp(w, id)
    case Backfill((id, route)) => if (id, route) in w.found then w.(cache := w.cache[id := route]) else w
    case Evict(id) => w.(cache := w.cache - {id})
  }

  ghost function Exec(w: World, run: seq<(Action, Option<int>)>): World {
    if run == [] then w else Step(Exec(w, run[..|run| - 1]), run[|run| - 1].0, run[|run| - 1].1)
  }

  function Empty(): World {
    World([], map[], map[], {}, {})
  }

  // ---------- the invariant ----------

  ghost predicate Disjoint(segs: seq<Segment>) {
    forall i, j :: 0 <= i < j < |segs| ==>
      segs[i].dcn != segs[j].dcn && forall id :: segs[i].Holds(id) ==> !segs[j].Holds(id)
  }

  /** The id lies in this unit's segment. */
  predicate Owns(segs: seq<Segment>, id: int, dcn: string, endpoint: Option<string>) {
    exists i :: 0 <= i < |segs| && segs[i].dcn == dcn && segs[i].Holds(id) && (endpoint.Some? ==> segs[i].endpoint == endpoint.value)
  }

  ghost predicate Invariant(w: World) {
    && Disjoint(w.segs)
    && (forall id :: id in w.routes ==> Owns(w.segs, id, w.routes[id], None))
    && (forall id :: id in w.cache ==> Owns(w.segs, id, w.cache[id].dcn, Some(w.cache[id].endpoint)))
    && (forall id, r :: (id, r) in w.found ==> Owns(w.segs, id, r.dcn, Some(r.endpoint)))
    && (forall seg, m :: (seg, m) in w.readings ==> seg in w.segs && (m.Some? ==> seg.Holds(m.value)))
  }

  /** A unit is determined by any id it owns. */
  lemma OneOwner(segs: seq<Segment>, id: int, a: string, b: string, endpoint: string)
    requires Disjoint(segs) && Owns(segs, id, a, None) && Owns(segs, id, b, Some(endpoint))
    ensures a == b && Owns(segs, id, a, Some(endpoint))
  {
    var i :| 0 <= i < |segs| && segs[i].dcn == a && segs[i].Holds(id);
    var j :| 0 <= j < |segs| && segs[j].dcn == b && segs[j].Holds(id) && segs[j].endpoint == endpoint;
    assert i == j;
  }

  lemma {:induction false} SegmentFound(segs: seq<Segment>, dcn: string)
    ensures SegmentOf(segs, dcn).Some? ==> SegmentOf(segs, dcn).value in segs && SegmentOf(segs, dcn).value.dcn == dcn
    ensures SegmentOf(segs, dcn).None? ==> forall i :: 0 <= i < |segs| ==> segs[i].dcn != dcn
  {
    if segs != [] && segs[|segs| - 1].dcn != dcn { SegmentFound(segs[..|segs| - 1], dcn); }
  }

  lemma OwnsGrows(segs: seq<Segment>, seg: Segment, id: int, dcn: string, endpoint: Option<string>)
    requires Owns(segs, id, dcn, endpoint)
    ensures Owns(segs + [seg], id, dcn, endpoint)
  {
    var i :| 0 <= i < |segs| && segs[i].dcn == dcn && segs[i].Holds(id) && (endpoint.Some? ==> segs[i].endpoint == endpoint.value);
    assert (segs + [seg])[i] == segs[i];
  }

  lemma AddKeeps(w: World, seg: Segment)
    requires Invariant(w) && Fits(w.segs, seg)
    ensures Invariant(w.(segs := w.segs + [seg]))
  {
    var segs := w.segs + [seg];
    forall id, dcn, endpoint | Owns(w.segs, id, dcn, endpoint) ensures Owns(segs, id, dcn, endpoint) {
      OwnsGrows(w.segs, seg, id, dcn, endpoint);
    }
    forall s, m | (s, m) in w.readings ensures s in segs { assert s in w.segs; }
  }

  /** The segment of a routed id is the one its unit has. */
  lemma LookUpOwns(w: World, id: int)
    requires Invariant(w) && id in w.routes
    ensures SegmentOf(w.segs, w.routes[id]).Some?
    ensures var seg := SegmentOf(w.segs, w.routes[id]).value; Owns(w.segs, id, seg.dcn, Some(seg.endpoint))
  {
    SegmentFound(w.segs, w.routes[id]);
    var i :| 0 <= i < |w.segs| && w.segs[i].dcn == w.routes[id] && w.segs[i].Holds(id);
    var seg := SegmentOf(w.segs, w.routes[id]).value;
    var j :| 0 <= j < |w.segs| && w.segs[j] == seg;
    assert i == j;
  }

  lemma InsertOwns(w: World, seg: Segment, m: Option<int>)
    requires Invariant(w) && (seg, m) in w.readings && NextAccountId(seg, m).Some?
    ensures Owns(w.segs, NextAccountId(seg, m).value, seg.dcn, Some(seg.endpoint))
    ensures Owns(w.segs, NextAccountId(seg, m).value, seg.dcn, None)
  {
    var i :| 0 <= i < |w.segs| && w.segs[i] == seg;
    assert seg.Holds(NextAccountId(seg, m).value);
  }

  lemma ReadingFits(w: World, k: nat, highest: Option<int>)
    requires Invariant(w) && k < |w.segs| && IsHighest(w.routes, w.segs[k].dcn, highest)
    ensures highest.Some? ==> w.segs[k].Holds(highest.value)
  {
    if highest.Some? {
      assert Owns(w.segs, highest.value, w.segs[k].dcn, None);
      var i :| 0 <= i < |w.segs| && w.segs[i].dcn == w.segs[k].dcn && w.segs[i].Holds(highest.value);
      assert i == k;
    }
  }

  lemma StepKeeps(w: World, a: Action, highest: Option<int>)
    requires Invariant(w)
    ensures Invariant(Step(w, a, highest))
  {
    match a
    case AddSegment(seg) => if seg.start > 0 && seg.end >= seg.start && Fits(w.segs, seg) { AddKeeps(w, seg); }
    case ReadHighest(k) =>
      if k < |w.segs| && IsHighest(w.routes, w.segs[k].dcn, highest) { ReadingFits(w, k, highest); }
      hide Owns, Disjoint, IsHighest;
    case Insert((seg, m)) =>
      if (seg, m) in w.readings && NextAccountId(seg, m).Some? { InsertOwns(w, seg, m); }
      hide Owns, Disjoint;
    case LookUp(id) =>
      if id in w.routes { LookUpOwns(w, id); }
      hide Owns, Disjoint;
    case _ =>
      hide Owns, Disjoint;
  }

  /** MAIN THEOREM. Whatever openings, rollbacks, look-ups, expansions and cache writes interleave, every
      routed id lies in its own unit's segment, and a cached route never contradicts a route row: unit and
      endpoint agree even when the row was deleted and the id given out again in between. */
  lemma {:induction false} RoutesAgree(run: seq<(Action, Option<int>)>)
    ensures var w := Exec(Empty(), run);
            && Invariant(w)
            && (forall id :: id in w.routes ==> Owns(w.segs, id, w.routes[id], None))
            && (forall id :: id in w.routes && id in w.cache ==>
                  w.cache[id].dcn == w.routes[id] && Owns(w.segs, id, w.routes[id], Some(w.cache[id].endpoint)))
  {
    hide Invariant, Step;
    if run == [] {
      EmptyInvariant();
    } else {
      RoutesAgree(run[..|run| - 1]);
      StepKeeps(Exec(Empty(), run[..|run| - 1]), run[|run| - 1].0, run[|run| - 1].1);
    }
    InvariantMeans(Exec(Empty(), run));
  }

  lemma EmptyInvariant()
    ensures Invariant(Empty())
  {
  }

  lemma InvariantMeans(w: World)
    requires Invariant(w)
    ensures forall id :: id in w.routes ==> Owns(w.segs, id, w.routes[id], None)
    ensures forall id :: id in w.routes && id in w.cache ==>
              w.cache[id].dcn == w.routes[id] && Owns(w.segs, id, w.routes[id], Some(w.cache[id].endpoint))
  {
    forall id | id in w.routes && id in w.cache
      ensures w.cache[id].dcn == w.routes[id] && Owns(w.segs, id, w.routes[id], Some(w.cache[id].endpoint))
    {
      OneOwner(w.segs, id, w.routes[id], w.cache[id].dcn, w.cache[id].endpoint);
    }
  }

  // ---------- what opening and locating do ----------

  /** From a reading that is not stale the next id is a free one of the segment, one above the highest given out;
      there is none exactly when the segment is full. */
  lemma NextIsFree(w: World, k: nat, highest: Option<int>)
    requires Invariant(w) && k < |w.segs| && IsHighest(w.routes, w.segs[k].dcn, highest)
    ensures var seg := w.segs[k];
            match NextAccountId(seg, highest)
            case Some(id) => seg.Holds(id) && id !in w.routes && id == (if highest.Some? then highest.value else seg.start) + 1
            case None => forall id :: seg.Holds(id) ==> highest.Some? && id <= highest.value
  {
    var seg := w.segs[k];
    ReadingFits(w, k, highest);
    match NextAccountId(seg, highest)
    case None =>
    case Some(id) => if id in w.routes { RoutedToOwner(w, id, k); }
  }

  /** An id of a segment can only be routed to the segment's unit. */
  lemma RoutedToOwner(w: World, id: int, k: nat)
    requires Invariant(w) && id in w.routes && k < |w.segs| && w.segs[k].Holds(id)
    ensures w.routes[id] == w.segs[k].dcn
  {
    assert Owns(w.segs, id, w.routes[id], None);
    var i :| 0 <= i < |w.segs| && w.segs[i].dcn == w.routes[id] && w.segs[i].Holds(id);
    assert i == k;
  }

  /** Opening an account without interference gives out that id, routes it to the segment's unit and to no other, and
      leaves every other route alone. */
  lemma OpeningRoutes(w: World, k: nat, highest: Option<int>)
    requires Invariant(w) && k < |w.segs| && IsHighest(w.routes, w.segs[k].dcn, highest)
    requires NextAccountId(w.segs[k], highest).Some?
    ensures var seg := w.segs[k];
            var id := NextAccountId(seg, highest).value;
            var w' := Step(Step(w, ReadHighest(k), highest), Insert((seg, highest)), None);
            w'.routes == w.routes[id := seg.dcn] && (id, Route(seg.dcn, seg.endpoint)) in w'.found && w'.cache == w.cache
  {
    NextIsFree(w, k, highest);
    hide IsHighest, Invariant, NextAccountId;
  }

  /** Locating a routed id on a cache miss finds its unit with the endpoint of its segment and caches both; an id
      without a route is not found. */
  lemma LocatingFinds(w: World, id: int)
    requires Invariant(w)
    ensures id !in w.routes ==> Step(w, LookUp(id), None) == w
    ensures id in w.routes ==>
              exists i :: 0 <= i < |w.segs| && w.segs[i].dcn == w.routes[id] && w.segs[i].Holds(id)
                && var found := Step(w, LookUp(id), None);
                   var route := Route(w.routes[id], w.segs[i].endpoint);
                   && found == w.(found := w.found + {(id, route)})
                   && Step(found, Backfill((id, route)), None) == found.(cache := w.cache[id := route])
  {
    if id in w.routes {
      SegmentFound(w.segs, w.routes[id]);
      var i :| 0 <= i < |w.segs| && w.segs[i].dcn == w.routes[id] && w.segs[i].Holds(id);
      var seg := SegmentOf(w.segs, w.routes[id]).value;
      var j :| 0 <= j < |w.segs| && w.segs[j] == seg;
      assert i == j;
      hide Owns;
    }
  }

  /** A rollback takes one route out, an eviction one cache entry, and a segment is added exactly when it fits. */
  lemma OtherStepsAre(w: World, id: int, seg: Segment)
    ensures Step(w, Rollback(id), None) == w.(routes := w.routes - {id})
    ensures Step(w, Evict(id), None) == w.(cache := w.cache - {id})
    ensures Step(w, AddSegment(seg), None)
         == if 0 < seg.start <= seg.end && Fits(w.segs, seg) then w.(segs := w.segs + [seg]) else w
  {
  }
}
