/** Walking the virtual disk as extents is run-length encoding its cluster statuses. */
module Extents {
  import opened Bytes
  import opened Arith
  import opened Format
  import opened Engine
  import opened Reading

  datatype ClusterStatus = StatusAllocated | StatusZero | StatusUnallocated

  datatype Extent = Extent(start: nat, length: nat, status: ClusterStatus)

  /** The cache a walk reads through, and how many statuses it has looked up. */
  datatype Walk = Walk(cache: Cache, lookups: nat)

  function StatusOf(m: ClusterMap): ClusterStatus {
    match m
    case Plain(_, _) => StatusAllocated
    case Packed(_, _) => StatusAllocated
    case Zero => StatusZero
    case Unallocated => StatusUnallocated
  }

  function StatusAt(c: Core, w: Walk, virt: nat): Out<Walk, ClusterStatus> {
    if virt >= c.h.virtualSize then Bad(w, OutOfBounds)
    else
      match LookupCluster(c, w.cache, virt)
      case Bad(ca, e) => Bad(Walk(ca, w.lookups + 1), e)
      case Good(ca, m) => Good(Walk(ca, w.lookups + 1), StatusOf(m))
  }

  /** The end of the cluster at v, clamped to the disk. */
  function NextEnd(h: Header, v: nat): nat { Min(v + h.ClusterSize(), h.virtualSize) }

  /** How far an extent of status s reaches, known to reach end. */
  function GrowExtent(c: Core, w: Walk, s: ClusterStatus, end: nat): Out<Walk, nat>
    decreases c.h.virtualSize - end
  {
    if end >= c.h.virtualSize then Good(w, end)
    else
      var (w1, t) :- StatusAt(c, w, end);
      if t == s then GrowExtent(c, w1, s, NextEnd(c.h, end)) else Good(w1, end)
  }

  /** The next item of the walk from cursor, and the cursor after it: an error ends the walk. */
  function NextExtent(c: Core, w: Walk, cursor: nat): (r: (Walk, nat, Option<Result<Extent>>))
    ensures r.2.Some? <==> cursor < c.h.virtualSize
    ensures r.2.None? ==> r.0 == w
    ensures r.2.Some? && r.2.value.Err? ==> r.1 == c.h.virtualSize
  {
    if cursor >= c.h.virtualSize then (w, cursor, None)
    else
      match StatusAt(c, w, cursor)
      case Bad(w1, e) => (w1, c.h.virtualSize, Some(Err(e)))
      case Good(w1, s) =>
        match GrowExtent(c, w1, s, NextEnd(c.h, cursor))
        case Bad(w2, e) => (w2, c.h.virtualSize, Some(Err(e)))
        case Good(w2, end) => (w2, end, Some(Ok(Extent(cursor, if end > cursor then end - cursor else 0, s))))
  }

  // ---- statuses, without the walk ----

  function Status(c: Core, v: nat): Result<ClusterStatus> {
    var m :- PureLookup(c, v);
    Ok(StatusOf(m))
  }

  predicate Boundary(h: Header, v: nat) {
    v <= h.virtualSize && (v == h.virtualSize || Mod(v, h.ClusterSize()) == 0)
  }

  /** The number of clusters that start below v. */
  function ClustersBelow(h: Header, v: nat): nat { CeilDiv(v, h.ClusterSize()) }

  ghost predicate Uniform(c: Core, from: nat, to: nat, s: ClusterStatus) {
    forall v | from <= v < to :: Status(c, v) == Ok(s)
  }

  /** Some status from v on is an error. */
  ghost predicate Fails(c: Core, v: nat) {
    exists p | v <= p < c.h.virtualSize :: Status(c, p).Err?
  }

  lemma OneStatus(c: Core, v: nat, p: nat)
    requires Boundary(c.h, v) && v <= p < NextEnd(c.h, v)
    ensures Status(c, p) == Status(c, v)
  {
    hide PureLookup, Div, Mod;
    WithinCluster(c.h, v, p - v);
    SameCluster(c, p, v);
  }

  lemma NextBoundary(h: Header, v: nat)
    requires Boundary(h, v) && v < h.virtualSize
    ensures Boundary(h, NextEnd(h, v)) && NextEnd(h, v) > v
    ensures ClustersBelow(h, NextEnd(h, v)) == ClustersBelow(h, v) + 1
  {
    hide Div, Mod;
    var cs := h.ClusterSize();
    DivMod(v, cs);
    var q := Div(v, cs);
    DivModUnique(v + cs, cs, q + 1, 0);
    DivModUnique(v + cs - 1, cs, q, cs - 1);
    var n := NextEnd(h, v) - v;
    DivModUnique(v + n + cs - 1, cs, q + 1, n - 1);
  }

  lemma StatusCached(c: Core, w: Walk, v: nat)
    requires CacheOK(c, w.cache) && v < c.h.virtualSize
    ensures var r := StatusAt(c, w, v);
            r.Outcome() == Status(c, v) && CacheOK(c, r.s.cache) && r.s.lookups == w.lookups + 1
  {
    hide PureLookup, LookupCluster, CacheOK;
    LookupCached(c, w.cache, v);
  }

  // ---- one extent ----

  ghost predicate GrowsTo(c: Core, w: Walk, s: ClusterStatus, end: nat, r: Out<Walk, nat>) {
    && CacheOK(c, r.s.cache)
    && (r.Bad? ==> Fails(c, end))
    && (r.Good? ==>
          && end <= r.v && Boundary(c.h, r.v) && Uniform(c, end, r.v, s)
          && (r.v < c.h.virtualSize ==> Status(c, r.v).Ok? && Status(c, r.v).value != s)
          && r.s.lookups + ClustersBelow(c.h, end)
          == w.lookups + ClustersBelow(c.h, r.v) + if r.v < c.h.virtualSize then 1 else 0)
  }

  lemma {:induction false} GrowOK(c: Core, w: Walk, s: ClusterStatus, end: nat)
    requires CacheOK(c, w.cache) && Boundary(c.h, end)
    ensures GrowsTo(c, w, s, end, GrowExtent(c, w, s, end))
    decreases c.h.virtualSize - end
  {
    hide Status, CacheOK, StatusAt, ClustersBelow, Mod;
    if end < c.h.virtualSize {
      StatusCached(c, w, end);
      var t := StatusAt(c, w, end);
      if t.Good? && t.v == s {
        var e1 := NextEnd(c.h, end);
        NextBoundary(c.h, end);
        GrowOK(c, t.s, s, e1);
        forall v | end <= v < e1 ensures Status(c, v) == Ok(s) { OneStatus(c, end, v); }
      }
    }
  }

  /** One item of the walk: a run of one status, as long as it can be, or the error that ends the walk. */
  ghost predicate Step(c: Core, w: Walk, from: nat, w': Walk, to: nat, item: Result<Extent>) {
    && CacheOK(c, w'.cache)
    && from < to && Boundary(c.h, to)
    && (item.Err? ==> Fails(c, from))
    && (item.Ok? ==>
          && item.value == Extent(from, to - from, item.value.status)
          && Uniform(c, from, to, item.value.status)
          && (to < c.h.virtualSize ==> Status(c, to).Ok? && Status(c, to).value != item.value.status)
          && w'.lookups + ClustersBelow(c.h, from)
          == w.lookups + ClustersBelow(c.h, to) + if to < c.h.virtualSize then 1 else 0)
  }

  lemma NextOK(c: Core, w: Walk, cursor: nat)
    requires CacheOK(c, w.cache) && Boundary(c.h, cursor) && cursor < c.h.virtualSize
    ensures var n := NextExtent(c, w, cursor);
            Step(c, w, cursor, n.0, n.1, n.2.value)
  {
    hide Status, CacheOK, StatusAt, ClustersBelow, Mod, GrowExtent;
    StatusCached(c, w, cursor);
    NextBoundary(c.h, cursor);
    var t := StatusAt(c, w, cursor);
    if t.Good? {
      var e1 := NextEnd(c.h, cursor);
      GrowOK(c, t.s, t.v, e1);
      forall v | cursor <= v < e1 ensures Status(c, v) == Ok(t.v) { OneStatus(c, cursor, v); }
    }
  }

  // ---- the whole walk ----

  /** Every item of a walk from cursor on. */
  function AllExtents(c: Core, w: Walk, cursor: nat): (Walk, seq<Result<Extent>>)
    decreases c.h.virtualSize - cursor
  {
    var (w1, next, item) := NextExtent(c, w, cursor);
    if item.None? then (w1, [])
    else if next <= cursor then (w1, [item.value])
    else
      var (w2, rest) := AllExtents(c, w1, next);
      (w2, [item.value] + rest)
  }

  /** The items cover the disk from `from` on: extents that meet, start on cluster boundaries, hold one status each and
      differ from their neighbours; or such extents up to an error, which is the last item. */
  ghost predicate Encodes(c: Core, items: seq<Result<Extent>>, from: nat)
    decreases |items|
  {
    if from >= c.h.virtualSize then items == []
    else
      && items != [] && Boundary(c.h, from)
      && match items[0]
         case Err(_) => |items| == 1 && Fails(c, from)
         case Ok(x) =>
           && x.start == from && x.length > 0 && from + x.length <= c.h.virtualSize
           && Uniform(c, from, from + x.length, x.status)
           && (|items| > 1 && items[1].Ok? ==> items[1].value.status != x.status)
           && Encodes(c, items[1..], from + x.length)
  }

  predicate Clean(items: seq<Result<Extent>>) { forall i | 0 <= i < |items| :: items[i].Ok? }

  /** The lookups of a walk from cursor on beyond one for each cluster. */
  function Cost(c: Core, w: Walk, w': Walk, cursor: nat): int {
    w'.lookups - w.lookups - (ClustersBelow(c.h, c.h.virtualSize) - ClustersBelow(c.h, cursor))
  }

  /** The walk is the run-length encoding of the cluster statuses, and costs one lookup a cluster and one more for
      each extent after the first. */
  lemma {:induction false} WalkOK(c: Core, w: Walk, cursor: nat)
    requires CacheOK(c, w.cache) && Boundary(c.h, cursor)
    ensures var (w', items) := AllExtents(c, w, cursor);
            && CacheOK(c, w'.cache) && Encodes(c, items, cursor)
            && (Clean(items) && items != [] ==> Cost(c, w, w', cursor) == |items| - 1)
    decreases c.h.virtualSize - cursor
  {
    hide Status, CacheOK, StatusAt, ClustersBelow, Mod, NextExtent;
    if cursor < c.h.virtualSize {
      NextOK(c, w, cursor);
      var (w1, next, item) := NextExtent(c, w, cursor);
      WalkOK(c, w1, next);
      var (w2, rest) := AllExtents(c, w1, next);
      var items := [item.value] + rest;
      assert items[1..] == rest;
      if rest != [] && item.value.Ok? && rest[0].Ok? {
        assert Uniform(c, next, next + rest[0].value.length, rest[0].value.status);
        assert Status(c, next) == Ok(rest[0].value.status);
      }
      CleanRest(item.value, rest);
    }
  }

  lemma CleanRest(item: Result<Extent>, rest: seq<Result<Extent>>)
    ensures Clean([item] + rest) <==> item.Ok? && Clean(rest)
  {
    var items := [item] + rest;
    assert items[0] == item;
    assert forall i | 0 <= i < |rest| :: rest[i] == items[i + 1];
    assert forall i | 1 <= i < |items| :: items[i] == rest[i - 1];
  }

  /** A walk meets an error exactly when some cluster's status is one. */
  lemma {:induction false} ErrorsFound(c: Core, items: seq<Result<Extent>>, from: nat)
    requires Encodes(c, items, from)
    ensures Fails(c, from) <==> exists i | 0 <= i < |items| :: items[i].Err?
    decreases |items|
  {
    hide Status;
    if from < c.h.virtualSize && items[0].Ok? {
      var to := from + items[0].value.length;
      ErrorsFound(c, items[1..], to);
      if Fails(c, from) {
        var p :| from <= p < c.h.virtualSize && Status(c, p).Err?;
        assert p >= to;
        var i :| 0 <= i < |items[1..]| && items[1..][i].Err?;
        assert items[i + 1].Err?;
      }
      if i :| 0 <= i < |items| && items[i].Err? {
        assert items[1..][i - 1].Err?;
      }
    }
  }

  /** For a whole disk without errors: clusters + extents - 1 lookups. */
  lemma WholeDisk(c: Core, w: Walk)
    requires CacheOK(c, w.cache) && c.h.virtualSize > 0 && !Fails(c, 0)
    ensures var (w', items) := AllExtents(c, w, 0);
            && Encodes(c, items, 0) && Clean(items)
            && w'.lookups - w.lookups == CeilDiv(c.h.virtualSize, c.h.ClusterSize()) + |items| - 1
  {
    hide Status, CacheOK, AllExtents, Div, Fails;
    var cs := c.h.ClusterSize();
    DivModUnique(0, cs, 0, 0);
    DivModUnique(cs - 1, cs, 0, cs - 1);
    WalkOK(c, w, 0);
    ErrorsFound(c, AllExtents(c, w, 0).1, 0);
  }
}
