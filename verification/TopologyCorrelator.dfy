/**
  The cable graph and its two bounded searches
  (ai-agents/shared/topology_correlator.py).

  Distance is specified by walks alone; the searches keep a queue and a
  visited set, as the source does, and are proved against that specification.
*/
module TopologyCorrelator {
  import opened Prelude

  type Device = string
  type Graph = map<Device, set<Device>>

  /** Devices to expand, with their depth. */
  type Queue = seq<(Device, int)>

  /** `graph.get(device, set())`. */
  function Neighbours(g: Graph, v: Device): set<Device> {
    if v in g then g[v] else {}
  }

  // ---------------------------------------------------------------- distance

  ghost predicate IsWalk(g: Graph, p: seq<Device>) {
    |p| > 0 && forall i :: 0 <= i < |p| - 1 ==> p[i + 1] in Neighbours(g, p[i])
  }

  ghost predicate Joins(g: Graph, a: Device, b: Device, p: seq<Device>) {
    IsWalk(g, p) && p[0] == a && p[|p| - 1] == b
  }

  /** Some walk of at most `d` edges leads from `a` to `b`. */
  ghost predicate Within(g: Graph, a: Device, b: Device, d: int) {
    exists p :: Joins(g, a, b, p) && |p| - 1 <= d
  }

  /** The shortest walk from `a` to `b` has exactly `d` edges. */
  ghost predicate AtDistance(g: Graph, a: Device, b: Device, d: int) {
    Within(g, a, b, d) && !Within(g, a, b, d - 1)
  }

  ghost predicate Symmetric(g: Graph) {
    forall a, b :: b in Neighbours(g, a) ==> a in Neighbours(g, b)
  }

  ghost predicate Irreflexive(g: Graph) {
    forall a :: a !in Neighbours(g, a)
  }

  lemma WithinSelf(g: Graph, a: Device)
    ensures AtDistance(g, a, a, 0)
  {
    assert Joins(g, a, a, [a]);
  }

  lemma WithinStep(g: Graph, a: Device, v: Device, w: Device, d: int)
    requires Within(g, a, v, d) && w in Neighbours(g, v)
    ensures Within(g, a, w, d + 1)
  {
    var p :| Joins(g, a, v, p) && |p| - 1 <= d;
    assert Joins(g, a, w, p + [w]);
  }

  /** A set holding `a` and every neighbour of its members closer than `k` holds all devices within `k`. */
  lemma {:induction false} ClosedSetCovers(g: Graph, a: Device, s: set<Device>, k: int, p: seq<Device>)
    requires a in s && IsWalk(g, p) && p[0] == a && |p| - 1 <= k
    requires forall v :: v in s && Within(g, a, v, k - 1) ==> Neighbours(g, v) <= s
    ensures p[|p| - 1] in s
    decreases |p|
  {
    if |p| > 1 {
      var front := p[..|p| - 1];
      ClosedSetCovers(g, a, s, k, front);
      assert Joins(g, a, front[|front| - 1], front);
      assert p[|p| - 1] in Neighbours(g, p[|p| - 2]);
    }
  }

  lemma BallCovered(g: Graph, a: Device, s: set<Device>, k: int)
    requires a in s
    requires forall v :: v in s && Within(g, a, v, k - 1) ==> Neighbours(g, v) <= s
    ensures forall w :: Within(g, a, w, k) ==> w in s
  {
    forall w | Within(g, a, w, k)
      ensures w in s
    {
      var p :| Joins(g, a, w, p) && |p| - 1 <= k;
      ClosedSetCovers(g, a, s, k, p);
    }
  }

  lemma {:induction false} ReversedWalk(g: Graph, a: Device, b: Device, p: seq<Device>) returns (q: seq<Device>)
    requires Symmetric(g) && Joins(g, a, b, p)
    ensures Joins(g, b, a, q) && |q| == |p|
  {
    q := seq(|p|, i requires 0 <= i < |p| => p[|p| - 1 - i]);
    forall i | 0 <= i < |q| - 1
      ensures q[i + 1] in Neighbours(g, q[i])
    {
      var j := |p| - 2 - i;
      assert p[j + 1] in Neighbours(g, p[j]);
    }
  }

  lemma WithinSymmetric(g: Graph, a: Device, b: Device, d: int)
    requires Symmetric(g)
    ensures Within(g, a, b, d) <==> Within(g, b, a, d)
  {
    if Within(g, a, b, d) {
      var p :| Joins(g, a, b, p) && |p| - 1 <= d;
      var q := ReversedWalk(g, a, b, p);
    }
    if Within(g, b, a, d) {
      var p :| Joins(g, b, a, p) && |p| - 1 <= d;
      var q := ReversedWalk(g, b, a, p);
    }
  }

  lemma NoWalkOfLengthZero(g: Graph, a: Device, b: Device)
    requires a != b
    ensures !Within(g, a, b, 0)
  {
    forall p | Joins(g, a, b, p)
      ensures |p| - 1 > 0
    {
      assert p[0] != p[|p| - 1];
    }
  }

  /** Every device reachable in `h` steps, other than the start, has a distance in 1..h. */
  lemma {:induction false} DistanceExists(g: Graph, a: Device, b: Device, h: int)
    requires a != b
    ensures Within(g, a, b, h) <==> exists d :: 1 <= d <= h && AtDistance(g, a, b, d)
    decreases if h < 0 then 0 else h + 1
  {
    if h >= 0 {
      DistanceExists(g, a, b, h - 1);
      assert Within(g, a, b, h) && !Within(g, a, b, h - 1) ==> AtDistance(g, a, b, h);
      if h == 0 {
        NoWalkOfLengthZero(g, a, b);
      }
    }
  }

  // ---------------------------------------------------------------- the searches

  /** What a search knows when its next queue entry has depth at least `cur` and it expands depths below `limit`. */
  ghost predicate BfsInv(g: Graph, a: Device, limit: int, visited: set<Device>, queue: Queue, cur: int) {
    && a in visited
    && QueueInv(g, a, queue, cur)
    && (forall i :: 0 <= i < |queue| ==> queue[i].0 in visited)
    && (forall v :: v in visited ==> Within(g, a, v, limit))
    && (forall v :: v in visited && !Pending(queue, v) && Within(g, a, v, limit - 1) ==> Neighbours(g, v) <= visited)
  }

  /** Queue entries carry true distances, in order, of at most two consecutive values. */
  ghost predicate QueueInv(g: Graph, a: Device, queue: Queue, cur: int) {
    && (forall i :: 0 <= i < |queue| ==> cur <= queue[i].1 <= cur + 1 && AtDistance(g, a, queue[i].0, queue[i].1))
    && (forall i, j :: 0 <= i < j < |queue| ==> queue[i].1 <= queue[j].1)
  }

  ghost predicate Pending(queue: Queue, v: Device) {
    exists i :: 0 <= i < |queue| && queue[i].0 == v
  }

  /** Nothing in the queue is nearer than its head. */
  lemma NotPending(g: Graph, a: Device, queue: Queue, cur: int, v: Device, k: int)
    requires queue != [] && QueueInv(g, a, queue, cur) && k < queue[0].1 && Within(g, a, v, k)
    ensures !Pending(queue, v)
  {
    forall i | 0 <= i < |queue|
      ensures queue[i].0 != v
    {
      WithinMonotone(g, a, v, k, queue[i].1 - 1);
    }
  }

  /** When an entry of depth k reaches the head, everything within k has been visited. */
  lemma HeadBall(g: Graph, a: Device, limit: int, visited: set<Device>, queue: Queue, cur: int)
    requires BfsInv(g, a, limit, visited, queue, cur) && queue != [] && queue[0].1 <= limit
    ensures forall w :: Within(g, a, w, queue[0].1) ==> w in visited
  {
    var k := queue[0].1;
    forall v | v in visited && Within(g, a, v, k - 1)
      ensures Neighbours(g, v) <= visited
    {
      WithinMonotone(g, a, v, k - 1, limit - 1);
      NotPending(g, a, queue, cur, v, k - 1);
    }
    BallCovered(g, a, visited, k);
  }

  lemma WithinMonotone(g: Graph, a: Device, b: Device, d: int, e: int)
    ensures d <= e && Within(g, a, b, d) ==> Within(g, a, b, e)
  {
  }

  lemma PoppedPending(queue: Queue, tail: Queue)
    requires queue != []
    ensures forall v :: v != queue[0].0 && Pending(queue, v) ==> Pending(queue[1..] + tail, v)
    ensures forall v :: Pending(queue[1..], v) ==> Pending(queue, v)
  {
    forall v | v != queue[0].0 && Pending(queue, v)
      ensures Pending(queue[1..] + tail, v)
    {
      var i :| 0 <= i < |queue| && queue[i].0 == v;
      assert (queue[1..] + tail)[i - 1].0 == v;
    }
    forall v | Pending(queue[1..], v)
      ensures Pending(queue, v)
    {
      var i :| 0 <= i < |queue[1..]| && queue[1..][i].0 == v;
      assert queue[i + 1].0 == v;
    }
  }

  /** Popping an entry at the depth bound keeps the search invariant. */
  lemma PopKeepsInv(g: Graph, a: Device, limit: int, visited: set<Device>, queue: Queue, cur: int)
    requires BfsInv(g, a, limit, visited, queue, cur) && queue != [] && queue[0].1 == limit
    ensures BfsInv(g, a, limit, visited, queue[1..], queue[0].1)
  {
    PoppedPending(queue, []);
    assert queue[1..] + [] == queue[1..];
  }

  /** The new devices of an expansion are exactly one step further than the device expanded. */
  lemma NewDistances(g: Graph, a: Device, limit: int, visited: set<Device>, queue: Queue, cur: int)
    requires BfsInv(g, a, limit, visited, queue, cur) && queue != [] && queue[0].1 < limit
    ensures forall v :: v in Neighbours(g, queue[0].0) && v !in visited ==> AtDistance(g, a, v, queue[0].1 + 1)
  {
    HeadBall(g, a, limit, visited, queue, cur);
    forall v | v in Neighbours(g, queue[0].0) && v !in visited
      ensures AtDistance(g, a, v, queue[0].1 + 1)
    {
      WithinStep(g, a, queue[0].0, v, queue[0].1);
    }
  }

  lemma ExpandedQueue(g: Graph, a: Device, queue: Queue, cur: int, added: seq<Device>)
    requires QueueInv(g, a, queue, cur) && queue != []
    requires forall v :: v in added ==> AtDistance(g, a, v, queue[0].1 + 1)
    ensures QueueInv(g, a, queue[1..] + Level(added, queue[0].1 + 1), queue[0].1)
  {
    var k := queue[0].1;
    var queue' := queue[1..] + Level(added, k + 1);
    forall i | 0 <= i < |queue'|
      ensures k <= queue'[i].1 <= k + 1 && AtDistance(g, a, queue'[i].0, queue'[i].1)
      ensures i < |queue| - 1 ==> queue'[i] == queue[i + 1]
      ensures i >= |queue| - 1 ==> queue'[i].1 == k + 1
    {
      if i >= |queue| - 1 {
        assert queue'[i].0 == added[i - (|queue| - 1)];
        assert queue'[i].0 in added;
      }
    }
  }

  /** Expanding the popped entry keeps the search invariant. */
  lemma ExpandKeepsInv(g: Graph, a: Device, limit: int, visited: set<Device>, queue: Queue, cur: int,
                       added: seq<Device>, queue': Queue)
    requires BfsInv(g, a, limit, visited, queue, cur) && queue != [] && queue[0].1 < limit
    requires forall v :: v in added <==> v in Neighbours(g, queue[0].0) && v !in visited
    requires queue' == queue[1..] + Level(added, queue[0].1 + 1)
    ensures BfsInv(g, a, limit, visited + Neighbours(g, queue[0].0), queue', queue[0].1)
    ensures forall v :: v in added ==> AtDistance(g, a, v, queue[0].1 + 1)
  {
    var (c, k) := queue[0];
    var visited' := visited + Neighbours(g, c);
    NewDistances(g, a, limit, visited, queue, cur);
    ExpandedQueue(g, a, queue, cur, added);
    PoppedPending(queue, Level(added, k + 1));
    NewArePending(queue[1..], added, k + 1);
    forall v | v in visited'
      ensures Within(g, a, v, limit)
    {
      if v !in visited { WithinMonotone(g, a, v, k + 1, limit); }
    }
    forall i | 0 <= i < |queue'|
      ensures queue'[i].0 in visited'
    {
      if i < |queue| - 1 {
        assert queue'[i] == queue[i + 1];
      } else {
        assert queue'[i].0 == added[i - (|queue| - 1)];
      }
    }
  }

  function Level(added: seq<Device>, depth: int): seq<(Device, int)> {
    seq(|added|, i requires 0 <= i < |added| => (added[i], depth))
  }

  /** What `find_root_cause` promises; the first loop of the source always looks one step out, whatever `hops` is. */
  ghost predicate IsRootCause(g: Graph, a: Device, rcas: seq<Device>, hops: int, r: Option<Device>) {
    match r
    case Some(d) => d in rcas && d != a && Within(g, a, d, SearchBound(hops))
                    && forall e, k :: e in rcas && e != a && Within(g, a, e, k) ==> Within(g, a, d, k)
    case None => forall e :: e in rcas && e != a ==> !Within(g, a, e, SearchBound(hops))
  }

  function SearchBound(hops: int): int { if hops + 1 < 1 then 1 else hops + 1 }

  /** What `get_blast_radius` and `is_downstream_symptom` decide. */
  ghost predicate InBlastRadius(g: Graph, root: Device, v: Device, hops: int) {
    exists d :: 1 <= d <= hops && AtDistance(g, root, v, d)
  }

  class TopologyCorrelator {
    const hops: int
    var graph: Graph

    constructor (hops: int)
      ensures this.hops == hops && graph == map[]
    {
      this.hops := hops;
      graph := map[];
    }

    /** Step 3 of `_fetch_topology_graph`: one undirected edge per cable whose ends sit on two known, distinct devices. */
    method BuildGraph(intfToDevice: map<string, Device>, intfToPeer: map<string, string>)
      modifies this
      ensures HasEdges(graph, intfToDevice, intfToPeer, intfToPeer.Keys)
      ensures Symmetric(graph) && Irreflexive(graph)
    {
      graph := map[];
      var todo := intfToPeer.Keys;
      while todo != {}
        invariant todo <= intfToPeer.Keys
        invariant HasEdges(graph, intfToDevice, intfToPeer, intfToPeer.Keys - todo)
        decreases |todo|
      {
        var iid :| iid in todo;
        HasEdgesGrows(graph, intfToDevice, intfToPeer, intfToPeer.Keys - todo, iid);
        assert intfToPeer.Keys - (todo - {iid}) == (intfToPeer.Keys - todo) + {iid};
        todo := todo - {iid};
        var da := DeviceOf(intfToDevice, iid);
        var db := DeviceOf(intfToDevice, intfToPeer[iid]);
        if da != "" && db != "" && da != db {
          graph := AddNeighbour(graph, da, db);
          graph := AddNeighbour(graph, db, da);
        }
      }
      HasEdgesSymmetric(graph, intfToDevice, intfToPeer);
    }

    /** The neighbour loop shared by the searches: visit what is new, one level deeper. */
    static method VisitNeighbours(g: Graph, current: Device, depth: int, visited: set<Device>, queue: Queue)
      returns (visited': set<Device>, queue': Queue, added: seq<Device>)
      ensures visited' == visited + Neighbours(g, current)
      ensures NoDuplicates(added)
      ensures forall v :: v in added <==> v in Neighbours(g, current) && v !in visited
      ensures queue' == queue + Level(added, depth)
    {
      visited', queue', added := visited, queue, [];
      var todo := Neighbours(g, current);
      while todo != {}
        invariant todo <= Neighbours(g, current)
        invariant visited' == visited + (Neighbours(g, current) - todo)
        invariant NoDuplicates(added)
        invariant forall v :: v in added <==> v in visited' && v !in visited
        invariant queue' == queue + Level(added, depth)
        decreases |todo|
      {
        var n :| n in todo;
        todo := todo - {n};
        if n !in visited' {
          visited' := visited' + {n};
          added := added + [n];
          queue' := queue' + [(n, depth)];
        }
      }
    }

    method FindRootCause(alertDevice: Device, existingRcas: seq<Device>) returns (r: Option<Device>)
      ensures IsRootCause(graph, alertDevice, existingRcas, hops, r)
    {
      if existingRcas == [] { return None; }
      if graph == map[] {
        EmptyGraphIsolates(graph, alertDevice);
        return None;
      }
      var a, limit := alertDevice, SearchBound(hops);
      var visited, queue, added := VisitNeighbours(graph, a, 1, {a}, []);
      ghost var cur := 0;
      RootSearchStarts(graph, a, limit, added, queue, existingRcas);
      while queue != []
        invariant RootSearch(graph, a, limit, visited, queue, cur, existingRcas)
        decreases KnownDevices(graph, a) - visited, |queue|
      {
        var (device, depth) := queue[0];
        if device in existingRcas {
          Nearest(graph, a, limit, visited, queue, cur, existingRcas);
          return Some(device);
        }
        if depth < hops + 1 {
          var visited', queue', added := VisitNeighbours(graph, device, depth + 1, visited, queue[1..]);
          RootSearchExpands(graph, a, limit, visited, queue, cur, added, queue', existingRcas);
          if visited' != visited { LessToVisit(KnownDevices(graph, a), visited, visited'); }
          visited, queue := visited', queue';
        } else {
          RootSearchSkips(graph, a, limit, visited, queue, cur, existingRcas);
          queue := queue[1..];
        }
        cur := depth;
      }
      BallCovered(graph, a, visited, limit);
      return None;
    }

    method GetBlastRadius(device: Device, hops: Option<int>) returns (affected: seq<Device>)
      ensures IsBlastRadius(graph, device, if hops.Some? then hops.value else this.hops, affected)
    {
      var maxHops := if hops.Some? then hops.value else this.hops;
      affected := [];
      if graph == map[] {
        EmptyBlastRadius(graph, device, maxHops);
        return;
      }
      var visited, queue := {device}, [(device, 0)];
      ghost var cur, limit := 0, if maxHops < 0 then 0 else maxHops;
      BlastSearchStarts(graph, device, limit);
      while queue != []
        invariant BlastSearch(graph, device, limit, visited, queue, cur, affected)
        decreases KnownDevices(graph, device) - visited, |queue|
      {
        var (current, depth) := queue[0];
        if depth >= maxHops {
          BlastSearchSkips(graph, device, limit, visited, queue, cur, affected);
          queue := queue[1..];
        } else {
          var visited', queue', added := VisitNeighbours(graph, current, depth + 1, visited, queue[1..]);
          BlastSearchExpands(graph, device, limit, visited, queue, cur, added, queue', affected);
          if visited' != visited { LessToVisit(KnownDevices(graph, device), visited, visited'); }
          visited, queue, affected := visited', queue', affected + added;
        }
        cur := depth;
      }
      BlastSearchEnds(graph, device, maxHops, limit, visited, cur, affected);
    }

    method IsDownstreamSymptom(alertDevice: Device, candidateRoot: Device) returns (b: bool)
      ensures b <==> InBlastRadius(graph, candidateRoot, alertDevice, hops)
    {
      var blast := GetBlastRadius(candidateRoot, None);
      b := alertDevice in blast;
    }
  }

  // ---------------------------------------------------------------- helpers of the search proofs

  function DeviceOf(intfToDevice: map<string, Device>, iid: string): Device {
    if iid in intfToDevice then intfToDevice[iid] else ""
  }

  /** Interface `iid` and its cable peer sit on `a` and `b`, in one order or the other. */
  ghost predicate CableJoins(intfToDevice: map<string, Device>, intfToPeer: map<string, string>, iid: string,
                             a: Device, b: Device)
    requires iid in intfToPeer
  {
    var da, db := DeviceOf(intfToDevice, iid), DeviceOf(intfToDevice, intfToPeer[iid]);
    a != "" && b != "" && a != b && ((da == a && db == b) || (da == b && db == a))
  }

  /** `a` and `b` are neighbours exactly when one of the cables in `among` joins them. */
  ghost predicate HasEdges(g: Graph, intfToDevice: map<string, Device>, intfToPeer: map<string, string>,
                           among: set<string>)
    requires among <= intfToPeer.Keys
  {
    forall a, b :: b in Neighbours(g, a) <==> exists iid :: iid in among && CableJoins(intfToDevice, intfToPeer, iid, a, b)
  }

  /** `graph.setdefault(a, set()).add(b)`. */
  function AddNeighbour(g: Graph, a: Device, b: Device): (r: Graph)
    ensures forall x :: Neighbours(r, x) == if x == a then Neighbours(g, a) + {b} else Neighbours(g, x)
  {
    g[a := Neighbours(g, a) + {b}]
  }

  lemma HasEdgesGrows(g: Graph, intfToDevice: map<string, Device>, intfToPeer: map<string, string>, done: set<string>,
                      iid: string)
    requires done <= intfToPeer.Keys && iid in intfToPeer && HasEdges(g, intfToDevice, intfToPeer, done)
    ensures var da, db := DeviceOf(intfToDevice, iid), DeviceOf(intfToDevice, intfToPeer[iid]);
            HasEdges(if da != "" && db != "" && da != db then AddNeighbour(AddNeighbour(g, da, db), db, da) else g,
                     intfToDevice, intfToPeer, done + {iid})
  {
    var da, db := DeviceOf(intfToDevice, iid), DeviceOf(intfToDevice, intfToPeer[iid]);
    var g' := if da != "" && db != "" && da != db then AddNeighbour(AddNeighbour(g, da, db), db, da) else g;
    forall a, b
      ensures b in Neighbours(g', a) <==> b in Neighbours(g, a) || CableJoins(intfToDevice, intfToPeer, iid, a, b)
    {
    }
    forall a, b
      ensures b in Neighbours(g', a) <==> exists i :: i in done + {iid} && CableJoins(intfToDevice, intfToPeer, i, a, b)
    {
      assert CableJoins(intfToDevice, intfToPeer, iid, a, b) ==> iid in done + {iid};
    }
  }

  lemma HasEdgesSymmetric(g: Graph, intfToDevice: map<string, Device>, intfToPeer: map<string, string>)
    requires HasEdges(g, intfToDevice, intfToPeer, intfToPeer.Keys)
    ensures Symmetric(g) && Irreflexive(g)
  {
    forall a, b | b in Neighbours(g, a)
      ensures a in Neighbours(g, b) && a != b
    {
      var iid :| iid in intfToPeer.Keys && CableJoins(intfToDevice, intfToPeer, iid, a, b);
      assert CableJoins(intfToDevice, intfToPeer, iid, b, a);
    }
  }

  ghost function KnownDevices(g: Graph, a: Device): set<Device> {
    {a} + set v, w | v in g && w in g[v] :: w
  }

  lemma InBlastRadiusIffWithin(g: Graph, root: Device, h: int)
    ensures forall v :: InBlastRadius(g, root, v, h) <==> v != root && Within(g, root, v, h)
  {
    forall v
      ensures InBlastRadius(g, root, v, h) <==> v != root && Within(g, root, v, h)
    {
      if v == root {
        WithinSelf(g, root);
        forall d | 1 <= d
          ensures !AtDistance(g, root, v, d)
        {
          WithinMonotone(g, root, v, 0, d - 1);
        }
      } else {
        DistanceExists(g, root, v, h);
      }
    }
  }

  lemma EmptyGraphIsolates(g: Graph, a: Device)
    requires g == map[]
    ensures forall v, d :: v != a ==> !Within(g, a, v, d)
  {
    forall p | IsWalk(g, p)
      ensures |p| == 1
    {
      assert |p| > 1 ==> p[0 + 1] in Neighbours(g, p[0]);
    }
  }

  lemma NothingWithinZero(g: Graph, a: Device, d: int)
    ensures d <= 0 ==> forall v :: v != a ==> !Within(g, a, v, d)
  {
  }

  /** What is left to visit shrinks whenever something new is visited. */
  lemma LessToVisit(known: set<Device>, visited: set<Device>, visited': set<Device>)
    requires visited <= visited' <= known && visited' != visited
    ensures known - visited' < known - visited
  {
    var v :| v in visited' && v !in visited;
    assert v in known - visited && v !in known - visited';
  }

  // ---- the loop of find_root_cause

  ghost predicate RootSearch(g: Graph, a: Device, limit: int, visited: set<Device>, queue: Queue, cur: int,
                             rcas: seq<Device>) {
    && BfsInv(g, a, limit, visited, queue, cur)
    && (forall i :: 0 <= i < |queue| ==> 1 <= queue[i].1 <= limit && queue[i].0 != a)
    && (forall v :: v in visited && v != a && !Pending(queue, v) ==> v !in rcas)
    && visited <= KnownDevices(g, a)
  }

  lemma RootSearchStarts(g: Graph, a: Device, limit: int, added: seq<Device>, queue: Queue, rcas: seq<Device>)
    requires limit >= 1
    requires forall v :: v in added <==> v in Neighbours(g, a) && v != a
    requires queue == [] + Level(added, 1)
    ensures RootSearch(g, a, limit, {a} + Neighbours(g, a), queue, 0, rcas)
  {
    StartInv(g, a, limit);
    assert [(a, 0)][1..] == [];
    ExpandKeepsInv(g, a, limit, {a}, [(a, 0)], 0, added, queue);
    NewArePending([], added, 1);
    forall i | 0 <= i < |queue|
      ensures queue[i].1 == 1 && queue[i].0 != a
    {
      assert queue[i].0 == added[i] && added[i] in added;
    }
  }

  lemma StartInv(g: Graph, a: Device, limit: int)
    requires limit >= 0
    ensures BfsInv(g, a, limit, {a}, [(a, 0)], 0)
  {
    WithinSelf(g, a);
    WithinMonotone(g, a, a, 0, limit);
    assert [(a, 0)][0].0 == a;
    assert Pending([(a, 0)], a);
  }

  lemma RootSearchSkips(g: Graph, a: Device, limit: int, visited: set<Device>, queue: Queue, cur: int,
                        rcas: seq<Device>)
    requires RootSearch(g, a, limit, visited, queue, cur, rcas) && queue != []
    requires queue[0].0 !in rcas && queue[0].1 == limit
    ensures RootSearch(g, a, limit, visited, queue[1..], queue[0].1, rcas)
  {
    PopKeepsInv(g, a, limit, visited, queue, cur);
    PoppedPending(queue, []);
    assert queue[1..] + [] == queue[1..];
  }

  lemma RootSearchExpands(g: Graph, a: Device, limit: int, visited: set<Device>, queue: Queue, cur: int,
                          added: seq<Device>, queue': Queue, rcas: seq<Device>)
    requires RootSearch(g, a, limit, visited, queue, cur, rcas) && queue != []
    requires queue[0].0 !in rcas && queue[0].1 < limit
    requires forall v :: v in added <==> v in Neighbours(g, queue[0].0) && v !in visited
    requires queue' == queue[1..] + Level(added, queue[0].1 + 1)
    ensures RootSearch(g, a, limit, visited + Neighbours(g, queue[0].0), queue', queue[0].1, rcas)
    ensures visited + Neighbours(g, queue[0].0) == visited ==> |queue'| == |queue| - 1
  {
    var visited' := visited + Neighbours(g, queue[0].0);
    ExpandKeepsInv(g, a, limit, visited, queue, cur, added, queue');
    NoRcaLeft(visited, queue, added, queue[0].1 + 1, rcas, a);
    assert forall v :: v in visited' <==> v in visited || v in added;
    if added != [] { assert added[0] in visited' && added[0] !in visited; }
    DepthsInRange(queue, added, queue[0].1 + 1, limit, a);
  }

  /** Queueing new devices one level deeper keeps depths in range and the start out of the queue. */
  lemma DepthsInRange(queue: Queue, added: seq<Device>, depth: int, limit: int, a: Device)
    requires queue != [] && 1 <= depth <= limit && a !in added
    requires forall i :: 0 <= i < |queue| ==> 1 <= queue[i].1 <= limit && queue[i].0 != a
    ensures var longer: Queue := queue[1..] + Level(added, depth);
            forall i :: 0 <= i < |longer| ==> 1 <= longer[i].1 <= limit && longer[i].0 != a
  {
    var longer: Queue := queue[1..] + Level(added, depth);
    forall i | 0 <= i < |longer|
      ensures 1 <= longer[i].1 <= limit && longer[i].0 != a
    {
      if i < |queue| - 1 {
        assert longer[i] == queue[i + 1];
      } else {
        var k := i - (|queue| - 1);
        assert longer[i] == (added[k], depth) && added[k] in added;
      }
    }
  }

  /** Popping a device without an active RCA and queueing the devices added leaves no RCA among the settled ones. */
  lemma NoRcaLeft(visited: set<Device>, queue: Queue, added: seq<Device>, depth: int, rcas: seq<Device>, a: Device)
    requires queue != [] && queue[0].0 !in rcas
    requires forall v :: v in visited && v != a && !Pending(queue, v) ==> v !in rcas
    ensures forall v :: (v in visited || v in added) && v != a && !Pending(queue[1..] + Level(added, depth), v) ==> v !in rcas
  {
    PoppedPending(queue, Level(added, depth));
    NewArePending(queue[1..], added, depth);
  }

  // ---- the loop of get_blast_radius

  ghost predicate IsBlastRadius(g: Graph, root: Device, hops: int, affected: seq<Device>) {
    && (forall v :: v in affected <==> InBlastRadius(g, root, v, hops))
    && NoDuplicates(affected)
    && forall i, j, d :: 0 <= i < j < |affected| && Within(g, root, affected[j], d) ==> Within(g, root, affected[i], d)
  }

  ghost predicate BlastSearch(g: Graph, a: Device, limit: int, visited: set<Device>, queue: Queue, cur: int,
                              affected: seq<Device>) {
    && BfsInv(g, a, limit, visited, queue, cur)
    && cur <= limit
    && (forall i :: 0 <= i < |queue| ==> 0 <= queue[i].1 <= limit)
    && (forall v :: v in affected <==> v in visited && v != a)
    && NoDuplicates(affected)
    && Ranked(g, a, affected, cur)
    && visited <= KnownDevices(g, a)
  }

  lemma EmptyBlastRadius(g: Graph, a: Device, hops: int)
    requires g == map[]
    ensures IsBlastRadius(g, a, hops, [])
  {
    InBlastRadiusIffWithin(g, a, hops);
    EmptyGraphIsolates(g, a);
  }

  lemma BlastSearchStarts(g: Graph, a: Device, limit: int)
    requires limit >= 0
    ensures BlastSearch(g, a, limit, {a}, [(a, 0)], 0, [])
  {
    StartInv(g, a, limit);
  }

  lemma BlastSearchSkips(g: Graph, a: Device, limit: int, visited: set<Device>, queue: Queue, cur: int,
                         affected: seq<Device>)
    requires BlastSearch(g, a, limit, visited, queue, cur, affected) && queue != [] && queue[0].1 == limit
    ensures BlastSearch(g, a, limit, visited, queue[1..], queue[0].1, affected)
  {
    PopKeepsInv(g, a, limit, visited, queue, cur);
    AppendRanked(g, a, affected, cur, [], queue[0].1);
    assert affected + [] == affected;
  }

  lemma BlastSearchExpands(g: Graph, a: Device, limit: int, visited: set<Device>, queue: Queue, cur: int,
                           added: seq<Device>, queue': Queue, affected: seq<Device>)
    requires BlastSearch(g, a, limit, visited, queue, cur, affected) && queue != [] && queue[0].1 < limit
    requires forall v :: v in added <==> v in Neighbours(g, queue[0].0) && v !in visited
    requires NoDuplicates(added)
    requires queue' == queue[1..] + Level(added, queue[0].1 + 1)
    ensures BlastSearch(g, a, limit, visited + Neighbours(g, queue[0].0), queue', queue[0].1, affected + added)
    ensures visited + Neighbours(g, queue[0].0) == visited ==> |queue'| == |queue| - 1
  {
    var visited' := visited + Neighbours(g, queue[0].0);
    ExpandKeepsInv(g, a, limit, visited, queue, cur, added, queue');
    AppendRanked(g, a, affected, cur, added, queue[0].1);
    if added != [] { assert added[0] in visited' && added[0] !in visited; }
    forall i | 0 <= i < |queue'|
      ensures 0 <= queue'[i].1 <= limit
    {
      assert i < |queue| - 1 ==> queue'[i] == queue[i + 1];
    }
    forall i, j | 0 <= i < j < |affected + added|
      ensures (affected + added)[i] != (affected + added)[j]
    {
      if i < |affected| <= j {
        assert affected[i] in visited && added[j - |affected|] !in visited;
      }
    }
  }

  lemma BlastSearchEnds(g: Graph, a: Device, hops: int, limit: int, visited: set<Device>, cur: int,
                        affected: seq<Device>)
    requires BlastSearch(g, a, limit, visited, [], cur, affected)
    requires limit == if hops < 0 then 0 else hops
    ensures IsBlastRadius(g, a, hops, affected)
  {
    InBlastRadiusIffWithin(g, a, hops);
    BallCovered(g, a, visited, limit);
    NothingWithinZero(g, a, 0);
    NothingWithinZero(g, a, hops);
  }

  lemma NewArePending(rest: Queue, added: seq<Device>, depth: int)
    ensures forall v :: v in added ==> Pending(rest + Level(added, depth), v)
  {
    forall v | v in added
      ensures Pending(rest + Level(added, depth), v)
    {
      var i :| 0 <= i < |added| && added[i] == v;
      assert (rest + Level(added, depth))[|rest| + i].0 == v;
    }
  }

  /** The popped device is at least as near as every device with an active RCA. */
  lemma Nearest(g: Graph, a: Device, limit: int, visited: set<Device>, queue: Queue, cur: int, rcas: seq<Device>)
    requires BfsInv(g, a, limit, visited, queue, cur) && queue != [] && queue[0].1 <= limit
    requires forall v :: v in visited && v != a && !Pending(queue, v) ==> v !in rcas
    ensures forall e, k :: e in rcas && e != a && Within(g, a, e, k) ==> Within(g, a, queue[0].0, k)
  {
    HeadBall(g, a, limit, visited, queue, cur);
    forall e, k | e in rcas && e != a && Within(g, a, e, k)
      ensures Within(g, a, queue[0].0, k)
    {
      if k >= queue[0].1 {
        WithinMonotone(g, a, queue[0].0, queue[0].1, k);
      } else {
        WithinMonotone(g, a, e, k, queue[0].1);
        NotPending(g, a, queue, cur, e, k);
        assert false;
      }
    }
  }

  /** Devices are listed by non-decreasing distance, none beyond `cur + 1`. */
  ghost predicate Ranked(g: Graph, a: Device, s: seq<Device>, cur: int) {
    && (forall i, j, d :: 0 <= i < j < |s| && Within(g, a, s[j], d) ==> Within(g, a, s[i], d))
    && (forall i :: 0 <= i < |s| ==> Within(g, a, s[i], cur + 1))
  }

  lemma AppendRanked(g: Graph, a: Device, s: seq<Device>, cur: int, added: seq<Device>, depth: int)
    requires Ranked(g, a, s, cur) && cur <= depth
    requires forall v :: v in added ==> AtDistance(g, a, v, depth + 1)
    ensures Ranked(g, a, s + added, depth)
  {
    var t := s + added;
    forall i | 0 <= i < |t|
      ensures Within(g, a, t[i], depth + 1)
    {
      if i < |s| {
        WithinMonotone(g, a, t[i], cur + 1, depth + 1);
      } else {
        assert t[i] in added;
      }
    }
    forall i, j, d | 0 <= i < j < |t| && Within(g, a, t[j], d)
      ensures Within(g, a, t[i], d)
    {
      if j >= |s| {
        assert t[j] in added;
        WithinMonotone(g, a, t[j], d, depth);
        WithinMonotone(g, a, t[i], depth + 1, d);
      }
    }
  }

  // ---------------------------------------------------------------- properties of the pair

  lemma DownstreamIsSymmetric(g: Graph, a: Device, b: Device, hops: int)
    requires Symmetric(g)
    ensures InBlastRadius(g, a, b, hops) <==> InBlastRadius(g, b, a, hops)
  {
    forall d
      ensures AtDistance(g, a, b, d) <==> AtDistance(g, b, a, d)
    {
      WithinSymmetric(g, a, b, d);
      WithinSymmetric(g, a, b, d - 1);
    }
  }

  /** Whenever `b`'s blast radius reaches `a`, the root-cause search from `a` that knows of `b` alone answers `b`. */
  lemma SymptomHasRootCause(g: Graph, a: Device, b: Device, hops: int, r: Option<Device>)
    requires Symmetric(g) && InBlastRadius(g, b, a, hops)
    requires IsRootCause(g, a, [b], hops, r)
    ensures r == Some(b)
  {
    DownstreamIsSymmetric(g, a, b, hops);
    var d :| 1 <= d <= hops && AtDistance(g, a, b, d);
    WithinSelf(g, a);
    WithinMonotone(g, a, a, 0, d - 1);
    WithinMonotone(g, a, b, d, SearchBound(hops));
    assert b in [b];
  }
}
