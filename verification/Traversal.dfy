/**
 * Breadth-first search over a possibly cyclic object graph, as both error
 * extractors of the repository run it: a FIFO queue of values, and a visited
 * set that is filled when an object is taken OUT of the queue, so one object
 * may be queued several times.
 *
 * A place in the unfolded graph is a Route: the edges taken from the start
 * value. Routes are ordered by length and then edge by edge; that is the order
 * in which the search looks at them, so "the first hit" has a meaning that does
 * not mention a queue.
 */
module Traversal {
  import opened Options

  /** A JavaScript value, as far as the searches look at it. */
  datatype Value =
    | Nullish
    | Primitive(truthy: bool)
    | Text(text: string)
    | Ref(id: nat)

  /** What a search sees of a heap: ordered successors, and the answer an object holds, if any. */
  datatype View = View(kids: map<nat, seq<Value>>, hit: map<nat, Option<string>>)

  ghost predicate WellFormed(v: View)
  {
    && v.kids.Keys == v.hit.Keys
    && forall n, e :: n in v.kids && 0 <= e < |v.kids[n]| && v.kids[n][e].Ref? ==> v.kids[n][e].id in v.kids
  }

  ghost predicate Known(v: View, x: Value)
  {
    x.Ref? ==> x.id in v.kids
  }

  datatype Route = Start | Via(prev: Route, edge: nat)

  ghost function Depth(r: Route): nat
  {
    if r.Start? then 0 else 1 + Depth(r.prev)
  }

  /** Shorter routes first, routes of one length edge by edge from the start. */
  ghost predicate Less(a: Route, b: Route)
  {
    match (a, b)
    case (_, Start) => false
    case (Start, Via(_, _)) => true
    case (Via(p, i), Via(q, j)) => Less(p, q) || (p == q && i < j)
  }

  /** The value a route leads to, if the graph has that route. */
  ghost function Follow(v: View, root: Value, r: Route): Option<Value>
  {
    match r
    case Start => Some(root)
    case Via(p, e) =>
      var at := Follow(v, root, p);
      if at.Some? && at.value.Ref? && at.value.id in v.kids && e < |v.kids[at.value.id]|
      then Some(v.kids[at.value.id][e])
      else None
  }

  ghost predicate Leads(v: View, root: Value, r: Route, n: nat)
  {
    Follow(v, root, r) == Some(Ref(n))
  }

  /** Route r ends at an object that holds an answer. */
  ghost predicate Hits(v: View, root: Value, r: Route)
  {
    var at := Follow(v, root, r);
    at.Some? && at.value.Ref? && at.value.id in v.hit && v.hit[at.value.id].Some?
  }

  /** Route r is the hit that comes before every other hit. */
  ghost predicate FirstHit(v: View, root: Value, r: Route)
  {
    Hits(v, root, r) && forall s :: Less(s, r) ==> !Hits(v, root, s)
  }

  ghost function AnswerAt(v: View, root: Value, r: Route): string
    requires Hits(v, root, r)
  {
    v.hit[Follow(v, root, r).value.id].value
  }

  // ---- the order on routes ----

  lemma {:induction false} LessIrreflexive(a: Route)
    ensures !Less(a, a)
  {
    if a.Via? {
      LessIrreflexive(a.prev);
    }
  }

  lemma {:induction false} LessTransitive(a: Route, b: Route, c: Route)
    requires Less(a, b) && Less(b, c)
    ensures Less(a, c)
  {
    if a.Via? && b.Via? && c.Via? && Less(a.prev, b.prev) && Less(b.prev, c.prev) {
      LessTransitive(a.prev, b.prev, c.prev);
    }
  }

  lemma {:induction false} LessTotal(a: Route, b: Route)
    ensures a == b || Less(a, b) || Less(b, a)
  {
    if a.Via? && b.Via? {
      LessTotal(a.prev, b.prev);
    }
  }

  lemma {:induction false} PrefixIsLess(p: Route, e: nat)
    ensures Less(p, Via(p, e))
  {
    if p.Via? {
      PrefixIsLess(p.prev, p.edge);
    }
  }

  lemma {:induction false} ShorterIsLess(a: Route, b: Route)
    requires Depth(a) < Depth(b)
    ensures Less(a, b)
  {
    if a.Via? {
      ShorterIsLess(a.prev, b.prev);
    }
  }

  /** The first hit is unique, and no hit is nearer to the start. */
  lemma FirstHitIsNearest(v: View, root: Value, r: Route, s: Route)
    requires FirstHit(v, root, r) && Hits(v, root, s)
    ensures Depth(r) <= Depth(s)
    ensures FirstHit(v, root, s) ==> s == r
  {
    if Depth(s) < Depth(r) {
      ShorterIsLess(s, r);
    }
    LessTotal(r, s);
  }

  // ---- the state of a search ----

  /**
   * The queue with the route of each entry, the visited objects with the route
   * under which each was taken out (its home).
   */
  datatype Search = Search(queue: seq<Value>, routes: seq<Route>, home: map<nat, Route>)

  ghost predicate Covered(v: View, root: Value, s: Search, r: Route)
  {
    var at := Follow(v, root, r);
    at.Some? && at.value.Ref? ==>
      r in s.routes || (at.value.id in s.home && (s.home[at.value.id] == r || Less(s.home[at.value.id], r)))
  }

  ghost predicate Queued(v: View, root: Value, s: Search)
  {
    && |s.queue| == |s.routes|
    && (forall i :: 0 <= i < |s.routes| ==> Follow(v, root, s.routes[i]) == Some(s.queue[i]) && Known(v, s.queue[i]))
    && (forall i, j :: 0 <= i < j < |s.routes| ==> Less(s.routes[i], s.routes[j]))
    && (forall i :: 0 <= i < |s.routes| && s.routes[i].Via? ==> s.routes[i].prev in s.home.Values)
  }

  ghost predicate Visited(v: View, root: Value, s: Search)
  {
    && s.home.Keys <= v.kids.Keys * v.hit.Keys
    && (forall n :: n in s.home ==> Leads(v, root, s.home[n], n) && v.hit[n].None?)
    && (forall n, i :: n in s.home && 0 <= i < |s.routes| ==> Less(s.home[n], s.routes[i]))
    && (forall n, e :: n in s.home && 0 <= e < |v.kids[n]| ==> Covered(v, root, s, Via(s.home[n], e)))
    && Covered(v, root, s, Start)
  }

  /** What holds between two rounds of the loop. */
  ghost predicate Running(v: View, root: Value, s: Search)
  {
    WellFormed(v) && Queued(v, root, s) && Visited(v, root, s)
  }

  ghost function Begin(root: Value): Search
  {
    Search([root], [Start], map[])
  }

  lemma BeginRuns(v: View, root: Value)
    requires WellFormed(v) && Known(v, root)
    ensures Running(v, root, Begin(root))
  {
  }

  lemma Head(v: View, root: Value, s: Search)
    requires Running(v, root, s) && s.queue != []
    ensures |s.routes| == |s.queue| && Known(v, s.queue[0])
  {
  }

  /** Every route before all queued ones has been taken: it ends at a visited object. */
  lemma {:induction false} Complete(v: View, root: Value, s: Search, r: Route, n: nat)
    requires Running(v, root, s)
    requires Leads(v, root, r, n)
    requires forall i :: 0 <= i < |s.routes| ==> Less(r, s.routes[i])
    ensures n in s.home && (s.home[n] == r || Less(s.home[n], r))
    decreases r
  {
    LessIrreflexive(r);
    if r.Start? {
      assert Covered(v, root, s, r);
    } else {
      var at := Follow(v, root, r.prev);
      var k := at.value.id;
      PrefixIsLess(r.prev, r.edge);
      forall i | 0 <= i < |s.routes|
        ensures Less(r.prev, s.routes[i])
      {
        LessTransitive(r.prev, r, s.routes[i]);
      }
      Complete(v, root, s, r.prev, k);
      var c := Via(s.home[k], r.edge);
      assert Covered(v, root, s, c);
      assert c == r || Less(c, r);
      if c in s.routes {
        var i :| 0 <= i < |s.routes| && s.routes[i] == c;
        if c != r {
          LessTransitive(r, c, r);
        }
        assert false;
      }
      if s.home[n] != c && c != r {
        LessTransitive(s.home[n], c, r);
      }
    }
  }

  /** An empty queue with no answer found: nothing reachable holds one. */
  lemma NothingLeft(v: View, root: Value, s: Search, r: Route)
    requires Running(v, root, s) && s.queue == []
    ensures !Hits(v, root, r)
    ensures forall n :: Leads(v, root, r, n) ==> n in s.home
  {
    forall n | Leads(v, root, r, n)
      ensures n in s.home
    {
      Complete(v, root, s, r, n);
    }
  }

  /** An answer at the head of the queue is the first hit. */
  lemma HeadIsFirst(v: View, root: Value, s: Search)
    requires Running(v, root, s) && s.queue != []
    requires s.queue[0].Ref? && s.queue[0].id in v.hit && v.hit[s.queue[0].id].Some?
    ensures s.routes != [] && FirstHit(v, root, s.routes[0])
    ensures Hits(v, root, s.routes[0]) && AnswerAt(v, root, s.routes[0]) == v.hit[s.queue[0].id].value
  {
    forall r | Less(r, s.routes[0])
      ensures !Hits(v, root, r)
    {
      if Hits(v, root, r) {
        forall i | 0 <= i < |s.routes|
          ensures Less(r, s.routes[i])
        {
          if i > 0 {
            LessTransitive(r, s.routes[0], s.routes[i]);
          }
        }
        Complete(v, root, s, r, Follow(v, root, r).value.id);
      }
    }
  }

  /** Dropping a head that is not an unvisited object. */
  ghost function Skip(s: Search): Search
    requires s.queue != [] && s.routes != []
  {
    s.(queue := s.queue[1..], routes := s.routes[1..])
  }

  lemma SkipRuns(v: View, root: Value, s: Search)
    requires Running(v, root, s) && s.queue != []
    requires s.queue[0].Ref? ==> s.queue[0].id in s.home
    ensures Running(v, root, Skip(s))
  {
    var t := Skip(s);
    forall r | Covered(v, root, s, r)
      ensures Covered(v, root, t, r)
    {
      if r in s.routes && r !in t.routes {
        assert r == s.routes[0];
      }
    }
  }

  /** The routes of the successors pushed for the head. */
  ghost function Pushed(r: Route, n: nat): (routes: seq<Route>)
  {
    seq(n, i requires 0 <= i < n => Via(r, i))
  }

  /** Taking an unvisited object without an answer out, and queueing its successors. */
  ghost function Visit(v: View, s: Search): Search
    requires s.queue != [] && s.routes != [] && s.queue[0].Ref? && s.queue[0].id in v.kids
  {
    var n := s.queue[0].id;
    Search(s.queue[1..] + v.kids[n], s.routes[1..] + Pushed(s.routes[0], |v.kids[n]|), s.home[n := s.routes[0]])
  }

  lemma VisitQueues(v: View, root: Value, s: Search)
    requires Running(v, root, s) && s.queue != []
    requires s.queue[0].Ref? && s.queue[0].id !in s.home && v.hit[s.queue[0].id].None?
    ensures Queued(v, root, Visit(v, s))
  {
    var t, n := Visit(v, s), s.queue[0].id;
    var old1 := |s.routes| - 1;
    assert Leads(v, root, s.routes[0], n);
    forall i | 0 <= i < |t.routes|
      ensures Follow(v, root, t.routes[i]) == Some(t.queue[i]) && Known(v, t.queue[i])
      ensures t.routes[i].Via? ==> t.routes[i].prev in t.home.Values
    {
      if i < old1 {
        assert t.routes[i] == s.routes[i + 1];
        if t.routes[i].Via? {
          var m :| m in s.home && s.home[m] == t.routes[i].prev;
          assert t.home[m] == t.routes[i].prev;
        }
      } else {
        assert t.routes[i] == Via(s.routes[0], i - old1);
        assert t.home[n] == s.routes[0];
      }
    }
    forall i, j | 0 <= i < j < |t.routes|
      ensures Less(t.routes[i], t.routes[j])
    {
      if j < old1 {
        assert t.routes[i] == s.routes[i + 1] && t.routes[j] == s.routes[j + 1];
      } else {
        assert t.routes[j] == Via(s.routes[0], j - old1);
        if i < old1 {
          assert t.routes[i] == s.routes[i + 1];
          if t.routes[i].Via? {
            var m :| m in s.home && s.home[m] == t.routes[i].prev;
            assert Less(s.home[m], s.routes[0]);
          }
        }
      }
    }
  }

  lemma VisitRuns(v: View, root: Value, s: Search)
    requires Running(v, root, s) && s.queue != []
    requires s.queue[0].Ref? && s.queue[0].id !in s.home && v.hit[s.queue[0].id].None?
    ensures Running(v, root, Visit(v, s))
  {
    var t, n := Visit(v, s), s.queue[0].id;
    var old1 := |s.routes| - 1;
    VisitQueues(v, root, s);
    forall m, i | m in t.home && 0 <= i < |t.routes|
      ensures Less(t.home[m], t.routes[i])
    {
      if i < old1 {
        assert t.routes[i] == s.routes[i + 1];
      } else {
        assert t.routes[i] == Via(s.routes[0], i - old1);
        PrefixIsLess(s.routes[0], i - old1);
        if m != n {
          LessTransitive(s.home[m], s.routes[0], t.routes[i]);
        }
      }
    }
    forall r | Covered(v, root, s, r)
      ensures Covered(v, root, t, r)
    {
      if r in s.routes && r !in t.routes {
        assert r == s.routes[0];
      }
    }
    forall e | 0 <= e < |v.kids[n]|
      ensures Covered(v, root, t, Via(t.home[n], e))
    {
      assert t.routes[old1 + e] == Via(s.routes[0], e);
    }
  }
}
