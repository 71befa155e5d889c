/** Day 25, Snowverload: a wiring diagram lists connections between components; once three
    given wires are cut, the components fall into two groups whose sizes are multiplied. */
module Day25 {
  import Search
  import Grid

  type Edge = (string, string)

  /** The adjacency lists `two_component_lens` builds: for each edge (a, b), in order, b is
      pushed onto a's list and then a onto b's, a missing list starting empty. */
  function Adjacency(edges: seq<Edge>): map<string, seq<string>>
  {
    if edges == [] then map[]
    else
      var (a, b) := edges[|edges| - 1];
      var withB := Push(Adjacency(edges[..|edges| - 1]), a, b);
      Push(withB, b, a)
  }

  /** `entry(key).or_insert_with(Vec::new).push(value)`. */
  function Push(connections: map<string, seq<string>>, key: string, value: string): (r: map<string, seq<string>>)
    ensures r.Keys == connections.Keys + {key}
    ensures r[key] == (if key in connections then connections[key] else []) + [value]
    ensures forall k :: k in connections && k != key ==> r[k] == connections[k]
  {
    connections[key := (if key in connections then connections[key] else []) + [value]]
  }

  predicate Touches(edges: seq<Edge>, a: string, b: string) {
    (a, b) in edges || (b, a) in edges
  }

  /** The list of a node, empty for a node without one. */
  function ListOf(connections: map<string, seq<string>>, n: string): seq<string> {
    if n in connections then connections[n] else []
  }

  /** One more edge (x, y) appends y to x's list and then x to y's. */
  lemma AdjacencyStep(edges: seq<Edge>, n: string)
    requires edges != []
    ensures var (x, y) := edges[|edges| - 1];
      var front := Adjacency(edges[..|edges| - 1]);
      (n in Adjacency(edges) <==> n in front || n == x || n == y) &&
      ListOf(Adjacency(edges), n) == ListOf(front, n) + (if n == x then [y] else []) + (if n == y then [x] else [])
  {
    var (x, y) := edges[|edges| - 1];
    var front := Adjacency(edges[..|edges| - 1]);
    PushList(front, x, y, n);
    PushList(Push(front, x, y), y, x, n);
  }

  lemma PushList(connections: map<string, seq<string>>, key: string, value: string, n: string)
    ensures n in Push(connections, key, value) <==> n in connections || n == key
    ensures ListOf(Push(connections, key, value), n) == ListOf(connections, n) + (if n == key then [value] else [])
  {
    if n != key {
      assert ListOf(connections, n) + [] == ListOf(connections, n);
    }
  }

  /** The lists hold exactly the endpoints of the edges, and b is on a's list exactly when
      an edge joins a and b in one orientation or the other. */
  lemma AdjacencyEdges(edges: seq<Edge>)
    ensures forall a :: a in Adjacency(edges) <==> exists b :: Touches(edges, a, b)
    ensures forall a, b :: b in ListOf(Adjacency(edges), a) <==> Touches(edges, a, b)
  {
    AdjacencyLists(edges);
    forall a ensures a in Adjacency(edges) <==> exists b :: Touches(edges, a, b) {
      AdjacencyKeys(edges, a);
    }
  }

  lemma {:induction false} AdjacencyLists(edges: seq<Edge>)
    ensures forall a, b :: b in ListOf(Adjacency(edges), a) <==> Touches(edges, a, b)
  {
    if edges != [] {
      var front := edges[..|edges| - 1];
      var (x, y) := edges[|edges| - 1];
      AdjacencyLists(front);
      assert edges == front + [(x, y)];
      forall a, b ensures b in ListOf(Adjacency(edges), a) <==> Touches(edges, a, b) {
        AdjacencyStep(edges, a);
        assert Touches(edges, a, b) <==> Touches(front, a, b) || (a == x && b == y) || (a == y && b == x);
      }
    }
  }

  lemma {:induction false} AdjacencyKeys(edges: seq<Edge>, a: string)
    ensures a in Adjacency(edges) <==> exists b :: Touches(edges, a, b)
  {
    if edges != [] {
      var front := edges[..|edges| - 1];
      var (x, y) := edges[|edges| - 1];
      AdjacencyKeys(front, a);
      assert edges == front + [(x, y)];
      AdjacencyStep(edges, a);
      if a in Adjacency(front) {
        var b :| Touches(front, a, b);
        assert Touches(edges, a, b);
      }
      if a == x {
        assert Touches(edges, a, y);
      }
      if a == y {
        assert Touches(edges, a, x);
      }
      if b :| Touches(edges, a, b) {
        if !Touches(front, a, b) {
          assert a == x || a == y;
        }
      }
    }
  }

  /** The adjacency is symmetric. */
  lemma AdjacencySymmetric(edges: seq<Edge>, a: string, b: string)
    requires b in ListOf(Adjacency(edges), a)
    ensures b in Adjacency(edges) && a in ListOf(Adjacency(edges), b)
  {
    AdjacencyEdges(edges);
  }

  /** The loop of `two_component_lens` that fills `connections`. */
  method Connect(edges: seq<Edge>) returns (connections: map<string, seq<string>>)
    ensures connections == Adjacency(edges)
  {
    connections := map[];
    var k := 0;
    while k < |edges|
      invariant k <= |edges| && connections == Adjacency(edges[..k])
    {
      var (a, b) := edges[k];
      assert edges[..k + 1][..k] == edges[..k];
      connections := Push(connections, a, b);
      connections := Push(connections, b, a);
      k := k + 1;
    }
    assert edges[..k] == edges;
  }

  /** The neighbours of a node, none for a node without a list. */
  function Next(connections: map<string, seq<string>>): string -> seq<string> {
    n => ListOf(connections, n)
  }

  /** The nodes connected to `source`. */
  ghost function Component(edges: seq<Edge>, source: string): set<string> {
    set n | n in Adjacency(edges) && Search.Reachable(Next(Adjacency(edges)), source, n)
  }

  lemma AdjacencyClosed(edges: seq<Edge>)
    ensures Search.Closed(Next(Adjacency(edges)), Adjacency(edges).Keys)
  {
    AdjacencyEdges(edges);
    forall a, b | a in Adjacency(edges) && b in Next(Adjacency(edges))(a) ensures b in Adjacency(edges) {
      AdjacencySymmetric(edges, a, b);
    }
  }

  /** `inside` is the size of the component of some node, at least 1, and `outside` the
      number of the other nodes. */
  ghost predicate Sizes(edges: seq<Edge>, inside: nat, outside: nat) {
    inside >= 1 && inside + outside == |Adjacency(edges)| &&
    exists source :: source in Adjacency(edges) && inside == |Component(edges, source)|
  }

  /** `two_component_lens`: the size of the component of some node, and the number of the
      other nodes. It panics without edges. */
  method TwoComponentLens(edges: seq<Edge>) returns (inside: nat, outside: nat)
    requires |edges| > 0
    ensures Sizes(edges, inside, outside)
  {
    var connections := Connect(edges);
    AdjacencyEdges(edges);
    assert edges[0].0 in connections by {
      assert Touches(edges, edges[0].0, edges[0].1);
    }
    var source :| source in connections;
    AdjacencyClosed(edges);
    var seen, order := Search.Explore(source, Next(connections), connections.Keys);
    assert seen == Component(edges, source);
    Grid.SubsetSize(seen, connections.Keys);
    inside := |seen|;
    outside := |connections.Keys| - |seen|;
  }

  /** The three wires cut by `part1`. */
  const Removed: seq<Edge> := [("sxx", "zvk"), ("njx", "pbx"), ("pzr", "sss")]

  /** The edges kept: those that are not a cut wire in either orientation, in order. */
  function Prune(edges: seq<Edge>): (r: seq<Edge>)
    ensures forall e :: e in r <==> e in edges && e !in Removed && (e.1, e.0) !in Removed
    ensures |r| <= |edges|
  {
    if edges == [] then []
    else
      var e := edges[0];
      (if e in Removed || (e.1, e.0) in Removed then [] else [e]) + Prune(edges[1..])
  }

  function Product(a: nat, b: nat): nat {
    a * b
  }

  /** `part1`: the product of the two sizes once the wires are cut. */
  method Part1(edges: seq<Edge>) returns (product: nat)
    requires |Prune(edges)| > 0
    ensures exists inside: nat, outside: nat :: Sizes(Prune(edges), inside, outside) && product == inside * outside
  {
    var inside, outside := TwoComponentLens(Prune(edges));
    product := Product(inside, outside);
    assert Sizes(Prune(edges), inside, outside) && product == inside * outside;
  }
}
