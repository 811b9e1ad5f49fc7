/**
 * `dsatur_coloring` and `split_into_sets`: a greedy colouring of the conflict
 * graph that always colours next an uncoloured vertex of greatest saturation
 * (number of distinct colours among its coloured neighbours), breaking ties by
 * degree, and gives it the least colour no coloured neighbour has.
 *
 * The `colors` dict is modelled by its insertion order `order` (the order in
 * which vertices were coloured) and the map `colors`.
 */
module Dsatur {
  import opened Sequences
  import opened Graphs

  type Coloring = map<string, nat>

  /** `{colors[n] for n in ns if n in colors}` */
  function NeighborColors(colors: Coloring, ns: set<string>): set<nat>
  {
    set n | n in ns && n in colors :: colors[n]
  }

  /** c is the least colour outside used: what `while color in neighbor_colors: color += 1` finds. */
  predicate LeastFree(used: set<nat>, c: nat)
  {
    c !in used && forall k :: 0 <= k < c ==> k in used
  }

  /** The set {0, ..., c - 1}. */
  function Below(c: nat): (r: set<nat>)
    ensures forall k :: k in r <==> 0 <= k < c
    ensures |r| == c
  {
    if c == 0 then {} else
      var r := Below(c - 1) + {c - 1};
      assert Below(c - 1) + {c - 1} - {c - 1} == Below(c - 1);
      r
  }

  /** If 0 .. c - 1 are all used, there are at least c used colours. */
  lemma ColorsBelowCount(used: set<nat>, c: nat)
    requires forall k :: 0 <= k < c ==> k in used
    ensures c <= |used|
  {
    assert Below(c) <= used;
    SubsetCard(Below(c), used);
  }

  lemma {:induction false} SubsetCard<T>(a: set<T>, b: set<T>)
    requires a <= b
    ensures |a| <= |b|
    decreases |a|
  {
    if a != {} {
      var x := Pick(a);
      SubsetCard(a - {x}, b - {x});
    }
  }

  /** The least free colour never exceeds the number of colours in use. */
  lemma LeastFreeBound(used: set<nat>, c: nat)
    requires LeastFree(used, c)
    ensures c <= |used|
  {
    ColorsBelowCount(used, c);
  }

  /** There is only one least free colour. */
  lemma LeastFreeUnique(used: set<nat>, c: nat, d: nat)
    requires LeastFree(used, c) && LeastFree(used, d)
    ensures c == d
  {
  }

  /** A neighbourhood has at most as many colours as members. */
  lemma {:induction false} NeighborColorsCard(colors: Coloring, ns: set<string>)
    ensures |NeighborColors(colors, ns)| <= |ns|
    decreases |ns|
  {
    if ns != {} {
      var x := Pick(ns);
      NeighborColorsCard(colors, ns - {x});
      if x in colors {
        assert NeighborColors(colors, ns) <= NeighborColors(colors, ns - {x}) + {colors[x]};
        SubsetCard(NeighborColors(colors, ns), NeighborColors(colors, ns - {x}) + {colors[x]});
      } else {
        assert NeighborColors(colors, ns) == NeighborColors(colors, ns - {x});
      }
    } else {
      assert NeighborColors(colors, ns) == {};
    }
  }

  /** The colours of the vertices coloured before step i. */
  function Prior(colors: Coloring, order: seq<string>, i: nat): (prior: Coloring)
    requires i <= |order|
    ensures forall n :: n in prior <==> n in colors && n in order[..i]
    ensures forall n :: n in prior ==> prior[n] == colors[n]
  {
    map n | n in colors && n in order[..i] :: colors[n]
  }

  /** Every vertex got, when its turn came, the least colour none of its coloured neighbours had. */
  ghost predicate Greedy(graph: Graph, order: seq<string>, colors: Coloring)
  {
    forall i :: 0 <= i < |order| ==>
      && order[i] in graph && order[i] in colors
      && LeastFree(NeighborColors(Prior(colors, order, i), graph[order[i]]), colors[order[i]])
  }

  /** (saturation, degree) of u ranks strictly above that of v, in the order `max` compares the key tuples. */
  predicate Above(su: nat, du: nat, sv: nat, dv: nat)
  {
    su > sv || (su == sv && du > dv)
  }

  function Saturation(graph: Graph, colors: Coloring, u: string): nat
    requires u in graph
  {
    |NeighborColors(colors, graph[u])|
  }

  /** Every vertex, when chosen, had the greatest (saturation, degree) among the uncoloured vertices. */
  ghost predicate SaturationOrder(graph: Graph, order: seq<string>, colors: Coloring)
  {
    forall i, u :: 0 <= i < |order| && u in graph && u !in order[..i] && order[i] in graph ==>
      !Above(Saturation(graph, Prior(colors, order, i), u), |graph[u]|,
             Saturation(graph, Prior(colors, order, i), order[i]), |graph[order[i]]|)
  }

  /**
   * `max(uncolored, key=lambda x: (saturation[x], degrees[x]))`. The set is
   * visited in the graph's key order `names`; like `max`, the first vertex of
   * greatest key wins, so every uncoloured vertex before it ranks strictly lower.
   */
  method SelectVertex(names: seq<string>, uncolored: set<string>, saturation: map<string, nat>, degrees: map<string, nat>)
    returns (v: string)
    requires uncolored != {} && uncolored <= Elements(names)
    requires uncolored <= saturation.Keys && uncolored <= degrees.Keys
    ensures v in uncolored
    ensures forall u :: u in uncolored ==> !Above(saturation[u], degrees[u], saturation[v], degrees[v])
    ensures exists i :: (0 <= i < |names| && names[i] == v &&
      forall j :: 0 <= j < i && names[j] in uncolored ==>
        Above(saturation[v], degrees[v], saturation[names[j]], degrees[names[j]]))
  {
    var best := -1;
    for i := 0 to |names|
      invariant -1 <= best < i
      invariant best == -1 ==> forall j :: 0 <= j < i ==> names[j] !in uncolored
      invariant best >= 0 ==> names[best] in uncolored
      invariant best >= 0 ==> forall j :: 0 <= j < i && names[j] in uncolored ==>
        !Above(saturation[names[j]], degrees[names[j]], saturation[names[best]], degrees[names[best]])
      invariant best >= 0 ==> forall j :: 0 <= j < best && names[j] in uncolored ==>
        Above(saturation[names[best]], degrees[names[best]], saturation[names[j]], degrees[names[j]])
    {
      var x := names[i];
      if x in uncolored && (best == -1 || Above(saturation[x], degrees[x], saturation[names[best]], degrees[names[best]])) {
        best := i;
      }
    }
    ghost var some := Pick(uncolored);
    assert some in Elements(names);
    v := names[best];
    forall u | u in uncolored
      ensures !Above(saturation[u], degrees[u], saturation[v], degrees[v])
    {
      assert u in Elements(names);
    }
  }

  /** Colouring v with c does not change the colours seen from a neighbourhood without v. */
  lemma NeighborColorsUnaffected(colors: Coloring, v: string, c: nat, ns: set<string>)
    requires v !in ns
    ensures NeighborColors(colors[v := c], ns) == NeighborColors(colors, ns)
  {
  }

  /** Appending v to the colouring order does not change what earlier steps saw. */
  lemma PriorExtend(colors: Coloring, order: seq<string>, v: string, c: nat, i: nat)
    requires colors.Keys == Elements(order) && v !in order
    requires i <= |order|
    ensures Prior(colors[v := c], order + [v], i) == Prior(colors, order, i)
  {
    assert (order + [v])[..i] == order[..i];
  }

  lemma PriorAll(colors: Coloring, order: seq<string>)
    requires colors.Keys == Elements(order)
    ensures Prior(colors, order, |order|) == colors
  {
    assert order[..|order|] == order;
  }

  /** The colouring step: v receives colour c and joins the order. */
  lemma GreedyStep(graph: Graph, order: seq<string>, colors: Coloring, v: string, c: nat)
    requires colors.Keys == Elements(order) && v !in order && v in graph
    requires Greedy(graph, order, colors)
    requires LeastFree(NeighborColors(colors, graph[v]), c)
    ensures Greedy(graph, order + [v], colors[v := c])
  {
    var order', colors' := order + [v], colors[v := c];
    forall i | 0 <= i < |order'|
      ensures order'[i] in graph && order'[i] in colors'
      ensures LeastFree(NeighborColors(Prior(colors', order', i), graph[order'[i]]), colors'[order'[i]])
    {
      PriorExtend(colors, order, v, c, i);
      if i == |order| {
        PriorAll(colors, order);
      } else {
        assert order'[i] == order[i] && order[i] != v;
      }
    }
  }

  lemma SaturationOrderStep(graph: Graph, order: seq<string>, colors: Coloring, v: string, c: nat)
    requires colors.Keys == Elements(order) && v !in order && v in graph
    requires SaturationOrder(graph, order, colors)
    requires forall u :: u in graph && u !in order ==>
      !Above(Saturation(graph, colors, u), |graph[u]|, Saturation(graph, colors, v), |graph[v]|)
    ensures SaturationOrder(graph, order + [v], colors[v := c])
  {
    var order', colors' := order + [v], colors[v := c];
    forall i, u | 0 <= i < |order'| && u in graph && u !in order'[..i] && order'[i] in graph
      ensures !Above(Saturation(graph, Prior(colors', order', i), u), |graph[u]|,
                     Saturation(graph, Prior(colors', order', i), order'[i]), |graph[order'[i]]|)
    {
      PriorExtend(colors, order, v, c, i);
      assert order'[..i] == order[..i];
      if i == |order| {
        PriorAll(colors, order);
        assert order[..i] == order;
      } else {
        assert order'[i] == order[i];
      }
    }
  }

  lemma SetMinusStep<T>(rest: set<T>, all: set<T>, done: set<T>, v: T)
    requires rest == all - done
    ensures rest - {v} == all - (done + {v})
  {
  }

  /** In a symmetric graph, `saturation` holds the true saturation of every uncoloured vertex. */
  ghost predicate SaturationTracked(graph: Graph, colors: Coloring, uncolored: set<string>, saturation: map<string, nat>)
  {
    && saturation.Keys == graph.Keys
    && (Symmetric(graph) ==> forall u :: u in uncolored ==> u in graph && saturation[u] == Saturation(graph, colors, u))
  }

  /** `color = 0; while color in neighbor_colors: color += 1` */
  method FirstFreeColor(neighborColors: set<nat>) returns (color: nat)
    ensures LeastFree(neighborColors, color)
  {
    color := 0;
    while color in neighborColors
      invariant forall k :: 0 <= k < color ==> k in neighborColors
      invariant color <= |neighborColors|
      decreases |neighborColors| - color
    {
      ColorsBelowCount(neighborColors, color + 1);
      color := color + 1;
    }
  }

  /**
   * The loop `for n in graph[v]: if n in uncolored: saturation[n] = ...` after
   * v was coloured: in a symmetric graph it restores "saturation[u] is the
   * number of colours among u's coloured neighbours" for every uncoloured u.
   */
  method RefreshSaturation(graph: Graph, v: string, colors: Coloring, uncolored: set<string>,
                           saturation0: map<string, nat>, ghost before: Coloring, ghost color: nat)
    returns (saturation: map<string, nat>)
    requires v in graph && uncolored <= graph.Keys
    requires colors == before[v := color]
    requires SaturationTracked(graph, before, uncolored, saturation0)
    ensures SaturationTracked(graph, colors, uncolored - {v}, saturation)
  {
    saturation := saturation0;
    var pending := graph[v];
    while pending != {}
      invariant pending <= graph[v]
      invariant saturation.Keys == graph.Keys
      invariant Symmetric(graph) ==> forall u :: u in uncolored ==>
        saturation[u] == Saturation(graph, if u in graph[v] && u !in pending then colors else before, u)
      decreases pending
    {
      ghost var some := Pick(pending);
      var n :| n in pending;
      if n in uncolored {
        saturation := saturation[n := |NeighborColors(colors, graph[n])|];
      }
      pending := pending - {n};
    }
    if Symmetric(graph) {
      forall u | u in uncolored && u !in graph[v]
        ensures Saturation(graph, before, u) == Saturation(graph, colors, u)
      {
        NeighborColorsUnaffected(before, v, color, graph[u]);
      }
    }
  }

  /** The loop invariant of `dsatur_coloring` about what has been coloured so far. */
  ghost predicate Partial(graph: Graph, order: seq<string>, colors: Coloring, uncolored: set<string>)
  {
    && Distinct(order) && Elements(order) <= graph.Keys
    && uncolored == graph.Keys - Elements(order)
    && colors.Keys == Elements(order)
    && Greedy(graph, order, colors)
    && (Symmetric(graph) ==> SaturationOrder(graph, order, colors))
  }

  /** One iteration of the main loop of `dsatur_coloring`. */
  lemma PartialStep(graph: Graph, order: seq<string>, colors: Coloring, uncolored: set<string>,
                    saturation: map<string, nat>, degrees: map<string, nat>, v: string, color: nat)
    requires Partial(graph, order, colors, uncolored)
    requires SaturationTracked(graph, colors, uncolored, saturation)
    requires forall u :: u in graph ==> u in degrees && degrees[u] == |graph[u]|
    requires v in uncolored
    requires forall u :: u in uncolored ==> !Above(saturation[u], degrees[u], saturation[v], degrees[v])
    requires LeastFree(NeighborColors(colors, graph[v]), color)
    ensures Partial(graph, order + [v], colors[v := color], uncolored - {v})
  {
    if Symmetric(graph) {
      SelectedIsMaximal(graph, order, colors, uncolored, saturation, degrees, v);
      SaturationOrderStep(graph, order, colors, v, color);
    }
    GreedyStep(graph, order, colors, v, color);
    BookkeepingStep(graph, order, colors, uncolored, v, color);
  }

  lemma SelectedIsMaximal(graph: Graph, order: seq<string>, colors: Coloring, uncolored: set<string>,
                          saturation: map<string, nat>, degrees: map<string, nat>, v: string)
    requires Symmetric(graph)
    requires uncolored == graph.Keys - Elements(order)
    requires SaturationTracked(graph, colors, uncolored, saturation)
    requires forall u :: u in graph ==> u in degrees && degrees[u] == |graph[u]|
    requires v in uncolored
    requires forall u :: u in uncolored ==> !Above(saturation[u], degrees[u], saturation[v], degrees[v])
    ensures forall u :: u in graph && u !in order ==>
      !Above(Saturation(graph, colors, u), |graph[u]|, Saturation(graph, colors, v), |graph[v]|)
  {
    forall u | u in graph && u !in order
      ensures !Above(Saturation(graph, colors, u), |graph[u]|, Saturation(graph, colors, v), |graph[v]|)
    {
      assert u in uncolored;
    }
  }

  lemma BookkeepingStep(graph: Graph, order: seq<string>, colors: Coloring, uncolored: set<string>, v: string, color: nat)
    requires Distinct(order) && Elements(order) <= graph.Keys
    requires uncolored == graph.Keys - Elements(order)
    requires colors.Keys == Elements(order)
    requires v in uncolored
    ensures Distinct(order + [v]) && Elements(order + [v]) <= graph.Keys
    ensures uncolored - {v} == graph.Keys - Elements(order + [v])
    ensures colors[v := color].Keys == Elements(order + [v])
  {
    ElementsAppend(order, v);
    DistinctAppend(order, v);
    SetMinusStep(uncolored, graph.Keys, Elements(order), v);
    assert colors[v := color].Keys == colors.Keys + {v};
  }

  lemma InitialState(graph: Graph)
    ensures Partial(graph, [], map[], graph.Keys)
    ensures SaturationTracked(graph, map[], graph.Keys, map v | v in graph :: 0)
  {
    var none: seq<string> := [];
    assert Elements(none) == {};
    forall u | u in graph ensures Saturation(graph, map[], u) == 0 {
      assert NeighborColors(map[], graph[u]) == {};
    }
  }

  lemma FinalState(graph: Graph, order: seq<string>, colors: Coloring)
    requires Partial(graph, order, colors, {})
    ensures colors.Keys == graph.Keys && Elements(order) == graph.Keys
  {
    var none: set<string> := {};
    forall u | u in graph.Keys
      ensures u in Elements(order)
    {
      assert u !in none;
      assert u in graph.Keys - Elements(order) <==> u !in Elements(order);
    }
  }

  /**
   * `dsatur_coloring(graph)`: the colouring and the order in which it was
   * built. `names` is the order in which the `uncolored` set is visited (the
   * graph's key order): of several equally ranked vertices the first is taken.
   */
  method DsaturColoring(names: seq<string>, graph: Graph) returns (order: seq<string>, colors: Coloring)
    requires Elements(names) == graph.Keys
    ensures colors.Keys == graph.Keys
    ensures Distinct(order) && Elements(order) == graph.Keys
    ensures Greedy(graph, order, colors)
    ensures Symmetric(graph) ==> SaturationOrder(graph, order, colors)
  {
    colors, order := map[], [];
    var saturation := map v | v in graph :: 0;
    var degrees := map v | v in graph :: |graph[v]|;
    var uncolored := graph.Keys;
    InitialState(graph);
    while uncolored != {}
      invariant Partial(graph, order, colors, uncolored)
      invariant SaturationTracked(graph, colors, uncolored, saturation)
      decreases |uncolored|
    {
      var v := SelectVertex(names, uncolored, saturation, degrees);
      var color := FirstFreeColor(NeighborColors(colors, graph[v]));
      PartialStep(graph, order, colors, uncolored, saturation, degrees, v, color);
      ghost var before := colors;
      colors := colors[v := color];
      order := order + [v];
      saturation := RefreshSaturation(graph, v, colors, uncolored, saturation, before, color);
      uncolored := uncolored - {v};
    }
    FinalState(graph, order, colors);
  }
}

/** Properties of the colouring DSATUR produces, stated for any greedy colouring. */
module GreedyColoring {
  import opened Sequences
  import opened Graphs
  import opened Dsatur

  /** No edge joins two vertices of the same colour. */
  ghost predicate Proper(graph: Graph, colors: Coloring)
  {
    forall a, b :: a in graph && a in colors && b in graph[a] && b in colors && a != b ==> colors[a] != colors[b]
  }

  /** A complete greedy colouring, as `dsatur_coloring` returns it. */
  ghost predicate Complete(graph: Graph, order: seq<string>, colors: Coloring)
  {
    && Distinct(order) && Elements(order) == graph.Keys && colors.Keys == graph.Keys
    && Greedy(graph, order, colors)
  }

  lemma IndexOf(order: seq<string>, a: string) returns (i: int)
    requires a in Elements(order)
    ensures 0 <= i < |order| && order[i] == a
  {
    i :| 0 <= i < |order| && order[i] == a;
  }

  /** The vertex coloured later avoided the colour of the one coloured earlier. */
  lemma LaterAvoidsEarlier(graph: Graph, order: seq<string>, colors: Coloring, i: int, j: int)
    requires Complete(graph, order, colors)
    requires 0 <= j < i < |order| && order[j] in graph[order[i]]
    ensures colors[order[i]] != colors[order[j]]
  {
    var prior := Prior(colors, order, i);
    assert order[j] in order[..i];
    assert colors[order[j]] in NeighborColors(prior, graph[order[i]]);
  }

  /** In a symmetric graph a greedy colouring is proper. */
  lemma GreedyProper(graph: Graph, order: seq<string>, colors: Coloring)
    requires Symmetric(graph) && Complete(graph, order, colors)
    ensures Proper(graph, colors)
  {
    forall a, b | a in graph && a in colors && b in graph[a] && b in colors && a != b
      ensures colors[a] != colors[b]
    {
      var i := IndexOf(order, a);
      var j := IndexOf(order, b);
      if j < i {
        LaterAvoidsEarlier(graph, order, colors, i, j);
      } else {
        assert i != j;
        LaterAvoidsEarlier(graph, order, colors, j, i);
      }
    }
  }

  /** No vertex gets a colour above its degree, so at most (maximum degree + 1) colours are used. */
  lemma GreedyColorBound(graph: Graph, order: seq<string>, colors: Coloring)
    requires Complete(graph, order, colors)
    ensures forall v :: v in graph ==> colors[v] <= |graph[v]|
  {
    forall v | v in graph
      ensures colors[v] <= |graph[v]|
    {
      var i := IndexOf(order, v);
      var prior := Prior(colors, order, i);
      LeastFreeBound(NeighborColors(prior, graph[v]), colors[v]);
      NeighborColorsCard(prior, graph[v]);
    }
  }

  lemma PriorSnoc(colors: Coloring, order: seq<string>, k: nat)
    requires Elements(order) <= colors.Keys
    requires 0 < k <= |order|
    ensures Prior(colors, order, k) == Prior(colors, order, k - 1)[order[k - 1] := colors[order[k - 1]]]
  {
    assert order[..k] == order[..k - 1] + [order[k - 1]];
  }

  lemma {:induction false} PriorAgree(graph: Graph, order: seq<string>, c1: Coloring, c2: Coloring, k: nat)
    requires Complete(graph, order, c1) && Complete(graph, order, c2)
    requires k <= |order|
    ensures Prior(c1, order, k) == Prior(c2, order, k)
  {
    if k > 0 {
      PriorAgree(graph, order, c1, c2, k - 1);
      var v := order[k - 1];
      assert LeastFree(NeighborColors(Prior(c1, order, k - 1), graph[v]), c1[v]);
      assert LeastFree(NeighborColors(Prior(c2, order, k - 1), graph[v]), c2[v]);
      LeastFreeUnique(NeighborColors(Prior(c1, order, k - 1), graph[v]), c1[v], c2[v]);
      PriorSnoc(c1, order, k);
      PriorSnoc(c2, order, k);
    }
  }

  /** The colouring is determined by the order in which the vertices were taken. */
  lemma GreedyDeterministic(graph: Graph, order: seq<string>, c1: Coloring, c2: Coloring)
    requires Complete(graph, order, c1) && Complete(graph, order, c2)
    ensures c1 == c2
  {
    PriorAgree(graph, order, c1, c2, |order|);
    PriorAll(c1, order);
    PriorAll(c2, order);
  }
}

/** `split_into_sets`: the colour classes of the colouring, in colouring order. */
module SplitSets {
  import opened Sequences
  import opened Graphs
  import opened Dsatur
  import opened GreedyColoring

  /** `colors.items()`: the (name, colour) pairs in insertion order. */
  function Items(order: seq<string>, colors: Coloring): (items: seq<(string, nat)>)
    requires Elements(order) <= colors.Keys
    ensures |items| == |order|
    ensures forall i :: 0 <= i < |order| ==> items[i] == (order[i], colors[order[i]])
  {
    seq(|order|, i requires 0 <= i < |order| => (order[i], colors[order[i]]))
  }

  function Names(items: seq<(string, nat)>): (names: seq<string>)
    ensures |names| == |items| && forall i :: 0 <= i < |items| ==> names[i] == items[i].0
  {
    seq(|items|, i requires 0 <= i < |items| => items[i].0)
  }

  /** The colours that occur. */
  function Used(items: seq<(string, nat)>): set<nat>
  {
    set p | p in items :: p.1
  }

  /** The names of colour c, in the order the items list them. */
  function Group(items: seq<(string, nat)>, c: nat): seq<string>
  {
    if |items| == 0 then []
    else
      var rest := Group(items[..|items| - 1], c);
      if items[|items| - 1].1 == c then rest + [items[|items| - 1].0] else rest
  }

  lemma UsedAppend(items: seq<(string, nat)>, p: (string, nat))
    ensures Used(items + [p]) == Used(items) + {p.1}
  {
    assert forall q :: q in items + [p] <==> q in items || q == p;
  }

  /** `sets = defaultdict(list); for roi_name, color in colors.items(): sets[color].append(roi_name)` */
  method SplitIntoSets(items: seq<(string, nat)>) returns (sets: map<nat, seq<string>>)
    ensures sets.Keys == Used(items)
    ensures forall c :: c in sets ==> sets[c] == Group(items, c)
  {
    sets := map[];
    var none: seq<(string, nat)> := [];
    assert Used(none) == {};
    for k := 0 to |items|
      invariant sets.Keys == Used(items[..k])
      invariant forall c :: c in sets ==> sets[c] == Group(items[..k], c)
    {
      var (name, color) := items[k];
      assert items[..k + 1] == items[..k] + [items[k]];
      assert items[..k + 1][..k] == items[..k];
      UsedAppend(items[..k], items[k]);
      var group := if color in sets then sets[color] else [];
      sets := sets[color := group + [name]];
      forall c | c !in Used(items[..k]) ensures Group(items[..k], c) == [] {
        GroupOfUnused(items[..k], c);
      }
    }
    assert items[..|items|] == items;
  }

  lemma {:induction false} GroupOfUnused(items: seq<(string, nat)>, c: nat)
    requires c !in Used(items)
    ensures Group(items, c) == []
  {
    if |items| > 0 {
      var last := items[|items| - 1];
      assert items == items[..|items| - 1] + [last];
      UsedAppend(items[..|items| - 1], last);
      GroupOfUnused(items[..|items| - 1], c);
    }
  }

  /** A name is in the group of c exactly when the items pair it with c. */
  lemma {:induction false} GroupMembers(items: seq<(string, nat)>, c: nat, x: string)
    ensures x in Group(items, c) <==> (x, c) in items
  {
    if |items| > 0 {
      var last := items[|items| - 1];
      assert items == items[..|items| - 1] + [last];
      GroupMembers(items[..|items| - 1], c, x);
    }
  }

  /** Each group lists its names in iteration order. */
  lemma {:induction false} GroupSubsequence(items: seq<(string, nat)>, c: nat)
    ensures IsSubsequence(Group(items, c), Names(items))
  {
    if |items| > 0 {
      var prefix := items[..|items| - 1];
      GroupSubsequence(prefix, c);
      assert Names(items) == Names(prefix) + [items[|items| - 1].0];
      if items[|items| - 1].1 == c {
        SubsequenceAppendBoth(Group(prefix, c), Names(prefix), items[|items| - 1].0);
      } else {
        SubsequenceExtend(Group(prefix, c), Names(prefix), items[|items| - 1].0);
      }
    }
  }

  /** Every colour that occurs has a non-empty group. */
  lemma GroupNonEmpty(items: seq<(string, nat)>, c: nat)
    requires c in Used(items)
    ensures |Group(items, c)| > 0
  {
    var p :| p in items && p.1 == c;
    GroupMembers(items, c, p.0);
  }

  /**
   * The sets of a proper colouring: each name of the colouring lies in the set
   * of its own colour and no other, no set repeats a name, and no two names in
   * one set are adjacent.
   */
  lemma ColorClasses(graph: Graph, order: seq<string>, colors: Coloring, c: nat)
    requires Distinct(order) && Elements(order) <= colors.Keys
    ensures forall x :: x in Group(Items(order, colors), c) <==> x in order && colors[x] == c
    ensures Distinct(Group(Items(order, colors), c))
    ensures Proper(graph, colors) ==> forall x, y :: x in Group(Items(order, colors), c) && y in Group(Items(order, colors), c) && x in graph && y in graph[x] ==> x == y
  {
    var items := Items(order, colors);
    forall x ensures x in Group(items, c) <==> x in order && colors[x] == c {
      GroupMembers(items, c, x);
      if (x, c) in items {
        var i :| 0 <= i < |items| && items[i] == (x, c);
      }
      if x in order && colors[x] == c {
        var i :| 0 <= i < |order| && order[i] == x;
        assert items[i] == (x, c);
      }
    }
    GroupSubsequence(items, c);
    assert Names(items) == order;
    SubsequenceOfDistinct(Group(items, c), order);
  }
}
