/** deepMerge on real maps: it writes into its first argument and links in nodes of its second, so the two
    share structure afterwards. */
module DeepMerge {
  import opened ConfigTree

  /** A Go map: a value in it is opaque or another map. */
  class MapNode {
    var entries: map<string, Value>

    constructor ()
      ensures entries == map[]
    {
      entries := map[];
    }
  }

  datatype Value = Opaque(data: Datum) | Ref(node: MapNode)

  /** A picture of the heap below a value: which nodes are where. */
  datatype Shape = Leaf(data: Datum) | At(node: MapNode, kids: map<string, Shape>)

  ghost function Root(s: Shape): Value {
    match s
    case Leaf(data) => Opaque(data)
    case At(node, _) => Ref(node)
  }

  ghost function Nodes(s: Shape): set<MapNode> {
    match s
    case Leaf(_) => {}
    case At(node, kids) => {node} + set k, n | k in kids && n in Nodes(kids[k]) :: n
  }

  /** What some nodes contain. */
  type Heap = map<MapNode, map<string, Value>>

  ghost function Contents(nodes: set<MapNode>): Heap
    reads nodes
  {
    map n | n in nodes :: n.entries
  }

  /** The heap looks like the picture. */
  ghost predicate Matches(h: Heap, s: Shape) {
    match s
    case Leaf(_) => true
    case At(node, kids) =>
      && node in h && h[node].Keys == kids.Keys
      && forall k :: k in kids ==> h[node][k] == Root(kids[k]) && Matches(h, kids[k])
  }

  /** The tree a picture shows. */
  ghost function TreeOf(s: Shape): Tree {
    match s
    case Leaf(data) => Scalar(data)
    case At(_, kids) => Branch(map k | k in kids :: TreeOf(kids[k]))
  }

  /** What the merge makes of the heap: the destination's nodes stay where they are, and below them the
      source's own nodes are linked in. */
  ghost function Merged(d: Shape, s: Shape): Shape
    decreases s
  {
    if d.At? && s.At? then
      At(d.node, map k | k in d.kids.Keys + s.kids.Keys ::
        if k !in s.kids then d.kids[k] else if k !in d.kids then s.kids[k] else Merged(d.kids[k], s.kids[k]))
    else s
  }

  /** As tree, what the heap then shows is the merge. */
  lemma {:induction false} MergedIsMerge(d: Shape, s: Shape)
    ensures TreeOf(Merged(d, s)) == Merge(TreeOf(d), TreeOf(s))
    decreases s
  {
    if d.At? && s.At? {
      forall k | k in d.kids && k in s.kids
        ensures TreeOf(Merged(d.kids[k], s.kids[k])) == Merge(TreeOf(d.kids[k]), TreeOf(s.kids[k]))
      {
        MergedIsMerge(d.kids[k], s.kids[k]);
      }
      assert TreeOf(Merged(d, s)).kids == Merge(TreeOf(d), TreeOf(s)).kids;
    }
  }

  /** The nodes whose contents may change: the destination's, down to where it already shares the
      source's. */
  ghost function Own(d: Shape, s: Shape): set<MapNode>
    decreases s
  {
    if !d.At? || !s.At? || d == s then {}
    else {d.node} + set k, n | k in d.kids && k in s.kids && n in Own(d.kids[k], s.kids[k]) :: n
  }

  /** Writing into those nodes disturbs nothing else: not the source, and no other part of the
      destination. */
  ghost predicate Separate(d: Shape, s: Shape)
    decreases s
  {
    d.At? && s.At? && d != s ==>
      && d.node !in Nodes(s) && (forall k :: k in d.kids ==> d.node !in Nodes(d.kids[k]))
      && (forall k :: k in d.kids && k in s.kids ==>
            Separate(d.kids[k], s.kids[k]) && Own(d.kids[k], s.kids[k]) !! Nodes(s))
      && (forall j, k :: j in d.kids && k in d.kids && k in s.kids && j != k ==>
            Own(d.kids[k], s.kids[k]) !! Nodes(d.kids[j]))
  }

  // ------------------------------------------------------------------ facts about pictures

  lemma {:induction false} OwnIsBelow(d: Shape, s: Shape)
    ensures Own(d, s) <= Nodes(d)
    decreases s
  {
    if d.At? && s.At? && d != s {
      forall k | k in d.kids && k in s.kids
        ensures Own(d.kids[k], s.kids[k]) <= Nodes(d.kids[k])
      {
        OwnIsBelow(d.kids[k], s.kids[k]);
      }
    }
  }

  lemma {:induction false} MergedNodes(d: Shape, s: Shape)
    ensures Nodes(Merged(d, s)) <= Nodes(d) + Nodes(s)
    decreases s
  {
    if d.At? && s.At? {
      forall k | k in d.kids && k in s.kids
        ensures Nodes(Merged(d.kids[k], s.kids[k])) <= Nodes(d.kids[k]) + Nodes(s.kids[k])
      {
        MergedNodes(d.kids[k], s.kids[k]);
      }
    }
  }

  lemma {:induction false} MergedWithItself(s: Shape)
    ensures Merged(s, s) == s
  {
    if s.At? {
      forall k | k in s.kids
        ensures Merged(s.kids[k], s.kids[k]) == s.kids[k]
      {
        MergedWithItself(s.kids[k]);
      }
      assert Merged(s, s).kids == s.kids;
    }
  }

  lemma {:induction false} MergedTwice(d: Shape, s: Shape)
    ensures Merged(Merged(d, s), s) == Merged(d, s)
    decreases s
  {
    if d.At? && s.At? {
      forall k | k in s.kids
        ensures k in d.kids ==> Merged(Merged(d.kids[k], s.kids[k]), s.kids[k]) == Merged(d.kids[k], s.kids[k])
        ensures Merged(s.kids[k], s.kids[k]) == s.kids[k]
      {
        MergedWithItself(s.kids[k]);
        if k in d.kids {
          MergedTwice(d.kids[k], s.kids[k]);
        }
      }
      assert Merged(Merged(d, s), s).kids == Merged(d, s).kids;
    } else {
      MergedWithItself(s);
    }
  }

  /** No node occurs twice. */
  ghost predicate IsTree(d: Shape) {
    d.At? ==>
      && (forall k :: k in d.kids ==> IsTree(d.kids[k]) && d.node !in Nodes(d.kids[k]))
      && (forall j, k :: j in d.kids && k in d.kids && j != k ==> Nodes(d.kids[j]) !! Nodes(d.kids[k]))
  }

  /** A destination without sharing of its own or with the source. */
  lemma {:induction false} TreesAreSeparate(d: Shape, s: Shape)
    requires IsTree(d) && Nodes(d) !! Nodes(s)
    ensures Separate(d, s)
    decreases s
  {
    if d.At? && s.At? && d != s {
      forall k | k in d.kids && k in s.kids
        ensures Separate(d.kids[k], s.kids[k]) && Own(d.kids[k], s.kids[k]) <= Nodes(d.kids[k])
      {
        assert Nodes(d.kids[k]) <= Nodes(d) && Nodes(s.kids[k]) <= Nodes(s);
        TreesAreSeparate(d.kids[k], s.kids[k]);
        OwnIsBelow(d.kids[k], s.kids[k]);
      }
      assert forall j :: j in d.kids ==> Nodes(d.kids[j]) <= Nodes(d);
    }
  }

  /** After a merge the two may be merged again, although they now share the source's nodes. */
  lemma {:induction false} StillSeparate(d: Shape, s: Shape)
    requires Separate(d, s)
    ensures Separate(Merged(d, s), s) && Own(Merged(d, s), s) <= Own(d, s)
    decreases s
  {
    if d.At? && s.At? {
      if d == s {
        MergedWithItself(s);
      } else {
        var m := Merged(d, s);
        forall k | k in m.kids && k in s.kids
          ensures Separate(m.kids[k], s.kids[k])
          ensures Own(m.kids[k], s.kids[k]) <= if k in d.kids then Own(d.kids[k], s.kids[k]) else {}
        {
          if k in d.kids {
            StillSeparate(d.kids[k], s.kids[k]);
          }
        }
        forall j | j in m.kids
          ensures Nodes(m.kids[j]) <= (if j in d.kids then Nodes(d.kids[j]) else {}) + Nodes(s)
          ensures d.node !in Nodes(m.kids[j])
        {
          if j in s.kids {
            assert Nodes(s.kids[j]) <= Nodes(s);
            if j in d.kids {
              MergedNodes(d.kids[j], s.kids[j]);
            }
          }
        }
      }
    }
  }

  // ------------------------------------------------------------------ the merge

  /** The destination with the source's keys in `done` merged. */
  ghost function Partial(d: Shape, s: Shape, done: set<string>): Shape
    requires d.At? && s.At? && done <= s.kids.Keys
  {
    At(d.node, map k | k in d.kids.Keys + done ::
      if k !in done then d.kids[k] else if k !in d.kids then s.kids[k] else Merged(d.kids[k], s.kids[k]))
  }

  lemma PartialEnds(d: Shape, s: Shape)
    requires d.At? && s.At?
    ensures Partial(d, s, {}) == d && Partial(d, s, s.kids.Keys) == Merged(d, s)
  {
    assert Partial(d, s, {}).kids == d.kids;
    assert Partial(d, s, s.kids.Keys).kids == Merged(d, s).kids;
  }

  /** What merging key `k` writes to is no other part of the destination, nor of the source. */
  lemma KeyIsApart(d: Shape, s: Shape, done: set<string>, k: string)
    requires d.At? && s.At? && Separate(d, s) && done <= s.kids.Keys && k in s.kids.Keys - done && k in d.kids
    ensures Separate(d.kids[k], s.kids[k]) && Own(d.kids[k], s.kids[k]) <= Own(d, s)
    ensures Own(d.kids[k], s.kids[k]) !! Nodes(s) && d.node !in Own(d.kids[k], s.kids[k])
    ensures forall j :: j in Partial(d, s, done).kids && j != k ==>
            Own(d.kids[k], s.kids[k]) !! Nodes(Partial(d, s, done).kids[j])
  {
    var own := Own(d.kids[k], s.kids[k]);
    OwnIsBelow(d.kids[k], s.kids[k]);
    if d != s {
      forall j | j in Partial(d, s, done).kids && j != k
        ensures own !! Nodes(Partial(d, s, done).kids[j])
      {
        assert j in s.kids ==> Nodes(s.kids[j]) <= Nodes(s);
        if j in d.kids && j in s.kids {
          MergedNodes(d.kids[j], s.kids[j]);
        }
      }
    }
  }

  /** The destination's own node is nowhere below it, nor in the source. */
  lemma TopIsApart(d: Shape, s: Shape, done: set<string>)
    requires d.At? && s.At? && Separate(d, s) && done <= s.kids.Keys && d != s
    ensures d.node in Own(d, s) && d.node !in Nodes(s)
    ensures forall j :: j in Partial(d, s, done).kids ==> d.node !in Nodes(Partial(d, s, done).kids[j])
  {
    forall j | j in Partial(d, s, done).kids
      ensures d.node !in Nodes(Partial(d, s, done).kids[j])
    {
      assert j in s.kids ==> Nodes(s.kids[j]) <= Nodes(s);
      if j in d.kids && j in s.kids {
        MergedNodes(d.kids[j], s.kids[j]);
      }
    }
  }

  /** A part of the heap nobody wrote to looks as it did. */
  lemma {:induction false} StillMatches(x: Shape, h: Heap, h': Heap)
    requires Matches(h, x)
    requires forall n :: n in Nodes(x) && n in h ==> n in h' && h'[n] == h[n]
    ensures Matches(h', x)
  {
    if x.At? {
      assert x.node in Nodes(x);
      forall k | k in x.kids
        ensures Matches(h', x.kids[k])
      {
        assert Nodes(x.kids[k]) <= Nodes(x);
        StillMatches(x.kids[k], h, h');
      }
    }
  }

  /** Only nodes of `own` differ. */
  ghost predicate SameBut(h: Heap, h': Heap, own: set<MapNode>) {
    h'.Keys == h.Keys && forall n :: n in h && n !in own ==> h'[n] == h[n]
  }

  lemma SourceEntries(h: Heap, s: Shape)
    requires s.At? && Matches(h, s)
    ensures s.node in h && h[s.node].Keys == s.kids.Keys && forall k :: k in s.kids ==> h[s.node][k] == Root(s.kids[k])
    ensures s.node in Nodes(s)
  {
  }

  lemma SubNodes(s: Shape, k: string)
    requires s.At? && k in s.kids
    ensures Nodes(s.kids[k]) <= Nodes(s)
  {
  }

  lemma KidMatches(h: Heap, s: Shape, k: string)
    requires s.At? && Matches(h, s) && k in s.kids
    ensures Matches(h, s.kids[k])
  {
  }

  /** A picture that differs from `p` below key `k` alone. */
  lemma Rebuilt(h: Heap, h': Heap, p: Shape, q: Shape, k: string)
    requires p.At? && q.At? && q.node == p.node && q.kids.Keys == p.kids.Keys + {k} && Matches(h, p)
    requires forall j :: j in p.kids && j != k ==> q.kids[j] == p.kids[j] && Matches(h', p.kids[j])
    requires Matches(h', q.kids[k])
    requires p.node in h && p.node in h' && h'[p.node] == h[p.node][k := Root(q.kids[k])]
    ensures Matches(h', q)
  {
  }

  /** What one more merged key changes in the picture. */
  lemma PartialGrows(d: Shape, s: Shape, done: set<string>, k: string)
    requires d.At? && s.At? && done <= s.kids.Keys && k in s.kids.Keys - done
    ensures
      var p, q := Partial(d, s, done), Partial(d, s, done + {k});
      && p.At? && q.At? && p.node == q.node == d.node && q.kids.Keys == p.kids.Keys + {k}
      && (forall j :: j in p.kids && j != k ==> q.kids[j] == p.kids[j])
      && (k in p.kids <==> k in d.kids)
      && (k in d.kids ==> p.kids[k] == d.kids[k] && q.kids[k] == Merged(d.kids[k], s.kids[k]))
      && (k !in d.kids ==> q.kids[k] == s.kids[k])
  {
  }

  /** The other children are where nobody wrote. */
  lemma ChildrenStill(h: Heap, h': Heap, p: Shape, k: string, own: set<MapNode>)
    requires p.At? && Matches(h, p) && SameBut(h, h', own)
    requires forall j :: j in p.kids && j != k ==> own !! Nodes(p.kids[j])
    ensures forall j :: j in p.kids && j != k ==> Matches(h', p.kids[j])
  {
    forall j | j in p.kids && j != k
      ensures Matches(h', p.kids[j])
    {
      StillMatches(p.kids[j], h, h');
    }
  }

  lemma NestedMergeMatches(h: Heap, h': Heap, d: Shape, s: Shape, done: set<string>, k: string)
    requires d.At? && s.At? && Separate(d, s)
    requires done <= s.kids.Keys && k in s.kids.Keys - done && k in d.kids && d.kids[k].At? && s.kids[k].At?
    requires Matches(h, Partial(d, s, done)) && Matches(h, s)
    requires Matches(h', Merged(d.kids[k], s.kids[k])) && SameBut(h, h', Own(d.kids[k], s.kids[k]))
    ensures Matches(h', Partial(d, s, done + {k})) && Matches(h', s)
  {
    var p, q, own := Partial(d, s, done), Partial(d, s, done + {k}), Own(d.kids[k], s.kids[k]);
    hide *;
    KeyIsApart(d, s, done, k);
    PartialGrows(d, s, done, k);
    ApartMatches(s, h, h', own);
    ChildrenStill(h, h', p, k, own);
    EntryUnchanged(h, h', p, q, k, own) by {
      MergedKeepsRoot(d.kids[k], s.kids[k]);
    }
    Rebuilt(h, h', p, q, k);
  }

  lemma EntryUnchanged(h: Heap, h': Heap, p: Shape, q: Shape, k: string, own: set<MapNode>)
    requires p.At? && Matches(h, p) && k in p.kids && SameBut(h, h', own) && p.node !in own
    requires q.At? && k in q.kids && Root(q.kids[k]) == Root(p.kids[k])
    ensures p.node in h && p.node in h' && h'[p.node] == h[p.node][k := Root(q.kids[k])]
  {
    assert h[p.node][k := Root(q.kids[k])] == h[p.node];
  }

  lemma MergedKeepsRoot(d: Shape, s: Shape)
    requires d.At? && s.At?
    ensures Root(Merged(d, s)) == Root(d)
  {
  }

  /** Assigning into a destination that is the source itself writes what was there. */
  lemma AssignedToItself(h: Heap, s: Shape, done: set<string>, k: string)
    requires s.At? && done <= s.kids.Keys && k in s.kids.Keys - done && Matches(h, Partial(s, s, done))
    ensures s.node in h && k in h[s.node] && h[s.node][k] == Root(s.kids[k])
    ensures Partial(s, s, done + {k}) == Partial(s, s, done)
  {
    PartialGrows(s, s, done, k);
    MergedWithItself(s.kids[k]);
    var p, q := Partial(s, s, done), Partial(s, s, done + {k});
    SourceEntries(h, p);
    hide Partial, Merged, Matches;
    assert q.kids == p.kids;
  }

  lemma AssignedMatches(h: Heap, h': Heap, d: Shape, s: Shape, done: set<string>, k: string)
    requires d.At? && s.At? && Separate(d, s) && d != s
    requires done <= s.kids.Keys && k in s.kids.Keys - done && (k in d.kids ==> d.kids[k].Leaf? || s.kids[k].Leaf?)
    requires Matches(h, Partial(d, s, done)) && Matches(h, s)
    requires d.node in h && h' == h[d.node := h[d.node][k := Root(s.kids[k])]]
    ensures Matches(h', Partial(d, s, done + {k})) && Matches(h', s) && SameBut(h, h', Own(d, s))
  {
    var p, q := Partial(d, s, done), Partial(d, s, done + {k});
    assert q.kids[k] == s.kids[k];
    hide *;
    PartialGrows(d, s, done, k);
    TopIsApart(d, s, done);
    AssignedSameBut(h, h', d.node, h[d.node][k := Root(s.kids[k])]);
    ApartMatches(s, h, h', {d.node});
    KidMatches(h', s, k);
    ChildrenStill(h, h', p, k, {d.node});
    Rebuilt(h, h', p, q, k);
    SameButLess(h, h', {d.node}, Own(d, s));
  }

  lemma ApartMatches(x: Shape, h: Heap, h': Heap, own: set<MapNode>)
    requires Matches(h, x) && SameBut(h, h', own) && own !! Nodes(x)
    ensures Matches(h', x)
  {
    StillMatches(x, h, h');
  }

  lemma AssignedSameBut(h: Heap, h': Heap, n: MapNode, entries: map<string, Value>)
    requires n in h && h' == h[n := entries]
    ensures SameBut(h, h', {n})
  {
  }

  lemma SameButItself(h: Heap, own: set<MapNode>)
    ensures SameBut(h, h, own)
  {
  }

  lemma SameButTwice(a: Heap, b: Heap, c: Heap, own: set<MapNode>)
    requires SameBut(a, b, own) && SameBut(b, c, own)
    ensures SameBut(a, c, own)
  {
  }

  lemma SameButLess(a: Heap, b: Heap, less: set<MapNode>, own: set<MapNode>)
    requires SameBut(a, b, less) && less <= own
    ensures SameBut(a, b, own)
  {
  }

  lemma MergeStarts(heap: set<MapNode>, d: Shape, s: Shape)
    requires d.At? && s.At? && Nodes(s) <= heap && Matches(Contents(heap), s)
    ensures s.node.entries.Keys == s.kids.Keys && SameBut(Contents(heap), Contents(heap), Own(d, s))
    ensures Partial(d, s, {}) == d && Partial(d, s, s.kids.Keys) == Merged(d, s)
  {
    SourceEntries(Contents(heap), s);
    PartialEnds(d, s);
  }

  /** deepMerge: the heap below `dst` becomes the merged picture; of all nodes in `heap` only the
      destination's own may differ, so the source is as it was. */
  method DeepMerge(dst: MapNode, src: MapNode, ghost d: Shape, ghost s: Shape, ghost heap: set<MapNode>)
    requires d.At? && d.node == dst && s.At? && s.node == src
    requires Nodes(d) <= heap && Nodes(s) <= heap
    requires Matches(Contents(heap), d) && Matches(Contents(heap), s) && Separate(d, s)
    modifies heap
    ensures Matches(Contents(heap), Merged(d, s)) && Matches(Contents(heap), s)
    ensures SameBut(old(Contents(heap)), Contents(heap), Own(d, s))
    decreases s
  {
    hide *;
    MergeStarts(heap, d, s);
    ghost var before := Contents(heap);
    var rest := src.entries.Keys;
    ghost var done: set<string> := {};
    while rest != {}
      invariant done <= s.kids.Keys && rest == s.kids.Keys - done
      invariant Matches(Contents(heap), Partial(d, s, done)) && Matches(Contents(heap), s)
      invariant SameBut(before, Contents(heap), Own(d, s))
      decreases |rest|
    {
      var k :| k in rest;
      MergeKey(dst, src, k, d, s, done, heap, before);
      rest, done := rest - {k}, done + {k};
    }
    assert done == s.kids.Keys;
  }

  /** `k` is still to come: the destination's entry is the original one. */
  lemma EntryToMerge(h: Heap, d: Shape, s: Shape, done: set<string>, k: string)
    requires d.At? && s.At? && done <= s.kids.Keys && k in s.kids.Keys - done
    requires Matches(h, Partial(d, s, done)) && Matches(h, s)
    ensures d.node in h && (k in h[d.node] <==> k in d.kids)
    ensures k in d.kids ==> h[d.node][k] == Root(d.kids[k]) && Matches(h, d.kids[k])
    ensures s.node in h && k in h[s.node] && h[s.node][k] == Root(s.kids[k]) && Matches(h, s.kids[k])
  {
    PartialGrows(d, s, done, k);
    SourceEntries(h, Partial(d, s, done));
    if k in d.kids {
      KidMatches(h, Partial(d, s, done), k);
    }
  }

  /** The loop's body. */
  method MergeKey(dst: MapNode, src: MapNode, k: string, ghost d: Shape, ghost s: Shape, ghost done: set<string>,
                  ghost heap: set<MapNode>, ghost before: Heap)
    requires d.At? && d.node == dst && s.At? && s.node == src
    requires Separate(d, s) && Nodes(d) <= heap && Nodes(s) <= heap
    requires done <= s.kids.Keys && k in s.kids.Keys - done
    requires Matches(Contents(heap), Partial(d, s, done)) && Matches(Contents(heap), s)
    requires SameBut(before, Contents(heap), Own(d, s))
    modifies heap
    ensures Matches(Contents(heap), Partial(d, s, done + {k})) && Matches(Contents(heap), s)
    ensures SameBut(before, Contents(heap), Own(d, s))
    decreases s, 1
  {
    EntryToMerge(Contents(heap), d, s, done, k);
    ghost var h := Contents(heap);
    hide Matches, Nodes, Separate, Own, Merged, Partial, SameBut;
    var sv := src.entries[k];
    if k in dst.entries && dst.entries[k].Ref? && sv.Ref? {
      MergeNested(dst.entries[k].node, sv.node, k, d, s, done, heap);
    } else {
      AssignKey(dst, sv, k, d, s, done, heap);
    }
    SameButTwice(before, h, Contents(heap), Own(d, s));
  }

  method MergeNested(dm: MapNode, sm: MapNode, k: string, ghost d: Shape, ghost s: Shape, ghost done: set<string>,
                     ghost heap: set<MapNode>)
    requires d.At? && s.At? && Separate(d, s) && Nodes(d) <= heap && Nodes(s) <= heap
    requires done <= s.kids.Keys && k in s.kids.Keys - done && k in d.kids && Root(d.kids[k]) == Ref(dm)
             && Root(s.kids[k]) == Ref(sm)
    requires Matches(Contents(heap), Partial(d, s, done)) && Matches(Contents(heap), s)
    modifies heap
    ensures Matches(Contents(heap), Partial(d, s, done + {k})) && Matches(Contents(heap), s)
    ensures SameBut(old(Contents(heap)), Contents(heap), Own(d, s))
    decreases s, 0
  {
    ghost var h := Contents(heap);
    EntryToMerge(h, d, s, done, k);
    KeyIsApart(d, s, done, k);
    SubNodes(d, k);
    SubNodes(s, k);
    hide Matches, Nodes, Separate, Own, Merged, Partial, SameBut, Contents;
    DeepMerge(dm, sm, d.kids[k], s.kids[k], heap);
    NestedMergeMatches(h, Contents(heap), d, s, done, k);
    SameButLess(h, Contents(heap), Own(d.kids[k], s.kids[k]), Own(d, s));
  }

  method AssignKey(dst: MapNode, sv: Value, k: string, ghost d: Shape, ghost s: Shape, ghost done: set<string>,
                   ghost heap: set<MapNode>)
    requires d.At? && d.node == dst && s.At? && Separate(d, s) && Nodes(d) <= heap && Nodes(s) <= heap
    requires done <= s.kids.Keys && k in s.kids.Keys - done && sv == Root(s.kids[k])
    requires k in d.kids ==> d.kids[k].Leaf? || s.kids[k].Leaf?
    requires Matches(Contents(heap), Partial(d, s, done)) && Matches(Contents(heap), s)
    modifies heap
    ensures Matches(Contents(heap), Partial(d, s, done + {k})) && Matches(Contents(heap), s)
    ensures SameBut(old(Contents(heap)), Contents(heap), Own(d, s))
  {
    ghost var h := Contents(heap);
    EntryToMerge(h, d, s, done, k);
    hide Matches, Nodes, Separate, Own, Merged, Partial, SameBut;
    dst.entries := dst.entries[k := sv];
    assert Contents(heap) == h[dst := h[dst][k := sv]];
    hide Contents;
    AssignKeyMatches(h, Contents(heap), d, s, done, k);
  }

  lemma AssignKeyMatches(h: Heap, h': Heap, d: Shape, s: Shape, done: set<string>, k: string)
    requires d.At? && s.At? && Separate(d, s)
    requires done <= s.kids.Keys && k in s.kids.Keys - done && (k in d.kids ==> d.kids[k].Leaf? || s.kids[k].Leaf?)
    requires Matches(h, Partial(d, s, done)) && Matches(h, s)
    requires d.node in h && h' == h[d.node := h[d.node][k := Root(s.kids[k])]]
    ensures Matches(h', Partial(d, s, done + {k})) && Matches(h', s) && SameBut(h, h', Own(d, s))
  {
    hide Matches, Nodes, Separate, Own, Merged, Partial, Root;
    if d == s {
      AssignedToItself(h, s, done, k);
      assert h[s.node][k := Root(s.kids[k])] == h[s.node];
      assert h' == h;
      SameButItself(h, Own(d, s));
    } else {
      AssignedMatches(h, h', d, s, done, k);
    }
  }

  // ------------------------------------------------------------------ merging again, and in layers

  /** A picture fixes what its nodes contain. */
  lemma {:induction false} SamePictureSameContents(h: Heap, h': Heap, x: Shape)
    requires Matches(h, x) && Matches(h', x)
    ensures forall n :: n in Nodes(x) ==> n in h && n in h' && h[n] == h'[n]
  {
    if x.At? {
      forall k | k in x.kids
        ensures forall n :: n in Nodes(x.kids[k]) ==> n in h && n in h' && h[n] == h'[n]
      {
        SamePictureSameContents(h, h', x.kids[k]);
      }
      assert h[x.node] == h'[x.node];
    }
  }

  /** The second merge finds the source's own nodes linked into the destination, and changes nothing. */
  method MergeTwice(dst: MapNode, src: MapNode, ghost d: Shape, ghost s: Shape, ghost heap: set<MapNode>)
    returns (ghost once: Heap)
    requires d.At? && d.node == dst && s.At? && s.node == src && heap == Nodes(d) + Nodes(s)
    requires Matches(Contents(heap), d) && Matches(Contents(heap), s) && IsTree(d) && Nodes(d) !! Nodes(s)
    modifies heap
    ensures Matches(once, Merged(d, s)) && Matches(once, s) && TreeOf(Merged(d, s)) == Merge(TreeOf(d), TreeOf(s))
    ensures Contents(heap) == once
  {
    TreesAreSeparate(d, s);
    MergedIsMerge(d, s);
    DeepMerge(dst, src, d, s, heap);
    once := Contents(heap);
    StillSeparate(d, s);
    MergedNodes(d, s);
    MergedTwice(d, s);
    OwnIsBelow(Merged(d, s), s);
    hide Separate, Merged, Matches, Own, Nodes, IsTree, TreeOf;
    DeepMerge(dst, src, Merged(d, s), s, heap);
    SamePictureSameContents(once, Contents(heap), Merged(d, s));
    SameButEqual(once, Contents(heap), Own(Merged(d, s), s));
  }

  lemma SameButEqual(h: Heap, h': Heap, own: set<MapNode>)
    requires SameBut(h, h', own) && forall n :: n in own && n in h ==> h'[n] == h[n]
    ensures h' == h
  {
  }

  /** A heap shows one picture below a value. */
  lemma {:induction false} OnePicture(h: Heap, a: Shape, b: Shape)
    requires Matches(h, a) && Matches(h, b) && Root(a) == Root(b)
    ensures a == b
  {
    if a.At? {
      forall k | k in a.kids
        ensures a.kids[k] == b.kids[k]
      {
        OnePicture(h, a.kids[k], b.kids[k]);
      }
      assert a.kids == b.kids;
    }
  }

  /** Merging changes nothing on the heap exactly if it changes nothing in the tree. */
  lemma {:induction false} MergedSameIff(d: Shape, s: Shape)
    requires d.At? && s.At?
    ensures Merged(d, s) == d <==> Merge(TreeOf(d), TreeOf(s)) == TreeOf(d)
    decreases s
  {
    MergedIsMerge(d, s);
    if Merge(TreeOf(d), TreeOf(s)) == TreeOf(d) {
      var m := Merge(TreeOf(d), TreeOf(s));
      assert m.kids.Keys == d.kids.Keys + s.kids.Keys == d.kids.Keys;
      forall k | k in d.kids
        ensures Merged(d, s).kids[k] == d.kids[k]
      {
        assert m.kids[k] == TreeOf(d.kids[k]);
        if k in s.kids {
          assert m.kids[k] == Merge(TreeOf(d.kids[k]), TreeOf(s.kids[k]));
          if d.kids[k].At? && s.kids[k].At? {
            MergedSameIff(d.kids[k], s.kids[k]);
          }
        }
      }
      assert Merged(d, s).kids == d.kids;
    }
  }

  /** A fresh map and two layers to merge into it, the first a tree apart from the second. */
  lemma LayersFit(h: Heap, start: Heap, top: MapNode, k: Shape, n: Shape)
    requires k.At? && n.At? && IsTree(k) && Nodes(k) !! Nodes(n) && top !in Nodes(k) + Nodes(n)
    requires Matches(h, k) && Matches(h, n) && start == h[top := map[]]
    ensures
      var e, l := At(top, map[]), At(top, k.kids);
      && Matches(start, e) && Matches(start, k) && Matches(start, n) && Merged(e, k) == l
      && Separate(e, k) && Own(e, k) == {top} && Separate(l, n)
      && Nodes(e) == {top} && Nodes(l) <= {top} + Nodes(k) && {top} !! Nodes(n)
  {
    var e, l := At(top, map[]), At(top, k.kids);
    StillMatches(k, h, start);
    StillMatches(n, h, start);
    assert Merged(e, k).kids == k.kids;
    forall j | j in k.kids
      ensures Nodes(k.kids[j]) <= Nodes(k)
    {
    }
    assert IsTree(l);
    TreesAreSeparate(l, n);
  }

  /** The two layers of a configuration's additions, merged into a fresh map: the native values and over
      them the translated ones. */
  method MergeLayers(kept: MapNode, normalized: MapNode, ghost k: Shape, ghost n: Shape, ghost heap: set<MapNode>)
    returns (additions: MapNode)
    requires k.At? && k.node == kept && n.At? && n.node == normalized && IsTree(k) && Nodes(k) !! Nodes(n)
    requires Nodes(k) + Nodes(n) <= heap && Matches(Contents(heap), k) && Matches(Contents(heap), n)
    modifies heap
    ensures fresh(additions)
    ensures Matches(Contents(heap + {additions}), Merged(At(additions, k.kids), n))
    ensures TreeOf(Merged(At(additions, k.kids), n)) == Merge(TreeOf(k), TreeOf(n))
    ensures SameBut(old(Contents(heap)), Contents(heap), Own(At(additions, k.kids), n))
  {
    ghost var h := Contents(heap);
    additions := new MapNode();
    ghost var more := heap + {additions};
    ghost var e, l := At(additions, map[]), At(additions, k.kids);
    assert Contents(more) == h[additions := map[]];
    LayersFit(h, Contents(more), additions, k, n);
    hide Matches, Nodes, Separate, Own, Merged, SameBut, IsTree, TreeOf;
    ghost var start := Contents(more);
    DeepMerge(additions, kept, e, k, more);
    ghost var mid := Contents(more);
    ApartMatches(n, start, mid, {additions});
    DeepMerge(additions, normalized, l, n, more);
    MergedIsMerge(l, n);
    assert TreeOf(l) == TreeOf(k) by {
      SameKidsSameTree(l, k);
    }
    BelowUntouched(h, start, mid, Contents(more), additions, Own(l, n));
    assert Contents(heap) == Contents(more) - {additions};
  }

  lemma SameKidsSameTree(a: Shape, b: Shape)
    requires a.At? && b.At? && a.kids == b.kids
    ensures TreeOf(a) == TreeOf(b)
  {
  }

  lemma BelowUntouched(h: Heap, start: Heap, mid: Heap, end: Heap, top: MapNode, own: set<MapNode>)
    requires top !in h && start == h[top := map[]] && SameBut(start, mid, {top}) && SameBut(mid, end, own)
    ensures SameBut(h, end - {top}, own)
  {
  }

  lemma OwnParts(d: Shape, s: Shape, x: MapNode)
    requires d.At? && s.At? && x in Own(d, s) && x != d.node
    ensures exists j :: j in d.kids && j in s.kids && x in Own(d.kids[j], s.kids[j])
  {
  }

  /** What merging the second layer writes to, in the first layer's terms: below each key with a map on both
      sides, and nowhere else. */
  lemma WrittenBelow(top: MapNode, k: Shape, n: Shape, x: MapNode)
    requires k.At? && n.At? && top !in Nodes(k) && x in Nodes(k) && x in Own(At(top, k.kids), n)
    ensures exists j :: j in k.kids && j in n.kids && k.kids[j].At? && n.kids[j].At? && x in Nodes(k.kids[j])
  {
    var l := At(top, k.kids);
    OwnParts(l, n, x);
    var j :| j in l.kids && j in n.kids && x in Own(l.kids[j], n.kids[j]);
    OwnIsBelow(k.kids[j], n.kids[j]);
    assert k.kids[j].At? && n.kids[j].At?;
  }

  /** Every key with a map on both sides keeps its map as it was. */
  ghost predicate NothingNew(k: Shape, n: Shape)
    requires k.At? && n.At?
  {
    forall j :: j in k.kids && j in n.kids && k.kids[j].At? && n.kids[j].At? ==>
        Merged(k.kids[j], n.kids[j]) == k.kids[j]
  }

  /** Merging a second layer over maps linked in from the first leaves all of the first layer's maps with what
      they contained exactly if below every key with a map on both sides the merge is the map itself. */
  lemma FirstLayerUnchangedIff(h: Heap, h': Heap, top: MapNode, k: Shape, n: Shape)
    requires k.At? && n.At? && top !in Nodes(k) && Matches(h, k)
    requires Matches(h', Merged(At(top, k.kids), n))
    requires h.Keys <= h'.Keys && forall x :: x in h && x !in Own(At(top, k.kids), n) ==> h'[x] == h[x]
    ensures SameAt(h, h', Nodes(k)) <==> NothingNew(k, n)
  {
    BranchesUnchangedIff(h, h', top, k, n);
    forall j | j in k.kids
      ensures Nodes(k.kids[j]) <= Nodes(k)
    {
      SubNodes(k, j);
    }
    if NothingNew(k, n) {
      SamePictureSameContents(h, h, k);
      hide Nodes, Own, Merged, Matches;
      forall x | x in Nodes(k)
        ensures x in h && x in h' && h'[x] == h[x]
      {
        if x in Own(At(top, k.kids), n) {
          WrittenBelow(top, k, n, x);
        }
      }
    }
  }

  /** The two heaps agree there. */
  ghost predicate SameAt(h: Heap, h': Heap, nodes: set<MapNode>) {
    forall x :: x in nodes ==> x in h && x in h' && h'[x] == h[x]
  }

  lemma BranchesUnchangedIff(h: Heap, h': Heap, top: MapNode, k: Shape, n: Shape)
    requires k.At? && n.At? && Matches(h, k) && Matches(h', Merged(At(top, k.kids), n))
    ensures forall j :: j in k.kids && j in n.kids && k.kids[j].At? && n.kids[j].At? ==>
              (SameAt(h, h', Nodes(k.kids[j])) <==> Merged(k.kids[j], n.kids[j]) == k.kids[j])
  {
    var m := Merged(At(top, k.kids), n);
    forall j | j in k.kids && j in n.kids && k.kids[j].At? && n.kids[j].At?
      ensures SameAt(h, h', Nodes(k.kids[j])) <==> Merged(k.kids[j], n.kids[j]) == k.kids[j]
    {
      assert j in m.kids && m.kids[j] == Merged(k.kids[j], n.kids[j]);
      KidMatches(h, k, j);
      KidMatches(h', m, j);
      hide Nodes, Matches, SameAt;
      BranchUnchangedIff(h, h', k.kids[j], n.kids[j]);
    }
  }

  lemma BranchUnchangedIff(h: Heap, h': Heap, d: Shape, s: Shape)
    requires d.At? && s.At? && Matches(h, d) && Matches(h', Merged(d, s))
    ensures SameAt(h, h', Nodes(d)) <==> Merged(d, s) == d
  {
    MergedKeepsRoot(d, s);
    if Merged(d, s) == d {
      SamePictureSameContents(h, h', d);
    }
    if SameAt(h, h', Nodes(d)) {
      StillMatches(d, h, h');
      OnePicture(h', d, Merged(d, s));
    }
  }

  // ------------------------------------------------------------------ the caller's configuration

  /** The picture of the filtered copy: a new top, and below it the caller's own maps. */
  ghost function Filtered(copy: MapNode, native: Shape, forbidden: set<string>): Shape
    requires native.At?
  {
    At(copy, map j | j in native.kids && j !in forbidden :: native.kids[j])
  }

  lemma FilteredFits(h: Heap, h': Heap, copy: MapNode, native: Shape, forbidden: set<string>)
    requires native.At? && IsTree(native) && copy !in Nodes(native) && copy !in h && Matches(h, native)
    requires h' == h[copy := map j | j in h[native.node] && j !in forbidden :: h[native.node][j]]
    ensures
      var k := Filtered(copy, native, forbidden);
      IsTree(k) && Matches(h', k) && Nodes(k) <= {copy} + Nodes(native) && native.node !in Nodes(k)
  {
    var k := Filtered(copy, native, forbidden);
    StillMatches(native, h, h');
    forall j | j in native.kids
      ensures Nodes(native.kids[j]) <= Nodes(native)
    {
      SubNodes(native, j);
    }
  }

  /** filterForbidden on the heap: the copy is new, the maps in it are not. */
  method FilterEntries(native: MapNode, forbidden: set<string>) returns (kept: MapNode)
    ensures fresh(kept) && kept.entries == map j | j in native.entries && j !in forbidden :: native.entries[j]
  {
    kept := new MapNode();
    var rest := native.entries.Keys;
    while rest != {}
      invariant fresh(kept) && rest <= native.entries.Keys
      invariant kept.entries == map j | j in native.entries && j !in rest && j !in forbidden :: native.entries[j]
      decreases |rest|
    {
      var j :| j in rest;
      if j !in forbidden {
        kept.entries := kept.entries[j := native.entries[j]];
      }
      rest := rest - {j};
    }
  }

  /** No map of the caller's is given anything new: whatever is a map in the native configuration, is not
      filtered out, and is a map in the translation too, already says what the translation says. */
  ghost predicate AlreadySays(native: Shape, n: Shape, forbidden: set<string>)
    requires native.At? && n.At?
  {
    forall j :: j in native.kids && j !in forbidden && j in n.kids && native.kids[j].At? && n.kids[j].At? ==>
      Merge(TreeOf(native.kids[j]), TreeOf(n.kids[j])) == TreeOf(native.kids[j])
  }

  lemma NothingNewIff(copy: MapNode, native: Shape, n: Shape, forbidden: set<string>)
    requires native.At? && n.At?
    ensures NothingNew(Filtered(copy, native, forbidden), n) <==> AlreadySays(native, n, forbidden)
  {
    forall j | j in native.kids && j in n.kids && native.kids[j].At? && n.kids[j].At?
      ensures Merged(native.kids[j], n.kids[j]) == native.kids[j] <==>
              Merge(TreeOf(native.kids[j]), TreeOf(n.kids[j])) == TreeOf(native.kids[j])
    {
      MergedSameIff(native.kids[j], n.kids[j]);
    }
    var k := Filtered(copy, native, forbidden);
    assert forall j :: j in k.kids <==> j in native.kids && j !in forbidden;
    assert forall j :: j in k.kids ==> k.kids[j] == native.kids[j];
    hide Merged, TreeOf, Merge;
  }

  lemma TopNotWritten(top: MapNode, k: Shape, n: Shape)
    requires k.At? && n.At? && IsTree(k) && top !in Nodes(k)
    ensures k.node !in Own(At(top, k.kids), n)
  {
    forall j | j in k.kids && j in n.kids
      ensures k.node !in Own(k.kids[j], n.kids[j])
    {
      OwnIsBelow(k.kids[j], n.kids[j]);
    }
    assert k.node in Nodes(k);
  }

  /** Writing below the additions touches neither the source, nor a map of the caller's outside the copy. */
  lemma WrittenInCopy(top: MapNode, copy: MapNode, p: Shape, n: Shape, forbidden: set<string>)
    requires p.At? && n.At? && Nodes(p) !! Nodes(n) && copy !in Nodes(p) + Nodes(n)
             && top !in {copy} + Nodes(p) + Nodes(n)
    requires IsTree(Filtered(copy, p, forbidden)) && Nodes(Filtered(copy, p, forbidden)) <= {copy} + Nodes(p)
    ensures
      var own := Own(At(top, Filtered(copy, p, forbidden).kids), n);
      copy !in own && own !! Nodes(n) && forall x :: x in Nodes(p) && x in own ==>
          x in Nodes(Filtered(copy, p, forbidden))
  {
    var k := Filtered(copy, p, forbidden);
    TopNotWritten(top, k, n);
    OwnIsBelow(At(top, k.kids), n);
    LayersBelow(top, k);
    hide Own, IsTree;
  }

  lemma LayersBelow(top: MapNode, k: Shape)
    requires k.At?
    ensures Nodes(At(top, k.kids)) <= {top} + Nodes(k)
  {
  }

  /** The caller's maps are as they were exactly if the copy's are: outside the copy nothing is written. */
  lemma CopyDecides(h: Heap, h': Heap, own: set<MapNode>, copy: MapNode, caller: set<MapNode>, mine: set<MapNode>)
    requires caller <= h.Keys && copy in h && h.Keys <= h'.Keys && mine <= {copy} + caller
    requires forall x :: x in h && x !in own ==> h'[x] == h[x]
    requires copy !in own && forall x :: x in caller && x in own ==> x in mine
    ensures SameAt(h, h', caller) <==> SameAt(h, h', mine)
  {
  }

  /** What can be read off the heap before and after the merges. */
  lemma CallerUnchangedIff(h: Heap, h': Heap, top: MapNode, copy: MapNode, p: Shape, n: Shape, forbidden: set<string>)
    requires p.At? && n.At? && Nodes(p) !! Nodes(n) && copy !in Nodes(p) + Nodes(n)
             && top !in {copy} + Nodes(p) + Nodes(n)
    requires h.Keys == {copy} + Nodes(p) + Nodes(n) && h'.Keys == h.Keys + {top}
    requires
      var k := Filtered(copy, p, forbidden);
      && IsTree(k) && Nodes(k) <= {copy} + Nodes(p) && Matches(h, k) && Matches(h', Merged(At(top, k.kids), n))
      && forall x :: x in h && x !in Own(At(top, k.kids), n) ==> h'[x] == h[x]
    ensures SameAt(h, h', Nodes(n))
    ensures SameAt(h, h', Nodes(p)) <==> AlreadySays(p, n, forbidden)
  {
    var k := Filtered(copy, p, forbidden);
    assert k.At?;
    hide Matches, Nodes, Own, Merged, IsTree, AlreadySays, NothingNew, Filtered;
    WrittenInCopy(top, copy, p, n, forbidden);
    assert SameAt(h, h', Nodes(n));
    hide SameAt;
    CopyDecides(h, h', Own(At(top, k.kids), n), copy, Nodes(p), Nodes(k));
    FirstLayerUnchangedIff(h, h', top, k, n);
    NothingNewIff(copy, p, n, forbidden);
  }

  lemma FilteredTree(copy: MapNode, native: Shape, forbidden: set<string>)
    requires native.At?
    ensures TreeOf(Filtered(copy, native, forbidden)) ==
            Branch(map j | j in native.kids && j !in forbidden :: TreeOf(native.kids[j]))
  {
  }

  ghost function Restrict(h: Heap, nodes: set<MapNode>): Heap {
    map x | x in h && x in nodes :: h[x]
  }

  lemma ContentsWithin(nodes: set<MapNode>, heap: set<MapNode>)
    requires nodes <= heap
    ensures Contents(nodes) == Restrict(Contents(heap), nodes)
  {
  }

  /** The same, for the parts of the heap that matter. */
  lemma LayersOutcome(h: Heap, h': Heap, top: MapNode, copy: MapNode, p: Shape, n: Shape, forbidden: set<string>)
    requires p.At? && n.At? && Nodes(p) !! Nodes(n) && copy !in Nodes(p) + Nodes(n)
             && top !in {copy} + Nodes(p) + Nodes(n)
    requires h.Keys == {copy} + Nodes(p) + Nodes(n) && h'.Keys == h.Keys + {top}
    requires
      var k := Filtered(copy, p, forbidden);
      && IsTree(k) && Nodes(k) <= {copy} + Nodes(p) && Matches(h, k) && Matches(h', Merged(At(top, k.kids), n))
      && SameBut(h, h' - {top}, Own(At(top, k.kids), n))
    ensures Restrict(h', Nodes(n)) == Restrict(h, Nodes(n))
    ensures Restrict(h', Nodes(p)) == Restrict(h, Nodes(p)) <==> AlreadySays(p, n, forbidden)
    ensures
      var shown := Merged(At(top, Filtered(copy, p, forbidden).kids), n);
      && shown.At? && shown.node == top && Nodes(shown) <= h'.Keys && Matches(Restrict(h', Nodes(shown)), shown)
  {
    var k := Filtered(copy, p, forbidden);
    assert k.At?;
    hide Merged, Own, Matches, Nodes, IsTree, AlreadySays, Filtered, SameBut, Restrict;
    var shown := Merged(At(top, k.kids), n);
    SameBelow(h, h', top, Own(At(top, k.kids), n));
    CallerUnchangedIff(h, h', top, copy, p, n, forbidden);
    LayersShown(top, k, n);
    RestrictedIsPart(h', Nodes(shown));
    RestrictedSame(h, h', Nodes(n));
    RestrictedSame(h, h', Nodes(p));
    StillMatches(shown, h', Restrict(h', Nodes(shown)));
  }

  lemma SameBelow(h: Heap, h': Heap, top: MapNode, own: set<MapNode>)
    requires SameBut(h, h' - {top}, own) && top !in h
    ensures forall x :: x in h && x !in own ==> x in h' && h'[x] == h[x]
  {
    assert forall x :: x in h ==> x in h' - {top} && (h' - {top})[x] == h'[x];
  }

  lemma RestrictedIsPart(h: Heap, nodes: set<MapNode>)
    ensures forall x :: x in nodes && x in h ==> x in Restrict(h, nodes) && Restrict(h, nodes)[x] == h[x]
  {
  }

  lemma RestrictedSame(h: Heap, h': Heap, nodes: set<MapNode>)
    requires nodes <= h.Keys && nodes <= h'.Keys
    ensures Restrict(h', nodes) == Restrict(h, nodes) <==> SameAt(h, h', nodes)
  {
    assert forall x :: x in nodes ==> Restrict(h', nodes)[x] == h'[x] && Restrict(h, nodes)[x] == h[x];
  }

  /** What buildAdditions does on the heap: filter, merge the copy into a fresh map, merge the translation
      over it. The caller's own configuration comes out of it as it was exactly if it already says what is
      merged over its nested maps. */
  method LayerAdditions(native: MapNode, normalized: MapNode, forbidden: set<string>, ghost p: Shape, ghost n: Shape)
    returns (additions: MapNode, ghost shown: Shape)
    requires p.At? && p.node == native && n.At? && n.node == normalized && IsTree(p) && Nodes(p) !! Nodes(n)
    requires Matches(Contents(Nodes(p) + Nodes(n)), p) && Matches(Contents(Nodes(p) + Nodes(n)), n)
    modifies Nodes(p) + Nodes(n)
    ensures fresh(additions) && shown.At? && shown.node == additions
    ensures Matches(Contents(Nodes(shown)), shown)
    ensures TreeOf(shown) == Merge(Branch(map j | j in p.kids && j !in forbidden :: TreeOf(p.kids[j])), TreeOf(n))
    ensures Contents(Nodes(n)) == old(Contents(Nodes(n)))
    ensures Contents(Nodes(p)) == old(Contents(Nodes(p))) <==> AlreadySays(p, n, forbidden)
  {
    ghost var before: Heap := Contents(Nodes(p) + Nodes(n));
    SourceEntries(before, p);
    var kept := FilterEntries(native, forbidden);
    ghost var heap := {kept} + Nodes(p) + Nodes(n);
    ghost var h: Heap := Contents(heap);
    assert h == before[kept := map j | j in before[native] && j !in forbidden :: before[native][j]];
    FilteredFits(before, h, kept, p, forbidden);
    StillMatches(n, before, h);
    assert Contents(Nodes(p)) == old(Contents(Nodes(p))) && Contents(Nodes(n)) == old(Contents(Nodes(n)));
    assert Filtered(kept, p, forbidden).node == kept;
    hide Separate, Merged, IsTree, TreeOf, Own, Matches, Nodes, AlreadySays, NothingNew, Filtered, Contents, SameBut;
    ContentsWithin(Nodes(p), heap);
    ContentsWithin(Nodes(n), heap);
    additions, shown := MergeFiltered(kept, normalized, p, n, forbidden, heap);
    FilteredTree(kept, p, forbidden);
  }

  /** The two merges, once the copy is there. */
  method MergeFiltered(kept: MapNode, normalized: MapNode, ghost p: Shape, ghost n: Shape, ghost forbidden: set<string>,
                       ghost heap: set<MapNode>) returns (additions: MapNode, ghost shown: Shape)
    requires p.At? && n.At? && n.node == normalized && Nodes(p) !! Nodes(n) && kept !in Nodes(p) + Nodes(n)
    requires heap == {kept} + Nodes(p) + Nodes(n)
    requires
      var k := Filtered(kept, p, forbidden);
      IsTree(k) && Nodes(k) <= {kept} + Nodes(p) && Matches(Contents(heap), k) && Matches(Contents(heap), n)
    modifies heap
    ensures fresh(additions) && shown.At? && shown.node == additions && Nodes(shown) <= heap + {additions}
    ensures Matches(Contents(Nodes(shown)), shown)
    ensures TreeOf(shown) == Merge(TreeOf(Filtered(kept, p, forbidden)), TreeOf(n))
    ensures Contents(Nodes(n)) == Restrict(old(Contents(heap)), Nodes(n))
    ensures Contents(Nodes(p)) == Restrict(old(Contents(heap)), Nodes(p)) <==> AlreadySays(p, n, forbidden)
  {
    ghost var k := Filtered(kept, p, forbidden);
    ghost var h: Heap := Contents(heap);
    assert k.At? && k.node == kept;
    hide Separate, Merged, IsTree, TreeOf, Own, Matches, Nodes, AlreadySays, NothingNew, Filtered, SameBut;
    additions := MergeLayers(kept, normalized, k, n, heap);
    ghost var h': Heap := Contents(heap + {additions});
    assert h' - {additions} == Contents(heap);
    assert h.Keys == heap && h'.Keys == heap + {additions};
    hide Contents;
    LayersOutcome(h, h', additions, kept, p, n, forbidden);
    shown := Merged(At(additions, k.kids), n);
    ContentsWithin(Nodes(p), heap + {additions});
    ContentsWithin(Nodes(n), heap + {additions});
    ContentsWithin(Nodes(shown), heap + {additions});
  }

  lemma LayersShown(top: MapNode, k: Shape, n: Shape)
    requires k.At? && n.At?
    ensures
      var shown := Merged(At(top, k.kids), n);
      shown.At? && shown.node == top && Nodes(shown) <= {top} + Nodes(k) + Nodes(n)
  {
    MergedNodes(At(top, k.kids), n);
    assert Nodes(At(top, k.kids)) <= {top} + Nodes(k);
  }
}
