/** Configuration trees and what merging one into another means. */
module ConfigTree {
  import opened Codec

  datatype Datum = Text(text: string) | Flag(flag: bool) | Items(items: seq<string>)

  /** A decoded configuration value: a map, or anything else, which merging treats as one. */
  datatype Tree = Scalar(data: Datum) | Branch(kids: map<string, Tree>)

  /** Maps merge key by key, anything else in `src` replaces. */
  function Merge(dst: Tree, src: Tree): Tree
    decreases src
  {
    if dst.Branch? && src.Branch? then
      Branch(map k | k in dst.kids.Keys + src.kids.Keys ::
        if k !in src.kids then dst.kids[k] else if k !in dst.kids then src.kids[k] else Merge(dst.kids[k], src.kids[k]))
    else src
  }

  type Path = seq<string>

  function Lookup(t: Tree, p: Path): Option<Tree>
    decreases |p|
  {
    if p == [] then Some(t)
    else if t.Branch? && p[0] in t.kids then Lookup(t.kids[p[0]], p[1..])
    else None
  }

  /** `t` has something to say about `p`: a value there, or a scalar above it. */
  predicate Covers(t: Tree, p: Path)
    decreases |p|
  {
    t.Scalar? || p == [] || (p[0] in t.kids && Covers(t.kids[p[0]], p[1..]))
  }

  /** The source wins at every leaf it has. */
  lemma {:induction false} SourceWins(dst: Tree, src: Tree, p: Path)
    requires Lookup(src, p).Some? && Lookup(src, p).value.Scalar?
    ensures Lookup(Merge(dst, src), p) == Lookup(src, p)
    decreases |p|
  {
    if p != [] && dst.Branch? && p[0] in dst.kids {
      SourceWins(dst.kids[p[0]], src.kids[p[0]], p[1..]);
    }
  }

  /** The destination keeps every path the source does not cover. */
  lemma {:induction false} UncoveredIsKept(dst: Tree, src: Tree, p: Path)
    requires !Covers(src, p) && dst.Branch?
    ensures Lookup(Merge(dst, src), p) == Lookup(dst, p)
    decreases |p|
  {
    if p[0] in dst.kids && p[0] in src.kids {
      if dst.kids[p[0]].Branch? {
        UncoveredIsKept(dst.kids[p[0]], src.kids[p[0]], p[1..]);
      } else {
        UncoveredIsAbsent(src.kids[p[0]], p[1..]);
      }
    } else if p[0] in src.kids {
      UncoveredIsAbsent(src.kids[p[0]], p[1..]);
    }
  }

  lemma {:induction false} UncoveredIsAbsent(t: Tree, p: Path)
    requires !Covers(t, p)
    ensures Lookup(t, p).None? && p != []
    decreases |p|
  {
    if p[0] in t.kids {
      UncoveredIsAbsent(t.kids[p[0]], p[1..]);
    }
  }

  /** Merging covers what either side covers and nothing else is invented: a leaf of the result is a leaf
      of the source, or an uncovered one of the destination. */
  lemma {:induction false} NothingInvented(dst: Tree, src: Tree, p: Path)
    requires Lookup(Merge(dst, src), p).Some? && Lookup(Merge(dst, src), p).value.Scalar?
    ensures Lookup(Merge(dst, src), p) == if Covers(src, p) then Lookup(src, p) else Lookup(dst, p)
    decreases |p|
  {
    if dst.Branch? && src.Branch? && p != [] && p[0] in src.kids && p[0] in dst.kids {
      NothingInvented(dst.kids[p[0]], src.kids[p[0]], p[1..]);
    } else if !Covers(src, p) {
      if dst.Branch? {
        UncoveredIsKept(dst, src, p);
      } else {
        UncoveredIsAbsent(src, p);
      }
    }
  }

  lemma {:induction false} MergeWithItself(t: Tree)
    ensures Merge(t, t) == t
  {
    if t.Branch? {
      forall k | k in t.kids
        ensures Merge(t.kids[k], t.kids[k]) == t.kids[k]
      {
        MergeWithItself(t.kids[k]);
      }
      assert Merge(t, t).kids == t.kids;
    }
  }

  /** Merging the same source again changes nothing. */
  lemma {:induction false} MergeIdempotent(dst: Tree, src: Tree)
    ensures Merge(Merge(dst, src), src) == Merge(dst, src)
    decreases src
  {
    if dst.Branch? && src.Branch? {
      forall k | k in src.kids
        ensures k in dst.kids ==> Merge(Merge(dst.kids[k], src.kids[k]), src.kids[k]) == Merge(dst.kids[k], src.kids[k])
        ensures Merge(src.kids[k], src.kids[k]) == src.kids[k]
      {
        MergeWithItself(src.kids[k]);
        if k in dst.kids {
          MergeIdempotent(dst.kids[k], src.kids[k]);
        }
      }
      assert Merge(Merge(dst, src), src).kids == Merge(dst, src).kids;
    } else {
      MergeWithItself(src);
    }
  }

  // ------------------------------------------------------------------ associativity

  /** `over` has every key `t` has, wherever both are maps. */
  predicate Swallows(over: Tree, t: Tree)
    decreases over
  {
    over.Branch? && t.Branch? ==> forall k :: k in t.kids ==> k in over.kids && Swallows(over.kids[k], t.kids[k])
  }

  lemma {:induction false} SwallowedIff(t: Tree, over: Tree)
    ensures Merge(t, over) == over <==> Swallows(over, t)
    decreases over
  {
    if t.Branch? && over.Branch? {
      forall k | k in t.kids && k in over.kids
        ensures Merge(t.kids[k], over.kids[k]) == over.kids[k] <==> Swallows(over.kids[k], t.kids[k])
      {
        SwallowedIff(t.kids[k], over.kids[k]);
      }
      var m := Merge(t, over);
      if Swallows(over, t) {
        assert m.kids == over.kids;
      } else {
        var k :| k in t.kids && !(k in over.kids && Swallows(over.kids[k], t.kids[k]));
        assert k in m.kids;
      }
    }
  }

  /** Nowhere is `b` a scalar between two maps, unless the map in `c` swallows the one in `a`. */
  predicate Compatible(a: Tree, b: Tree, c: Tree)
    decreases c
  {
    if a.Branch? && b.Branch? && c.Branch? then
      forall k :: k in a.kids && k in b.kids && k in c.kids ==> Compatible(a.kids[k], b.kids[k], c.kids[k])
    else if a.Branch? && b.Scalar? && c.Branch? then Swallows(c, a)
    else true
  }

  /** Merging is associative exactly on compatible trees. */
  lemma {:induction false} AssociativeIff(a: Tree, b: Tree, c: Tree)
    ensures Merge(Merge(a, b), c) == Merge(a, Merge(b, c)) <==> Compatible(a, b, c)
    decreases c
  {
    if a.Branch? && b.Branch? && c.Branch? {
      var l, r := Merge(Merge(a, b), c), Merge(a, Merge(b, c));
      assert l.kids.Keys == a.kids.Keys + b.kids.Keys + c.kids.Keys;
      assert r.kids.Keys == a.kids.Keys + b.kids.Keys + c.kids.Keys;
      forall k | k in l.kids
        ensures l.kids[k] == r.kids[k] <==>
                (k in a.kids && k in b.kids && k in c.kids ==> Compatible(a.kids[k], b.kids[k], c.kids[k]))
      {
        if k in a.kids && k in b.kids && k in c.kids {
          AssociativeIff(a.kids[k], b.kids[k], c.kids[k]);
        }
      }
      if Compatible(a, b, c) {
        assert l.kids == r.kids;
      } else {
        var k :| k in a.kids && k in b.kids && k in c.kids && !Compatible(a.kids[k], b.kids[k], c.kids[k]);
        assert k in l.kids && l.kids[k] != r.kids[k];
      }
    } else if a.Branch? && b.Scalar? && c.Branch? {
      SwallowedIff(a, c);
    }
  }
}
