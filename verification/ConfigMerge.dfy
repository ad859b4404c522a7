/**
 The in-place merge of two decoded configuration maps (internal/envloader/load.go).

 A configuration map is a mutable object whose values are plain data or further maps, so
 the merged base ends up holding references into the overlay.  `Shape` records which object
 sits where; `Tree` forgets the objects and keeps the data.
 */
module ConfigMerge {

  datatype Scalar = Null | Flag(b: bool) | Number(n: int) | Text(s: string) | List(items: seq<Scalar>)

  class ConfigMap {
    var entries: map<string, Value>

    constructor ()
      ensures entries == map[]
    {
      entries := map[];
    }
  }

  datatype Value = Plain(scalar: Scalar) | Nested(target: ConfigMap)

  datatype Shape = PlainShape(scalar: Scalar) | MapShape(owner: ConfigMap, kids: map<string, Shape>)

  datatype Tree = Leaf(scalar: Scalar) | Branch(kids: map<string, Tree>)

  // ---------------------------------------------------------------- shapes and the heap

  /** Every map object that occurs in a shape. */
  ghost function Objects(s: Shape): set<ConfigMap>
  {
    match s
    case PlainShape(_) => {}
    case MapShape(m, kids) => {m} + set k, x | k in kids && x in Objects(kids[k]) :: x
  }

  /** In the current heap, value `v` is laid out exactly as `s` says. */
  ghost predicate Denotes(v: Value, s: Shape)
    reads Objects(s)
    decreases s
  {
    match s
    case PlainShape(a) => v == Plain(a)
    case MapShape(m, kids) =>
      && v == Nested(m)
      && m.entries.Keys == kids.Keys
      && forall k :: k in kids ==> Denotes(m.entries[k], kids[k])
  }

  /** No map object occurs twice in the shape. */
  ghost predicate IsTree(s: Shape)
  {
    match s
    case PlainShape(_) => true
    case MapShape(m, kids) =>
      && (forall k :: k in kids ==> IsTree(kids[k]) && m !in Objects(kids[k]))
      && (forall j, k :: j in kids && k in kids && j != k ==> Objects(kids[j]) !! Objects(kids[k]))
  }

  /** The data of a shape, with object identities forgotten. */
  ghost function Erase(s: Shape): Tree
  {
    match s
    case PlainShape(a) => Leaf(a)
    case MapShape(_, kids) => Branch(map k | k in kids :: Erase(kids[k]))
  }

  /** Where every object sits after overlaying `o` on `b`: maps present on both sides stay the base's own objects. */
  ghost function MergeShape(b: Shape, o: Shape): Shape
    decreases o
  {
    if b.MapShape? && o.MapShape? then
      MapShape(b.owner,
               map k | k in b.kids.Keys + o.kids.Keys ::
                 if k !in o.kids then b.kids[k]
                 else if k !in b.kids then o.kids[k]
                 else MergeShape(b.kids[k], o.kids[k]))
    else o
  }

  /** `MergeShape` restricted to the overlay keys in `done`. */
  ghost function MergeSome(b: Shape, o: Shape, done: set<string>): Shape
    requires b.MapShape? && o.MapShape?
  {
    MapShape(b.owner,
             map k | k in b.kids.Keys + (o.kids.Keys * done) ::
               if k !in o.kids || k !in done then b.kids[k]
               else if k !in b.kids then o.kids[k]
               else MergeShape(b.kids[k], o.kids[k]))
  }

  /** Data-level overlay. */
  ghost function Merge(b: Tree, o: Tree): Tree
    decreases o
  {
    if b.Branch? && o.Branch? then
      Branch(map k | k in b.kids.Keys + o.kids.Keys ::
               if k !in o.kids then b.kids[k]
               else if k !in b.kids then o.kids[k]
               else Merge(b.kids[k], o.kids[k]))
    else o
  }

  /** The map objects strictly below the root of a shape. */
  ghost function Inner(s: Shape): set<ConfigMap>
  {
    match s
    case PlainShape(_) => {}
    case MapShape(_, kids) => set k, x | k in kids && x in Objects(kids[k]) :: x
  }

  /** The result is built from the base's objects and the objects below the overlay's root; the root itself never joins. */
  lemma {:induction false} MergeShapeObjects(b: Shape, o: Shape)
    ensures b.MapShape? ==> Objects(MergeShape(b, o)) <= Objects(b) + (if o.MapShape? then Inner(o) else {})
    ensures Objects(MergeShape(b, o)) <= Objects(b) + Objects(o)
    decreases o
  {
    if b.MapShape? && o.MapShape? {
      var r := MergeShape(b, o);
      forall x | x in Objects(r)
        ensures x in Objects(b) || x in Inner(o)
      {
        if x != b.owner {
          var k :| k in r.kids && x in Objects(r.kids[k]);
          if k in b.kids && k in o.kids {
            MergeShapeObjects(b.kids[k], o.kids[k]);
          }
        }
      }
    }
  }

  lemma {:induction false} EraseMerge(b: Shape, o: Shape)
    ensures Erase(MergeShape(b, o)) == Merge(Erase(b), Erase(o))
    decreases o
  {
    if b.MapShape? && o.MapShape? {
      var l, r := Erase(MergeShape(b, o)).kids, Merge(Erase(b), Erase(o)).kids;
      forall k | k in l
        ensures k in r && l[k] == r[k]
      {
        if k in b.kids && k in o.kids {
          EraseMerge(b.kids[k], o.kids[k]);
        }
      }
      assert l.Keys == r.Keys;
    }
  }

  // ---------------------------------------------------------------- the in-place merge

  /** Writing at `key`, or below the base's map at `key`, cannot touch what any other key holds. */
  lemma {:induction false} KidApart(b: Shape, o: Shape, done: set<string>, j: string, key: string)
    requires b.MapShape? && o.MapShape? && IsTree(b) && Objects(b) !! Objects(o)
    requires j in MergeSome(b, o, done).kids && j != key
    ensures b.owner !in Objects(MergeSome(b, o, done).kids[j])
    ensures key in b.kids ==> Objects(MergeSome(b, o, done).kids[j]) !! Objects(b.kids[key])
  {
    var kid := MergeSome(b, o, done).kids[j];
    if j in b.kids && j in o.kids {
      MergeShapeObjects(b.kids[j], o.kids[j]);
    }
    if j in b.kids {
      assert Objects(b.kids[j]) <= Objects(b);
    }
    if j in o.kids {
      assert Objects(o.kids[j]) <= Objects(o);
    }
    if key in b.kids {
      assert Objects(b.kids[key]) <= Objects(b);
    }
  }

  /**
   mergeMaps: overlays `overlay` on `base`, writing into `base` and the maps below it.  The
   ghost shapes say how the two maps are laid out on entry; keys are visited in any order.
   */
  method MergeMaps(base: ConfigMap, overlay: ConfigMap, ghost b: Shape, ghost o: Shape)
    requires b.MapShape? && o.MapShape?
    requires Denotes(Nested(base), b) && Denotes(Nested(overlay), o)
    requires IsTree(b) && Objects(b) !! Objects(o)
    modifies Objects(b)
    ensures Denotes(Nested(base), MergeShape(b, o))
    ensures Denotes(Nested(overlay), o)
    decreases o, 1
  {
    var todo := overlay.entries.Keys;
    ghost var done := {};
    MergeSomeEnds(b, o);
    while todo != {}
      invariant todo == o.kids.Keys - done && done <= o.kids.Keys
      invariant Denotes(Nested(base), MergeSome(b, o, done))
      invariant Denotes(Nested(overlay), o)
    {
      var key :| key in todo;
      assert allocated(Objects(o));
      MergeKey(base, key, overlay.entries[key], b, o, done);
      todo, done := todo - {key}, done + {key};
    }
    assert done == o.kids.Keys;
  }

  lemma {:induction false} MergeSomeEnds(b: Shape, o: Shape)
    requires b.MapShape? && o.MapShape?
    ensures MergeSome(b, o, {}) == b
    ensures MergeSome(b, o, o.kids.Keys) == MergeShape(b, o)
  {
    assert MergeSome(b, o, {}).kids == b.kids;
    assert MergeSome(b, o, o.kids.Keys).kids == MergeShape(b, o).kids;
  }

  /** Once `key` holds its merged layout and every other key still holds what it held, the whole base has advanced. */
  lemma {:induction false} Reassemble(base: ConfigMap, key: string, entries: map<string, Value>, b: Shape, o: Shape, done: set<string>)
    requires b.MapShape? && o.MapShape? && key in o.kids && key !in done
    requires base == b.owner && entries.Keys == MergeSome(b, o, done).kids.Keys
    requires key in base.entries && base.entries == entries[key := base.entries[key]]
    requires Denotes(base.entries[key], MergeSome(b, o, done + {key}).kids[key])
    requires forall j :: j in entries && j != key ==> Denotes(entries[j], MergeSome(b, o, done).kids[j])
    ensures Denotes(Nested(base), MergeSome(b, o, done + {key}))
  {
    var before, after := MergeSome(b, o, done), MergeSome(b, o, done + {key});
    assert after.kids.Keys == before.kids.Keys + {key};
    forall j | j in after.kids && j != key
      ensures Denotes(base.entries[j], after.kids[j])
    {
      assert after.kids[j] == before.kids[j] && Denotes(entries[j], before.kids[j]);
    }
  }

  /** The body of the loop in mergeMaps, for one key of the overlay and the value stored there. */
  method MergeKey(base: ConfigMap, key: string, value: Value, ghost b: Shape, ghost o: Shape, ghost done: set<string>)
    requires b.MapShape? && o.MapShape? && key in o.kids && key !in done && done <= o.kids.Keys
    requires Denotes(Nested(base), MergeSome(b, o, done)) && Denotes(value, o.kids[key])
    requires IsTree(b) && Objects(b) !! Objects(o)
    modifies Objects(b)
    ensures Denotes(Nested(base), MergeSome(b, o, done + {key}))
    decreases o, 0
  {
    assert Objects(o.kids[key]) <= Objects(o);
    ghost var before := MergeSome(b, o, done);
    ghost var entries := base.entries;
    forall j | j in before.kids && j != key
      ensures base !in Objects(before.kids[j])
      ensures key in b.kids ==> Objects(before.kids[j]) !! Objects(b.kids[key])
    {
      KidApart(b, o, done, j, key);
    }
    assert forall j :: j in before.kids ==> allocated(Objects(before.kids[j]));
    if value.Plain? || key !in base.entries || base.entries[key].Plain? {
      base.entries := base.entries[key := value];
      assert MergeSome(b, o, done + {key}).kids[key] == o.kids[key];
    } else {
      assert Denotes(base.entries[key], b.kids[key]);
      MergeMaps(base.entries[key].target, value.target, b.kids[key], o.kids[key]);
    }
    Reassemble(base, key, entries, b, o, done);
  }

  // ---------------------------------------------------------------- what a merge means, path by path

  datatype Kind = Missing | IsScalar(scalar: Scalar) | IsMap

  /** What a reader finds by following `p` from the root. */
  ghost function KindAt(t: Tree, p: seq<string>): Kind
  {
    if p == [] then
      match t {
        case Leaf(a) => IsScalar(a)
        case Branch(_) => IsMap
      }
    else if t.Branch? && p[0] in t.kids then KindAt(t.kids[p[0]], p[1..])
    else Missing
  }

  /** Some proper prefix of `p` is a non-map. */
  ghost predicate Hides(t: Tree, p: seq<string>)
  {
    exists i :: 0 <= i < |p| && KindAt(t, p[..i]).IsScalar?
  }

  lemma {:induction false} HidesStep(t: Tree, p: seq<string>)
    requires p != []
    ensures Hides(t, p) <==> t.Leaf? || (p[0] in t.kids && Hides(t.kids[p[0]], p[1..]))
  {
    if t.Leaf? {
      assert KindAt(t, p[..0]).IsScalar?;
    } else if p[0] in t.kids {
      forall i | 0 <= i < |p| - 1
        ensures KindAt(t, p[..i + 1]) == KindAt(t.kids[p[0]], p[1..][..i])
      {
        assert p[..i + 1][1..] == p[1..][..i];
      }
      if Hides(t, p) {
        var i :| 0 <= i < |p| && KindAt(t, p[..i]).IsScalar?;
        assert i > 0;
        assert KindAt(t.kids[p[0]], p[1..][..i - 1]).IsScalar?;
      }
    } else {
      forall i | 0 <= i < |p|
        ensures !KindAt(t, p[..i]).IsScalar?
      {
      }
    }
  }

  /**
   The overlay decides every path it mentions, a non-map in it hides whatever the base had
   below, and the base survives exactly where the overlay is silent.
   */
  lemma {:induction false} MergeByPath(b: Tree, o: Tree, p: seq<string>)
    ensures KindAt(Merge(b, o), p) ==
            if KindAt(o, p) != Missing then KindAt(o, p)
            else if Hides(o, p) then Missing
            else KindAt(b, p)
    decreases |p|
  {
    if p != [] {
      HidesStep(o, p);
      if b.Branch? && o.Branch? {
        if p[0] in b.kids && p[0] in o.kids {
          MergeByPath(b.kids[p[0]], o.kids[p[0]], p[1..]);
        }
      }
    }
  }

  /** Nothing about a configuration is lost by looking at it path by path. */
  lemma {:induction false} KindsDetermineTree(s: Tree, t: Tree)
    requires forall p :: KindAt(s, p) == KindAt(t, p)
    ensures s == t
    decreases s
  {
    assert KindAt(s, []) == KindAt(t, []);
    if s.Branch? {
      forall k
        ensures k in s.kids <==> k in t.kids
        ensures k in s.kids && k in t.kids ==> s.kids[k] == t.kids[k]
      {
        assert KindAt(s, [k]) == KindAt(t, [k]);
        if k in s.kids && k in t.kids {
          forall q
            ensures KindAt(s.kids[k], q) == KindAt(t.kids[k], q)
          {
            assert ([k] + q)[1..] == q;
            assert KindAt(s, [k] + q) == KindAt(t, [k] + q);
          }
          KindsDetermineTree(s.kids[k], t.kids[k]);
        }
      }
      assert s.kids == t.kids;
    }
  }

  /** The map object a reader holds after following `p`, as a set with at most one element. */
  ghost function MapAt(s: Shape, p: seq<string>): set<ConfigMap>
    decreases |p|
  {
    if s.PlainShape? then {}
    else if p == [] then {s.owner}
    else if p[0] in s.kids then MapAt(s.kids[p[0]], p[1..])
    else {}
  }

  /**
   Aliasing after a merge: at every path the base keeps its own map object wherever it had one
   that the overlay does not hide or replace, and otherwise shares the overlay's object.
   */
  lemma {:induction false} MergeSharesByPath(b: Shape, o: Shape, p: seq<string>)
    ensures MapAt(MergeShape(b, o), p) ==
            if MapAt(b, p) != {} && !Hides(Erase(o), p) && !KindAt(Erase(o), p).IsScalar? then MapAt(b, p)
            else MapAt(o, p)
    decreases |p|
  {
    if p != [] {
      HidesStep(Erase(o), p);
      if b.MapShape? && o.MapShape? && p[0] in b.kids && p[0] in o.kids {
        MergeSharesByPath(b.kids[p[0]], o.kids[p[0]], p[1..]);
      }
    }
  }

  // ---------------------------------------------------------------- algebra of merging

  /** Every path of `a` is decided by `c` with at least as much: overlaying `c` on `a` leaves nothing of `a`. */
  ghost predicate Covers(c: Tree, a: Tree)
    decreases c
  {
    c.Branch? && a.Branch? ==>
      && a.kids.Keys <= c.kids.Keys
      && forall k :: k in a.kids ==> Covers(c.kids[k], a.kids[k])
  }

  lemma {:induction false} MergeAbsorbedIffCovered(a: Tree, c: Tree)
    ensures Merge(a, c) == c <==> Covers(c, a)
    decreases c
  {
    if a.Branch? && c.Branch? {
      var m := Merge(a, c);
      forall k | k in a.kids && k in c.kids
        ensures m.kids[k] == c.kids[k] <==> Covers(c.kids[k], a.kids[k])
      {
        MergeAbsorbedIffCovered(a.kids[k], c.kids[k]);
      }
      if Covers(c, a) {
        assert m.kids == c.kids;
      }
    }
  }

  lemma {:induction false} MergeIdempotent(t: Tree)
    ensures Merge(t, t) == t
  {
    CoversItself(t);
    MergeAbsorbedIffCovered(t, t);
  }

  lemma {:induction false} CoversItself(t: Tree)
    ensures Covers(t, t)
  {
    if t.Branch? {
      forall k | k in t.kids
        ensures Covers(t.kids[k], t.kids[k])
      {
        CoversItself(t.kids[k]);
      }
    }
  }

  /** Overlaying the same profile a second time changes nothing. */
  lemma {:induction false} MergeTwice(b: Tree, o: Tree)
    ensures Merge(Merge(b, o), o) == Merge(b, o)
    decreases o
  {
    if b.Branch? && o.Branch? {
      var once := Merge(b, o);
      var twice := Merge(once, o);
      assert twice.kids.Keys == once.kids.Keys;
      forall k | k in once.kids
        ensures twice.kids[k] == once.kids[k]
      {
        if k in b.kids && k in o.kids {
          MergeTwice(b.kids[k], o.kids[k]);
        } else if k in o.kids {
          MergeIdempotent(o.kids[k]);
        }
      }
    } else {
      MergeIdempotent(o);
    }
  }

  /**
   No path at which `a` and `c` have maps but the non-map of `b` cuts them apart, unless `c`'s
   map leaves nothing of `a`'s anyway.
   */
  ghost predicate NotCutApart(a: Tree, b: Tree, c: Tree)
    decreases c
  {
    a.Branch? && c.Branch? ==>
      if b.Leaf? then Covers(c, a)
      else forall k :: k in a.kids && k in b.kids && k in c.kids ==> NotCutApart(a.kids[k], b.kids[k], c.kids[k])
  }

  /** Three layers may be merged in either grouping exactly when the middle one does not cut the outer two apart. */
  lemma {:induction false} MergeAssociativeIff(a: Tree, b: Tree, c: Tree)
    ensures Merge(Merge(a, b), c) == Merge(a, Merge(b, c)) <==> NotCutApart(a, b, c)
    decreases c
  {
    if a.Branch? && b.Leaf? && c.Branch? {
      MergeAbsorbedIffCovered(a, c);
    } else if a.Branch? && b.Branch? && c.Branch? {
      var l, r := Merge(Merge(a, b), c), Merge(a, Merge(b, c));
      assert l.kids.Keys == r.kids.Keys;
      forall k | k in l.kids
        ensures l.kids[k] == r.kids[k] <==>
                (k in a.kids && k in b.kids && k in c.kids ==> NotCutApart(a.kids[k], b.kids[k], c.kids[k]))
      {
        if k in a.kids && k in b.kids && k in c.kids {
          MergeAssociativeIff(a.kids[k], b.kids[k], c.kids[k]);
        }
      }
      if NotCutApart(a, b, c) {
        assert l.kids == r.kids;
      }
    }
  }

  /** Three documents that do not associate: under one key the middle one replaces a map that both others define. */
  lemma {:induction false} MergeNotAlwaysAssociative() returns (a: Tree, b: Tree, c: Tree)
    ensures a.Branch? && b.Branch? && c.Branch?
    ensures Merge(Merge(a, b), c) != Merge(a, Merge(b, c))
  {
    var inner, empty := Branch(map["level" := Leaf(Null)]), Branch(map[]);
    a, b, c := Branch(map["log" := inner]), Branch(map["log" := Leaf(Null)]), Branch(map["log" := empty]);
    assert "level" in inner.kids && !Covers(empty, inner);
    assert a.kids["log"] == inner && b.kids["log"] == Leaf(Null) && c.kids["log"] == empty;
    assert !NotCutApart(inner, Leaf(Null), empty);
    assert !NotCutApart(a, b, c);
    MergeAssociativeIff(a, b, c);
  }
}
