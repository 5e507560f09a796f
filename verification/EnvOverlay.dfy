/** The overlay as a whole: what every setting of the file becomes once the
    environment is merged over it. */
module EnvOverlay {
  import opened Text
  import opened Records
  import opened Overlay
  import opened EnvTree
  import opened Merge

  /** The tree `s` has nothing at this path, so that merging it leaves a leaf there alone. */
  predicate Yields(s: Option<Tree>, q: Path)
    decreases |q|
  {
    s.None? ||
    (q != [] &&
     match s.value
     case Scalar(_) => false
     case Node(m) => q[0].Field? && Yields(Get(m, q[0].name), q[1..])
     case List(l) => q[0].Index? && (q[0].i >= |l| || (l[q[0].i].Node? && Yields(Some(l[q[0].i]), q[1..]))))
  }

  /** Every leaf of a merged tree: the source's leaves win, and the target's survive exactly where the source yields. */
  lemma {:induction false} MergedLeaf(d: Option<Tree>, s: Tree, q: Path)
    ensures Leaf(Some(Merged(d, s)), q) ==
            if Leaf(Some(s), q).Some? then Leaf(Some(s), q) else if Yields(Some(s), q) then Leaf(d, q) else None
    decreases |q|, 0
  {
    if q == [] {
    } else if s.Scalar? {
      NoLeaf(q[1..]);
    } else if q[0].Field? && s.Node? {
      MergedEntry(d, s, q[0].name);
      NoLeaf(q[1..]);
      if q[0].name in s.entries {
        MergedLeaf(Get(EntriesOf(d), q[0].name), s.entries[q[0].name], q[1..]);
      }
    } else if q[0].Index? && s.List? {
      MergedElement(d, s, q[0].i);
      NoLeaf(q[1..]);
      if q[0].i < |s.items| {
        MergedItemLeaf(At(ItemsOf(d), q[0].i), s.items[q[0].i], q[1..]);
      }
    } else {
      NoLeaf(q[1..]);
    }
  }

  lemma {:induction false} MergedItemLeaf(d: Option<Tree>, s: Tree, q: Path)
    ensures Leaf(Some(MergedItem(d, s)), q) ==
            if Leaf(Some(s), q).Some? then Leaf(Some(s), q) else if s.Node? && Yields(Some(s), q) then Leaf(d, q) else None
    decreases |q|, 1
  {
    if d.Some? && d.value.Node? && s.Node? {
      MergedLeaf(d, s, q);
    } else if s.Node? && Yields(Some(s), q) {
      NoLeaf(q[1..]);
      assert Leaf(d, q) == None;
    }
  }

  lemma ShapedRest(p: Path)
    requires Shaped(p) && |p| > 1
    ensures Shaped(p[1..])
    ensures p[0].Index? ==> p[1].Field?
  {
    forall i | 0 <= i < |p[1..]| && p[1..][i].Index? ensures i + 1 < |p[1..]| && p[1..][i + 1].Field? {
      assert p[i + 1].Index?;
    }
  }

  /** Writing at `p` fills a list past an element of it that `q` wants to be something other than a map. */
  predicate Pads(p: Path, q: Path)
    decreases |p|
  {
    p != [] && q != [] &&
    if p[0] == q[0] then Pads(p[1..], q[1..])
    else p[0].Index? && q[0].Index? && q[0].i < p[0].i && (|q| == 1 || q[1].Index?)
  }

  /** Writing at `p` is in nobody's way at `q`. */
  predicate Spares(p: Path, q: Path) {
    Compatible(p, q) && !Pads(p, q)
  }

  /** An insertion makes way for a path only if it spares it. */
  lemma {:induction false} YieldsOnlyIf(t: Option<Tree>, p: Path, v: string, q: Path)
    requires Yields(Some(Put(t, p, v)), q)
    ensures Spares(p, q)
    decreases |p|
  {
    if p != [] && p[0] == q[0] {
      if p[0].Field? {
        YieldsOnlyIf(Get(EntriesOf(t), p[0].name), p[1..], v, q[1..]);
      } else {
        YieldsOnlyIf(Some(Pad(ItemsOf(t), p[0].i + 1)[p[0].i]), p[1..], v, q[1..]);
      }
    }
  }

  /** An insertion goes on making way for the settings it spares. */
  lemma {:induction false} YieldsIf(t: Option<Tree>, p: Path, v: string, q: Path)
    requires Yields(t, q) && Spares(p, q) && Shaped(p)
    ensures Yields(Some(Put(t, p, v)), q)
    decreases |p|
  {
    if p[0] == q[0] {
      assert Compatible(p[1..], q[1..]);
      ShapedRest(p);
      assert p[0].Index? ==> q[1].Field?;
      if p[0].Field? {
        YieldsIf(Get(EntriesOf(t), p[0].name), p[1..], v, q[1..]);
      } else {
        YieldsIf(Some(Pad(ItemsOf(t), p[0].i + 1)[p[0].i]), p[1..], v, q[1..]);
      }
    }
  }

  lemma {:induction false} BuildYields(t: Tree, bs: seq<Binding>, q: Path)
    requires Yields(Some(t), q)
    requires forall b <- bs :: Shaped(b.path) && Spares(b.path, q)
    ensures Yields(Some(Build(t, bs)), q)
    decreases |bs|
  {
    if bs != [] {
      YieldsIf(Some(t), bs[0].path, bs[0].value, q);
      BuildYields(Put(Some(t), bs[0].path, bs[0].value), bs[1..], q);
    }
  }

  /** A built tree is in the way of whatever one of its bindings does not spare, whichever was made last. */
  lemma BuildBlocks(t: Tree, bs: seq<Binding>, i: nat, q: Path)
    requires PairwiseCompatible(bs) && i < |bs| && !Spares(bs[i].path, q)
    ensures !Yields(Some(Build(t, bs)), q)
  {
    var others := bs[..i] + bs[i + 1..];
    RemoveAt(bs, i);
    assert multiset(others + [bs[i]]) == multiset(bs);
    BuildAnyOrder(t, bs, others + [bs[i]]);
    BuildLast(t, others, bs[i]);
    if Yields(Some(Build(t, bs)), q) {
      YieldsOnlyIf(Some(Build(t, others)), bs[i].path, bs[i].value, q);
    }
  }

  /** The overlay. For environment variables that spell pairwise compatible paths, and any setting of the file: one that is bound has
      the variable's value; one that all variables spare keeps the file's value; any other is gone. */
  lemma OverlayLeaf(base: map<string, Tree>, env: seq<Variable>, q: Path)
    requires BindingsOf(env).Some? && PairwiseCompatible(BindingsOf(env).value)
    ensures var bs := BindingsOf(env).value;
            var merged := Merged(Some(Node(base)), Build(EMPTY, bs));
            && (forall b <- bs :: b.path == q ==> Leaf(Some(merged), q) == Some(b.value))
            && ((forall b <- bs :: Spares(b.path, q)) ==> Leaf(Some(merged), q) == Leaf(Some(Node(base)), q))
            && ((forall b <- bs :: b.path != q) && (exists b <- bs :: !Spares(b.path, q)) ==> Leaf(Some(merged), q) == None)
  {
    var bs := BindingsOf(env).value;
    var tree := Build(EMPTY, bs);
    MergedLeaf(Some(Node(base)), tree, q);
    BuildLeaf(EMPTY, bs, q);
    EmptyHasNoLeaf(q);
    BindingsAreShaped(env);
    if forall b <- bs :: Spares(b.path, q) {
      if q != [] && q[0].Field? {
        BuildYields(EMPTY, bs, q);
      } else {
        RootIsMap(base, bs, q);
      }
    }
    forall i | 0 <= i < |bs| && !Spares(bs[i].path, q) ensures !Yields(Some(tree), q) {
      BuildBlocks(EMPTY, bs, i, q);
    }
    if forall b <- bs :: b.path != q {
      LeafOfOne(bs, q);
    }
  }

  /** A variable named by the keys and indices of a path sets that path, whatever the file has there. */
  lemma {:induction false} NamedSettingWins(base: map<string, Tree>, env: seq<Variable>, segs: seq<string>, p: Path, value: string)
    requires BindingsOf(env).Some? && PairwiseCompatible(BindingsOf(env).value)
    requires Spells(segs, p) && Shaped(p) && p[0].Field? && value != "" && Join(segs, '_') != "CONFIG"
    requires Variable("SYNCCAL_" + Join(segs, '_'), value) in env
    ensures Leaf(Some(Merged(Some(Node(base)), Build(EMPTY, BindingsOf(env).value))), p) == Some(value)
  {
    var x := Variable("SYNCCAL_" + Join(segs, '_'), value);
    NameBinds(segs, p, value);
    BoundInOrder(env, x, p);
    OverlayLeaf(base, env, p);
    assert Binding(p, value).path == p;
  }

  /** No setting is at the root, or in a list that the root would be; and no binding spares such a path. */
  lemma RootIsMap(base: map<string, Tree>, bs: seq<Binding>, q: Path)
    requires (q == [] || q[0].Index?) && forall b <- bs :: Shaped(b.path) && b.path[0].Field?
    ensures Leaf(Some(Node(base)), q) == None && Leaf(Some(Merged(Some(Node(base)), EMPTY)), q) == None
    ensures (forall b <- bs :: Spares(b.path, q)) ==> bs == []
  {
    if bs != [] {
      assert bs[0] in bs && !Compatible(bs[0].path, q);
    }
  }

  /** A path that is not bound has a leaf in the built tree only if it is compatible with all bindings and had one before. */
  lemma {:induction false} LeafOfOne(bs: seq<Binding>, q: Path)
    requires PairwiseCompatible(bs) && forall b <- bs :: b.path != q
    ensures Leaf(Some(Build(EMPTY, bs)), q) == None
  {
    BuildLeaf(EMPTY, bs, q);
    EmptyHasNoLeaf(q);
  }

  /** Without variables the file is left as it is. */
  lemma NoOverlay(base: map<string, Tree>)
    ensures Merged(Some(Node(base)), EMPTY) == Node(base)
  {
    forall k: string ensures Get(Merged(Some(Node(base)), EMPTY).entries, k) == Get(base, k) {
      MergedEntry(Some(Node(base)), EMPTY, k);
    }
    SameNodes(Merged(Some(Node(base)), EMPTY), Node(base));
  }

  /** An element of a list of scalars is lost to padding when a variable addresses a later element. */
  lemma PaddingOverwritesScalars(k: string, v: string, w: string, field: string)
    ensures var base := map[k := List([Scalar(v)])];
            var tree := Build(EMPTY, [Binding([Field(k), Index(1), Field(field)], w)]);
            && Leaf(Some(Node(base)), [Field(k), Index(0)]) == Some(v)
            && Leaf(Some(Merged(Some(Node(base)), tree)), [Field(k), Index(0)]) == None
  {
    var p, q := [Field(k), Index(1), Field(field)], [Field(k), Index(0)];
    var base, t1 := map[k := List([Scalar(v)])], Put(Some(EMPTY), p, w);
    assert [Binding(p, w)][1..] == [];
    assert p[1..] == [Index(1), Field(field)] && q[1..] == [Index(0)] && q[1..][1..] == [];
    var list := Pad([], 2);
    var item := Put(Some(list[1]), [Field(field)], w);
    assert p == [Field(k), Index(1)] + [Field(field)];
    PutItem(map[], k, 1, [Field(field)], w);
    assert t1.entries[k] == List(list[1 := item]);
    MergedLeaf(Some(Node(base)), t1, q);
    assert Leaf(Some(List([Scalar(v)])), [Index(0)]) == Some(v);
    assert Leaf(Some(t1), q) == Leaf(Some(EMPTY), []);
  }
}
