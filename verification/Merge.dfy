/** `deepMerge`: maps are merged key by key, lists index by index, everything else
    is overwritten; and what that means for leaves and for the algebra of merging. */
module Merge {
  import opened Records
  import opened Overlay

  /** What a key of the target holds after `s` is merged into it. */
  function Merged(d: Option<Tree>, s: Tree): Tree
    decreases s
  {
    match s
    case Scalar(_) => s
    case Node(sm) =>
      var dm := EntriesOf(d);
      Node(map k | k in dm.Keys + sm.Keys :: if k in sm then Merged(Get(dm, k), sm[k]) else dm[k])
    case List(sl) =>
      var dl := ItemsOf(d);
      List(seq(if |dl| < |sl| then |sl| else |dl|, i requires 0 <= i < |dl| || 0 <= i < |sl| =>
        if i >= |sl| then dl[i]
        else if i < |dl| && dl[i].Node? && sl[i].Node? then Merged(Some(dl[i]), sl[i])
        else sl[i]))
  }

  /** What an element of a list holds after the one with its index is merged in: only maps are merged. */
  function MergedItem(d: Option<Tree>, s: Tree): Tree {
    if d.Some? && d.value.Node? && s.Node? then Merged(d, s) else s
  }

  function At(l: seq<Tree>, i: nat): Option<Tree> {
    if i < |l| then Some(l[i]) else None
  }

  lemma MergedEntry(d: Option<Tree>, s: Tree, k: string)
    requires s.Node?
    ensures Merged(d, s).Node?
    ensures Get(Merged(d, s).entries, k) ==
            if k in s.entries then Some(Merged(Get(EntriesOf(d), k), s.entries[k])) else Get(EntriesOf(d), k)
  {
  }

  lemma MergedElement(d: Option<Tree>, s: Tree, i: nat)
    requires s.List?
    ensures Merged(d, s).List?
    ensures At(Merged(d, s).items, i) == if i < |s.items| then Some(MergedItem(At(ItemsOf(d), i), s.items[i])) else At(ItemsOf(d), i)
  {
  }

  /** The merged list is as long as the longer of the two. */
  lemma MergedLength(d: Option<Tree>, s: Tree)
    requires s.List?
    ensures var n, m := |ItemsOf(d)|, |s.items|; |Merged(d, s).items| == if n < m then m else n
  {
  }

  lemma SameNodes(a: Tree, b: Tree)
    requires a.Node? && b.Node? && forall k: string :: Get(a.entries, k) == Get(b.entries, k)
    ensures a == b
  {
    SameMap(a.entries, b.entries);
  }

  lemma SameLists(a: Tree, b: Tree)
    requires a.List? && b.List? && forall i: nat :: At(a.items, i) == At(b.items, i)
    ensures a == b
  {
    var x, y := a.items, b.items;
    assert At(x, |x|) == At(y, |x|) && At(x, |y|) == At(y, |y|);
    assert |x| == |y|;
    forall i | 0 <= i < |x| ensures x[i] == y[i] {
      assert At(x, i) == At(y, i);
    }
  }

  // ---------------------------------------------------------------- the loops

  /** The loop of `deepMerge` over the source's keys, in whatever order. */
  method DeepMerge(dst: map<string, Tree>, src: Tree) returns (out: map<string, Tree>)
    requires src.Node?
    ensures Node(out) == Merged(Some(Node(dst)), src)
    decreases src, 1
  {
    out := dst;
    var rest := src.entries.Keys;
    while rest != {}
      invariant rest <= src.entries.Keys
      invariant forall k: string ::
        Get(out, k) == if k in src.entries && k !in rest then Some(Merged(Get(dst, k), src.entries[k])) else Get(dst, k)
    {
      var k :| k in rest;
      var sv := src.entries[k];
      assert Get(out, k) == Get(dst, k);
      match sv {
        case Node(_) =>
          var existing := if k in out && out[k].Node? then out[k].entries else map[];
          assert existing == EntriesOf(Get(dst, k));
          var merged := DeepMerge(existing, sv);
          MergedIgnoresKind(Get(dst, k), sv);
          out := out[k := Node(merged)];
        case List(_) =>
          var existing := if k in out && out[k].List? then out[k].items else [];
          assert existing == ItemsOf(Get(dst, k));
          var merged := MergeLists(existing, sv);
          MergedIgnoresKind(Get(dst, k), sv);
          out := out[k := List(merged)];
        case Scalar(_) =>
          out := out[k := sv];
      }
      rest := rest - {k};
    }
    forall k: string ensures Get(out, k) == Get(Merged(Some(Node(dst)), src).entries, k) {
      MergedEntry(Some(Node(dst)), src, k);
    }
    SameNodes(Node(out), Merged(Some(Node(dst)), src));
  }

  /** Only the entries or items of the matching kind count. */
  lemma MergedIgnoresKind(d: Option<Tree>, s: Tree)
    ensures s.Node? ==> Merged(d, s) == Merged(Some(Node(EntriesOf(d))), s)
    ensures s.List? ==> Merged(d, s) == Merged(Some(List(ItemsOf(d))), s)
  {
    if s.Node? {
      forall k: string ensures Get(Merged(d, s).entries, k) == Get(Merged(Some(Node(EntriesOf(d))), s).entries, k) {
        MergedEntry(d, s, k);
        MergedEntry(Some(Node(EntriesOf(d))), s, k);
      }
      SameNodes(Merged(d, s), Merged(Some(Node(EntriesOf(d))), s));
    } else if s.List? {
      forall i: nat ensures At(Merged(d, s).items, i) == At(Merged(Some(List(ItemsOf(d))), s).items, i) {
        MergedElement(d, s, i);
        MergedElement(Some(List(ItemsOf(d))), s, i);
      }
      SameLists(Merged(d, s), Merged(Some(List(ItemsOf(d))), s));
    }
  }

  /** The loop of `mergeLists`: overwrite or merge what is there, append the rest. */
  method MergeLists(dst: seq<Tree>, src: Tree) returns (out: seq<Tree>)
    requires src.List?
    ensures List(out) == Merged(Some(List(dst)), src)
    decreases src, 0
  {
    out := dst;
    var sl := src.items;
    for i := 0 to |sl|
      invariant |out| == if |dst| < i then i else |dst|
      invariant forall j: nat :: At(out, j) == if j < i then Some(MergedItem(At(dst, j), sl[j])) else At(dst, j)
    {
      assert At(out, i) == At(dst, i);
      ghost var before := out;
      if i < |out| {
        if out[i].Node? && sl[i].Node? {
          var m := DeepMerge(out[i].entries, sl[i]);
          out := out[i := Node(m)];
        } else {
          out := out[i := sl[i]];
        }
      } else {
        out := out + [sl[i]];
      }
      forall j: nat ensures At(out, j) == if j <= i then Some(MergedItem(At(dst, j), sl[j])) else At(dst, j) {
        assert j != i ==> At(out, j) == At(before, j);
      }
    }
    forall j: nat ensures At(out, j) == At(Merged(Some(List(dst)), src).items, j) {
      MergedElement(Some(List(dst)), src, j);
      assert At(out, j) == if j < |sl| then Some(MergedItem(At(dst, j), sl[j])) else At(dst, j);
    }
    SameLists(List(out), Merged(Some(List(dst)), src));
  }

  // ---------------------------------------------------------------- algebra

  /** Nothing of `a` shows once `c` is merged over it: every key and index of `a` that would survive is in `c`. */
  ghost predicate Covered(a: Tree, c: Tree)
    decreases a
  {
    match a
    case Scalar(_) => true
    case Node(am) => c.Node? ==> forall k <- am :: k in c.entries && Covered(am[k], c.entries[k])
    case List(al) => c.List? ==> |al| <= |c.items| && forall i :: 0 <= i < |al| ==> al[i].Node? && c.items[i].Node? ==> Covered(al[i], c.items[i])
  }

  /** Merging into nothing copies. */
  lemma {:induction false} MergeIntoNothing(s: Tree)
    ensures Merged(None, s) == s
    decreases s
  {
    match s
    case Scalar(_) =>
    case Node(sm) =>
      forall k: string ensures Get(Merged(None, s).entries, k) == Get(sm, k) {
        MergedEntry(None, s, k);
        if k in sm { MergeIntoNothing(sm[k]); }
      }
      SameNodes(Merged(None, s), s);
    case List(sl) =>
      forall i: nat ensures At(Merged(None, s).items, i) == At(sl, i) {
        MergedElement(None, s, i);
      }
      SameLists(Merged(None, s), s);
  }

  /** A merge result is the source alone exactly when the source covers the target. */
  lemma {:induction false} MergedIsSource(a: Tree, c: Tree)
    ensures Merged(Some(a), c) == c <==> Covered(a, c)
    decreases c
  {
    if a.Node? && c.Node? {
      NodeIsSource(a, c);
    } else if a.List? && c.List? {
      ListIsSource(a, c);
    } else {
      MergeIntoNothing(c);
      MergedIgnoresKind(Some(a), c);
      MergedIgnoresKind(None, c);
    }
  }

  lemma {:induction false} NodeIsSource(a: Tree, c: Tree)
    requires a.Node? && c.Node?
    ensures Merged(Some(a), c) == c <==> Covered(a, c)
    decreases c, 0
  {
    forall k: string
      ensures Get(Merged(Some(a), c).entries, k) == Get(c.entries, k) <==>
              (k in a.entries ==> k in c.entries && Covered(a.entries[k], c.entries[k]))
    {
      MergedEntry(Some(a), c, k);
      if k in c.entries {
        if k in a.entries {
          MergedIsSource(a.entries[k], c.entries[k]);
        } else {
          MergeIntoNothing(c.entries[k]);
        }
      }
    }
    if Covered(a, c) {
      SameNodes(Merged(Some(a), c), c);
    }
  }

  lemma {:induction false} ListIsSource(a: Tree, c: Tree)
    requires a.List? && c.List?
    ensures Merged(Some(a), c) == c <==> Covered(a, c)
    decreases c, 0
  {
    MergedLength(Some(a), c);
    forall i: nat
      ensures i < |a.items| && i < |c.items| ==>
              (At(Merged(Some(a), c).items, i) == At(c.items, i) <==>
               (a.items[i].Node? && c.items[i].Node? ==> Covered(a.items[i], c.items[i])))
      ensures i >= |a.items| && i < |c.items| ==> At(Merged(Some(a), c).items, i) == At(c.items, i)
    {
      MergedElement(Some(a), c, i);
      if i < |a.items| && i < |c.items| {
        MergedIsSource(a.items[i], c.items[i]);
      }
    }
    if Covered(a, c) {
      SameLists(Merged(Some(a), c), c);
    }
    if Merged(Some(a), c) == c {
      assert |a.items| <= |c.items|;
      forall i | 0 <= i < |a.items| && a.items[i].Node? && c.items[i].Node? ensures Covered(a.items[i], c.items[i]) {
        assert At(Merged(Some(a), c).items, i) == At(c.items, i);
      }
    }
  }

  lemma {:induction false} CoveredBySelf(s: Tree)
    ensures Covered(s, s)
    decreases s
  {
    match s
    case Scalar(_) =>
    case Node(m) => forall k <- m ensures Covered(m[k], m[k]) { CoveredBySelf(m[k]); }
    case List(l) => forall i | 0 <= i < |l| ensures Covered(l[i], l[i]) { CoveredBySelf(l[i]); }
  }

  /** Merging a tree into itself changes nothing. */
  lemma MergeSelf(s: Tree)
    ensures Merged(Some(s), s) == s
  {
    CoveredBySelf(s);
    MergedIsSource(s, s);
  }

  /** Merging the same tree twice is merging it once. */
  lemma {:induction false} MergeTwice(d: Option<Tree>, s: Tree)
    ensures Merged(Some(Merged(d, s)), s) == Merged(d, s)
    decreases s
  {
    var m := Merged(d, s);
    match s
    case Scalar(_) =>
    case Node(sm) =>
      forall k: string ensures Get(Merged(Some(m), s).entries, k) == Get(m.entries, k) {
        MergedEntry(d, s, k);
        MergedEntry(Some(m), s, k);
        if k in sm { MergeTwice(Get(EntriesOf(d), k), sm[k]); }
      }
      SameNodes(Merged(Some(m), s), m);
    case List(sl) =>
      forall i: nat ensures At(Merged(Some(m), s).items, i) == At(m.items, i) {
        MergedElement(d, s, i);
        MergedElement(Some(m), s, i);
        if i < |sl| {
          MergeTwice(At(ItemsOf(d), i), sl[i]);
          MergeSelf(sl[i]);
        }
      }
      SameLists(Merged(Some(m), s), m);
  }

  /** Merging is associative here: wherever `a` and `c` have maps, or lists, that would be merged with each other,
      a `b` of another kind in between hides nothing of `a` that `c` does not cover. */
  ghost predicate Associates(a: Tree, b: Tree, c: Tree)
    decreases c, 0
  {
    match c
    case Scalar(_) => true
    case Node(cm) =>
      if b.Node? then
        a.Node? ==> forall k :: k in a.entries && k in b.entries && k in cm ==> Associates(a.entries[k], b.entries[k], cm[k])
      else Covered(a, c)
    case List(cl) =>
      if b.List? then
        a.List? ==> forall i :: 0 <= i < |a.items| && i < |b.items| && i < |cl| ==> ItemAssociates(a.items[i], b.items[i], cl[i])
      else Covered(a, c)
  }

  ghost predicate ItemAssociates(a: Tree, b: Tree, c: Tree)
    decreases c, 1
  {
    a.Node? && c.Node? ==> if b.Node? then Associates(a, b, c) else Covered(a, c)
  }

  ghost predicate EqualMerges(a: Option<Tree>, b: Tree, c: Tree) {
    Merged(Some(Merged(a, b)), c) == Merged(a, Merged(Some(b), c))
  }

  /** Exactly when merging is associative. */
  lemma {:induction false} MergeAssociates(a: Tree, b: Tree, c: Tree)
    ensures EqualMerges(Some(a), b, c) <==> Associates(a, b, c)
    decreases c, 1
  {
    if c.Node? && b.Node? {
      NodesAssociate(a, b, c);
    } else if c.List? && b.List? {
      ListsAssociate(a, b, c);
    } else if !c.Scalar? {
      InterruptedMerge(a, b, c);
    }
  }

  /** A value of another kind in between cuts the target off from the source. */
  lemma InterruptedMerge(a: Tree, b: Tree, c: Tree)
    requires !c.Scalar? && !(c.Node? && b.Node?) && !(c.List? && b.List?)
    ensures EqualMerges(Some(a), b, c) <==> Covered(a, c)
  {
    forall x: Tree | !(c.Node? && x.Node?) && !(c.List? && x.List?) ensures Merged(Some(x), c) == c {
      MergedIgnoresKind(Some(x), c);
      MergedIgnoresKind(None, c);
      MergeIntoNothing(c);
    }
    assert Merged(Some(a), b).Node? == b.Node? && Merged(Some(a), b).List? == b.List?;
    MergedIsSource(a, c);
  }

  lemma {:induction false} NodesAssociate(a: Tree, b: Tree, c: Tree)
    requires b.Node? && c.Node?
    ensures EqualMerges(Some(a), b, c) <==> Associates(a, b, c)
    decreases c, 0
  {
    var am := EntriesOf(Some(a));
    var left, right := Merged(Some(Merged(Some(a), b)), c), Merged(Some(a), Merged(Some(b), c));
    forall k: string
      ensures Get(left.entries, k) == Get(right.entries, k) <==>
              (k in am && k in b.entries && k in c.entries ==> Associates(am[k], b.entries[k], c.entries[k]))
    {
      EntryAssociates(a, b, c, k);
      if k in am && k in b.entries && k in c.entries {
        MergeAssociates(am[k], b.entries[k], c.entries[k]);
      }
    }
    if Associates(a, b, c) {
      SameNodes(left, right);
    }
  }

  /** At one key the two sides differ only if all three trees have it, and then as below it. */
  lemma EntryAssociates(a: Tree, b: Tree, c: Tree, k: string)
    requires b.Node? && c.Node?
    ensures var am := EntriesOf(Some(a));
            var left, right := Merged(Some(Merged(Some(a), b)), c), Merged(Some(a), Merged(Some(b), c));
            left.Node? && right.Node? &&
            (Get(left.entries, k) == Get(right.entries, k) <==>
             (k in am && k in b.entries && k in c.entries ==> EqualMerges(Some(am[k]), b.entries[k], c.entries[k])))
  {
    MergedEntry(Some(a), b, k);
    MergedEntry(Some(b), c, k);
    MergedEntry(Some(Merged(Some(a), b)), c, k);
    MergedEntry(Some(a), Merged(Some(b), c), k);
    if k in c.entries {
      MergeIntoNothing(c.entries[k]);
      if k in b.entries {
        MergeIntoNothing(b.entries[k]);
        MergeIntoNothing(Merged(Some(b.entries[k]), c.entries[k]));
      }
    }
  }

  lemma {:induction false} ListsAssociate(a: Tree, b: Tree, c: Tree)
    requires b.List? && c.List?
    ensures EqualMerges(Some(a), b, c) <==> Associates(a, b, c)
    decreases c, 0
  {
    var al := ItemsOf(Some(a));
    var left, right := Merged(Some(Merged(Some(a), b)), c), Merged(Some(a), Merged(Some(b), c));
    forall i: nat
      ensures At(left.items, i) == At(right.items, i) <==>
              (i < |al| && i < |b.items| && i < |c.items| ==> ItemAssociates(al[i], b.items[i], c.items[i]))
    {
      ElementAssociates(a, b, c, i);
      if i < |al| && i < |b.items| && i < |c.items| {
        if al[i].Node? && c.items[i].Node? {
          if b.items[i].Node? {
            MergeAssociates(al[i], b.items[i], c.items[i]);
          } else {
            MergedIsSource(al[i], c.items[i]);
          }
        }
      }
    }
    if Associates(a, b, c) {
      SameLists(left, right);
    }
    if left == right && a.List? {
      forall i | 0 <= i < |a.items| && i < |b.items| && i < |c.items| ensures ItemAssociates(a.items[i], b.items[i], c.items[i]) {
        assert At(left.items, i) == At(right.items, i);
      }
    }
  }

  lemma ElementAssociates(a: Tree, b: Tree, c: Tree, i: nat)
    requires b.List? && c.List?
    ensures var al := ItemsOf(Some(a));
            var left, right := Merged(Some(Merged(Some(a), b)), c), Merged(Some(a), Merged(Some(b), c));
            left.List? && right.List? &&
            (At(left.items, i) == At(right.items, i) <==>
             (i < |al| && i < |b.items| && i < |c.items| && al[i].Node? && c.items[i].Node? ==>
                if b.items[i].Node? then EqualMerges(Some(al[i]), b.items[i], c.items[i])
                else Merged(Some(al[i]), c.items[i]) == c.items[i]))
  {
    MergedElement(Some(a), b, i);
    MergedElement(Some(b), c, i);
    MergedElement(Some(Merged(Some(a), b)), c, i);
    MergedElement(Some(a), Merged(Some(b), c), i);
    MergedLength(Some(b), c);
  }
}
