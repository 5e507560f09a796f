/** Configuration trees: inserting environment variables by path, and merging
    the resulting tree into the one read from the file. */
module Overlay {
  import opened Records

  datatype Tree = Scalar(value: string) | Node(entries: map<string, Tree>) | List(items: seq<Tree>)

  datatype Step = Field(name: string) | Index(i: nat)
  type Path = seq<Step>

  const EMPTY := Node(map[])

  function EntriesOf(t: Option<Tree>): map<string, Tree> {
    if t.Some? && t.value.Node? then t.value.entries else map[]
  }

  function ItemsOf(t: Option<Tree>): seq<Tree> {
    if t.Some? && t.value.List? then t.value.items else []
  }

  /** A list grown to at least `n` elements, new ones empty maps. */
  function Pad(l: seq<Tree>, n: nat): (r: seq<Tree>)
    ensures |r| == if n <= |l| then |l| else n
    ensures forall i :: 0 <= i < |r| ==> r[i] == if i < |l| then l[i] else EMPTY
  {
    if n <= |l| then l else l + seq(n - |l|, _ => EMPTY)
  }

  // ---------------------------------------------------------------- writing and reading by path

  /** Writes a value at a path. Whatever is in the way with another kind is replaced. */
  function Put(t: Option<Tree>, p: Path, v: string): Tree
    decreases |p|
  {
    if p == [] then Scalar(v)
    else
      match p[0]
      case Field(k) => var m := EntriesOf(t); Node(m[k := Put(Get(m, k), p[1..], v)])
      case Index(i) => var l := Pad(ItemsOf(t), i + 1); List(l[i := Put(Some(l[i]), p[1..], v)])
  }

  /** The scalar at a path, if there is one. */
  function Leaf(t: Option<Tree>, p: Path): Option<string>
    decreases |p|
  {
    if p == [] then if t.Some? && t.value.Scalar? then Some(t.value.value) else None
    else
      match p[0]
      case Field(k) => Leaf(Get(EntriesOf(t), k), p[1..])
      case Index(i) => if i < |ItemsOf(t)| then Leaf(Some(ItemsOf(t)[i]), p[1..]) else None
  }

  /** The paths part ways inside a container of one kind: neither leads through the other's value. */
  predicate Compatible(p: Path, q: Path)
    decreases |p|
  {
    p != [] && q != [] && if p[0] == q[0] then Compatible(p[1..], q[1..]) else p[0].Field? == q[0].Field?
  }

  lemma {:induction false} CompatibleSymmetric(p: Path, q: Path)
    ensures Compatible(p, q) <==> Compatible(q, p)
    decreases |p|
  {
    if p != [] && q != [] && p[0] == q[0] {
      CompatibleSymmetric(p[1..], q[1..]);
    }
  }

  lemma {:induction false} NoLeaf(p: Path)
    ensures Leaf(None, p) == None
    decreases |p|
  {
    if p != [] {
      NoLeaf(p[1..]);
    }
  }

  lemma {:induction false} EmptyHasNoLeaf(p: Path)
    ensures Leaf(Some(EMPTY), p) == None
  {
    if p != [] {
      NoLeaf(p[1..]);
    }
  }

  lemma SamePath(p: Path, q: Path)
    requires p != [] && q != [] && p[0] == q[0]
    ensures p == q <==> p[1..] == q[1..]
  {
    assert p == [p[0]] + p[1..] && q == [q[0]] + q[1..];
  }

  /** What a write does to every leaf there is or was: the written one holds the value, those at compatible paths are
      unchanged, all others are gone. */
  lemma {:induction false} PutLeaf(t: Option<Tree>, p: Path, v: string, q: Path)
    ensures Leaf(Some(Put(t, p, v)), q) == if q == p then Some(v) else if Compatible(p, q) then Leaf(t, q) else None
    decreases |p|
  {
    if p == [] {
      if q != [] {
        NoLeaf(q[1..]);
      }
    } else if q != [] {
      if p[0] == q[0] {
        SamePath(p, q);
        match p[0]
        case Field(k) => PutLeaf(Get(EntriesOf(t), k), p[1..], v, q[1..]);
        case Index(i) =>
          PutLeaf(Some(Pad(ItemsOf(t), i + 1)[i]), p[1..], v, q[1..]);
          EmptyHasNoLeaf(q[1..]);
      } else if p[0].Index? && q[0].Index? {
        EmptyHasNoLeaf(q[1..]);
      } else if p[0].Field? != q[0].Field? {
        match q[0]
        case Field(k) => NoLeaf(q[1..]);
        case Index(i) =>
      }
    }
  }

  lemma PutBelowField(t: Option<Tree>, k: string, p: Path, v: string, q: Path, w: string)
    requires var c := Get(EntriesOf(t), k); Put(Some(Put(c, p, v)), q, w) == Put(Some(Put(c, q, w)), p, v)
    ensures Put(Some(Put(t, [Field(k)] + p, v)), [Field(k)] + q, w) == Put(Some(Put(t, [Field(k)] + q, w)), [Field(k)] + p, v)
  {
    assert ([Field(k)] + p)[1..] == p && ([Field(k)] + q)[1..] == q;
    var m := EntriesOf(t);
    var a, b := Put(Get(m, k), p, v), Put(Get(m, k), q, w);
    var ma, mb := m[k := a], m[k := b];
    assert ma[k := Put(Some(a), q, w)] == mb[k := Put(Some(b), p, v)];
  }

  lemma PutBelowIndex(t: Option<Tree>, i: nat, p: Path, v: string, q: Path, w: string)
    requires var c := Some(Pad(ItemsOf(t), i + 1)[i]); Put(Some(Put(c, p, v)), q, w) == Put(Some(Put(c, q, w)), p, v)
    ensures Put(Some(Put(t, [Index(i)] + p, v)), [Index(i)] + q, w) == Put(Some(Put(t, [Index(i)] + q, w)), [Index(i)] + p, v)
  {
    var l := Pad(ItemsOf(t), i + 1);
    var a, b := Put(Some(l[i]), p, v), Put(Some(l[i]), q, w);
    assert ([Index(i)] + p)[1..] == p && ([Index(i)] + q)[1..] == q;
    var la, lb := l[i := a], l[i := b];
    assert Pad(la, i + 1) == la && Pad(lb, i + 1) == lb;
    assert la[i := Put(Some(a), q, w)] == lb[i := Put(Some(b), p, v)];
  }

  lemma PutFieldsCommute(t: Option<Tree>, k: string, p: Path, v: string, k': string, q: Path, w: string)
    requires k != k'
    ensures Put(Some(Put(t, [Field(k)] + p, v)), [Field(k')] + q, w) == Put(Some(Put(t, [Field(k')] + q, w)), [Field(k)] + p, v)
  {
    assert ([Field(k)] + p)[1..] == p && ([Field(k')] + q)[1..] == q;
    var m := EntriesOf(t);
    var a, b := Put(Get(m, k), p, v), Put(Get(m, k'), q, w);
    var ma, mb := m[k := a], m[k' := b];
    assert ma[k' := b] == mb[k := a];
    assert Get(ma, k') == Get(m, k') && Get(mb, k) == Get(m, k);
  }

  lemma PutIndex(t: Option<Tree>, i: nat, p: Path, v: string)
    ensures var l := Pad(ItemsOf(t), i + 1);
            Put(t, [Index(i)] + p, v) == List(l[i := Put(Some(l[i]), p, v)])
  {
    assert ([Index(i)] + p)[1..] == p;
  }

  lemma PadTwice(l: seq<Tree>, i: nat, a: Tree, j: nat, b: Tree)
    requires i != j
    ensures var x, y := Pad(Pad(l, i + 1)[i := a], j + 1), Pad(Pad(l, j + 1)[j := b], i + 1);
            x[j] == Pad(l, j + 1)[j] && y[i] == Pad(l, i + 1)[i] && x[j := b] == y[i := a]
  {
  }

  lemma {:induction false} PutIndicesCommute(t: Option<Tree>, i: nat, p: Path, v: string, j: nat, q: Path, w: string)
    requires i != j
    ensures Put(Some(Put(t, [Index(i)] + p, v)), [Index(j)] + q, w) == Put(Some(Put(t, [Index(j)] + q, w)), [Index(i)] + p, v)
  {
    var l := ItemsOf(t);
    PutIndex(t, i, p, v);
    PutIndex(t, j, q, w);
    PadTwice(l, i, Put(Some(Pad(l, i + 1)[i]), p, v), j, Put(Some(Pad(l, j + 1)[j]), q, w));
    PutIndex(Some(Put(t, [Index(i)] + p, v)), j, q, w);
    PutIndex(Some(Put(t, [Index(j)] + q, w)), i, p, v);
  }

  lemma {:induction false} CompatibleCommute(t: Option<Tree>, p: Path, v: string, q: Path, w: string)
    requires Compatible(p, q)
    ensures Put(Some(Put(t, p, v)), q, w) == Put(Some(Put(t, q, w)), p, v)
    decreases |p|
  {
    var p', q' := p[1..], q[1..];
    assert p == [p[0]] + p' && q == [q[0]] + q';
    if p[0] == q[0] {
      if p[0].Field? {
        CompatibleCommute(Get(EntriesOf(t), p[0].name), p', v, q', w);
        PutBelowField(t, p[0].name, p', v, q', w);
      } else {
        CompatibleCommute(Some(Pad(ItemsOf(t), p[0].i + 1)[p[0].i]), p', v, q', w);
        PutBelowIndex(t, p[0].i, p', v, q', w);
      }
    } else if p[0].Field? {
      PutFieldsCommute(t, p[0].name, p', v, q[0].name, q', w);
    } else {
      PutIndicesCommute(t, p[0].i, p', v, q[0].i, q', w);
    }
  }

  /** Two writes commute exactly if their paths are compatible or they are one and the same write: then the very trees are equal,
      padding included. */
  lemma PutCommutes(t: Option<Tree>, p: Path, v: string, q: Path, w: string)
    ensures Put(Some(Put(t, p, v)), q, w) == Put(Some(Put(t, q, w)), p, v) <==> Compatible(p, q) || (p == q && v == w)
  {
    CompatibleSymmetric(p, q);
    if Compatible(p, q) {
      CompatibleCommute(t, p, v, q, w);
    } else {
      PutLeaf(t, p, v, p);
      PutLeaf(Some(Put(t, p, v)), q, w, p);
      PutLeaf(t, q, w, p);
      PutLeaf(Some(Put(t, q, w)), p, v, p);
    }
  }

  // ---------------------------------------------------------------- many bindings

  datatype Binding = Binding(path: Path, value: string)

  function Build(t: Tree, bs: seq<Binding>): Tree
    decreases |bs|
  {
    if bs == [] then t else Build(Put(Some(t), bs[0].path, bs[0].value), bs[1..])
  }

  ghost predicate PairwiseCompatible(bs: seq<Binding>) {
    forall i, j :: 0 <= i < j < |bs| ==> Compatible(bs[i].path, bs[j].path)
  }

  lemma {:induction false} BuildConcat(t: Tree, a: seq<Binding>, b: seq<Binding>)
    ensures Build(t, a + b) == Build(Build(t, a), b)
    decreases |a|
  {
    if a == [] {
      assert a + b == b;
    } else {
      assert (a + b)[1..] == a[1..] + b;
      BuildConcat(Put(Some(t), a[0].path, a[0].value), a[1..], b);
    }
  }

  lemma BuildCons(t: Tree, b: Binding, bs: seq<Binding>)
    ensures Build(t, [b] + bs) == Build(Put(Some(t), b.path, b.value), bs)
  {
    assert ([b] + bs)[1..] == bs;
  }

  lemma Uncons<T>(a: seq<T>, b: seq<T>)
    requires a != []
    ensures a + b == [a[0]] + (a[1..] + b)
  {
  }

  /** A binding compatible with those before it may as well be made first. */
  lemma {:induction false} MoveToFront(t: Tree, a: seq<Binding>, b: Binding, after: seq<Binding>)
    requires forall x <- a :: Compatible(x.path, b.path)
    ensures Build(t, a + ([b] + after)) == Build(t, [b] + (a + after))
    decreases |a|
  {
    if a == [] {
      assert a + ([b] + after) == [b] + (a + after);
    } else {
      var x, rest := a[0], a[1..];
      var t1, t2 := Put(Some(t), x.path, x.value), Put(Some(t), b.path, b.value);
      Uncons(a, [b] + after);
      Uncons(a, after);
      BuildCons(t, x, rest + ([b] + after));
      MoveToFront(t1, rest, b, after);
      BuildCons(t1, b, rest + after);
      BuildCons(t, b, a + after);
      BuildCons(t2, x, rest + after);
      CompatibleCommute(Some(t), x.path, x.value, b.path, b.value);
    }
  }

  lemma RemoveAt(bs: seq<Binding>, i: nat)
    requires PairwiseCompatible(bs) && i < |bs|
    ensures PairwiseCompatible(bs[..i] + bs[i + 1..])
    ensures forall x <- bs[..i] :: Compatible(x.path, bs[i].path)
    ensures multiset(bs) == multiset{bs[i]} + multiset(bs[..i] + bs[i + 1..])
  {
    var r := bs[..i] + bs[i + 1..];
    forall j, k | 0 <= j < k < |r| ensures Compatible(r[j].path, r[k].path) {
      assert r[j] == bs[if j < i then j else j + 1] && r[k] == bs[if k < i then k else k + 1];
    }
    assert bs == bs[..i] + [bs[i]] + bs[i + 1..];
  }

  lemma SplitAt<T>(s: seq<T>, i: nat)
    requires i < |s|
    ensures s == s[..i] + ([s[i]] + s[i + 1..])
  {
  }

  lemma {:induction false} BuildFrom(t: Tree, bs: seq<Binding>, i: nat)
    requires PairwiseCompatible(bs) && i < |bs|
    ensures Build(t, bs) == Build(t, [bs[i]] + (bs[..i] + bs[i + 1..]))
  {
    assert forall x <- bs[..i] :: Compatible(x.path, bs[i].path) by { RemoveAt(bs, i); }
    SplitAt(bs, i);
    MoveToFront(t, bs[..i], bs[i], bs[i + 1..]);
  }

  lemma SameFirst(a: seq<Binding>, b: seq<Binding>) returns (i: nat)
    requires multiset(a) == multiset(b) && b != [] && PairwiseCompatible(a)
    ensures i < |a| && a[i] == b[0]
    ensures multiset(a[..i] + a[i + 1..]) == multiset(b[1..])
  {
    assert b == [b[0]] + b[1..];
    assert b[0] in multiset(a);
    i :| 0 <= i < |a| && a[i] == b[0];
    RemoveAt(a, i);
    assert multiset(b) == multiset{b[0]} + multiset(b[1..]);
    Cancel(b[0], multiset(a[..i] + a[i + 1..]), multiset(b[1..]));
  }

  lemma Cancel<T>(x: T, a: multiset<T>, b: multiset<T>)
    requires multiset{x} + a == multiset{x} + b
    ensures a == b
  {
    assert a == (multiset{x} + a) - multiset{x};
    assert b == (multiset{x} + b) - multiset{x};
  }

  /** Pairwise compatible bindings build one and the same tree in whatever order they are made. */
  lemma {:induction false} BuildAnyOrder(t: Tree, a: seq<Binding>, b: seq<Binding>)
    requires PairwiseCompatible(a) && multiset(a) == multiset(b)
    ensures Build(t, a) == Build(t, b)
    decreases |b|
  {
    if b == [] {
      assert |multiset(a)| == |a| && |multiset(b)| == |b|;
    } else {
      var i := SameFirst(a, b);
      var rest := a[..i] + a[i + 1..];
      RemoveAt(a, i);
      BuildFrom(t, a, i);
      assert ([a[i]] + rest)[1..] == rest;
      BuildAnyOrder(Put(Some(t), b[0].path, b[0].value), rest, b[1..]);
    }
  }

  /** Every leaf of a built tree: bound paths hold their value, paths compatible with all bindings what they held before. */
  lemma {:induction false} BuildLeaf(t: Tree, bs: seq<Binding>, q: Path)
    requires PairwiseCompatible(bs)
    ensures forall b <- bs :: b.path == q ==> Leaf(Some(Build(t, bs)), q) == Some(b.value)
    ensures (forall b <- bs :: Compatible(b.path, q)) ==> Leaf(Some(Build(t, bs)), q) == Leaf(Some(t), q)
    ensures (forall b <- bs :: b.path != q) && (exists b <- bs :: !Compatible(b.path, q)) ==> Leaf(Some(Build(t, bs)), q) == None
    decreases |bs|
  {
    if bs != [] {
      var b, t' := bs[0], Put(Some(t), bs[0].path, bs[0].value);
      assert bs == [b] + bs[1..];
      PutLeaf(Some(t), b.path, b.value, q);
      BuildLeaf(t', bs[1..], q);
      if b.path == q {
        forall x <- bs[1..] ensures Compatible(x.path, q) {
          CompatibleSymmetric(b.path, x.path);
        }
        NeverSelf(q);
      }
    }
  }

  lemma {:induction false} NeverSelf(q: Path)
    ensures !Compatible(q, q)
    decreases |q|
  {
    if q != [] {
      NeverSelf(q[1..]);
    }
  }
}
