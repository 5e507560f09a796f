/** `insertPath` and `buildEnvTree`: from environment variables to a tree. */
module EnvTree {
  import opened Text
  import opened Records
  import opened Overlay

  // ---------------------------------------------------------------- numbers

  predicate IsDigits(s: string) {
    s != "" && forall i :: 0 <= i < |s| ==> '0' <= s[i] <= '9'
  }

  function DigitsValue(s: string): nat
    requires forall i :: 0 <= i < |s| ==> '0' <= s[i] <= '9'
  {
    if s == "" then 0 else DigitsValue(s[..|s| - 1]) * 10 + (s[|s| - 1] as int - '0' as int)
  }

  /** `strconv.Atoi`: an optional sign and digits, within 64 bits. */
  function Atoi(s: string): Option<int> {
    var signed := s != "" && (s[0] == '+' || s[0] == '-');
    var digits := if signed then s[1..] else s;
    if !IsDigits(digits) then None
    else
      var sign: int := if signed && s[0] == '-' then -1 else 1;
      var n := sign * DigitsValue(digits);
      if -0x8000_0000_0000_0000 <= n < 0x8000_0000_0000_0000 then Some(n) else None
  }

  lemma {:induction false} DigitsOfNumber(n: nat)
    ensures IsDigits(Itoa(n)) && DigitsValue(Itoa(n)) == n
  {
    if n >= 10 {
      DigitsOfNumber(n / 10);
      var s, digit := Itoa(n), [(n % 10 + '0' as int) as char];
      assert s[..|s| - 1] == Itoa(n / 10) && s[|s| - 1] == digit[0];
    } else {
      assert DigitsValue("") == 0 && Itoa(n)[..0] == "";
    }
  }

  /** Digits are read as their value, with either sign, as far as 64 bits go. */
  lemma AtoiOfDigits(sign: string, digits: string)
    requires sign in {"", "+", "-"} && IsDigits(digits)
    ensures var n := (if sign == "-" then -1 else 1) * DigitsValue(digits);
            Atoi(sign + digits) == if -0x8000_0000_0000_0000 <= n < 0x8000_0000_0000_0000 then Some(n) else None
  {
    var s := sign + digits;
    assert sign == "" ==> s == digits;
    assert sign != "" ==> s[0] == sign[0] && s[1..] == digits;
  }

  /** A number in decimal notation is read as that number. */
  lemma AtoiOfNumber(n: nat)
    requires n < 0x8000_0000_0000_0000
    ensures Atoi(Itoa(n)) == Some(n)
  {
    var digits := Itoa(n);
    DigitsOfNumber(n);
    AtoiOfDigits("", digits);
    assert "" + digits == digits;
  }

  /** And nothing is a number that has anything but digits behind the sign. */
  lemma AtoiNeedsDigits(s: string, i: nat)
    requires i < |s| && !('0' <= s[i] <= '9') && (i > 0 || s[0] !in "+-" || |s| == 1)
    ensures Atoi(s) == None
  {
    var rest := s[1..];
    assert i > 0 ==> rest[i - 1] == s[i];
  }

  // ---------------------------------------------------------------- insertPath

  /** The outcome of an insertion: an index or a type assertion out of place is a run-time panic. */
  datatype Inserted = Panic | Grown(node: map<string, Tree>)

  function InsertPath(node: map<string, Tree>, segs: seq<string>, val: string): Inserted
    decreases |segs|
  {
    if segs == [] then Panic
    else if |segs| == 1 then Grown(node[(if Atoi(segs[0]).Some? then segs[0] else ToLower(segs[0])) := Scalar(val)])
    else
      var key := ToLower(segs[0]);
      match Atoi(segs[1])
      case Some(idx) =>
        if idx < 0 then Panic
        else
          var list := Pad(ItemsOf(Get(node, key)), idx + 1);
          if !list[idx].Node? then Panic
          else
            (match InsertPath(list[idx].entries, segs[2..], val)
             case Panic => Panic
             case Grown(child) => Grown(node[key := List(list[idx := Node(child)])]))
      case None =>
        match InsertPath(EntriesOf(Get(node, key)), segs[1..], val)
        case Panic => Panic
        case Grown(child) => Grown(node[key := Node(child)])
  }

  /** The list, grown one element at a time until it has the index. */
  method GrowTo(before: seq<Tree>, idx: nat) returns (list: seq<Tree>)
    ensures list == Pad(before, idx + 1)
  {
    list := before;
    while |list| <= idx
      invariant |before| <= |list| && |list| <= (if |before| <= idx then idx + 1 else |before|)
      invariant forall i :: 0 <= i < |list| ==> list[i] == if i < |before| then before[i] else EMPTY
    {
      list := list + [EMPTY];
    }
  }

  /** The loop form. */
  method InsertInto(node: map<string, Tree>, segs: seq<string>, val: string) returns (r: Inserted)
    ensures r == InsertPath(node, segs, val)
    decreases |segs|
  {
    if |segs| == 0 { return Panic; }
    var seg := segs[0];
    if |segs| == 1 {
      if Atoi(seg).None? { seg := ToLower(seg); }
      return Grown(node[seg := Scalar(val)]);
    }
    seg := ToLower(seg);
    var number := Atoi(segs[1]);
    if number.Some? {
      var idx := number.value;
      if idx < 0 { return Panic; }
      var list := GrowTo(if seg in node && node[seg].List? then node[seg].items else [], idx);
      if !list[idx].Node? { return Panic; }
      var child := InsertInto(list[idx].entries, segs[2..], val);
      if child.Panic? { return Panic; }
      return Grown(node[seg := List(list[idx := Node(child.node)])]);
    }
    var inner := if seg in node && node[seg].Node? then node[seg].entries else map[];
    var child := InsertInto(inner, segs[1..], val);
    if child.Panic? { return Panic; }
    return Grown(node[seg := Node(child.node)]);
  }

  /** The path that segments spell: keys in lower case, a number behind a key an index into the list of that name.
      `None` when a key and a number are left with nothing to follow, or an index is negative. */
  function PathOf(segs: seq<string>): Option<Path>
    decreases |segs|
  {
    if segs == [] then None
    else if |segs| == 1 then Some([Field(if Atoi(segs[0]).Some? then segs[0] else ToLower(segs[0]))])
    else
      var key := Field(ToLower(segs[0]));
      match Atoi(segs[1])
      case Some(idx) =>
        var rest := PathOf(segs[2..]);
        if idx < 0 || rest.None? then None else Some([key, Index(idx)] + rest.value)
      case None =>
        var rest := PathOf(segs[1..]);
        if rest.None? then None else Some([key] + rest.value)
  }

  /** All elements of all lists are maps. */
  ghost predicate ListsOfMaps(t: Tree) {
    match t
    case Scalar(_) => true
    case Node(m) => forall k <- m :: ListsOfMaps(m[k])
    case List(l) => forall i :: 0 <= i < |l| ==> l[i].Node? && ListsOfMaps(l[i])
  }

  /** A path of the kind `PathOf` yields: it ends in a key, and no index follows an index. */
  predicate Shaped(p: Path) {
    p != [] && forall i :: 0 <= i < |p| && p[i].Index? ==> i + 1 < |p| && p[i + 1].Field?
  }

  lemma {:induction false} PathOfIsShaped(segs: seq<string>)
    requires PathOf(segs).Some?
    ensures Shaped(PathOf(segs).value) && PathOf(segs).value[0].Field?
    decreases |segs|
  {
    if |segs| > 1 {
      var key := Field(ToLower(segs[0]));
      match Atoi(segs[1])
      case Some(idx) =>
        var rest := PathOf(segs[2..]).value;
        PathOfIsShaped(segs[2..]);
        ItemShaped(key, idx, rest);
      case None =>
        PathOfIsShaped(segs[1..]);
        ConsShaped(key, PathOf(segs[1..]).value);
    }
  }

  lemma ConsShaped(s: Step, p: Path)
    requires Shaped(p) && (s.Field? || p[0].Field?)
    ensures Shaped([s] + p)
  {
    var q := [s] + p;
    forall i | 0 <= i < |q| && q[i].Index? ensures i + 1 < |q| && q[i + 1].Field? {
      if i > 0 {
        assert q[i] == p[i - 1];
      }
    }
  }

  lemma ItemShaped(key: Step, i: nat, p: Path)
    requires key.Field? && Shaped(p) && p[0].Field?
    ensures Shaped([key, Index(i)] + p)
  {
    ConsShaped(Index(i), p);
    ConsShaped(key, [Index(i)] + p);
    assert [key, Index(i)] + p == [key] + ([Index(i)] + p);
  }

  lemma PutField(m: map<string, Tree>, k: string, p: Path, v: string)
    ensures Put(Some(Node(m)), [Field(k)] + p, v) == Node(m[k := Put(Get(m, k), p, v)])
  {
    assert ([Field(k)] + p)[1..] == p;
  }

  lemma PutItem(m: map<string, Tree>, k: string, i: nat, p: Path, v: string)
    ensures var l := Pad(ItemsOf(Get(m, k)), i + 1);
            Put(Some(Node(m)), [Field(k), Index(i)] + p, v) == Node(m[k := List(l[i := Put(Some(l[i]), p, v)])])
  {
    assert [Field(k), Index(i)] + p == [Field(k)] + ([Index(i)] + p);
    PutField(m, k, [Index(i)] + p, v);
    assert ([Index(i)] + p)[1..] == p;
  }

  lemma PutAtKey(t: Option<Tree>, p: Path, v: string)
    requires p != [] && p[0].Field?
    ensures Put(t, p, v) == Put(Some(Node(EntriesOf(t))), p, v)
  {
  }

  lemma WrapList(m: map<string, Tree>, k: string, l: seq<Tree>)
    requires ListsOfMaps(Node(m)) && (forall i :: 0 <= i < |l| ==> l[i].Node? && ListsOfMaps(l[i]))
    ensures ListsOfMaps(Node(m[k := List(l)]))
  {
  }

  /** On trees whose lists hold maps, `insertPath` panics exactly on the segments that spell no path; otherwise it
      writes the value at the path they spell, and the lists still hold maps. */
  lemma {:induction false} InsertIsPut(node: map<string, Tree>, segs: seq<string>, val: string)
    requires ListsOfMaps(Node(node))
    ensures InsertPath(node, segs, val).Panic? <==> PathOf(segs).None?
    ensures PathOf(segs).Some? ==>
              var r := InsertPath(node, segs, val).node;
              Node(r) == Put(Some(Node(node)), PathOf(segs).value, val) && ListsOfMaps(Node(r))
    decreases |segs|, 0
  {
    if |segs| == 1 {
      var k := if Atoi(segs[0]).Some? then segs[0] else ToLower(segs[0]);
      PutField(node, k, [], val);
      assert [Field(k)] + [] == [Field(k)];
    } else if |segs| > 1 {
      var key := ToLower(segs[0]);
      match Atoi(segs[1])
      case Some(idx) =>
        if idx >= 0 {
          InsertItem(node, key, idx, segs[2..], val);
        }
      case None => InsertField(node, key, segs[1..], val);
    }
  }

  lemma {:induction false} InsertField(node: map<string, Tree>, key: string, segs: seq<string>, val: string)
    requires ListsOfMaps(Node(node)) && segs != []
    ensures var child := InsertPath(EntriesOf(Get(node, key)), segs, val);
            && (child.Panic? <==> PathOf(segs).None?)
            && (PathOf(segs).Some? ==>
                  var r := Node(node[key := Node(child.node)]);
                  r == Put(Some(Node(node)), [Field(key)] + PathOf(segs).value, val) && ListsOfMaps(r))
    decreases |segs|, 1
  {
    InsertIsPut(EntriesOf(Get(node, key)), segs, val);
    if PathOf(segs).Some? {
      PathOfIsShaped(segs);
      PutField(node, key, PathOf(segs).value, val);
      PutAtKey(Get(node, key), PathOf(segs).value, val);
    }
  }

  lemma InsertItem(node: map<string, Tree>, key: string, idx: nat, segs: seq<string>, val: string)
    requires ListsOfMaps(Node(node))
    ensures var list := Pad(ItemsOf(Get(node, key)), idx + 1);
            list[idx].Node? &&
            var child := InsertPath(list[idx].entries, segs, val);
            && (child.Panic? <==> PathOf(segs).None?)
            && (PathOf(segs).Some? ==>
                  var r := Node(node[key := List(list[idx := Node(child.node)])]);
                  r == Put(Some(Node(node)), [Field(key), Index(idx)] + PathOf(segs).value, val) && ListsOfMaps(r))
    decreases |segs|, 1
  {
    var list := Pad(ItemsOf(Get(node, key)), idx + 1);
    assert forall i :: 0 <= i < |list| ==> list[i].Node? && ListsOfMaps(list[i]);
    InsertIsPut(list[idx].entries, segs, val);
    if PathOf(segs).Some? {
      var child := Node(InsertPath(list[idx].entries, segs, val).node);
      PutItem(node, key, idx, PathOf(segs).value, val);
      WrapList(node, key, list[idx := child]);
    }
  }

  // ---------------------------------------------------------------- buildEnvTree

  const PREFIX := "SYNCCAL_"
  const INLINE := "SYNCCAL_CONFIG"

  datatype Variable = Variable(name: string, value: string)

  /** The variables that configure something. */
  predicate Counts(x: Variable) {
    PREFIX <= x.name && x.name != INLINE && x.value != ""
  }

  function SegmentsOf(x: Variable): seq<string>
    requires PREFIX <= x.name
  {
    Split(x.name[|PREFIX|..], '_')
  }

  /** The variables' bindings, in order; `None` if some variable spells no path. */
  function BindingsOf(env: seq<Variable>): Option<seq<Binding>> {
    if env == [] then Some([])
    else
      var front, x := BindingsOf(env[..|env| - 1]), env[|env| - 1];
      if front.None? || !Counts(x) then front
      else
        var p := PathOf(SegmentsOf(x));
        if p.None? then None else Some(front.value + [Binding(p.value, x.value)])
  }

  lemma BuildLast(t: Tree, bs: seq<Binding>, b: Binding)
    ensures Build(t, bs + [b]) == Put(Some(Build(t, bs)), b.path, b.value)
  {
    BuildConcat(t, bs, [b]);
    assert [b][1..] == [];
  }

  /** The loop over the sorted names. It survives exactly if every counting variable spells a path, and then
      has built the tree of their bindings. */
  method BuildEnvTree(env: seq<Variable>) returns (r: Inserted)
    ensures r.Panic? <==> BindingsOf(env).None?
    ensures r.Grown? ==> Node(r.node) == Build(EMPTY, BindingsOf(env).value) && ListsOfMaps(Node(r.node))
  {
    var tree: map<string, Tree> := map[];
    for i := 0 to |env|
      invariant BindingsOf(env[..i]).Some? && ListsOfMaps(Node(tree))
      invariant Node(tree) == Build(EMPTY, BindingsOf(env[..i]).value)
    {
      assert env[..i + 1][..i] == env[..i] && env[..i + 1][i] == env[i];
      var x := env[i];
      if !(PREFIX <= x.name) || x.name == INLINE { continue; }
      if x.value == "" { continue; }
      InsertIsPut(tree, SegmentsOf(x), x.value);
      var inserted := InsertInto(tree, SegmentsOf(x), x.value);
      if inserted.Panic? {
        StaysNone(env, i + 1);
        return Panic;
      }
      BuildLast(EMPTY, BindingsOf(env[..i]).value, Binding(PathOf(SegmentsOf(x)).value, x.value));
      tree := inserted.node;
    }
    assert env[..|env|] == env;
    r := Grown(tree);
  }

  lemma {:induction false} StaysNone(env: seq<Variable>, n: nat)
    requires n <= |env| && BindingsOf(env[..n]).None?
    ensures BindingsOf(env).None?
  {
    if n == |env| {
      assert env[..n] == env;
    } else {
      assert env[..|env| - 1][..n] == env[..n];
      StaysNone(env[..|env| - 1], n);
    }
  }

  lemma {:induction false} BindingsAreShaped(env: seq<Variable>)
    requires BindingsOf(env).Some?
    ensures forall b <- BindingsOf(env).value :: Shaped(b.path) && b.path[0].Field?
  {
    if env != [] {
      BindingsAreShaped(env[..|env| - 1]);
      var x := env[|env| - 1];
      if Counts(x) {
        PathOfIsShaped(SegmentsOf(x));
      }
    }
  }

  // ---------------------------------------------------------------- names of variables

  /** The segments are the keys of the path, in any case, and its indices in decimal notation. */
  ghost predicate Spells(segs: seq<string>, p: Path) {
    |segs| == |p| && forall i :: 0 <= i < |p| ==>
      match p[i]
      case Field(k) => ToLower(segs[i]) == k && '_' !in segs[i] && Atoi(segs[i]).None?
      case Index(n) => segs[i] == Itoa(n) && n < 0x8000_0000_0000_0000
  }

  lemma {:induction false} PathSpelled(segs: seq<string>, p: Path)
    requires Spells(segs, p) && Shaped(p) && p[0].Field?
    ensures PathOf(segs) == Some(p)
    decreases |p|
  {
    assert p[0] == Field(ToLower(segs[0]));
    if |p| > 1 && p[1].Index? {
      AtoiOfNumber(p[1].i);
      assert p[2].Field?;
      RestSpelled(segs, p, 2);
      PathSpelled(segs[2..], p[2..]);
      assert p == [p[0], p[1]] + p[2..];
    } else if |p| > 1 {
      RestSpelled(segs, p, 1);
      PathSpelled(segs[1..], p[1..]);
      assert p == [p[0]] + p[1..];
    } else {
      assert p == [p[0]] && Atoi(segs[0]).None?;
    }
  }

  lemma RestSpelled(segs: seq<string>, p: Path, n: nat)
    requires Spells(segs, p) && Shaped(p) && n < |p|
    ensures Spells(segs[n..], p[n..]) && Shaped(p[n..])
  {
    forall i | 0 <= i < |p[n..]| && p[n..][i].Index? ensures i + 1 < |p[n..]| && p[n..][i + 1].Field? {
      assert p[n + i].Index?;
    }
  }

  lemma NoUnderscore(segs: seq<string>, p: Path)
    requires Spells(segs, p)
    ensures forall part <- segs :: '_' !in part
  {
    forall i | 0 <= i < |segs| ensures '_' !in segs[i] {
      if p[i].Index? {
        DigitsOfNumber(p[i].i);
      }
    }
  }

  /** A variable named by the keys and indices of a path, joined by underscores, is bound to exactly that path. */
  lemma {:induction false} NameBinds(segs: seq<string>, p: Path, value: string)
    requires Spells(segs, p) && Shaped(p) && p[0].Field? && value != "" && Join(segs, '_') != "CONFIG"
    ensures var x := Variable("SYNCCAL_" + Join(segs, '_'), value);
            Counts(x) && PathOf(SegmentsOf(x)) == Some(p)
  {
    var x := Variable("SYNCCAL_" + Join(segs, '_'), value);
    NoUnderscore(segs, p);
    SplitIs(Join(segs, '_'), '_', segs);
    PathSpelled(segs, p);
    assert x.name[|PREFIX|..] == Join(segs, '_');
    assert INLINE[|PREFIX|..] == "CONFIG";
  }

  /** What does not count: other names, the inline configuration, and empty values. */
  lemma CountsIs(x: Variable)
    ensures Counts(x) <==> "SYNCCAL_" <= x.name && x.name != "SYNCCAL_CONFIG" && x.value != ""
  {
  }

  lemma {:induction false} BoundInOrder(env: seq<Variable>, x: Variable, p: Path)
    requires BindingsOf(env).Some? && x in env && Counts(x) && PathOf(SegmentsOf(x)) == Some(p)
    ensures Binding(p, x.value) in BindingsOf(env).value
  {
    var n := |env| - 1;
    if x != env[n] {
      assert x in env[..n];
      BoundInOrder(env[..n], x, p);
    }
  }
}
