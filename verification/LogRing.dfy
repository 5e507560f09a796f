/** The bounded ring buffer of recent log entries. */
module LogRing {
  import opened Records

  datatype LogEntry = LogEntry(timestamp: int, level: string, message: string)

  const INFO := 0

  function Min(a: int, b: int): int {
    if a < b then a else b
  }

  /** The last `n` entries of a history, newest first. */
  function Newest(history: seq<LogEntry>, n: nat): (r: seq<LogEntry>)
    requires n <= |history|
    ensures |r| == n
  {
    seq(n, k requires 0 <= k < n => history[|history| - 1 - k])
  }

  function AtLeast(entries: seq<LogEntry>, minLevel: int, parse: string -> Option<int>): seq<LogEntry> {
    if entries == [] then []
    else
      var rest := AtLeast(entries[1..], minLevel, parse);
      var level := parse(entries[0].level);
      if level.Some? && level.value >= minLevel then [entries[0]] + rest else rest
  }

  function Take<T>(s: seq<T>, n: nat): seq<T> {
    if n <= |s| then s[..n] else s
  }

  /** The threshold asked for; Info if none is, or if it is not a level. */
  function Threshold(level: string, parse: string -> Option<int>): int {
    if level != "" && parse(level).Some? then parse(level).value else INFO
  }

  /** Newest first: what is appended comes to the front, and what no longer fits falls off the end. */
  lemma NewestSnoc(history: seq<LogEntry>, e: LogEntry, n: nat)
    requires n <= |history|
    ensures Newest(history + [e], n + 1) == [e] + Newest(history, n)
    ensures Newest(history, n) == Newest(history, |history|)[..n]
  {
  }

  lemma TakeIs<T>(s: seq<T>, n: nat)
    ensures Take(s, n) <= s && (|Take(s, n)| == n || (|Take(s, n)| == |s| && |s| < n))
  {
  }

  /** A threshold that is not asked for, or is no level, is that of Info, which is zero. */
  lemma ThresholdIs(level: string, parse: string -> Option<int>)
    ensures Threshold(level, parse) == if level != "" && parse(level).Some? then parse(level).value else 0
  {
  }

  lemma {:induction false} AtLeastConcat(a: seq<LogEntry>, b: seq<LogEntry>, minLevel: int, parse: string -> Option<int>)
    ensures AtLeast(a + b, minLevel, parse) == AtLeast(a, minLevel, parse) + AtLeast(b, minLevel, parse)
  {
    if a == [] {
      assert a + b == b;
    } else {
      assert (a + b)[1..] == a[1..] + b;
      AtLeastConcat(a[1..], b, minLevel, parse);
    }
  }

  lemma {:induction false} AtLeastIsSelection(entries: seq<LogEntry>, minLevel: int, parse: string -> Option<int>)
    ensures |AtLeast(entries, minLevel, parse)| <= |entries|
    ensures forall e :: e in AtLeast(entries, minLevel, parse) <==> e in entries && parse(e.level).Some? && parse(e.level).value >= minLevel
  {
    if entries != [] {
      AtLeastIsSelection(entries[1..], minLevel, parse);
      assert entries == [entries[0]] + entries[1..];
    }
  }

  lemma SelectNext(entries: seq<LogEntry>, i: nat, minLevel: int, parse: string -> Option<int>)
    requires i < |entries|
    ensures var level := parse(entries[i].level);
            AtLeast(entries[..i + 1], minLevel, parse) ==
            AtLeast(entries[..i], minLevel, parse) + if level.Some? && level.value >= minLevel then [entries[i]] else []
  {
    assert entries[..i + 1] == entries[..i] + [entries[i]];
    AtLeastConcat(entries[..i], [entries[i]], minLevel, parse);
    assert [entries[i]][1..] == [];
  }

  /** A scan that stops at the end, or with `bound` entries, has the first `bound` of the whole selection. */
  lemma ScanIsDone(entries: seq<LogEntry>, i: nat, minLevel: int, parse: string -> Option<int>, bound: nat)
    requires i <= |entries| && bound <= |entries|
    requires |AtLeast(entries[..i], minLevel, parse)| <= bound
    requires i == |entries| || |AtLeast(entries[..i], minLevel, parse)| == bound
    ensures AtLeast(entries[..i], minLevel, parse) == Take(AtLeast(entries, minLevel, parse), bound)
  {
    assert entries == entries[..i] + entries[i..];
    AtLeastConcat(entries[..i], entries[i..], minLevel, parse);
    AtLeastIsSelection(entries, minLevel, parse);
  }

  method After(i: nat, n: nat) returns (r: nat)
    requires i < n
    ensures r == if i + 1 == n then 0 else i + 1
  {
    r := (i + 1) % n;
  }

  method Before(i: nat, n: nat) returns (r: nat)
    requires i < n
    ensures r == if i == 0 then n - 1 else i - 1
  {
    assert i > 0 ==> i - 1 + n == n + (i - 1) && (n + (i - 1)) % n == i - 1;
    r := (i - 1 + n) % n;
  }

  /** Where in a ring the entry is that was written `k` entries before the last one. */
  function Slot(next: nat, max: nat, k: nat): (i: nat)
    requires next < max && k < max
    ensures i < max
  {
    if k < next then next - 1 - k else next - 1 - k + max
  }

  class LogStore {
    const max: nat
    const buf: array<LogEntry>
    var next: nat
    var count: nat
    ghost var history: seq<LogEntry>

    /** The buffer holds the last `max` entries ever appended: those it has room for, ending just before `next`. */
    ghost predicate Valid()
      reads this, buf
    {
      && buf.Length == max && max > 0 && next < max
      && count == Min(|history|, max)
      && forall k :: 0 <= k < count ==> buf[Slot(next, max, k)] == history[|history| - 1 - k]
    }

    constructor (max: nat, blank: LogEntry)
      requires max > 0
      ensures Valid() && history == [] && this.max == max && fresh(buf)
    {
      this.max := max;
      buf := new LogEntry[max](_ => blank);
      next, count, history := 0, 0, [];
    }

    method Append(e: LogEntry)
      requires Valid()
      modifies this, buf
      ensures Valid() && history == old(history) + [e]
    {
      buf[next] := e;
      next := After(next, max);
      if count < max {
        count := count + 1;
      }
      history := history + [e];
      forall k | 0 <= k < count ensures buf[Slot(next, max, k)] == history[|history| - 1 - k] {
        if k > 0 {
          assert Slot(next, max, k) == Slot(old(next), max, k - 1);
          assert old(buf[Slot(next, max, k - 1)]) == old(history)[|old(history)| - k];
        }
      }
    }

    /** The newest entries of at least the threshold, newest first, at most `limit` of them; a limit that is not
        positive or larger than the number of entries kept is no limit. */
    method List(level: string, limit: int, parse: string -> Option<int>) returns (out: seq<LogEntry>)
      requires Valid()
      ensures var kept := Newest(history, Min(|history|, max));
              out == Take(AtLeast(kept, Threshold(level, parse), parse), if limit <= 0 || limit > |kept| then |kept| else limit)
    {
      var minLevel := INFO;
      if level != "" {
        var lvl := parse(level);
        if lvl.Some? { minLevel := lvl.value; }
      }
      var bound: nat := if limit <= 0 || limit > count then count else limit;
      ghost var kept := Newest(history, count);
      out := [];
      var idx := Before(next, max);
      var i := 0;
      while i < count && |out| < bound
        invariant i <= count && |out| <= bound && idx < max
        invariant i < max ==> idx == Slot(next, max, i)
        invariant out == AtLeast(kept[..i], minLevel, parse)
      {
        var e := buf[idx];
        assert e == kept[i];
        SelectNext(kept, i, minLevel, parse);
        var lvl := parse(e.level);
        if lvl.Some? && lvl.value >= minLevel {
          out := out + [e];
        }
        idx := Before(idx, max);
        i := i + 1;
      }
      ScanIsDone(kept, i, minLevel, parse, bound);
    }
  }
}
