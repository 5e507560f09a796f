/** Strings as the engine uses them: SQL `LIKE` patterns, percent-escaped path
    segments and the resource address a destination derives from a UID.
    A Go string is a sequence of bytes, so every character below stands for one byte. */
module Text {

  function Lower(c: char): char {
    if 'A' <= c <= 'Z' then (c as int + 32) as char else c
  }

  function ToLower(s: string): (r: string)
    ensures |r| == |s|
    ensures forall i :: 0 <= i < |s| ==> r[i] == Lower(s[i])
  {
    seq(|s|, i requires 0 <= i < |s| => Lower(s[i]))
  }

  /** ASCII capitals become the small letters in the same place, and nothing else changes. */
  lemma LowerIs(c: char)
    ensures if 'A' <= c <= 'Z' then 'a' <= Lower(c) <= 'z' && Lower(c) as int - 'a' as int == c as int - 'A' as int else Lower(c) == c
  {
  }

  // ---------------------------------------------------------------- LIKE

  /** SQLite's LIKE operator: `%` matches any run of characters, `_` any single
      one, every other character itself without regard to ASCII case. */
  predicate Like(pattern: string, s: string)
    decreases |pattern|, |s|
  {
    if pattern == "" then s == ""
    else if pattern[0] == '%' then Like(pattern[1..], s) || (s != "" && Like(pattern, s[1..]))
    else s != "" && (pattern[0] == '_' || Lower(pattern[0]) == Lower(s[0])) && Like(pattern[1..], s[1..])
  }

  predicate NoWildcard(s: string) {
    forall i :: 0 <= i < |s| ==> s[i] != '%' && s[i] != '_'
  }

  /** The row filter of a mapping listing: no filter for the empty prefix,
      otherwise `source_uid LIKE prefix || '-%'`. */
  predicate Selected(uid: string, prefix: string) {
    prefix == "" || Like(prefix + "-%", uid)
  }

  /** The UID starts with this very prefix, as the `prefix-uid` transformer writes it. */
  predicate Carries(uid: string, prefix: string) {
    prefix + "-" <= uid
  }

  lemma {:induction false} PercentMatchesAll(s: string)
    ensures Like("%", s)
  {
    if s == "" {
      assert Like("%"[1..], s);
    } else {
      PercentMatchesAll(s[1..]);
    }
  }

  /** What the pattern `p%` means for a literal `p`: the text starts with `p`, letter case aside. */
  lemma {:induction false} LikeLiteral(p: string, s: string)
    requires NoWildcard(p)
    ensures Like(p + "%", s) <==> |p| <= |s| && ToLower(s[..|p|]) == ToLower(p)
  {
    if p == "" {
      assert p + "%" == "%";
      PercentMatchesAll(s);
    } else if s != "" {
      assert (p + "%")[1..] == p[1..] + "%";
      LikeLiteral(p[1..], s[1..]);
      if |p| <= |s| {
        assert s[1..][..|p[1..]|] == s[..|p|][1..];
        var a, b := ToLower(s[..|p|]), ToLower(p);
        assert a == [Lower(s[0])] + ToLower(s[..|p|][1..]);
        assert b == [Lower(p[0])] + ToLower(p[1..]);
      }
    }
  }

  /** Exactly which UIDs a literal prefix selects. */
  lemma SelectedIs(uid: string, prefix: string)
    requires NoWildcard(prefix)
    ensures Selected(uid, prefix) <==> prefix == "" || (|prefix| < |uid| && ToLower(uid[..|prefix| + 1]) == ToLower(prefix + "-"))
  {
    assert prefix + "-%" == (prefix + "-") + "%";
    LikeLiteral(prefix + "-", uid);
  }

  lemma CarriedIsSelected(uid: string, prefix: string)
    requires NoWildcard(prefix) && Carries(uid, prefix)
    ensures Selected(uid, prefix)
  {
    if prefix != "" {
      SelectedIs(uid, prefix);
      assert uid[..|prefix| + 1] == prefix + "-";
    }
  }

  /** Two literal prefixes of one length select a common UID exactly when they differ by case only;
      so distinct lower-case prefixes own disjoint sets of rows. */
  lemma PrefixesSeparate(p: string, q: string)
    requires NoWildcard(p) && NoWildcard(q) && |p| == |q| && p != ""
    ensures (exists u :: Selected(u, p) && Selected(u, q)) <==> ToLower(p) == ToLower(q)
  {
    if ToLower(p) == ToLower(q) {
      var u := p + "-";
      SelectedIs(u, p);
      SelectedIs(u, q);
      assert u[..|p| + 1] == u;
      assert ToLower(p + "-") == ToLower(p) + "-";
      assert ToLower(q + "-") == ToLower(q) + "-";
      assert Selected(u, p) && Selected(u, q);
    }
    forall u | Selected(u, p) && Selected(u, q)
      ensures ToLower(p) == ToLower(q)
    {
      SelectedIs(u, p);
      SelectedIs(u, q);
      assert ToLower(p) == ToLower(p + "-")[..|p|];
      assert ToLower(q) == ToLower(q + "-")[..|q|];
    }
  }

  // ---------------------------------------------------------------- pieces

  /** `strings.Split` on a one-character separator. */
  function Split(s: string, sep: char): (parts: seq<string>)
    ensures parts != []
  {
    if s == "" then [""]
    else
      var rest := Split(s[1..], sep);
      if s[0] == sep then [""] + rest else [[s[0]] + rest[0]] + rest[1..]
  }

  function Join(parts: seq<string>, sep: char): string
    requires parts != []
  {
    if |parts| == 1 then parts[0] else parts[0] + [sep] + Join(parts[1..], sep)
  }

  lemma {:induction false} SplitJoins(s: string, sep: char)
    ensures Join(Split(s, sep), sep) == s && forall part <- Split(s, sep) :: sep !in part
  {
    if s != "" {
      SplitJoins(s[1..], sep);
      var rest := Split(s[1..], sep);
      if s[0] == sep {
        assert ([""] + rest)[1..] == rest;
      } else {
        var first := [s[0]] + rest[0];
        assert ([first] + rest[1..])[1..] == rest[1..];
        assert |rest| > 1 ==> [s[0]] + (rest[0] + [sep] + Join(rest[1..], sep)) == first + [sep] + Join(rest[1..], sep);
        assert s == [s[0]] + s[1..];
      }
    }
  }

  lemma {:induction false} SplitFirst(part: string, sep: char, rest: string)
    requires sep !in part
    ensures Split(part, sep) == [part] && Split(part + [sep] + rest, sep) == [part] + Split(rest, sep)
  {
    var s := part + [sep] + rest;
    if part == "" {
      assert s[1..] == rest;
    } else {
      assert s[1..] == part[1..] + [sep] + rest && part == [part[0]] + part[1..];
      SplitFirst(part[1..], sep, rest);
    }
  }

  lemma {:induction false} JoinSplits(parts: seq<string>, sep: char)
    requires parts != [] && forall part <- parts :: sep !in part
    ensures Split(Join(parts, sep), sep) == parts
  {
    SplitFirst(parts[0], sep, "");
    if |parts| > 1 {
      SplitFirst(parts[0], sep, Join(parts[1..], sep));
      JoinSplits(parts[1..], sep);
    }
  }

  /** The pieces are the only sequence that joins to the text and of which none contains the separator. */
  lemma SplitIs(s: string, sep: char, parts: seq<string>)
    ensures parts == Split(s, sep) <==> parts != [] && Join(parts, sep) == s && forall part <- parts :: sep !in part
  {
    SplitJoins(s, sep);
    if parts != [] && (forall part <- parts :: sep !in part) {
      JoinSplits(parts, sep);
    }
  }

  // ---------------------------------------------------------------- numbers

  function Itoa(n: nat): string {
    var digit := [(n % 10 + '0' as int) as char];
    if n < 10 then digit else Itoa(n / 10) + digit
  }

  /** Decimal notation. */
  lemma ItoaIs(n: nat, d: nat)
    requires d < 10
    ensures Itoa(d) == ["0123456789"[d]] && (n > 0 ==> Itoa(10 * n + d) == Itoa(n) + ["0123456789"[d]])
  {
    assert (10 * n + d) / 10 == n && (10 * n + d) % 10 == d;
  }

  // ---------------------------------------------------------------- white space

  predicate IsSpace(c: char) {
    c == ' ' || '\t' as int <= c as int <= '\r' as int
  }

  /** `strings.TrimSpace` on ASCII white space. */
  function TrimSpace(s: string): string {
    if s != "" && IsSpace(s[0]) then TrimSpace(s[1..])
    else if s != "" && IsSpace(s[|s| - 1]) then TrimSpace(s[..|s| - 1])
    else s
  }

  lemma SpaceIs(c: char)
    ensures IsSpace(c) <==> c in " \t\n\U{000B}\U{000C}\r"
  {
    var all := " \t\n\U{000B}\U{000C}\r";
    assert all[0] == ' ' && all[1] == '\t' && all[2] == '\n' && all[3] as int == 11 && all[4] as int == 12 && all[5] == '\r';
    assert c in all <==> c == all[0] || c == all[1] || c == all[2] || c == all[3] || c == all[4] || c == all[5];
  }

  predicate Blank(s: string) {
    forall i :: 0 <= i < |s| ==> IsSpace(s[i])
  }

  /** Neither end is white space. */
  predicate Tight(s: string) {
    s == "" || (!IsSpace(s[0]) && !IsSpace(s[|s| - 1]))
  }

  lemma {:induction false} TrimParts(s: string) returns (left: string, right: string)
    ensures Blank(left) && Blank(right) && s == left + TrimSpace(s) + right && Tight(TrimSpace(s))
  {
    left, right := "", "";
    if s != "" && IsSpace(s[0]) {
      left, right := TrimParts(s[1..]);
      left := [s[0]] + left;
    } else if s != "" && IsSpace(s[|s| - 1]) {
      left, right := TrimParts(s[..|s| - 1]);
      right := right + [s[|s| - 1]];
    }
  }

  lemma {:induction false} TrimmedOff(left: string, t: string, right: string)
    requires Blank(left) && Blank(right) && Tight(t)
    ensures TrimSpace(left + t + right) == t
    decreases |left| + |right|
  {
    var s := left + t + right;
    if left != "" {
      assert s[1..] == left[1..] + t + right;
      TrimmedOff(left[1..], t, right);
    } else if right != "" {
      if t == "" {
        assert s == right && s[1..] == left + t + right[1..];
        TrimmedOff(left, t, right[1..]);
      } else {
        assert s[..|s| - 1] == left + t + right[..|right| - 1];
        TrimmedOff(left, t, right[..|right| - 1]);
      }
    } else {
      assert s == t;
    }
  }

  /** Trimming takes the white space off both ends, and nothing else. */
  lemma TrimIs(s: string, t: string)
    ensures t == TrimSpace(s) <==> Tight(t) && exists left, right :: Blank(left) && Blank(right) && s == left + t + right
  {
    var l, r := TrimParts(s);
    forall left, right | Tight(t) && Blank(left) && Blank(right) && s == left + t + right ensures t == TrimSpace(s) {
      TrimmedOff(left, t, right);
    }
  }

  // ------------------------------------------------------- path escaping

  predicate Alphanumeric(c: char) {
    'a' <= c <= 'z' || 'A' <= c <= 'Z' || '0' <= c <= '9'
  }

  /** Bytes that Go leaves alone in a path segment. Codes above 255 are not
      bytes and never occur. */
  predicate Plain(c: char) {
    Alphanumeric(c) || c in "-_.~$&+:=@" || c as int > 255
  }

  function HexDigit(n: nat): (c: char)
    requires n < 16
    ensures UnHex(c) == n && c != '/'
  {
    if n < 10 then (n + '0' as int) as char else (n - 10 + 'A' as int) as char
  }

  function UnHex(c: char): nat {
    if '0' <= c <= '9' then c as int - '0' as int
    else if 'A' <= c <= 'F' then c as int - 'A' as int + 10
    else 0
  }

  function EscapeByte(c: char): string {
    if Plain(c) then [c] else ['%', HexDigit(c as int / 16), HexDigit(c as int % 16)]
  }

  function PathEscape(s: string): string {
    if s == "" then "" else EscapeByte(s[0]) + PathEscape(s[1..])
  }

  function PathUnescape(s: string): string
    decreases |s|
  {
    if s == "" then ""
    else if s[0] == '%' && |s| >= 3 then [(UnHex(s[1]) * 16 + UnHex(s[2])) as char] + PathUnescape(s[3..])
    else [s[0]] + PathUnescape(s[1..])
  }

  lemma HexDigitIs(n: nat)
    requires n < 16
    ensures HexDigit(n) == "0123456789ABCDEF"[n]
  {
  }

  /** Byte by byte: letters, digits and ten other characters stay, all others become a percent sign and two digits. */
  lemma EscapeIs(c: char, s: string)
    requires c as int < 256
    ensures PathEscape([c] + s) ==
            (if 'a' <= c <= 'z' || 'A' <= c <= 'Z' || '0' <= c <= '9' || c in "-_.~$&+:=@" then [c]
             else ['%', "0123456789ABCDEF"[c as int / 16], "0123456789ABCDEF"[c as int % 16]]) + PathEscape(s)
  {
    assert ([c] + s)[1..] == s;
    HexDigitIs(c as int / 16);
    HexDigitIs(c as int % 16);
  }

  lemma {:induction false} UnescapeInvertsEscape(s: string)
    ensures PathUnescape(PathEscape(s)) == s
  {
    if s != "" {
      var e, rest := EscapeByte(s[0]), PathEscape(s[1..]);
      UnescapeInvertsEscape(s[1..]);
      assert (e + rest)[|e|..] == rest;
    }
  }

  lemma {:induction false} EscapeHasNoSlash(s: string)
    ensures '/' !in PathEscape(s)
  {
    if s != "" {
      EscapeHasNoSlash(s[1..]);
    }
  }

  // -------------------------------------------------- resource addresses

  function Collection(base: string): (c: string)
    ensures c != "" && c[|c| - 1] == '/'
  {
    if base != "" && base[|base| - 1] == '/' then base else base + "/"
  }

  /** Where a destination stores the event with this UID. */
  function HrefFor(base: string, uid: string): string {
    Collection(base) + PathEscape(uid) + ".ics"
  }

  /** The UID stored at an address of this collection. */
  function UidOfHref(base: string, href: string): string {
    var n := |Collection(base)|;
    if n + 4 <= |href| then PathUnescape(href[n..|href| - 4]) else ""
  }

  /** With or without a slash at the end, a base URL stands for one collection. */
  lemma HrefIs(base: string, uid: string)
    ensures var name := PathEscape(uid) + ".ics";
            HrefFor(base + "/", uid) == base + "/" + name && (base == "" || base[|base| - 1] != '/' ==> HrefFor(base, uid) == base + "/" + name)
  {
  }

  lemma UidOfHrefInverts(base: string, uid: string)
    ensures UidOfHref(base, HrefFor(base, uid)) == uid
  {
    var h, n := HrefFor(base, uid), |Collection(base)|;
    assert h[n..|h| - 4] == PathEscape(uid);
    UnescapeInvertsEscape(uid);
  }

  lemma LastSlashIsInHead(c: string, e: string, d: string)
    requires d != "" && d[|d| - 1] == '/' && '/' !in e
    requires d <= c + e
    ensures d <= c
  {
    var h := c + e;
    assert h[|d| - 1] == '/';
    assert forall i :: |c| <= i < |h| ==> h[i] == e[i - |c|];
    assert d == h[..|d|];
  }

  lemma EscapedNamesDiffer(u1: string, u2: string)
    requires PathEscape(u1) + ".ics" == PathEscape(u2) + ".ics"
    ensures u1 == u2
  {
    var e1, e2 := PathEscape(u1), PathEscape(u2);
    assert e1 == (e1 + ".ics")[..|e1 + ".ics"| - 4];
    assert e2 == (e2 + ".ics")[..|e2 + ".ics"| - 4];
    UnescapeInvertsEscape(u1);
    UnescapeInvertsEscape(u2);
  }

  lemma SplitAtLastSlash(c1: string, e1: string, c2: string, e2: string)
    requires c1 != "" && c1[|c1| - 1] == '/' && '/' !in e1
    requires c2 != "" && c2[|c2| - 1] == '/' && '/' !in e2
    requires c1 + e1 == c2 + e2
    ensures c1 == c2 && e1 == e2
  {
    LastSlashIsInHead(c1, e1, c2);
    LastSlashIsInHead(c2, e2, c1);
    assert e1 == (c1 + e1)[|c1|..];
    assert e2 == (c2 + e2)[|c2|..];
  }

  /** An address determines the collection and the UID, whatever the two base URLs are. */
  lemma HrefInjective(b1: string, u1: string, b2: string, u2: string)
    ensures HrefFor(b1, u1) == HrefFor(b2, u2) <==> Collection(b1) == Collection(b2) && u1 == u2
  {
    if HrefFor(b1, u1) == HrefFor(b2, u2) {
      var c1, c2 := Collection(b1), Collection(b2);
      var e1, e2 := PathEscape(u1) + ".ics", PathEscape(u2) + ".ics";
      assert HrefFor(b1, u1) == c1 + e1 && HrefFor(b2, u2) == c2 + e2;
      EscapeHasNoSlash(u1);
      EscapeHasNoSlash(u2);
      SplitAtLastSlash(c1, e1, c2, e2);
      EscapedNamesDiffer(u1, u2);
    }
  }
}
