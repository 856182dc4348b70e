/** Splitting, joining, trimming and ordering of Go strings. A string is a
    sequence of code points; on valid UTF-8 the byte order of `sort.Strings`
    is the order of code points. `Split` and `Join` also serve byte strings. */
module Text {

  // ----- strings.Split on a one-element separator, and strings.Join -----

  function Split<T(==)>(s: seq<T>, sep: T): (parts: seq<seq<T>>)
    ensures |parts| >= 1
  {
    if s == [] then [[]]
    else
      var rest := Split(s[1..], sep);
      if s[0] == sep then [[]] + rest
      else [[s[0]] + rest[0]] + rest[1..]
  }

  function Join<T>(parts: seq<seq<T>>, sep: T): seq<T> {
    if parts == [] then []
    else if |parts| == 1 then parts[0]
    else parts[0] + [sep] + Join(parts[1..], sep)
  }

  /** Splitting at the first separator. */
  lemma {:induction false} SplitFirst<T>(p: seq<T>, sep: T, rest: seq<T>)
    requires sep !in p
    ensures Split(p + [sep] + rest, sep) == [p] + Split(rest, sep)
  {
    var s := p + [sep] + rest;
    if p == [] {
      assert s[1..] == rest;
    } else {
      assert s[1..] == p[1..] + [sep] + rest;
      SplitFirst(p[1..], sep, rest);
      assert [p[0]] + p[1..] == p;
    }
  }

  lemma {:induction false} SplitWhole<T>(p: seq<T>, sep: T)
    requires sep !in p
    ensures Split(p, sep) == [p]
  {
    if p != [] {
      SplitWhole(p[1..], sep);
      assert [p[0]] + p[1..] == p;
    }
  }

  lemma SplitCons<T>(c: T, s: seq<T>, sep: T)
    ensures Split([c] + s, sep)
         == if c == sep then [[]] + Split(s, sep) else [[c] + Split(s, sep)[0]] + Split(s, sep)[1..]
  {
    assert ([c] + s)[1..] == s;
  }

  /** Splitting at any separator. */
  lemma {:induction false} SplitAt<T>(p: seq<T>, sep: T, rest: seq<T>)
    ensures Split(p + [sep] + rest, sep) == Split(p, sep) + Split(rest, sep)
  {
    if p == [] {
      assert p + [sep] + rest == [sep] + rest;
      SplitCons(sep, rest, sep);
    } else {
      var tail := p[1..] + [sep] + rest;
      SplitAt(p[1..], sep, rest);
      SplitCons(p[0], p[1..], sep);
      SplitCons(p[0], tail, sep);
      assert p == [p[0]] + p[1..] && p + [sep] + rest == [p[0]] + tail;
      SplitJoined(p[0], Split(p[1..], sep), Split(rest, sep));
      hide Split;
    }
  }

  lemma SplitJoined<T>(c: T, a: seq<seq<T>>, b: seq<seq<T>>)
    requires a != []
    ensures [[]] + (a + b) == ([[]] + a) + b
    ensures [[c] + (a + b)[0]] + (a + b)[1..] == ([[c] + a[0]] + a[1..]) + b
  {
    assert (a + b)[1..] == a[1..] + b;
  }

  lemma Associate<T>(a: seq<T>, b: seq<T>, c: seq<T>)
    ensures a + (b + c) == (a + b) + c
  {}

  /** A text without the separator joins the first part of what follows it. */
  lemma {:induction false} SplitAfter<T>(p: seq<T>, sep: T, s: seq<T>)
    requires sep !in p
    ensures Split(p + s, sep) == [p + Split(s, sep)[0]] + Split(s, sep)[1..]
  {
    hide Split;
    var parts := Split(s, sep);
    if p == [] {
      assert p + s == s && p + parts[0] == parts[0];
    } else {
      var c, q := p[0], p[1..];
      SplitAfter(q, sep, s);
      SplitCons(c, q + s, sep);
      Associate([c], q, s);
      Associate([c], q, parts[0]);
      assert [c] + q == p;
      assert ([q + parts[0]] + parts[1..])[1..] == parts[1..];
    }
  }

  /** Splitting undoes joining when no part holds the separator. */
  lemma {:induction false} SplitOfJoin<T>(parts: seq<seq<T>>, sep: T)
    requires parts != [] && forall p :: p in parts ==> sep !in p
    ensures Split(Join(parts, sep), sep) == parts
  {
    if |parts| == 1 {
      SplitWhole(parts[0], sep);
    } else {
      SplitFirst(parts[0], sep, Join(parts[1..], sep));
      SplitOfJoin(parts[1..], sep);
    }
  }

  /** Parts hold no separator, and nothing that is not in the string. */
  lemma {:induction false} SplitParts<T>(s: seq<T>, sep: T)
    ensures forall p :: p in Split(s, sep) ==> sep !in p
    ensures forall p, c :: p in Split(s, sep) && c in p ==> c in s
  {
    if s != [] {
      var rest := Split(s[1..], sep);
      SplitParts(s[1..], sep);
      assert rest[0] in rest;
      assert forall c :: c in s[1..] ==> c in s;
      if s[0] != sep {
        assert forall p :: p in Split(s, sep) ==> p == [s[0]] + rest[0] || p in rest;
      }
    }
  }

  // ----- strings.TrimSpace -----

  /** unicode.IsSpace. */
  predicate IsSpace(c: char) {
    || '\U{0009}' <= c <= '\U{000D}' || c == ' ' || c == '\U{0085}' || c == '\U{00A0}'
    || c == '\U{1680}' || '\U{2000}' <= c <= '\U{200A}' || c == '\U{2028}' || c == '\U{2029}'
    || c == '\U{202F}' || c == '\U{205F}' || c == '\U{3000}'
  }

  function TrimLeft(s: string): string {
    if s != [] && IsSpace(s[0]) then TrimLeft(s[1..]) else s
  }

  function TrimRight(s: string): string {
    if s != [] && IsSpace(s[|s| - 1]) then TrimRight(s[..|s| - 1]) else s
  }

  function TrimSpace(s: string): string { TrimRight(TrimLeft(s)) }

  predicate Trimmed(s: string) {
    s == "" || (!IsSpace(s[0]) && !IsSpace(s[|s| - 1]))
  }

  lemma {:induction false} TrimLeftResult(s: string)
    ensures TrimLeft(s) == "" || !IsSpace(TrimLeft(s)[0])
    ensures forall c :: c in TrimLeft(s) ==> c in s
  {
    if s != [] && IsSpace(s[0]) { TrimLeftResult(s[1..]); }
  }

  lemma {:induction false} TrimRightResult(s: string)
    ensures TrimRight(s) <= s
    ensures TrimRight(s) == "" || !IsSpace(TrimRight(s)[|TrimRight(s)| - 1])
  {
    if s != [] && IsSpace(s[|s| - 1]) { TrimRightResult(s[..|s| - 1]); }
  }

  lemma TrimSpaceResult(s: string)
    ensures Trimmed(TrimSpace(s))
    ensures forall c :: c in TrimSpace(s) ==> c in s
    ensures Trimmed(s) ==> TrimSpace(s) == s
  {
    TrimLeftResult(s);
    TrimRightResult(TrimLeft(s));
  }

  predicate AllSpace(s: string) { forall c :: c in s ==> IsSpace(c) }

  lemma {:induction false} TrimLeftExact(s: string) returns (a: string)
    ensures s == a + TrimLeft(s) && AllSpace(a)
  {
    if s != [] && IsSpace(s[0]) {
      a := TrimLeftExact(s[1..]);
      Associate([s[0]], a, TrimLeft(s));
      assert s == [s[0]] + s[1..];
      a := [s[0]] + a;
    } else {
      a := "";
    }
  }

  lemma {:induction false} TrimRightExact(s: string) returns (b: string)
    ensures s == TrimRight(s) + b && AllSpace(b)
  {
    if s != [] && IsSpace(s[|s| - 1]) {
      var n := |s| - 1;
      b := TrimRightExact(s[..n]);
      Associate(TrimRight(s), b, [s[n]]);
      assert s == s[..n] + [s[n]];
      b := b + [s[n]];
    } else {
      b := "";
    }
  }

  /** What trimming takes off is white space at the two ends, all of it. */
  lemma TrimSpaceExact(s: string) returns (a: string, b: string)
    ensures s == a + TrimSpace(s) + b && AllSpace(a) && AllSpace(b) && Trimmed(TrimSpace(s))
  {
    a := TrimLeftExact(s);
    b := TrimRightExact(TrimLeft(s));
    Associate(a, TrimSpace(s), b);
    TrimSpaceResult(s);
  }

  // ----- the non-empty entries of a list -----

  ghost predicate NonEmptiesAt(list: seq<string>, out: seq<string>, p: seq<nat>) {
    && |out| == |p|
    && (forall k :: 0 <= k < |p| ==> p[k] < |list| && out[k] == list[p[k]])
    && (forall j, k :: 0 <= j < k < |p| ==> p[j] < p[k])
    && forall i :: 0 <= i < |list| ==> (i in p <==> list[i] != "")
  }

  /** `out` is the list without its empty entries, in order: p tells where each was. */
  ghost predicate NonEmpties(list: seq<string>, out: seq<string>) { exists p :: NonEmptiesAt(list, out, p) }

  lemma NoNonEmpties()
    ensures NonEmpties([], [])
  {
    assert NonEmptiesAt([], [], []);
  }

  lemma NonEmptiesSnoc(list: seq<string>, out: seq<string>, x: string)
    requires NonEmpties(list, out)
    ensures NonEmpties(list + [x], if x != "" then out + [x] else out)
  {
    var p :| NonEmptiesAt(list, out, p);
    if x == "" {
      SkipEmpty(list, out, p);
    } else {
      TakeNonEmpty(list, out, p, x);
    }
  }

  lemma SkipEmpty(list: seq<string>, out: seq<string>, p: seq<nat>)
    requires NonEmptiesAt(list, out, p)
    ensures NonEmptiesAt(list + [""], out, p)
  {
    assert |list| !in p;
  }

  lemma TakeNonEmpty(list: seq<string>, out: seq<string>, p: seq<nat>, x: string)
    requires NonEmptiesAt(list, out, p) && x != ""
    ensures NonEmptiesAt(list + [x], out + [x], p + [|list|])
  {
    var l, q := list + [x], p + [|list|];
    forall i | 0 <= i < |l| ensures i in q <==> l[i] != "" {
      assert q[|p|] == |list|;
      if i < |list| {
        assert l[i] == list[i];
        assert i in q <==> i in p;
      }
    }
  }

  /** Each non-empty entry is kept, as often as it occurs, and nothing else. */
  lemma NonEmptiesMembers(list: seq<string>, out: seq<string>)
    requires NonEmpties(list, out)
    ensures forall x :: x in out <==> x in list && x != ""
  {
    var p :| NonEmptiesAt(list, out, p);
    forall x ensures x in out <==> x in list && x != "" {
      if x in out {
        var k :| 0 <= k < |out| && out[k] == x;
        assert p[k] in p;
      }
      if x in list && x != "" {
        var i :| 0 <= i < |list| && list[i] == x;
        var k :| 0 <= k < |p| && p[k] == i;
        assert out[k] == x;
      }
    }
  }

  // ----- sort.Strings -----

  /** Lexicographic order of code points. */
  predicate Leq(a: string, b: string) {
    a == [] || (b != [] && (a[0] < b[0] || (a[0] == b[0] && Leq(a[1..], b[1..]))))
  }

  /** At their first difference the smaller code point decides, and a prefix comes first. */
  lemma {:induction false} LeqExact(a: string, b: string)
    ensures Leq(a, b) <==> a <= b || exists i :: FirstLess(a, b, i)
  {
    if a != [] && b != [] {
      assert a == [a[0]] + a[1..] && b == [b[0]] + b[1..];
      if a[0] == b[0] {
        LeqExact(a[1..], b[1..]);
        forall i ensures FirstLess(a[1..], b[1..], i) <==> i >= 0 && FirstLess(a, b, i + 1) {
          assert 0 <= i < |a[1..]| && i < |b[1..]| ==> (a[1..][..i] == b[1..][..i] <==> a[..i + 1] == b[..i + 1]) by {
            if 0 <= i < |a[1..]| && i < |b[1..]| {
              assert a[..i + 1] == [a[0]] + a[1..][..i] && b[..i + 1] == [b[0]] + b[1..][..i];
              assert a[..i + 1][1..] == a[1..][..i] && b[..i + 1][1..] == b[1..][..i];
            }
          }
        }
        assert forall i :: FirstLess(a, b, i) ==> FirstLess(a[1..], b[1..], i - 1);
      } else {
        assert FirstLess(a, b, 0) <==> a[0] < b[0];
        forall i | FirstLess(a, b, i) ensures i > 0 ==> a[0] == b[0] { LaterLess(a, b, i); }
      }
    }
  }

  lemma LaterLess(a: string, b: string, i: int)
    requires FirstLess(a, b, i)
    ensures i > 0 ==> a[0] == b[0]
  {
    if i > 0 { assert a[..i][0] == a[0] && b[..i][0] == b[0]; }
  }

  predicate FirstLess(a: string, b: string, i: int) {
    0 <= i < |a| && i < |b| && a[..i] == b[..i] && a[i] < b[i]
  }

  lemma {:induction false} LeqTotal(a: string, b: string)
    ensures Leq(a, b) || Leq(b, a)
  {
    if a != [] && b != [] && a[0] == b[0] { LeqTotal(a[1..], b[1..]); }
  }

  lemma {:induction false} LeqAntisymmetric(a: string, b: string)
    requires Leq(a, b) && Leq(b, a)
    ensures a == b
  {
    if a != [] {
      LeqAntisymmetric(a[1..], b[1..]);
      assert a == [a[0]] + a[1..] && b == [b[0]] + b[1..];
    }
  }

  lemma {:induction false} LeqTransitive(a: string, b: string, c: string)
    requires Leq(a, b) && Leq(b, c)
    ensures Leq(a, c)
  {
    if a != [] && a[0] == b[0] == c[0] { LeqTransitive(a[1..], b[1..], c[1..]); }
  }

  predicate Sorted(s: seq<string>) {
    forall i, j :: 0 <= i < j < |s| ==> Leq(s[i], s[j])
  }

  predicate Distinct<T(==)>(s: seq<T>) {
    forall i, j :: 0 <= i < j < |s| ==> s[i] != s[j]
  }

  function Elems<T(==)>(s: seq<T>): set<T> { set x | x in s }

  function Insert(x: string, s: seq<string>): (r: seq<string>)
    requires Sorted(s)
    ensures Sorted(r) && multiset(r) == multiset(s) + multiset{x}
  {
    if s == [] then [x]
    else if Leq(x, s[0]) then
      assert forall j :: 0 <= j < |s| ==> Leq(x, s[j]) by {
        forall j | 0 < j < |s| ensures Leq(x, s[j]) { LeqTransitive(x, s[0], s[j]); }
      }
      [x] + s
    else
      assert s == [s[0]] + s[1..];
      var rest := Insert(x, s[1..]);
      assert forall j :: 0 <= j < |rest| ==> Leq(s[0], rest[j]) by {
        LeqTotal(x, s[0]);
        forall j | 0 <= j < |rest| ensures Leq(s[0], rest[j]) {
          assert rest[j] in multiset(rest);
          assert rest[j] == x || rest[j] in s[1..];
        }
      }
      [s[0]] + rest
  }

  /** What sort.Strings leaves in the slice; `SortedUnique` shows that the
      algorithm does not matter for distinct elements. */
  function Sort(s: seq<string>): (r: seq<string>)
    ensures Sorted(r) && multiset(r) == multiset(s)
  {
    if s == [] then [] else
      assert s == [s[0]] + s[1..];
      Insert(s[0], Sort(s[1..]))
  }

  predicate Ascending(s: seq<string>) { Sorted(s) && Distinct(s) }

  /** A set has at most one listing in a given antisymmetric order. */
  lemma {:induction false} ListingUnique<T(!new)>(s: seq<T>, t: seq<T>, le: (T, T) -> bool)
    requires forall x, y :: le(x, y) && le(y, x) ==> x == y
    requires forall i, j :: 0 <= i < j < |s| ==> le(s[i], s[j])
    requires forall i, j :: 0 <= i < j < |t| ==> le(t[i], t[j])
    requires Distinct(s) && Distinct(t) && Elems(s) == Elems(t)
    ensures s == t
  {
    if s == [] {
      assert forall i :: 0 <= i < |t| ==> t[i] in Elems(t);
    } else {
      assert s[0] in Elems(s);
      var i :| 0 <= i < |t| && t[i] == s[0];
      assert t[0] in Elems(t);
      var j :| 0 <= j < |s| && s[j] == t[0];
      var a, b := s[0], t[0];
      assert a == b || le(a, b);
      ElemsTail(s);
      ElemsTail(t);
      ListingUnique(s[1..], t[1..], le);
      assert s == [s[0]] + s[1..] && t == [t[0]] + t[1..];
    }
  }

  /** A set of strings has one ascending listing. */
  lemma AscendingUnique(s: seq<string>, t: seq<string>)
    requires Ascending(s) && Ascending(t) && Elems(s) == Elems(t)
    ensures s == t
  {
    forall x, y | Leq(x, y) && Leq(y, x) ensures x == y { LeqAntisymmetric(x, y); }
    ListingUnique(s, t, Leq);
  }

  lemma {:induction false} SubsetSize<T>(a: set<T>, b: set<T>)
    requires a <= b
    ensures |a| <= |b|
  {
    if a != {} {
      var x :| x in a;
      SubsetSize(a - {x}, b - {x});
    }
  }

  lemma NoElems<T>(s: seq<T>)
    ensures Elems(s) == {} <==> s == []
  {
    if s != [] { assert s[0] in Elems(s); }
  }

  lemma ElemsTail<T>(s: seq<T>)
    requires s != [] && Distinct(s)
    ensures Elems(s[1..]) == Elems(s) - {s[0]}
  {}

  lemma DistinctMultiset<T>(s: seq<T>, t: seq<T>)
    requires multiset(s) == multiset(t) && Distinct(s)
    ensures Distinct(t) && Elems(t) == Elems(s)
  {
    forall x ensures x in s <==> x in t {
      assert x in s <==> x in multiset(s);
      assert x in t <==> x in multiset(t);
    }
    DistinctCounts(s);
    forall i, j | 0 <= i < j < |t| ensures t[i] != t[j] {
      assert t == t[..j] + [t[j]] + t[j + 1..];
      assert t[..j][i] == t[i];
      assert multiset(t)[t[i]] >= if t[i] == t[j] then 2 else 1;
    }
  }

  lemma {:induction false} DistinctCounts<T>(s: seq<T>)
    requires Distinct(s)
    ensures forall x :: multiset(s)[x] <= 1
  {
    if s != [] {
      DistinctCounts(s[1..]);
      assert s == [s[0]] + s[1..];
      assert s[0] !in s[1..];
    }
  }

  /** Sorting any duplicate-free listing of a set gives its ascending listing. */
  lemma SortedUnique(s: seq<string>, asc: seq<string>)
    requires Distinct(s) && Ascending(asc) && Elems(asc) == Elems(s)
    ensures Sort(s) == asc
  {
    DistinctMultiset(s, Sort(s));
    AscendingUnique(Sort(s), asc);
  }

  /** The ascending listing of a set of strings. */
  ghost function AscendingOf(keys: set<string>): (s: seq<string>)
    ensures Ascending(s) && Elems(s) == keys
  {
    AscendingExists(keys);
    var s :| Ascending(s) && Elems(s) == keys;
    s
  }

  lemma {:induction false} AscendingExists(keys: set<string>)
    ensures exists s :: Ascending(s) && Elems(s) == keys
  {
    if keys == {} {
      assert Ascending([]) && Elems<string>([]) == keys;
    } else {
      var x :| x in keys;
      AscendingExists(keys - {x});
      var s :| Ascending(s) && Elems(s) == keys - {x};
      assert x !in s by { assert x in s ==> x in Elems(s); }
      assert Elems([x] + s) == keys by {
        forall y ensures y in Elems([x] + s) <==> y == x || y in Elems(s) {}
      }
      assert Distinct([x] + s);
      DistinctMultiset([x] + s, Sort([x] + s));
      assert Ascending(Sort([x] + s)) && Elems(Sort([x] + s)) == keys;
    }
  }

  /** Collecting the keys of a map, in whatever order it yields them, and
      sorting them. */
  method SortedKeys<V>(m: map<string, V>) returns (names: seq<string>)
    ensures names == AscendingOf(m.Keys)
  {
    names := [];
    var left := m.Keys;
    while left != {}
      invariant left <= m.Keys && Distinct(names) && Elems(names) == m.Keys - left
      decreases left
    {
      var name :| name in left;
      left := left - {name};
      assert name !in names by { assert name in names ==> name in Elems(names); }
      assert Elems(names + [name]) == Elems(names) + {name};
      names := names + [name];
    }
    SortedUnique(names, AscendingOf(m.Keys));
    names := Sort(names);
  }
}
