/** Strings in code-point order, sorting, and comma-separated lists. */
module TextOrder {

  // ---------------------------------------------------------------- order

  predicate Leq(a: string, b: string) {
    a == [] || (b != [] && (a[0] < b[0] || (a[0] == b[0] && Leq(a[1..], b[1..]))))
  }

  lemma {:induction false} LeqTotal(a: string, b: string)
    ensures Leq(a, b) || Leq(b, a)
  {
    if a != [] && b != [] { LeqTotal(a[1..], b[1..]); }
  }

  lemma {:induction false} LeqAntisymmetric(a: string, b: string)
    requires Leq(a, b) && Leq(b, a)
    ensures a == b
  {
    if a != [] {
      LeqAntisymmetric(a[1..], b[1..]);
      assert a == [a[0]] + a[1..] && b == [b[0]] + b[1..];
    }
  }

  lemma {:induction false} LeqTransitive(a: string, b: string, c: string)
    requires Leq(a, b) && Leq(b, c)
    ensures Leq(a, c)
  {
    if a != [] && a[0] == b[0] == c[0] { LeqTransitive(a[1..], b[1..], c[1..]); }
  }

  ghost predicate Ascending(s: seq<string>) { forall i, j :: 0 <= i < j < |s| ==> Leq(s[i], s[j]) }

  // ---------------------------------------------------------------- sorting

  function Insert(x: string, s: seq<string>): seq<string> {
    if s == [] || Leq(x, s[0]) then [x] + s else [s[0]] + Insert(x, s[1..])
  }

  lemma {:induction false} InsertKeeps(x: string, s: seq<string>)
    ensures multiset(Insert(x, s)) == multiset(s) + multiset{x}
    ensures forall y :: y in Insert(x, s) <==> y == x || y in s
    ensures Ascending(s) ==> Ascending(Insert(x, s))
  {
    if s == [] || Leq(x, s[0]) {
      if Ascending(s) {
        forall j | 0 <= j < |s| ensures Leq(x, s[j]) { if j > 0 { LeqTransitive(x, s[0], s[j]); } }
      }
    } else {
      assert s == [s[0]] + s[1..];
      InsertKeeps(x, s[1..]);
      LeqTotal(x, s[0]);
      forall y | y in Insert(x, s[1..]) && Ascending(s) ensures Leq(s[0], y) {}
    }
  }

  function Sort(s: seq<string>): seq<string> {
    if s == [] then [] else Insert(s[|s| - 1], Sort(s[..|s| - 1]))
  }

  lemma {:induction false} SortSorts(s: seq<string>)
    ensures Ascending(Sort(s)) && multiset(Sort(s)) == multiset(s)
  {
    if s != [] {
      SortSorts(s[..|s| - 1]);
      InsertKeeps(s[|s| - 1], Sort(s[..|s| - 1]));
      assert s == s[..|s| - 1] + [s[|s| - 1]];
    }
  }

  lemma {:induction false} AscendingIsUnique(a: seq<string>, b: seq<string>)
    requires Ascending(a) && Ascending(b) && multiset(a) == multiset(b)
    ensures a == b
  {
    if a == [] {
      assert |multiset(b)| == 0;
    } else {
      assert a[0] in multiset(b) && |multiset(a)| == |multiset(b)|;
      assert b[0] in multiset(a);
      LeqAntisymmetric(a[0], b[0]) by { FirstIsLeast(a, b[0]); FirstIsLeast(b, a[0]); }
      assert a == [a[0]] + a[1..] && b == [b[0]] + b[1..];
      assert multiset(a[1..]) == multiset(a) - multiset{a[0]};
      AscendingIsUnique(a[1..], b[1..]);
    }
  }

  lemma FirstIsLeast(s: seq<string>, x: string)
    requires Ascending(s) && x in s
    ensures Leq(s[0], x)
  {
    var i :| 0 <= i < |s| && s[i] == x;
    if i == 0 { LeqTotal(x, x); }
  }

  lemma SortIff(a: seq<string>, b: seq<string>)
    ensures Sort(a) == Sort(b) <==> multiset(a) == multiset(b)
  {
    SortSorts(a);
    SortSorts(b);
    if multiset(a) == multiset(b) { AscendingIsUnique(Sort(a), Sort(b)); }
  }

  // ---------------------------------------------------------------- the keys of a map in order

  ghost predicate IsOrdering(r: seq<string>, keys: set<string>) {
    && Ascending(r)
    && (forall i, j :: 0 <= i < j < |r| ==> r[i] != r[j])
    && (forall k :: k in r <==> k in keys)
  }

  lemma {:induction false} OrderingIsUnique(a: seq<string>, b: seq<string>, keys: set<string>)
    requires IsOrdering(a, keys) && IsOrdering(b, keys)
    ensures a == b
    decreases |a|
  {
    if a == [] {
      assert forall i :: 0 <= i < |b| ==> b[i] in keys;
    } else {
      assert a[0] in keys;
      assert b != [] && b[0] in keys;
      LeqAntisymmetric(a[0], b[0]) by { FirstIsLeast(a, b[0]); FirstIsLeast(b, a[0]); }
      RestIsOrdering(a, keys);
      RestIsOrdering(b, keys);
      OrderingIsUnique(a[1..], b[1..], keys - {a[0]});
      assert a == [a[0]] + a[1..] && b == [b[0]] + b[1..];
    }
  }

  lemma RestIsOrdering(a: seq<string>, keys: set<string>)
    requires IsOrdering(a, keys) && a != []
    ensures IsOrdering(a[1..], keys - {a[0]})
  {
    assert a == [a[0]] + a[1..];
  }

  lemma {:induction false} InsertOrders(x: string, r: seq<string>, keys: set<string>)
    requires IsOrdering(r, keys) && x !in keys
    ensures IsOrdering(Insert(x, r), keys + {x})
  {
    InsertKeeps(x, r);
    InsertDistinct(x, r);
  }

  lemma {:induction false} InsertDistinct(x: string, s: seq<string>)
    requires x !in s && forall i, j :: 0 <= i < j < |s| ==> s[i] != s[j]
    ensures var r := Insert(x, s); forall i, j :: 0 <= i < j < |r| ==> r[i] != r[j]
  {
    if s != [] && !Leq(x, s[0]) {
      assert s == [s[0]] + s[1..];
      InsertDistinct(x, s[1..]);
      InsertKeeps(x, s[1..]);
      assert s[0] !in s[1..];
    }
  }

  ghost function KeysInOrder(keys: set<string>): (r: seq<string>)
    ensures IsOrdering(r, keys)
  {
    if keys == {} then []
    else
      var x :| x in keys;
      var rest := KeysInOrder(keys - {x});
      InsertOrders(x, rest, keys - {x});
      assert keys - {x} + {x} == keys;
      Insert(x, rest)
  }

  method SortedKeys(keys: set<string>) returns (r: seq<string>)
    ensures r == KeysInOrder(keys)
  {
    r := [];
    var rest := keys;
    while rest != {}
      invariant rest <= keys && IsOrdering(r, keys - rest)
      decreases |rest|
    {
      var x :| x in rest;
      InsertOrders(x, r, keys - rest);
      assert keys - rest + {x} == keys - (rest - {x});
      r := Insert(x, r);
      rest := rest - {x};
    }
    assert keys - rest == keys;
    OrderingIsUnique(r, KeysInOrder(keys), keys);
  }

  // ---------------------------------------------------------------- comma-separated lists

  function Split(v: string): (r: seq<string>)
    ensures |r| > 0
  {
    if v == [] then [[]]
    else
      var r := Split(v[1..]);
      if v[0] == ',' then [[]] + r else [[v[0]] + r[0]] + r[1..]
  }

  function Join(parts: seq<string>): string {
    if parts == [] then [] else if |parts| == 1 then parts[0] else parts[0] + "," + Join(parts[1..])
  }

  lemma {:induction false} SplitPart(p: string, rest: string)
    requires ',' !in p
    ensures Split(p) == [p]
    ensures Split(p + "," + rest) == [p] + Split(rest)
  {
    if p == [] {
      assert p + "," + rest == [','] + rest;
      assert ([','] + rest)[1..] == rest;
    } else {
      SplitPart(p[1..], rest);
      assert p == [p[0]] + p[1..];
      assert (p + "," + rest)[1..] == p[1..] + "," + rest;
    }
  }

  lemma {:induction false} SplitJoin(parts: seq<string>)
    requires parts != [] && forall i :: 0 <= i < |parts| ==> ',' !in parts[i]
    ensures Split(Join(parts)) == parts
  {
    if |parts| == 1 {
      SplitPart(parts[0], []);
    } else {
      SplitJoin(parts[1..]);
      SplitPart(parts[0], Join(parts[1..]));
      assert parts == [parts[0]] + parts[1..];
    }
  }

  lemma {:induction false} SplitHasNoCommas(v: string)
    ensures forall i :: 0 <= i < |Split(v)| ==> ',' !in Split(v)[i]
  {
    if v != [] { SplitHasNoCommas(v[1..]); }
  }

  /** What counts as a blank: the ASCII separators, and those of the other scripts. */
  predicate IsSpace(c: char) {
    || '\t' <= c <= '\r' || '\U{1C}' <= c <= ' ' || c == '\U{85}' || c == '\U{A0}' || c == '\U{1680}'
    || '\U{2000}' <= c <= '\U{200A}' || c == '\U{2028}' || c == '\U{2029}' || c == '\U{202F}' || c == '\U{205F}'
    || c == '\U{3000}'
  }

  function Strip(s: string): (r: string)
    ensures forall c :: c in r ==> c in s
    ensures r != [] ==> !IsSpace(r[0]) && !IsSpace(r[|r| - 1])
    decreases |s|
  {
    if s == [] then []
    else if IsSpace(s[0]) then Strip(s[1..])
    else if IsSpace(s[|s| - 1]) then Strip(s[..|s| - 1])
    else s
  }

  /** `r` is `s` from `i` to `j`: blanks before and after, none at either end. */
  ghost predicate Trims(s: string, r: string, i: nat, j: nat) {
    && i <= j <= |s| && r == s[i..j]
    && (forall k :: 0 <= k < i || j <= k < |s| ==> IsSpace(s[k]))
    && (i < j ==> !IsSpace(s[i]) && !IsSpace(s[j - 1]))
  }

  /** Stripping cuts off the blanks at both ends and nothing else. */
  lemma {:induction false} StripMeaning(s: string) returns (i: nat, j: nat)
    ensures Trims(s, Strip(s), i, j)
    decreases |s|
  {
    if s == [] {
      i, j := 0, 0;
    } else if IsSpace(s[0]) {
      i, j := StripMeaning(s[1..]);
      TrimsFront(s, Strip(s[1..]), i, j);
      i, j := i + 1, j + 1;
    } else if IsSpace(s[|s| - 1]) {
      i, j := StripMeaning(s[..|s| - 1]);
      TrimsBack(s, Strip(s[..|s| - 1]), i, j);
    } else {
      i, j := 0, |s|;
    }
  }

  lemma TrimsFront(s: string, r: string, i: nat, j: nat)
    requires s != [] && IsSpace(s[0]) && Trims(s[1..], r, i, j)
    ensures Trims(s, r, i + 1, j + 1)
  {
    var t := s[1..];
    assert s[i + 1..j + 1] == t[i..j];
    forall k | 0 <= k < i + 1 || j + 1 <= k < |s| ensures IsSpace(s[k]) {
      if k > 0 { assert s[k] == t[k - 1]; }
    }
  }

  lemma TrimsBack(s: string, r: string, i: nat, j: nat)
    requires s != [] && IsSpace(s[|s| - 1]) && Trims(s[..|s| - 1], r, i, j)
    ensures Trims(s, r, i, j)
  {
    var t := s[..|s| - 1];
    assert s[i..j] == t[i..j];
    forall k | 0 <= k < i || j <= k < |s| ensures IsSpace(s[k]) {
      if k < |s| - 1 { assert s[k] == t[k]; }
    }
  }

  /** Blanks by their code points. */
  lemma BlankCodes(c: char)
    ensures var n := c as int;
            IsSpace(c) <==>
              || 9 <= n <= 13 || 28 <= n <= 32 || 8192 <= n <= 8202
              || n in {133, 160, 5760, 8232, 8233, 8239, 8287, 12288}
  {
  }

  function Kept(parts: seq<string>): seq<string> {
    if parts == [] then []
    else
      var p := Strip(parts[|parts| - 1]);
      Kept(parts[..|parts| - 1]) + if p == [] then [] else [p]
  }

  /** Items of a list: no commas, no blank ends, none empty. */
  ghost predicate AreItems(items: seq<string>) { forall i :: 0 <= i < |items| ==> items[i] != [] && ',' !in items[i] }

  ghost predicate AreStripped(items: seq<string>) { forall i :: 0 <= i < |items| ==> Strip(items[i]) == items[i] != [] }

  lemma {:induction false} StripTwice(s: string)
    ensures Strip(Strip(s)) == Strip(s)
    decreases |s|
  {
    if s != [] {
      if IsSpace(s[0]) {
        StripTwice(s[1..]);
      } else if IsSpace(s[|s| - 1]) {
        StripTwice(s[..|s| - 1]);
      }
    }
  }

  lemma {:induction false} KeptAreItems(parts: seq<string>)
    requires forall i :: 0 <= i < |parts| ==> ',' !in parts[i]
    ensures AreItems(Kept(parts)) && AreStripped(Kept(parts))
  {
    if parts != [] {
      KeptAreItems(parts[..|parts| - 1]);
      StripTwice(parts[|parts| - 1]);
    }
  }

  lemma {:induction false} KeptIdle(parts: seq<string>)
    requires AreStripped(parts)
    ensures Kept(parts) == parts
  {
    if parts != [] {
      KeptIdle(parts[..|parts| - 1]);
      assert parts == parts[..|parts| - 1] + [parts[|parts| - 1]];
    }
  }

  /** Sorted once when it has a comma, left alone otherwise. */
  function Normalise(v: string): string {
    if ',' in v then Join(Sort(Kept(Split(v)))) else v
  }

  /** What a list holds; text without a comma is a list of one, left as it is. */
  function Items(v: string): seq<string> {
    if ',' in v then Kept(Split(v)) else if v == [] then [] else [v]
  }

  lemma ItemsAreItems(v: string)
    ensures AreItems(Items(v))
  {
    SplitHasNoCommas(v);
    KeptAreItems(Split(v));
  }

  lemma SortedItems(items: seq<string>)
    requires AreItems(items)
    ensures AreItems(Sort(items))
  {
    SortSorts(items);
    forall i | 0 <= i < |Sort(items)| ensures Sort(items)[i] in items {
      assert Sort(items)[i] in multiset(Sort(items));
    }
  }

  lemma SortOne(v: string)
    ensures Sort([v]) == [v]
  {
    assert [v][..0] == [];
  }

  lemma NormaliseOfItems(v: string)
    ensures Normalise(v) == Join(Sort(Items(v)))
  {
    if ',' !in v && v != [] { SortOne(v); }
  }

  lemma JoinInjective(a: seq<string>, b: seq<string>)
    requires AreItems(a) && AreItems(b) && Join(a) == Join(b)
    ensures a == b
  {
    if a != [] { SplitJoin(a); }
    if b != [] { SplitJoin(b); }
    if a == [] || b == [] { assert a != [] ==> |Join(a)| > 0; assert b != [] ==> |Join(b)| > 0; }
  }

  /** Two values normalise alike exactly when they hold the same items, however ordered and spaced. */
  lemma NormaliseIff(v: string, w: string)
    ensures Normalise(v) == Normalise(w) <==> multiset(Items(v)) == multiset(Items(w))
  {
    NormaliseOfItems(v);
    NormaliseOfItems(w);
    SortIff(Items(v), Items(w));
    ItemsAreItems(v);
    ItemsAreItems(w);
    SortedItems(Items(v));
    SortedItems(Items(w));
    if Normalise(v) == Normalise(w) { JoinInjective(Sort(Items(v)), Sort(Items(w))); }
  }

  /** Normalising what was normalised changes nothing. */
  lemma NormaliseTwice(v: string)
    ensures Normalise(Normalise(v)) == Normalise(v)
  {
    var n := Normalise(v);
    if ',' in v && ',' in n {
      var items := Kept(Split(v));
      SplitHasNoCommas(v);
      KeptAreItems(Split(v));
      SortedItems(items);
      SplitJoin(Sort(items));
      forall i | 0 <= i < |Sort(items)| ensures Strip(Sort(items)[i]) == Sort(items)[i] != [] {
        SortSorts(items);
        assert Sort(items)[i] in multiset(items);
      }
      KeptIdle(Sort(items));
      SortSorts(items);
      SortIff(Sort(items), items);
    }
  }
}
