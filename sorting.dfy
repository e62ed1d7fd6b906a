/**
 * Python's `sorted(names, key=lambda s: s.lower())`: a stable sort of strings
 * by their lower-case form, where strings compare lexicographically by code
 * point. Lower-casing is restricted to ASCII letters.
 */
module CaseInsensitiveSort {

  function LowerChar(c: char): (r: char)
  {
    if 'A' <= c <= 'Z' then (c as int + 32) as char else c
  }

  /** `s.lower()` for ASCII text. */
  function Lower(s: string): (r: string)
    ensures |r| == |s|
  {
    seq(|s|, i requires 0 <= i < |s| => LowerChar(s[i]))
  }

  /** Python's `a <= b` on strings: lexicographic order by code point. */
  predicate NotAfter(a: string, b: string)
    decreases |a|
  {
    if a == [] then true
    else if b == [] then false
    else if a[0] != b[0] then a[0] < b[0]
    else NotAfter(a[1..], b[1..])
  }

  lemma {:induction false} NotAfterReflexive(a: string)
    ensures NotAfter(a, a)
    decreases |a|
  {
    if a != [] {
      NotAfterReflexive(a[1..]);
    }
  }

  lemma {:induction false} NotAfterTotal(a: string, b: string)
    ensures NotAfter(a, b) || NotAfter(b, a)
    decreases |a|
  {
    if a != [] && b != [] && a[0] == b[0] {
      NotAfterTotal(a[1..], b[1..]);
    }
  }

  lemma {:induction false} NotAfterTransitive(a: string, b: string, c: string)
    requires NotAfter(a, b) && NotAfter(b, c)
    ensures NotAfter(a, c)
    decreases |a|
  {
    if a != [] && b != [] && c != [] && a[0] == b[0] && b[0] == c[0] {
      NotAfterTransitive(a[1..], b[1..], c[1..]);
    }
  }

  /** The order `sorted` uses: compare the lower-case forms. */
  predicate KeyNotAfter(a: string, b: string)
  {
    NotAfter(Lower(a), Lower(b))
  }

  predicate Sorted(s: seq<string>)
  {
    forall i, j :: 0 <= i < j < |s| ==> KeyNotAfter(s[i], s[j])
  }

  /** The names of `s`, in order, whose lower-case form is `folded`. */
  function WithLower(s: seq<string>, folded: string): (r: seq<string>)
  {
    if s == [] then []
    else (if Lower(s[0]) == folded then [s[0]] else []) + WithLower(s[1..], folded)
  }

  /** Places `x` before the first element whose lower-case form is not below that of `x`. */
  function Insert(x: string, s: seq<string>): (r: seq<string>)
  {
    if s == [] then [x]
    else if KeyNotAfter(x, s[0]) then [x] + s
    else [s[0]] + Insert(x, s[1..])
  }

  lemma {:induction false} InsertPermutes(x: string, s: seq<string>)
    ensures multiset(Insert(x, s)) == multiset([x] + s)
  {
    if s != [] && !KeyNotAfter(x, s[0]) {
      InsertPermutes(x, s[1..]);
      assert [x] + s == [x] + [s[0]] + s[1..];
      assert Insert(x, s) == [s[0]] + Insert(x, s[1..]);
    }
  }

  lemma {:induction false} InsertKeepsSorted(x: string, s: seq<string>)
    requires Sorted(s)
    ensures Sorted(Insert(x, s))
  {
    if s == [] {
    } else if KeyNotAfter(x, s[0]) {
      forall j | 0 < j < |s| ensures KeyNotAfter(x, s[j]) {
        NotAfterTransitive(Lower(x), Lower(s[0]), Lower(s[j]));
      }
    } else {
      var rest := Insert(x, s[1..]);
      InsertKeepsSorted(x, s[1..]);
      InsertPermutes(x, s[1..]);
      NotAfterTotal(Lower(x), Lower(s[0]));
      forall j | 0 <= j < |rest| ensures KeyNotAfter(s[0], rest[j]) {
        assert rest[j] in multiset(rest);
        assert rest[j] in multiset([x] + s[1..]);
        if rest[j] != x {
          assert rest[j] in s[1..];
          var k :| 0 <= k < |s[1..]| && s[1..][k] == rest[j];
          assert s[k + 1] == rest[j];
        }
      }
      var r := [s[0]] + rest;
      forall i, j | 0 <= i < j < |r| ensures KeyNotAfter(r[i], r[j]) {
        if i == 0 {
          assert r[j] == rest[j - 1];
        } else {
          assert r[i] == rest[i - 1] && r[j] == rest[j - 1];
        }
      }
    }
  }

  lemma {:induction false} InsertKeepsOrderOfEqualNames(x: string, s: seq<string>, folded: string)
    ensures WithLower(Insert(x, s), folded)
         == (if Lower(x) == folded then [x] else []) + WithLower(s, folded)
  {
    if s == [] {
      assert Insert(x, s) == [x];
      assert WithLower([x], folded) == (if Lower(x) == folded then [x] else []) + WithLower([], folded);
    } else if KeyNotAfter(x, s[0]) {
      assert ([x] + s)[1..] == s;
    } else {
      var rest := Insert(x, s[1..]);
      InsertKeepsOrderOfEqualNames(x, s[1..], folded);
      assert ([s[0]] + rest)[1..] == rest;
      if Lower(x) == folded {
        NotAfterReflexive(Lower(x));
        assert Lower(s[0]) != folded;
      }
    }
  }

  /**
   * `sorted(names, key=str.lower)`: the result is ordered by lower-case form,
   * is a rearrangement of `names`, and names with the same lower-case form
   * keep the order they had in `names`.
   */
  function SortByLower(names: seq<string>): (r: seq<string>)
    ensures Sorted(r)
    ensures multiset(r) == multiset(names)
    ensures forall folded :: WithLower(r, folded) == WithLower(names, folded)
  {
    if names == [] then []
    else
      var rest := SortByLower(names[1..]);
      InsertKeepsSorted(names[0], rest);
      InsertPermutes(names[0], rest);
      assert names == [names[0]] + names[1..];
      assert forall folded :: WithLower(Insert(names[0], rest), folded) == WithLower(names, folded) by {
        forall folded ensures WithLower(Insert(names[0], rest), folded) == WithLower(names, folded) {
          InsertKeepsOrderOfEqualNames(names[0], rest, folded);
        }
      }
      Insert(names[0], rest)
  }
}
