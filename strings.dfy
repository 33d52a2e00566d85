/**
 * The ordering JavaScript's default `sort()` uses on strings, and the option
 * lists built as `[...new Set(values)].sort()`.
 */
module Strings {

  /** Lexicographic order by character code: a proper prefix comes first. */
  predicate Less(a: string, b: string)
    decreases |a|
  {
    if a == [] then b != []
    else b != [] && (a[0] < b[0] || (a[0] == b[0] && Less(a[1..], b[1..])))
  }

  lemma {:induction false} LessIrreflexive(a: string)
    ensures !Less(a, a)
    decreases |a|
  {
    if a != [] {
      LessIrreflexive(a[1..]);
    }
  }

  lemma {:induction false} LessTransitive(a: string, b: string, c: string)
    requires Less(a, b) && Less(b, c)
    ensures Less(a, c)
    decreases |a|
  {
    if a != [] && a[0] == b[0] && b[0] == c[0] {
      LessTransitive(a[1..], b[1..], c[1..]);
    }
  }

  lemma {:induction false} LessTotal(a: string, b: string)
    requires a != b
    ensures Less(a, b) || Less(b, a)
    decreases |a|
  {
    if a != [] && b != [] && a[0] == b[0] {
      assert a == [a[0]] + a[1..] && b == [b[0]] + b[1..];
      LessTotal(a[1..], b[1..]);
    }
  }

  ghost predicate StrictlyAscending(s: seq<string>) {
    forall i, j :: 0 <= i < j < |s| ==> Less(s[i], s[j])
  }

  predicate NoDuplicates<T(==)>(s: seq<T>) {
    forall i, j :: 0 <= i < j < |s| ==> s[i] != s[j]
  }

  /** `[...new Set(s)]`: the first occurrence of each value, in order of first appearance. */
  function Dedup(s: seq<string>): (r: seq<string>)
    decreases |s|
    ensures NoDuplicates(r)
    ensures forall x :: x in r <==> x in s
  {
    if s == [] then []
    else
      var init, last := s[..|s| - 1], s[|s| - 1];
      assert s == init + [last];
      var d := Dedup(init);
      if last in d then d else d + [last]
  }

  /** Insertion of `x` in front of every element not less than it (a stable insertion step). */
  function Insert(x: string, t: seq<string>): (r: seq<string>)
    decreases |t|
    ensures multiset(r) == multiset(t) + multiset{x}
  {
    if t == [] then [x]
    else if !Less(t[0], x) then [x] + t
    else
      assert t == [t[0]] + t[1..];
      [t[0]] + Insert(x, t[1..])
  }

  /** A stable sort under `Less`, standing for `Array.prototype.sort` with no comparator. */
  function Sort(s: seq<string>): (r: seq<string>)
    decreases |s|
    ensures multiset(r) == multiset(s)
  {
    if s == [] then []
    else
      assert s == [s[0]] + s[1..];
      Insert(s[0], Sort(s[1..]))
  }

  /** A value below every element of a strictly ascending list can go in front of it. */
  lemma ConsAscending(a: string, r: seq<string>)
    requires StrictlyAscending(r) && forall y :: y in r ==> Less(a, y)
    ensures StrictlyAscending([a] + r)
  {
    var c := [a] + r;
    forall i, j | 0 <= i < j < |c| ensures Less(c[i], c[j]) {
      assert c[j] == r[j - 1];
      if i > 0 {
        assert c[i] == r[i - 1];
      } else {
        assert r[j - 1] in r;
      }
    }
  }

  lemma {:induction false} InsertAscending(x: string, t: seq<string>)
    requires StrictlyAscending(t) && x !in t
    ensures StrictlyAscending(Insert(x, t))
    decreases |t|
  {
    if t == [] {
    } else if !Less(t[0], x) {
      LessTotal(x, t[0]);
      forall y | y in t ensures Less(x, y) {
        var j :| 0 <= j < |t| && t[j] == y;
        if j > 0 { LessTransitive(x, t[0], t[j]); }
      }
      ConsAscending(x, t);
    } else {
      var rest := Insert(x, t[1..]);
      assert t == [t[0]] + t[1..];
      InsertAscending(x, t[1..]);
      assert StrictlyAscending(t[1..]) by {
        forall i, j | 0 <= i < j < |t[1..]| ensures Less(t[1..][i], t[1..][j]) {
          assert t[1..][i] == t[i + 1] && t[1..][j] == t[j + 1];
        }
      }
      forall y | y in rest ensures Less(t[0], y) {
        assert y in multiset(rest);
        if y != x {
          var j :| 0 <= j < |t[1..]| && t[1..][j] == y;
          assert t[j + 1] == y;
        }
      }
      ConsAscending(t[0], rest);
    }
  }

  lemma {:induction false} SortAscending(s: seq<string>)
    requires NoDuplicates(s)
    ensures StrictlyAscending(Sort(s))
    decreases |s|
  {
    if s != [] {
      assert NoDuplicates(s[1..]) by {
        forall i, j | 0 <= i < j < |s[1..]| ensures s[1..][i] != s[1..][j] {
          assert s[1..][i] == s[i + 1] && s[1..][j] == s[j + 1];
        }
      }
      SortAscending(s[1..]);
      assert s[0] !in multiset(Sort(s[1..]));
      InsertAscending(s[0], Sort(s[1..]));
    }
  }

  /**
   * `[...new Set(values)].sort()`: strictly ascending (hence free of
   * duplicates) and holding exactly the values that occur in `values`.
   */
  function OptionList(values: seq<string>): (r: seq<string>)
    ensures StrictlyAscending(r)
    ensures forall x :: x in r <==> x in values
  {
    var d := Dedup(values);
    SortAscending(d);
    assert forall x :: x in Sort(d) <==> x in multiset(d);
    Sort(d)
  }

  /** Two strictly ascending lists with the same elements are the same list. */
  lemma {:induction false} AscendingUnique(a: seq<string>, b: seq<string>)
    requires StrictlyAscending(a) && StrictlyAscending(b)
    requires forall x :: x in a <==> x in b
    ensures a == b
    decreases |a|
  {
    if a != [] { assert a[0] in b; }
    if b != [] { assert b[0] in a; }
    if a != [] && b != [] {
      assert a[0] == b[0] by {
        if a[0] != b[0] {
          assert b[0] in b && a[0] in a;
          var i :| 0 <= i < |a| && a[i] == b[0];
          var j :| 0 <= j < |b| && b[j] == a[0];
          assert Less(a[0], a[i]);
          assert Less(b[0], b[j]);
          LessTransitive(a[0], b[0], a[0]);
          LessIrreflexive(a[0]);
        }
      }
      forall x ensures x in a[1..] <==> x in b[1..] {
        TailMembers(a, x);
        TailMembers(b, x);
      }
      AscendingUnique(a[1..], b[1..]);
      assert a == [a[0]] + a[1..] && b == [b[0]] + b[1..];
    }
  }

  lemma TailMembers(s: seq<string>, x: string)
    requires StrictlyAscending(s) && s != []
    ensures x in s[1..] <==> x in s && x != s[0]
  {
    if x in s[1..] {
      var j :| 0 <= j < |s[1..]| && s[1..][j] == x;
      assert Less(s[0], s[j + 1]);
      LessIrreflexive(s[0]);
    }
    if x in s && x != s[0] {
      var i :| 0 <= i < |s| && s[i] == x;
      assert s[1..][i - 1] == x;
    }
  }

  /** An option list depends only on which values occur, not on their order or repetition. */
  lemma OptionListDeterminedBySet(v: seq<string>, w: seq<string>)
    requires forall x :: x in v <==> x in w
    ensures OptionList(v) == OptionList(w)
  {
    AscendingUnique(OptionList(v), OptionList(w));
  }
}
