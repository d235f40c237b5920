/** Cutting a sequence at a separator, and putting the parts back together. */
module Splitting {
  /** Python's `s.split(sep)` for a one-element separator: never an empty list. */
  function Split<T(==)>(s: seq<T>, sep: T): (parts: seq<seq<T>>)
    ensures |parts| >= 1
  {
    if s == [] then
      [[]]
    else
      var rest := Split(s[1..], sep);
      if s[0] == sep then [[]] + rest else [[s[0]] + rest[0]] + rest[1..]
  }

  /** Python's `sep.join(parts)`. */
  function Join<T>(parts: seq<seq<T>>, sep: T): seq<T> {
    if parts == [] then
      []
    else if |parts| == 1 then
      parts[0]
    else
      parts[0] + [sep] + Join(parts[1..], sep)
  }

  lemma {:induction false} JoinOfAppend<T>(parts: seq<seq<T>>, part: seq<T>, sep: T)
    requires parts != []
    ensures Join(parts + [part], sep) == Join(parts, sep) + [sep] + part
  {
    if |parts| > 1 {
      JoinOfAppend(parts[1..], part, sep);
      assert (parts + [part])[1..] == parts[1..] + [part];
    }
  }

  ghost predicate Free<T>(parts: seq<seq<T>>, sep: T) {
    forall i :: 0 <= i < |parts| ==> sep !in parts[i]
  }

  /** Splitting loses nothing, and no part holds the separator. */
  lemma {:induction false} JoinOfSplit<T>(s: seq<T>, sep: T)
    ensures Join(Split(s, sep), sep) == s
    ensures Free(Split(s, sep), sep)
  {
    if s == [] {
    } else {
      var rest := Split(s[1..], sep);
      JoinOfSplit(s[1..], sep);
      assert s == [s[0]] + s[1..];
      if s[0] == sep {
        assert ([[]] + rest)[1..] == rest;
      } else {
        var parts := [[s[0]] + rest[0]] + rest[1..];
        assert parts[1..] == rest[1..];
        assert Join(parts, sep) == [s[0]] + Join(rest, sep);
      }
    }
  }

  /** A separator-free sequence is its own only part. */
  lemma {:induction false} SplitOfFree<T>(s: seq<T>, sep: T)
    requires sep !in s
    ensures Split(s, sep) == [s]
  {
    if s != [] {
      SplitOfFree(s[1..], sep);
      assert s == [s[0]] + s[1..];
    }
  }

  lemma SplitOfCons<T>(x: T, s: seq<T>, sep: T)
    ensures Split([x] + s, sep) ==
            if x == sep then [[]] + Split(s, sep) else [[x] + Split(s, sep)[0]] + Split(s, sep)[1..]
  {
    assert ([x] + s)[1..] == s;
  }

  /** Splitting a concatenation only needs the first part of the right half. */
  lemma {:induction false} SplitAbsorbs<T>(a: seq<T>, b: seq<T>, sep: T, head: seq<T>, tail: seq<seq<T>>)
    requires Split(b, sep) == [head] + tail
    ensures Split(a + b, sep) == Split(a + head, sep) + tail
  {
    if a == [] {
      assert sep !in head by {
        JoinOfSplit(b, sep);
        assert head == Split(b, sep)[0];
      }
      SplitOfFree(head, sep);
      assert a + b == b && a + head == head;
    } else {
      SplitAbsorbs(a[1..], b, sep, head, tail);
      SplitAbsorbsCons(a[0], a[1..] + b, a[1..] + head, tail, sep);
      assert [a[0]] + (a[1..] + b) == a + b;
      assert [a[0]] + (a[1..] + head) == a + head;
    }
  }

  lemma SplitAbsorbsCons<T>(x: T, whole: seq<T>, left: seq<T>, right: seq<seq<T>>, sep: T)
    requires Split(whole, sep) == Split(left, sep) + right
    ensures Split([x] + whole, sep) == Split([x] + left, sep) + right
  {
    SplitOfCons(x, whole, sep);
    SplitOfCons(x, left, sep);
    AbsorbedCons(x, Split(whole, sep), Split(left, sep), right);
  }

  lemma AbsorbedCons<T>(x: T, whole: seq<seq<T>>, left: seq<seq<T>>, right: seq<seq<T>>)
    requires left != [] && whole == left + right
    ensures [[]] + whole == ([[]] + left) + right
    ensures [[x] + whole[0]] + whole[1..] == ([[x] + left[0]] + left[1..]) + right
  {
  }

  /** Separator-free parts are exactly what splitting their join gives back. */
  lemma {:induction false} SplitOfJoin<T>(parts: seq<seq<T>>, sep: T)
    requires parts != [] && Free(parts, sep)
    ensures Split(Join(parts, sep), sep) == parts
  {
    if |parts| == 1 {
      SplitOfFree(parts[0], sep);
    } else {
      var tail := Join(parts[1..], sep);
      SplitOfJoin(parts[1..], sep);
      SplitOfCons(sep, tail, sep);
      SplitAbsorbs(parts[0], [sep] + tail, sep, [], parts[1..]);
      assert parts[0] + [] == parts[0];
      SplitOfFree(parts[0], sep);
      assert Join(parts, sep) == parts[0] + ([sep] + tail);
      assert parts == [parts[0]] + parts[1..];
    }
  }

  /** Elements in all parts, each counted with one separator. */
  function Weight<T>(parts: seq<seq<T>>): nat {
    if parts == [] then 0 else |parts[0]| + 1 + Weight(parts[1..])
  }

  lemma {:induction false} WeightOfConcat<T>(a: seq<seq<T>>, b: seq<seq<T>>)
    ensures Weight(a + b) == Weight(a) + Weight(b)
  {
    if a == [] {
      assert [] + b == b;
    } else {
      assert (a + b)[1..] == a[1..] + b;
      WeightOfConcat(a[1..], b);
    }
  }

  lemma WeightOfInit<T>(parts: seq<seq<T>>)
    requires parts != []
    ensures Weight(parts) == Weight(parts[..|parts| - 1]) + |parts[|parts| - 1]| + 1
  {
    var last := [parts[|parts| - 1]];
    assert parts == parts[..|parts| - 1] + last;
    WeightOfConcat(parts[..|parts| - 1], last);
    assert last[1..] == [];
  }

  lemma {:induction false} WeightOfSplit<T>(s: seq<T>, sep: T)
    ensures Weight(Split(s, sep)) == |s| + 1
  {
    if s == [] {
      var parts: seq<seq<T>> := Split(s, sep);
      assert parts[1..] == [];
    } else {
      WeightOfSplit(s[1..], sep);
      var rest := Split(s[1..], sep);
      if s[0] == sep {
        assert ([[]] + rest)[1..] == rest;
      } else {
        assert ([[s[0]] + rest[0]] + rest[1..])[1..] == rest[1..];
      }
    }
  }

  /** A separator-free suffix stays inside the last part. */
  lemma {:induction false} LastPartIsLong<T>(a: seq<T>, b: seq<T>, sep: T)
    requires sep !in b
    ensures var parts := Split(a + b, sep); |parts[|parts| - 1]| >= |b|
  {
    if a == [] {
      assert [] + b == b;
      SplitOfFree(b, sep);
    } else {
      assert (a + b)[1..] == a[1..] + b;
      LastPartIsLong(a[1..], b, sep);
    }
  }
}
