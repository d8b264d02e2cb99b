/** Options, results, and the two list notions every history in this project is
    measured with: filtering, and being an in-order subsequence. */
module Common {
  datatype Option<+T> = None | Some(value: T)

  datatype Result<+T, +E> = Ok(value: T) | Err(error: E)

  function Last<T>(s: seq<T>): T
    requires s != []
  {
    s[|s| - 1]
  }

  function Init<T>(s: seq<T>): seq<T>
    requires s != []
  {
    s[..|s| - 1]
  }

  /** The elements of s that satisfy p, in order. Histories grow at the end, so
      this recurses from the end. */
  function Filter<T>(p: T -> bool, s: seq<T>): seq<T> {
    if s == [] then []
    else Filter(p, Init(s)) + if p(Last(s)) then [Last(s)] else []
  }

  lemma FilterSnoc<T>(p: T -> bool, s: seq<T>, x: T)
    ensures Filter(p, s + [x]) == Filter(p, s) + if p(x) then [x] else []
  {
    assert Init(s + [x]) == s;
  }

  lemma {:induction false} FilterAppend<T>(p: T -> bool, s: seq<T>, t: seq<T>)
    ensures Filter(p, s + t) == Filter(p, s) + Filter(p, t)
  {
    if t == [] {
      assert s + t == s;
    } else {
      FilterAppend(p, s, Init(t));
      assert Init(s + t) == s + Init(t);
    }
  }

  /** a can be had from b by deleting elements. */
  ghost predicate IsSubsequence<T(!new)>(a: seq<T>, b: seq<T>) {
    a == [] || (b != [] && (IsSubsequence(a, Init(b)) || (Last(a) == Last(b) && IsSubsequence(Init(a), Init(b)))))
  }

  lemma SubsequenceSkip<T(!new)>(a: seq<T>, b: seq<T>, x: T)
    requires IsSubsequence(a, b)
    ensures IsSubsequence(a, b + [x])
  {
    assert Init(b + [x]) == b;
  }

  lemma SubsequenceKeep<T(!new)>(a: seq<T>, b: seq<T>, x: T)
    requires IsSubsequence(a, b)
    ensures IsSubsequence(a + [x], b + [x])
  {
    assert Init(b + [x]) == b && Init(a + [x]) == a;
  }

  lemma {:induction false} SubsequenceSelf<T(!new)>(a: seq<T>)
    ensures IsSubsequence(a, a)
  {
    if a != [] {
      SubsequenceSelf(Init(a));
    }
  }

  lemma {:induction false} PrefixIsSubsequence<T(!new)>(a: seq<T>, b: seq<T>)
    requires a <= b
    ensures IsSubsequence(a, b)
  {
    if a == b {
      SubsequenceSelf(a);
    } else {
      assert a <= Init(b);
      PrefixIsSubsequence(a, Init(b));
    }
  }

  lemma {:induction false} SubsequenceTransitive<T(!new)>(a: seq<T>, b: seq<T>, c: seq<T>)
    requires IsSubsequence(a, b) && IsSubsequence(b, c)
    ensures IsSubsequence(a, c)
    decreases |b| + |c|
  {
    if a == [] {
    } else if IsSubsequence(b, Init(c)) {
      SubsequenceTransitive(a, b, Init(c));
    } else if IsSubsequence(a, Init(b)) {
      SubsequenceTransitive(a, Init(b), Init(c));
    } else {
      SubsequenceTransitive(Init(a), Init(b), Init(c));
    }
  }

  lemma {:induction false} SubsequenceFilter<T(!new)>(p: T -> bool, a: seq<T>, b: seq<T>)
    requires IsSubsequence(a, b)
    ensures IsSubsequence(Filter(p, a), Filter(p, b))
    decreases |b|
  {
    if a == [] {
    } else if IsSubsequence(a, Init(b)) {
      SubsequenceFilter(p, a, Init(b));
      assert Filter(p, Init(b)) + [] == Filter(p, Init(b));
      if p(Last(b)) { SubsequenceSkip(Filter(p, a), Filter(p, Init(b)), Last(b)); }
    } else {
      SubsequenceFilter(p, Init(a), Init(b));
      assert Filter(p, Init(a)) + [] == Filter(p, Init(a)) && Filter(p, Init(b)) + [] == Filter(p, Init(b));
      if p(Last(b)) { SubsequenceKeep(Filter(p, Init(a)), Filter(p, Init(b)), Last(b)); }
    }
  }

  lemma {:induction false} FilterPrefix<T>(p: T -> bool, a: seq<T>, b: seq<T>)
    requires a <= b
    ensures Filter(p, a) <= Filter(p, b)
  {
    assert b == a + b[|a|..];
    FilterAppend(p, a, b[|a|..]);
  }

  /** c is a and b put together, each in its own order. */
  ghost predicate IsMerge<T(!new)>(c: seq<T>, a: seq<T>, b: seq<T>)
    decreases |c|
  {
    if c == [] then a == [] && b == []
    else
      || (a != [] && Last(a) == Last(c) && IsMerge(Init(c), Init(a), b))
      || (b != [] && Last(b) == Last(c) && IsMerge(Init(c), a, Init(b)))
  }

  lemma MergeSnoc<T(!new)>(c: seq<T>, a: seq<T>, b: seq<T>, x: T)
    requires IsMerge(c, a, b)
    ensures IsMerge(c + [x], a + [x], b) && IsMerge(c + [x], a, b + [x])
  {
    assert Init(c + [x]) == c && Init(a + [x]) == a && Init(b + [x]) == b;
  }

  lemma {:induction false} MergeFilter<T(!new)>(p: T -> bool, c: seq<T>, a: seq<T>, b: seq<T>)
    requires IsMerge(c, a, b)
    ensures IsMerge(Filter(p, c), Filter(p, a), Filter(p, b))
    decreases |c|
  {
    if c != [] {
      var x := Last(c);
      if a != [] && Last(a) == x && IsMerge(Init(c), Init(a), b) {
        MergeFilter(p, Init(c), Init(a), b);
        MergeFilterSnoc(p, Init(c), Init(a), b, x);
        assert c == Init(c) + [x] && a == Init(a) + [x];
      } else {
        MergeFilter(p, Init(c), a, Init(b));
        MergeFilterSnoc(p, Init(c), a, Init(b), x);
        assert c == Init(c) + [x] && b == Init(b) + [x];
      }
    }
  }

  lemma MergeFilterSnoc<T(!new)>(p: T -> bool, c: seq<T>, a: seq<T>, b: seq<T>, x: T)
    requires IsMerge(Filter(p, c), Filter(p, a), Filter(p, b))
    ensures IsMerge(Filter(p, c + [x]), Filter(p, a + [x]), Filter(p, b))
    ensures IsMerge(Filter(p, c + [x]), Filter(p, a), Filter(p, b + [x]))
  {
    FilterSnoc(p, c, x);
    FilterSnoc(p, a, x);
    FilterSnoc(p, b, x);
    if p(x) {
      MergeSnoc(Filter(p, c), Filter(p, a), Filter(p, b), x);
    } else {
      assert Filter(p, c) + [] == Filter(p, c) && Filter(p, a) + [] == Filter(p, a)
             && Filter(p, b) + [] == Filter(p, b);
    }
  }
}
