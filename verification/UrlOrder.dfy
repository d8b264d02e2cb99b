/** Sorting the handles of a curl multi by URL, highest first. */
module UrlOrder {
  import opened Common

  /** A handle, by its number and the object that bears it, with what `curl_getinfo`
      says of it. */
  datatype Info = Info(cid: int, obj: nat, url: string, isHttp: bool)

  /** Strings by code points, which is also the order of their UTF-8 bytes. */
  predicate AtMost(a: string, b: string) {
    a == [] || (b != [] && (a[0] < b[0] || (a[0] == b[0] && AtMost(a[1..], b[1..]))))
  }

  lemma {:induction false} AtMostTotal(a: string, b: string)
    ensures AtMost(a, b) || AtMost(b, a)
  {
    if a != [] && b != [] {
      AtMostTotal(a[1..], b[1..]);
    }
  }

  lemma {:induction false} AtMostTransitive(a: string, b: string, c: string)
    requires AtMost(a, b) && AtMost(b, c)
    ensures AtMost(a, c)
  {
    if a != [] && a[0] == b[0] == c[0] {
      AtMostTransitive(a[1..], b[1..], c[1..]);
    }
  }

  lemma {:induction false} AtMostAntisymmetric(a: string, b: string)
    requires AtMost(a, b) && AtMost(b, a)
    ensures a == b
  {
    if a != [] {
      AtMostAntisymmetric(a[1..], b[1..]);
      assert a == [a[0]] + a[1..] && b == [b[0]] + b[1..];
    }
  }

  /** The strings agree in their first k characters. */
  predicate AgreeUpTo(a: string, b: string, k: nat) {
    k <= |a| && k <= |b| && a[..k] == b[..k]
  }

  /** What the order is: at the first character in which they differ the lower string has
      the lower one; or the lower string ends there. */
  lemma {:induction false} AtMostExactly(a: string, b: string, k: nat)
    requires AgreeUpTo(a, b, k) && (k < |a| && k < |b| ==> a[k] != b[k])
    ensures AtMost(a, b) <==> k == |a| || (k < |b| && a[k] < b[k])
  {
    if k > 0 {
      assert a[0] == a[..k][0] == b[..k][0] == b[0];
      assert a[1..][..k - 1] == a[..k][1..] && b[1..][..k - 1] == b[..k][1..];
      AtMostExactly(a[1..], b[1..], k - 1);
    }
  }

  ghost predicate Descending(s: seq<Info>) {
    forall i, j :: 0 <= i < j < |s| ==> AtMost(s[j].url, s[i].url)
  }

  /** x after everything that is not below it, as a stable sort puts it. */
  function Insert(x: Info, s: seq<Info>): seq<Info> {
    if s == [] then [x]
    else if AtMost(x.url, s[0].url) then [s[0]] + Insert(x, s[1..])
    else [x] + s
  }

  function SortDescending(s: seq<Info>): seq<Info> {
    if s == [] then [] else Insert(Last(s), SortDescending(Init(s)))
  }

  lemma {:induction false} InsertAdds(x: Info, s: seq<Info>)
    ensures multiset(Insert(x, s)) == multiset(s) + multiset{x}
  {
    if s != [] {
      assert s == [s[0]] + s[1..];
      InsertAdds(x, s[1..]);
    }
  }

  lemma {:induction false} InsertSorts(x: Info, s: seq<Info>)
    requires Descending(s)
    ensures Descending(Insert(x, s))
  {
    if s == [] {
    } else if AtMost(x.url, s[0].url) {
      InsertSorts(x, s[1..]);
      InsertAdds(x, s[1..]);
      var rest := Insert(x, s[1..]);
      forall i | 0 <= i < |rest|
        ensures AtMost(rest[i].url, s[0].url)
      {
        assert rest[i] in multiset(rest);
        assert rest[i] == x || rest[i] in s[1..];
      }
    } else {
      AtMostTotal(x.url, s[0].url);
      forall i | 0 <= i < |s|
        ensures AtMost(s[i].url, x.url)
      {
        if i > 0 { AtMostTransitive(s[i].url, s[0].url, x.url); }
      }
    }
  }

  /** Sorting permutes, and the result descends. */
  lemma {:induction false} SortIsSorted(s: seq<Info>)
    ensures multiset(SortDescending(s)) == multiset(s)
    ensures Descending(SortDescending(s))
    ensures |SortDescending(s)| == |s|
  {
    if s != [] {
      SortIsSorted(Init(s));
      InsertAdds(Last(s), SortDescending(Init(s)));
      InsertSorts(Last(s), SortDescending(Init(s)));
      assert s == Init(s) + [Last(s)];
      assert |multiset(SortDescending(s))| == |multiset(s)|;
    }
  }

  /** In descending order, and no URL twice. */
  ghost predicate StrictlyDescending(s: seq<Info>) {
    forall i, j :: 0 <= i < j < |s| ==> AtMost(s[j].url, s[i].url) && s[j].url != s[i].url
  }

  ghost predicate SameMembers(s: seq<Info>, t: seq<Info>) {
    forall x :: x in s <==> x in t
  }

  lemma HeadIsHighest(s: seq<Info>, x: Info)
    requires StrictlyDescending(s) && x in s
    ensures AtMost(x.url, s[0].url) && (x.url == s[0].url ==> x == s[0])
  {
    AtMostTotal(x.url, x.url);
  }

  lemma SameHead(s: seq<Info>, t: seq<Info>)
    requires s != [] && StrictlyDescending(s) && StrictlyDescending(t) && SameMembers(s, t)
    ensures t != [] && s[0] == t[0]
  {
    assert s[0] in t;
    HeadIsHighest(t, s[0]);
    assert t[0] in s;
    HeadIsHighest(s, t[0]);
    AtMostAntisymmetric(s[0].url, t[0].url);
  }

  lemma TailMembers(s: seq<Info>, x: Info)
    requires s != [] && StrictlyDescending(s)
    ensures x in s[1..] <==> x in s && x != s[0]
  {
    assert s == [s[0]] + s[1..];
  }

  lemma EmptyOrNot(s: seq<Info>)
    ensures s == [] || exists x :: x in s
  {
    if s != [] { assert s[0] in s; }
  }

  /** There is one way only to arrange handles by distinct URLs. */
  lemma {:induction false} SortedIsUnique(s: seq<Info>, t: seq<Info>)
    requires StrictlyDescending(s) && StrictlyDescending(t) && SameMembers(s, t)
    ensures s == t
  {
    if s == [] {
      EmptyOrNot(t);
    } else {
      SameHead(s, t);
      var rest, rest' := s[1..], t[1..];
      forall x
        ensures x in rest <==> x in rest'
      {
        TailMembers(s, x);
        TailMembers(t, x);
      }
      SortedIsUnique(rest, rest');
      assert s == [s[0]] + rest && t == [t[0]] + rest';
    }
  }
}
