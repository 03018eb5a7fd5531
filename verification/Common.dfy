/** What several modules share. */
module Common {

  datatype Option<+T> = None | Some(value: T)

  function Min(a: nat, b: nat): nat {
    if a < b then a else b
  }

  /** The elements of a list without those that occur before. */
  function Distinct<T(==)>(s: seq<T>): seq<T> {
    if s == [] then []
    else
      var before, last := Distinct(s[..|s| - 1]), s[|s| - 1];
      if last in before then before else before + [last]
  }

  ghost predicate IsFirst<T>(s: seq<T>, i: int) {
    0 <= i < |s| && forall j :: 0 <= j < i ==> s[j] != s[i]
  }

  /** `d` has the elements of `s`, each once, in the order in which they first occur in `s`. */
  ghost predicate ListsFirsts<T>(s: seq<T>, d: seq<T>) {
    && |d| <= |s| && (forall x :: x in s ==> x in d) && (forall x :: x in d ==> x in s)
    && (forall k, l :: 0 <= k < l < |d| ==> d[k] != d[l])
    && (forall k, l, i, j ::
          0 <= k < l < |d| && IsFirst(s, i) && IsFirst(s, j) && s[i] == d[k] && s[j] == d[l] ==> i < j)
  }

  lemma {:induction false} DistinctListsFirsts<T>(s: seq<T>)
    ensures ListsFirsts(s, Distinct(s))
  {
    if s != [] {
      var n, d := |s| - 1, Distinct(s[..|s| - 1]);
      DistinctListsFirsts(s[..n]);
      assert s == s[..n] + [s[n]];
      forall i | 0 <= i <= n
        ensures IsFirst(s, i) <==> if i < n then IsFirst(s[..n], i) else s[n] !in d
      {
        assert i == n ==> (s[n] !in s[..n] <==> IsFirst(s, i));
        assert forall j :: 0 <= j < i ==> s[j] == s[..n][j];
      }
      FirstsOneMore(s, d);
    }
  }

  lemma FirstsOneMore<T>(s: seq<T>, d: seq<T>)
    requires s != [] && ListsFirsts(s[..|s| - 1], d)
    requires forall i :: 0 <= i < |s| ==> (IsFirst(s, i) <==>
      if i < |s| - 1 then IsFirst(s[..|s| - 1], i) else s[|s| - 1] !in d)
    ensures ListsFirsts(s, if s[|s| - 1] in d then d else d + [s[|s| - 1]])
  {
    var n := |s| - 1;
    var d' := if s[n] in d then d else d + [s[n]];
    assert s == s[..n] + [s[n]];
    forall k, l, i, j | 0 <= k < l < |d'| && IsFirst(s, i) && IsFirst(s, j) && s[i] == d'[k] && s[j] == d'[l]
      ensures i < j
    {
      assert d'[k] in d;
      if j < n {
        assert s[j] == s[..n][j] && s[j] in s[..n];
        assert i < n && s[i] == s[..n][i] && l < |d|;
      }
    }
  }

  lemma {:induction false} FirstPlace<T>(s: seq<T>, x: T) returns (i: nat)
    requires x in s
    ensures IsFirst(s, i) && s[i] == x
  {
    var n := |s| - 1;
    if x in s[..n] {
      i := FirstPlace(s[..n], x);
      assert forall j :: 0 <= j <= i ==> s[j] == s[..n][j];
    } else {
      i := n;
      assert s[n] == x && forall j :: 0 <= j < n ==> s[j] == s[..n][j];
    }
  }

  /** The first element comes first. */
  lemma FirstsOfSome<T>(s: seq<T>, d: seq<T>)
    requires ListsFirsts(s, d)
    ensures d == [] <==> s == []
    ensures s != [] ==> d[0] == s[0]
  {
    if s != [] {
      assert s[0] in s && IsFirst(s, 0);
      var k :| 0 <= k < |d| && d[k] == s[0];
      var i := FirstPlace(s, d[0]);
    }
  }

  /** Something was given at a place before `n` and not ended after it. */
  ghost predicate Since(gives: seq<bool>, ends: seq<bool>, n: nat)
    requires n <= |gives| == |ends|
  {
    exists k :: 0 <= k < n && gives[k] && forall l :: k < l < n ==> !ends[l]
  }

  lemma SinceOneMore(gives: seq<bool>, ends: seq<bool>, n: nat)
    requires n < |gives| == |ends|
    ensures Since(gives, ends, n + 1) <==> gives[n] || (Since(gives, ends, n) && !ends[n])
  {
  }

  /** A reply to a request; requests are numbered in the order of their arrival. */
  datatype Answer<+R> = Answer(request: nat, reply: R)

  function TimesAnswered<R>(answers: seq<Answer<R>>, r: nat): nat {
    if answers == [] then 0
    else TimesAnswered(answers[..|answers| - 1], r) + if answers[|answers| - 1].request == r then 1 else 0
  }

  lemma {:induction false} TimesAnsweredSum<R>(a: seq<Answer<R>>, b: seq<Answer<R>>, r: nat)
    ensures TimesAnswered(a + b, r) == TimesAnswered(a, r) + TimesAnswered(b, r)
  {
    if b == [] {
      assert a + b == a;
    } else {
      assert (a + b)[..|a + b| - 1] == a + b[..|b| - 1];
      TimesAnsweredSum(a, b[..|b| - 1], r);
    }
  }

  lemma AnsweredOnceMore<R>(answers: seq<Answer<R>>, a: Answer<R>, r: nat)
    ensures TimesAnswered(answers + [a], r) == TimesAnswered(answers, r) + if a.request == r then 1 else 0
  {
    assert (answers + [a])[..|answers|] == answers;
  }
}
