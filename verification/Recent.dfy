/** Ordering by most recent use: what moving each used element to the front amounts to. */
module Recent {

  function Rest<T(==)>(s: seq<T>, x: T): seq<T> {
    if s == [] then [] else (if s[0] == x then [] else [s[0]]) + Rest(s[1..], x)
  }

  /** The elements used so far, the most recent use first. */
  function Recency<T(==)>(log: seq<T>): seq<T> {
    if log == [] then [] else [log[|log| - 1]] + Rest(Recency(log[..|log| - 1]), log[|log| - 1])
  }

  /** When x was last used; -1 if never. */
  function LastUse<T(==)>(log: seq<T>, x: T): (k: int)
    ensures -1 <= k < |log| && (k >= 0 ==> log[k] == x) && forall j :: k < j < |log| ==> log[j] != x
  {
    if log == [] then -1 else if log[|log| - 1] == x then |log| - 1 else LastUse(log[..|log| - 1], x)
  }

  lemma {:induction false} RestIs<T>(s: seq<T>, x: T)
    ensures x !in Rest(s, x) && forall y :: y in Rest(s, x) <==> y in s && y != x
    ensures x !in s ==> Rest(s, x) == s
  {
    if s != [] {
      RestIs(s[1..], x);
      assert s == [s[0]] + s[1..];
    }
  }

  /** Taking out the one occurrence of an element. */
  lemma {:induction false} RestWithout<T>(s: seq<T>, k: nat)
    requires k < |s| && forall i, j :: 0 <= i < j < |s| ==> s[i] != s[j]
    ensures Rest(s, s[k]) == s[..k] + s[k + 1..]
  {
    if k == 0 {
      RestIs(s[1..], s[0]);
    } else {
      RestWithout(s[1..], k - 1);
      assert s[1..][..k - 1] == s[1..k] && s[1..][k..] == s[k + 1..] && s[..k] == [s[0]] + s[1..k];
    }
  }

  /** Rest keeps the order of what it keeps. */
  lemma {:induction false} RestOrdered<T>(s: seq<T>, x: T, log: seq<T>)
    requires forall i, j :: 0 <= i < j < |s| ==> LastUse(log, s[i]) > LastUse(log, s[j])
    ensures forall i, j :: 0 <= i < j < |Rest(s, x)| ==> LastUse(log, Rest(s, x)[i]) > LastUse(log, Rest(s, x)[j])
  {
    hide LastUse;
    if s != [] {
      assert forall i :: 0 <= i < |s[1..]| ==> s[1..][i] == s[i + 1];
      RestOrdered(s[1..], x, log);
      RestBelow(s[1..], x, log, LastUse(log, s[0]));
    }
  }

  lemma {:induction false} RestBelow<T>(s: seq<T>, x: T, log: seq<T>, bound: int)
    requires forall i :: 0 <= i < |s| ==> LastUse(log, s[i]) < bound
    ensures forall i :: 0 <= i < |Rest(s, x)| ==> LastUse(log, Rest(s, x)[i]) < bound
  {
    hide LastUse;
    if s != [] {
      assert forall i :: 0 <= i < |s[1..]| ==> s[1..][i] == s[i + 1];
      RestBelow(s[1..], x, log, bound);
    }
  }

  /** Recency is what it says: each element used once, a later last use before an earlier one. */
  lemma {:induction false} RecencyIs<T>(log: seq<T>)
    ensures forall x :: x in Recency(log) <==> x in log
    ensures forall i, j :: 0 <= i < j < |Recency(log)| ==> LastUse(log, Recency(log)[i]) > LastUse(log, Recency(log)[j])
  {
    if log != [] {
      var init, x := log[..|log| - 1], log[|log| - 1];
      RecencyIs(init);
      RestIs(Recency(init), x);
      RestOrdered(Recency(init), x, init);
      RecencyMembers(log);
      var r := Rest(Recency(init), x);
      forall j | 0 <= j < |r| ensures LastUse(log, r[j]) == LastUse(init, r[j]) { assert r[j] != x; }
    }
  }

  lemma RecencyMembers<T>(log: seq<T>)
    requires log != []
    ensures var init, x := log[..|log| - 1], log[|log| - 1];
            (forall y :: y in log <==> y in init || y == x)
  {
    assert log == log[..|log| - 1] + [log[|log| - 1]];
  }

  /** A use moves its element to the front. */
  lemma RecencyStep<T>(log: seq<T>, x: T)
    ensures Recency(log + [x]) == [x] + Rest(Recency(log), x)
  {
    assert (log + [x])[..|log|] == log;
  }

  /** The first use of an element. */
  lemma RecencyNew<T>(log: seq<T>, x: T)
    requires x !in log
    ensures Recency(log + [x]) == [x] + Recency(log) && x !in Recency(log)
  {
    RecencyStep(log, x);
    RecencyIs(log);
    RestIs(Recency(log), x);
  }

  lemma {:induction false} RestElements<T>(s: seq<T>, x: T)
    ensures forall i :: 0 <= i < |Rest(s, x)| ==> Rest(s, x)[i] in s
    ensures forall i :: 0 <= i < |s| && s[i] != x ==> s[i] in Rest(s, x)
  {
    if s != [] {
      RestElements(s[1..], x);
      assert s == [s[0]] + s[1..];
      forall i | 0 <= i < |Rest(s[1..], x)| ensures Rest(s[1..], x)[i] in s { assert Rest(s[1..], x)[i] in s[1..]; }
    }
  }

  /** The elements used are the ones in use order. */
  lemma {:induction false} SameElements<T>(log: seq<T>)
    ensures forall i :: 0 <= i < |Recency(log)| ==> Recency(log)[i] in log
    ensures forall i :: 0 <= i < |log| ==> log[i] in Recency(log)
  {
    if log != [] {
      var init, x := log[..|log| - 1], log[|log| - 1];
      SameElements(init);
      RestElements(Recency(init), x);
      var r := Rest(Recency(init), x);
      forall i | 0 <= i < |r| ensures r[i] in log { assert r[i] in Recency(init); assert r[i] in init; }
      forall i | 0 <= i < |log| ensures log[i] in [x] + r {
        if i < |init| && log[i] != x { assert init[i] in Recency(init); assert log[i] in r; }
      }
    }
  }
}
