/**
 * Sequence helpers: `List.Remove` on the lock list, duplicate freedom, the set
 * of flagged elements of a prefix and the union of a prefix of sets (what a
 * registration loop has added so far).
 */
module Lists {
  /** `List<T>.Remove(x)`: drops the first occurrence of `x`, if any. */
  function RemoveFirst<T(==)>(s: seq<T>, x: T): (r: seq<T>)
    ensures x !in s ==> r == s
    ensures x in s ==> |r| == |s| - 1
    ensures forall y | y in r :: y in s
    ensures x in s ==> exists i | 0 <= i < |s| && s[i] == x && x !in s[..i] :: r == s[..i] + s[i + 1..]
  {
    if s == [] then []
    else if s[0] == x then
      assert s[..0] + s[1..] == s[1..];
      s[1..]
    else
      var t := RemoveFirst(s[1..], x);
      assert x in s ==> exists i | 0 <= i < |s| && s[i] == x && x !in s[..i] :: [s[0]] + t == s[..i] + s[i + 1..] by {
        if x in s {
          RemoveFirstStep(s, x, t);
        }
      }
      [s[0]] + t
  }

  /** The step of `RemoveFirst` past an element other than `x`. */
  lemma RemoveFirstStep<T>(s: seq<T>, x: T, t: seq<T>)
    requires s != [] && s[0] != x && x in s
    requires exists i | 0 <= i < |s[1..]| && s[1..][i] == x && x !in s[1..][..i] :: t == s[1..][..i] + s[1..][i + 1..]
    ensures exists i | 0 <= i < |s| && s[i] == x && x !in s[..i] :: [s[0]] + t == s[..i] + s[i + 1..]
  {
    var i :| 0 <= i < |s[1..]| && s[1..][i] == x && x !in s[1..][..i] && t == s[1..][..i] + s[1..][i + 1..];
    var k := i + 1;
    assert s[..k] == [s[0]] + s[1..][..i];
    assert s[k + 1..] == s[1..][i + 1..];
    assert x !in s[..k];
    assert 0 <= k < |s| && s[k] == x && x !in s[..k] && [s[0]] + t == s[..k] + s[k + 1..];
  }

  /** Removing the element just appended restores the list, when it was not there before. */
  lemma {:induction false} RemoveFirstOfAppended<T>(s: seq<T>, x: T)
    requires x !in s
    ensures RemoveFirst(s + [x], x) == s
  {
    if s != [] {
      assert (s + [x])[0] == s[0];
      assert (s + [x])[1..] == s[1..] + [x];
      RemoveFirstOfAppended(s[1..], x);
    }
  }

  predicate NoDuplicates<T(==)>(s: seq<T>) {
    forall i, j | 0 <= i < j < |s| :: s[i] != s[j]
  }

  /** The elements among the first `n` of `xs` whose flag is up. */
  function Chosen<T>(xs: seq<T>, flags: seq<bool>, n: nat): set<T>
    requires n <= |xs| == |flags|
  {
    if n == 0 then {} else Chosen(xs, flags, n - 1) + (if flags[n - 1] then {xs[n - 1]} else {})
  }

  lemma {:induction false} ChosenMembers<T>(xs: seq<T>, flags: seq<bool>, n: nat)
    requires n <= |xs| == |flags|
    ensures forall x :: x in Chosen(xs, flags, n) <==> exists j | 0 <= j < n :: xs[j] == x && flags[j]
  {
    if n > 0 {
      ChosenMembers(xs, flags, n - 1);
    }
  }

  /** The union of the first `n` sets of `ss`. */
  function Union<T>(ss: seq<set<T>>, n: nat): set<T>
    requires n <= |ss|
  {
    if n == 0 then {} else Union(ss, n - 1) + ss[n - 1]
  }

  lemma {:induction false} UnionMembers<T>(ss: seq<set<T>>, n: nat)
    requires n <= |ss|
    ensures forall x :: x in Union(ss, n) <==> exists j | 0 <= j < n :: x in ss[j]
  {
    if n > 0 {
      UnionMembers(ss, n - 1);
    }
  }
}
