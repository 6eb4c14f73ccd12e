/** Small shared vocabulary: optional and failing values, and facts about sequences. */
module Common {

  datatype Option<+T> = None | Some(value: T)

  datatype Result<+T, +E> = Ok(value: T) | Err(error: E)

  /** The `status` column of an event. */
  datatype EventStatus = Scheduled | Ongoing | Completed | Canceled

  /** JavaScript truthiness of a nullable string: null and "" are both falsy. */
  predicate Truthy(s: Option<string>) {
    s.Some? && s.value != ""
  }

  /** No element occurs twice. */
  predicate NoDup<T(==)>(s: seq<T>) {
    forall i, j :: 0 <= i < j < |s| ==> s[i] != s[j]
  }

  /** `sub` is `s` with some elements dropped and the rest kept in order. */
  predicate IsSubsequence<T(==)>(sub: seq<T>, s: seq<T>)
    decreases |s|
  {
    if sub == [] then true
    else if s == [] then false
    else if sub[0] == s[0] then IsSubsequence(sub[1..], s[1..])
    else IsSubsequence(sub, s[1..])
  }

  /** `Array.prototype.filter`: the elements `keep` accepts, in their original order. */
  function Filter<T(==)>(s: seq<T>, keep: T -> bool): (r: seq<T>)
    ensures forall i :: 0 <= i < |r| ==> r[i] in s && keep(r[i])
    ensures forall i :: 0 <= i < |s| && keep(s[i]) ==> s[i] in r
    ensures multiset(r) <= multiset(s)
    ensures IsSubsequence(r, s)
    decreases |s|
  {
    if s == [] then []
    else
      assert s == [s[0]] + s[1..];
      if keep(s[0]) then [s[0]] + Filter(s[1..], keep) else Filter(s[1..], keep)
  }

  /** Filtering by two predicates that never both hold takes disjoint parts of the sequence. */
  lemma {:induction false} FilterDisjoint<T>(s: seq<T>, k1: T -> bool, k2: T -> bool)
    requires forall x :: !(k1(x) && k2(x))
    ensures multiset(Filter(s, k1)) + multiset(Filter(s, k2)) <= multiset(s)
    decreases |s|
  {
    if s != [] {
      FilterDisjoint(s[1..], k1, k2);
      assert s == [s[0]] + s[1..];
    }
  }

  /** A subsequence only holds elements of the sequence it was taken from. */
  lemma {:induction false} SubsequenceMembers<T>(sub: seq<T>, s: seq<T>, x: T)
    requires IsSubsequence(sub, s)
    requires x in sub
    ensures x in s
    decreases |s|
  {
    if sub[0] == s[0] {
      if x != sub[0] { SubsequenceMembers(sub[1..], s[1..], x); }
    } else {
      SubsequenceMembers(sub, s[1..], x);
    }
  }

  /** A sequence whose multiset fits inside that of a duplicate-free sequence has no duplicates itself. */
  lemma {:induction false} NoDupFromMultiset<T>(sub: seq<T>, s: seq<T>)
    requires NoDup(s)
    requires multiset(sub) <= multiset(s)
    ensures NoDup(sub)
  {
    forall x | x in multiset(s) ensures multiset(s)[x] == 1 {
      CountOneInNoDup(s, x);
    }
    forall i, j | 0 <= i < j < |sub| ensures sub[i] != sub[j] {
      RepeatCountsTwice(sub, i, j);
    }
  }

  lemma RepeatCountsTwice<T>(s: seq<T>, i: nat, j: nat)
    requires i < j < |s|
    ensures s[i] == s[j] ==> multiset(s)[s[i]] >= 2
  {
    assert s == s[..i] + [s[i]] + s[i+1..j] + [s[j]] + s[j+1..];
  }

  lemma {:induction false} CountOneInNoDup<T>(s: seq<T>, x: T)
    requires NoDup(s)
    requires x in s
    ensures multiset(s)[x] == 1
  {
    if s[0] == x {
      assert x !in s[1..];
      assert s == [s[0]] + s[1..];
    } else {
      assert NoDup(s[1..]);
      CountOneInNoDup(s[1..], x);
      assert s == [s[0]] + s[1..];
    }
  }

  /** Removing the same element from both sides keeps multiset inclusion. */
  lemma MultisetCancel<T>(a: multiset<T>, b: multiset<T>, x: T)
    requires a + multiset{x} <= b + multiset{x}
    ensures a <= b
  {
    forall y ensures a[y] <= b[y] {
      assert (a + multiset{x})[y] <= (b + multiset{x})[y];
    }
  }

  /** `top` is an element of `s` and no element of `s` exceeds it. */
  predicate IsMax(top: int, s: set<int>) {
    top in s && forall v :: v in s ==> v <= top
  }

  /** Every finite non-empty set of integers has a largest element. */
  lemma {:induction false} MaxExists(s: set<int>)
    requires s != {}
    ensures exists top :: IsMax(top, s)
    decreases s
  {
    if forall v :: v !in s {
      assert false;
    }
    var x :| x in s;
    var rest := s - {x};
    if rest == {} {
      assert s == {x};
      assert IsMax(x, s);
    } else {
      MaxExists(rest);
      var top :| IsMax(top, rest);
      var best := if x > top then x else top;
      forall v | v in s ensures v <= best {
        if v != x { assert v in rest; }
      }
      assert IsMax(best, s);
    }
  }
}
