/**
 * The order in which `find_next_work_item` visits tasks: the registry's keys
 * from `previous_task_id` upwards with the first one skipped, followed by the
 * keys up to and including `previous_task_id`.
 */
module RingOrder {

  /** The keys of an ordered map, smallest first, each once. */
  ghost predicate StrictlyIncreasing(s: seq<nat>) {
    forall i, j :: 0 <= i < j < |s| ==> s[i] < s[j]
  }

  /** `range(lo..)`: the keys at or above `lo`, in order. */
  function AtLeast(s: seq<nat>, lo: nat): (r: seq<nat>)
    ensures forall x :: x in r <==> x in s && lo <= x
    ensures StrictlyIncreasing(s) ==> StrictlyIncreasing(r)
  {
    if s == [] then []
    else if lo <= s[0] then ConsIncreasing(s, AtLeast(s[1..], lo)); [s[0]] + AtLeast(s[1..], lo)
    else AtLeast(s[1..], lo)
  }

  /** `range(..=hi)`: the keys at or below `hi`, in order. */
  function AtMost(s: seq<nat>, hi: nat): (r: seq<nat>)
    ensures forall x :: x in r <==> x in s && x <= hi
    ensures StrictlyIncreasing(s) ==> StrictlyIncreasing(r)
  {
    if s == [] then []
    else if s[0] <= hi then ConsIncreasing(s, AtMost(s[1..], hi)); [s[0]] + AtMost(s[1..], hi)
    else AtMost(s[1..], hi)
  }

  /** The keys strictly above `lo`, in order (a reference, not in the source). */
  function Above(s: seq<nat>, lo: nat): (r: seq<nat>)
    ensures forall x :: x in r <==> x in s && lo < x
    ensures StrictlyIncreasing(s) ==> StrictlyIncreasing(r)
  {
    if s == [] then []
    else if lo < s[0] then ConsIncreasing(s, Above(s[1..], lo)); [s[0]] + Above(s[1..], lo)
    else Above(s[1..], lo)
  }

  /** Putting the head of `s` in front of a sequence drawn from its tail keeps it increasing. */
  lemma ConsIncreasing(s: seq<nat>, rest: seq<nat>)
    requires s != [] && forall x :: x in rest ==> x in s[1..]
    ensures StrictlyIncreasing(s) && StrictlyIncreasing(rest) ==> StrictlyIncreasing([s[0]] + rest)
  {
    if StrictlyIncreasing(s) && StrictlyIncreasing(rest) {
      forall j | 0 < j < |[s[0]] + rest| ensures s[0] < ([s[0]] + rest)[j] {
        assert rest[j - 1] in rest;
      }
    }
  }

  /** Appending a key above every key keeps the keys increasing. */
  lemma AppendIncreasing(s: seq<nat>, x: nat)
    requires StrictlyIncreasing(s) && forall y :: y in s ==> y < x
    ensures StrictlyIncreasing(s + [x])
  {
    forall i, j | 0 <= i < j < |s + [x]| ensures (s + [x])[i] < (s + [x])[j] {
      assert (s + [x])[i] == s[i] && s[i] in s;
    }
  }

  /** Iterator `skip(1)`. */
  function Skip1(s: seq<nat>): seq<nat> {
    if s == [] then [] else s[1..]
  }

  /** `range(prev..).skip(1).chain(range(..=prev))`. */
  function Candidates(order: seq<nat>, prev: nat): (r: seq<nat>)
    ensures forall x :: x in r ==> x in order
  {
    Skip1(AtLeast(order, prev)) + AtMost(order, prev)
  }

  /** When `lo` is a key, `range(lo..)` is `lo` followed by the keys above it. */
  lemma {:induction false} AtLeastFromKey(s: seq<nat>, lo: nat)
    requires StrictlyIncreasing(s) && lo in s
    ensures AtLeast(s, lo) == [lo] + Above(s, lo)
  {
    if s[0] == lo {
      AllAbove(s[1..], lo);
    } else {
      assert lo in s[1..];
      AtLeastFromKey(s[1..], lo);
    }
  }

  /** Filtering keys that all pass leaves them unchanged. */
  lemma {:induction false} AllAbove(s: seq<nat>, lo: nat)
    requires forall i :: 0 <= i < |s| ==> lo < s[i]
    ensures AtLeast(s, lo) == s && Above(s, lo) == s && AtMost(s, lo) == []
  {
    if s != [] {
      AllAbove(s[1..], lo);
    }
  }

  /** The keys above `lo` and those at or below it together are all keys, once each. */
  lemma {:induction false} SplitIsPermutation(s: seq<nat>, lo: nat)
    ensures multiset(Above(s, lo)) + multiset(AtMost(s, lo)) == multiset(s)
  {
    if s != [] {
      SplitIsPermutation(s[1..], lo);
      assert s == [s[0]] + s[1..];
    }
  }

  /** In an increasing sequence holding `x` and nothing above it, `x` is last. */
  lemma MaxIsLast(r: seq<nat>, x: nat)
    requires StrictlyIncreasing(r) && x in r
    requires forall y :: y in r ==> y <= x
    ensures r[|r| - 1] == x
  {
    var k :| 0 <= k < |r| && r[k] == x;
    assert k == |r| - 1 by {
      assert r[|r| - 1] in r;
    }
  }

  /**
   * Round robin: when `prev` is a key, the candidates are the keys above
   * `prev` in ascending order and then the keys up to `prev` in ascending
   * order — a rotation of the keys visiting each exactly once, `prev` last.
   */
  lemma Rotation(order: seq<nat>, prev: nat)
    requires StrictlyIncreasing(order) && prev in order
    ensures Candidates(order, prev) == Above(order, prev) + AtMost(order, prev)
    ensures |Candidates(order, prev)| == |order|
    ensures multiset(Candidates(order, prev)) == multiset(order)
    ensures forall i, j :: 0 <= i < j < |Candidates(order, prev)| ==>
              Candidates(order, prev)[i] != Candidates(order, prev)[j]
    ensures Candidates(order, prev)[|order| - 1] == prev
  {
    AtLeastFromKey(order, prev);
    SplitIsPermutation(order, prev);
    var c := Candidates(order, prev);
    var hi, lo := Above(order, prev), AtMost(order, prev);
    assert |c| == |order| by {
      assert |multiset(c)| == |multiset(order)|;
    }
    forall i, j | 0 <= i < j < |c| ensures c[i] != c[j] {
      if j < |hi| {
        assert c[i] == hi[i] && c[j] == hi[j];
      } else if i >= |hi| {
        assert c[i] == lo[i - |hi|] && c[j] == lo[j - |hi|];
      } else {
        assert c[i] == hi[i] && c[i] in hi;
        assert c[j] == lo[j - |hi|] && c[j] in lo;
      }
    }
    MaxIsLast(lo, prev);
  }

  /**
   * The quirk of `skip(1)`: when `prev` is below every key (the sentinel 0
   * with no task 0), the smallest key is dropped from the pass.
   */
  lemma SentinelDropsSmallest(order: seq<nat>, prev: nat)
    requires StrictlyIncreasing(order) && |order| > 0
    requires forall i :: 0 <= i < |order| ==> prev < order[i]
    ensures Candidates(order, prev) == order[1..]
    ensures order[0] !in Candidates(order, prev)
  {
    AllAbove(order, prev);
  }

  /**
   * `a` comes no later than `b` on the id ring walked upwards from just
   * after `prev` and wrapping past the largest id.
   */
  predicate RingPrecedes(prev: nat, a: nat, b: nat) {
    if prev < a then (prev < b ==> a <= b) else (b <= prev && a <= b)
  }

  /** Positions in the candidate sequence follow the ring order after a key `prev`. */
  lemma CandidatesFollowRing(order: seq<nat>, prev: nat, k: nat, m: nat)
    requires StrictlyIncreasing(order) && prev in order
    requires k <= m < |Candidates(order, prev)|
    ensures RingPrecedes(prev, Candidates(order, prev)[k], Candidates(order, prev)[m])
  {
    Rotation(order, prev);
    var c := Candidates(order, prev);
    var hi, lo := Above(order, prev), AtMost(order, prev);
    if k == m {
    } else if m < |hi| {
      assert c[k] == hi[k] && c[m] == hi[m] && c[k] in hi && c[m] in hi;
    } else if k < |hi| {
      assert c[k] == hi[k] && c[k] in hi && c[m] == lo[m - |hi|] && c[m] in lo;
    } else {
      assert c[k] == lo[k - |hi|] && c[m] == lo[m - |hi|] && c[k] in lo && c[m] in lo;
    }
  }

  /** From a key `prev`, every key is a candidate. */
  lemma CandidatesCoverKeys(order: seq<nat>, prev: nat)
    requires StrictlyIncreasing(order) && prev in order
    ensures forall x :: x in order ==> x in Candidates(order, prev)
  {
    Rotation(order, prev);
    forall x | x in order ensures x in Candidates(order, prev) {
      assert x in multiset(order);
    }
  }
}
