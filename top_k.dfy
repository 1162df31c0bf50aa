/** The selection rule of `LocalizedTokenAggregation.my_top_k` and
    `gen_top_k_label` on one row of the last axis: the K concept scores of one
    (token, sample) pair. `torch.topk` keeps the k largest values, `torch.min`
    takes the smallest of them, and every entry at or above that threshold
    survives; the rest become `-inf`. */
module TopK {
  import opened ExtendedReals

  /** The tests the counting lemmas below are stated for. */
  datatype Test = AtLeast(t: ExtReal) | Above(t: ExtReal) | Positive | Finite

  predicate Holds(test: Test, x: ExtReal) {
    match test
    case AtLeast(t) => Ge(x, t)
    case Above(t) => Gt(x, t)
    case Positive => IsPositive(x)
    case Finite => x.Fin?
  }

  /** Number of entries of `s` that pass `test`. */
  function Count(s: seq<ExtReal>, test: Test): (c: nat)
    ensures c <= |s|
  {
    if s == [] then 0 else (if Holds(test, s[0]) then 1 else 0) + Count(s[1..], test)
  }

  lemma {:induction false} CountPointwise(a: seq<ExtReal>, p: Test, b: seq<ExtReal>, q: Test)
    requires |a| == |b|
    requires forall i :: 0 <= i < |a| ==> (Holds(p, a[i]) <==> Holds(q, b[i]))
    ensures Count(a, p) == Count(b, q)
  {
    if a != [] {
      assert Holds(p, a[0]) <==> Holds(q, b[0]);
      CountPointwise(a[1..], p, b[1..], q);
    }
  }

  lemma {:induction false} CountMonotone(s: seq<ExtReal>, p: Test, q: Test)
    requires forall i :: 0 <= i < |s| && Holds(p, s[i]) ==> Holds(q, s[i])
    ensures Count(s, p) <= Count(s, q)
  {
    if s != [] {
      assert Holds(p, s[0]) ==> Holds(q, s[0]);
      CountMonotone(s[1..], p, q);
    }
  }

  lemma {:induction false} CountAll(s: seq<ExtReal>, p: Test)
    requires forall i :: 0 <= i < |s| ==> Holds(p, s[i])
    ensures Count(s, p) == |s|
  {
    if s != [] {
      assert Holds(p, s[0]);
      CountAll(s[1..], p);
    }
  }

  lemma {:induction false} CountNone(s: seq<ExtReal>, p: Test)
    requires forall i :: 0 <= i < |s| ==> !Holds(p, s[i])
    ensures Count(s, p) == 0
  {
    if s != [] {
      assert !Holds(p, s[0]);
      CountNone(s[1..], p);
    }
  }

  lemma {:induction false} CountSplit(s: seq<ExtReal>, m: nat, p: Test)
    requires m <= |s|
    ensures Count(s, p) == Count(s[..m], p) + Count(s[m..], p)
  {
    if m > 0 {
      assert s[..m][1..] == s[1..][..m - 1];
      assert s[m..] == s[1..][m - 1..];
      CountSplit(s[1..], m - 1, p);
    } else {
      assert s[m..] == s;
    }
  }

  // ---------------------------------------------------------------------
  // Sorting, as the value list that `torch.topk` returns.

  ghost predicate SortedDescending(s: seq<ExtReal>) {
    forall i, j :: 0 <= i < j < |s| ==> Ge(s[i], s[j])
  }

  /** Inserts `x` into a sequence sorted in descending order. */
  function Insert(x: ExtReal, s: seq<ExtReal>): (r: seq<ExtReal>)
    ensures |r| == |s| + 1
  {
    if s == [] then [x]
    else if Ge(x, s[0]) then [x] + s
    else [s[0]] + Insert(x, s[1..])
  }

  function SortDescending(s: seq<ExtReal>): (r: seq<ExtReal>)
    ensures |r| == |s|
  {
    if s == [] then [] else Insert(s[0], SortDescending(s[1..]))
  }

  lemma {:induction false} InsertSorted(x: ExtReal, s: seq<ExtReal>)
    requires SortedDescending(s)
    ensures SortedDescending(Insert(x, s))
    ensures forall i :: 0 <= i < |Insert(x, s)| ==> Insert(x, s)[i] == x || Insert(x, s)[i] in s
  {
    if s != [] && !Ge(x, s[0]) {
      InsertSorted(x, s[1..]);
      var r := Insert(x, s[1..]);
      forall i | 0 <= i < |r| ensures Ge(s[0], r[i]) {
        if r[i] != x { assert r[i] in s[1..]; }
      }
    }
  }

  lemma {:induction false} InsertCount(x: ExtReal, s: seq<ExtReal>, p: Test)
    ensures Count(Insert(x, s), p) == (if Holds(p, x) then 1 else 0) + Count(s, p)
  {
    if s == [] {
    } else if Ge(x, s[0]) {
      assert ([x] + s)[1..] == s;
    } else {
      InsertCount(x, s[1..], p);
      assert ([s[0]] + Insert(x, s[1..]))[1..] == Insert(x, s[1..]);
    }
  }

  lemma {:induction false} SortSorted(s: seq<ExtReal>)
    ensures SortedDescending(SortDescending(s))
  {
    if s != [] {
      SortSorted(s[1..]);
      InsertSorted(s[0], SortDescending(s[1..]));
    }
  }

  /** Sorting keeps every count, so it is a rearrangement as far as any of the
      tests can tell. */
  lemma {:induction false} SortCount(s: seq<ExtReal>, p: Test)
    ensures Count(SortDescending(s), p) == Count(s, p)
  {
    if s != [] {
      SortCount(s[1..], p);
      InsertCount(s[0], SortDescending(s[1..]), p);
    }
  }

  // ---------------------------------------------------------------------
  // The threshold: `torch.topk(x, k, dim=-1).values` then `torch.min`.

  /** The k largest values of a row, largest first. */
  function TopKValues(row: seq<ExtReal>, k: nat): (vals: seq<ExtReal>)
    requires 1 <= k <= |row|
    ensures |vals| == k
  {
    SortDescending(row)[..k]
  }

  /** `torch.min` along the axis. */
  function Min(s: seq<ExtReal>): (m: ExtReal)
    requires |s| > 0
    ensures m in s
    ensures forall i :: 0 <= i < |s| ==> Ge(s[i], m)
  {
    if |s| == 1 then s[0]
    else
      var m := Min(s[1..]);
      assert forall i :: 1 <= i < |s| ==> s[i] == s[1..][i - 1];
      assert m in s by {
        var j :| 0 <= j < |s[1..]| && s[1..][j] == m;
        assert s[j + 1] == m;
      }
      if Ge(m, s[0]) then s[0] else m
  }

  /** The threshold of `my_top_k`: the smallest of the k largest values. */
  function KthLargest(row: seq<ExtReal>, k: nat): ExtReal
    requires 1 <= k <= |row|
  {
    Min(TopKValues(row, k))
  }

  /** The reference definition with ties counted: fewer than k entries lie
      strictly above `t` and at least k lie at or above it. */
  ghost predicate IsKthLargest(row: seq<ExtReal>, k: nat, t: ExtReal) {
    Count(row, Above(t)) < k <= Count(row, AtLeast(t))
  }

  lemma {:induction false} MinOfSorted(s: seq<ExtReal>)
    requires |s| > 0 && SortedDescending(s)
    ensures Min(s) == s[|s| - 1]
  {
    if |s| > 1 {
      MinOfSorted(s[1..]);
    }
  }

  /** The threshold `my_top_k` computes is the k-th largest entry in the
      sense of the reference definition. */
  lemma KthLargestSpec(row: seq<ExtReal>, k: nat)
    requires 1 <= k <= |row|
    ensures IsKthLargest(row, k, KthLargest(row, k))
  {
    var s := SortDescending(row);
    SortSorted(row);
    MinOfSorted(s[..k]);
    var t := s[k - 1];
    assert KthLargest(row, k) == t;
    SortCount(row, AtLeast(t));
    SortCount(row, Above(t));
    CountSplit(s, k, AtLeast(t));
    CountAll(s[..k], AtLeast(t));
    CountSplit(s, k - 1, Above(t));
    CountNone(s[k - 1..], Above(t));
  }

  /** At most one value is the k-th largest. */
  lemma KthLargestUnique(row: seq<ExtReal>, k: nat, t1: ExtReal, t2: ExtReal)
    requires IsKthLargest(row, k, t1) && IsKthLargest(row, k, t2)
    ensures t1 == t2
  {
    if Gt(t2, t1) {
      CountMonotone(row, AtLeast(t2), Above(t1));
    } else if Gt(t1, t2) {
      CountMonotone(row, AtLeast(t1), Above(t2));
    }
  }

  /** `my_top_k` on one row: `torch.where(x >= val_min, x, -inf)`. */
  function TopKRow(row: seq<ExtReal>, k: nat): (r: seq<ExtReal>)
    requires 1 <= k <= |row|
    ensures |r| == |row|
  {
    var t := KthLargest(row, k);
    seq(|row|, i requires 0 <= i < |row| => if Ge(row[i], t) then row[i] else NegInf)
  }

  /** Threshold shape: every output entry is its input or `-inf`, and an entry
      is kept exactly when it is at or above the k-th largest of its row. */
  lemma TopKRowKeeps(row: seq<ExtReal>, k: nat, t: ExtReal)
    requires 1 <= k <= |row| && IsKthLargest(row, k, t)
    ensures forall i :: 0 <= i < |row| ==>
      TopKRow(row, k)[i] == (if Ge(row[i], t) then row[i] else NegInf)
  {
    KthLargestSpec(row, k);
    KthLargestUnique(row, k, t, KthLargest(row, k));
  }

  /** At least k entries are kept: the kept entries are those at or above the
      threshold, and there are at least k of them. */
  lemma TopKRowKeepsAtLeastK(row: seq<ExtReal>, k: nat)
    requires 1 <= k <= |row|
    ensures Count(row, AtLeast(KthLargest(row, k))) >= k
  {
    KthLargestSpec(row, k);
  }

  /** Without ties the rule keeps exactly k entries. */
  lemma TopKRowDistinct(row: seq<ExtReal>, k: nat)
    requires 1 <= k <= |row|
    requires forall i, j :: 0 <= i < j < |row| ==> row[i] != row[j]
    ensures Count(row, AtLeast(KthLargest(row, k))) == k
  {
    var t := KthLargest(row, k);
    KthLargestSpec(row, k);
    AtLeastIsAboveOrOne(row, t);
  }

  /** In a row without repeated values, at most one entry equals `t`. */
  lemma {:induction false} AtLeastIsAboveOrOne(row: seq<ExtReal>, t: ExtReal)
    requires forall i, j :: 0 <= i < j < |row| ==> row[i] != row[j]
    ensures Count(row, AtLeast(t)) <= Count(row, Above(t)) + 1
  {
    if row != [] {
      AtLeastIsAboveOrOne(row[1..], t);
      if row[0] == t {
        assert forall i :: 0 <= i < |row[1..]| ==> row[1..][i] != t by {
          forall i | 0 <= i < |row[1..]| ensures row[1..][i] != t {
            assert row[1..][i] == row[i + 1];
          }
        }
        CountPointwise(row[1..], AtLeast(t), row[1..], Above(t));
      }
    }
  }

  /** Ties at the threshold: with k = 1 and the two largest scores equal,
      two entries survive. */
  lemma TiesKeepMoreThanK()
    ensures TopKRow([Fin(5.0), Fin(5.0), Fin(3.0), Fin(3.0)], 1)
         == [Fin(5.0), Fin(5.0), NegInf, NegInf]
  {
    var row := [Fin(5.0), Fin(5.0), Fin(3.0), Fin(3.0)];
    var t := Fin(5.0);
    CountNone(row, Above(t));
    assert row[..2] == [Fin(5.0), Fin(5.0)];
    CountSplit(row, 2, AtLeast(t));
    CountAll(row[..2], AtLeast(t));
    assert IsKthLargest(row, 1, t);
    TopKRowKeeps(row, 1, t);
  }

  /** In a descending sequence the first n entries are all at or above the
      n-th. */
  lemma SortedPrefixAtLeast(s: seq<ExtReal>, n: nat)
    requires SortedDescending(s) && 0 < n <= |s|
    ensures Count(s[..n], AtLeast(s[n - 1])) == n
  {
    var u := s[..n];
    forall i | 0 <= i < |u| ensures Ge(u[i], s[n - 1]) {
      assert u[i] == s[i];
      if i < n - 1 { assert Ge(s[i], s[n - 1]); }
    }
    CountAll(u, AtLeast(s[n - 1]));
  }

  /** Ties straddling rank k: when the k-th and the (k+1)-th largest values
      are equal, more than k entries reach the threshold and survive. */
  lemma {:induction false} TiesAtRankKeepMoreThanK(row: seq<ExtReal>, k: nat)
    requires 1 <= k < |row|
    requires SortDescending(row)[k] == SortDescending(row)[k - 1]
    ensures Count(row, AtLeast(KthLargest(row, k))) > k
  {
    var s := SortDescending(row);
    SortSorted(row);
    MinOfSorted(s[..k]);
    var t := s[k];
    assert KthLargest(row, k) == t;
    SortCount(row, AtLeast(t));
    SortedPrefixAtLeast(s, k + 1);
    CountSplit(s, k + 1, AtLeast(t));
  }

  /** When the row has fewer than k finite entries the threshold is `-inf` and
      the row comes back unchanged. */
  lemma TopKRowTooFewFinite(row: seq<ExtReal>, k: nat)
    requires 1 <= k <= |row| && Count(row, Finite) < k
    ensures KthLargest(row, k) == NegInf
    ensures TopKRow(row, k) == row
  {
    var t := KthLargest(row, k);
    KthLargestSpec(row, k);
    if t.Fin? {
      CountMonotone(row, AtLeast(t), Finite);
    }
  }

  /** Applying the rule twice is the same as applying it once. */
  lemma TopKRowIdempotent(row: seq<ExtReal>, k: nat)
    requires 1 <= k <= |row|
    ensures TopKRow(TopKRow(row, k), k) == TopKRow(row, k)
  {
    var t := KthLargest(row, k);
    var r := TopKRow(row, k);
    KthLargestSpec(row, k);
    CountPointwise(r, AtLeast(t), row, AtLeast(t));
    CountPointwise(r, Above(t), row, Above(t));
    assert IsKthLargest(r, k, t);
    TopKRowKeeps(r, k, t);
  }

  // ---------------------------------------------------------------------
  // The pseudo-label of `gen_top_k_label`.

  /** `torch.where(selected > 0, 1, 0)` on one row. */
  function LabelRow(selected: seq<ExtReal>): (labels: seq<real>)
    ensures |labels| == |selected|
    ensures forall i :: 0 <= i < |selected| ==>
      (labels[i] == 1.0 <==> IsPositive(selected[i])) && (labels[i] == 0.0 || labels[i] == 1.0)
  {
    seq(|selected|, i requires 0 <= i < |selected| => if IsPositive(selected[i]) then 1.0 else 0.0)
  }

  /** Number of ones in a label row. */
  function Ones(labels: seq<real>): (c: nat)
    ensures c <= |labels|
  {
    if labels == [] then 0 else (if labels[0] == 1.0 then 1 else 0) + Ones(labels[1..])
  }

  lemma {:induction false} OnesOfLabels(labels: seq<real>, selected: seq<ExtReal>)
    requires |labels| == |selected|
    requires forall i :: 0 <= i < |labels| ==> (labels[i] == 1.0 <==> IsPositive(selected[i]))
    ensures Ones(labels) == Count(selected, Positive)
  {
    if labels != [] {
      assert labels[0] == 1.0 <==> IsPositive(selected[0]);
      OnesOfLabels(labels[1..], selected[1..]);
    }
  }

  /** Per row, the pseudo-label has at most as many ones as there are positive
      scores, and at least `min(k, that number)`: every positive score
      survives when there are fewer than k of them, and at least k survive
      otherwise. */
  lemma LabelRowOnes(row: seq<ExtReal>, k: nat)
    requires 1 <= k <= |row|
    ensures Ones(LabelRow(TopKRow(row, k))) <= Count(row, Positive)
    ensures Ones(LabelRow(TopKRow(row, k))) >= if k < Count(row, Positive) then k else Count(row, Positive)
  {
    var t := KthLargest(row, k);
    var r := TopKRow(row, k);
    var p := Count(row, Positive);
    OnesOfLabels(LabelRow(r), r);
    KthLargestSpec(row, k);
    // The positive survivors are the entries of `row` that are positive and
    // at least `t`.
    CountPointwise(r, Positive, row, if IsPositive(t) then AtLeast(t) else Positive);
    if IsPositive(t) {
      CountMonotone(row, AtLeast(t), Positive);
    } else {
      // A non-positive threshold: every positive entry is above it, so there
      // are fewer than k positive entries, and all of them survive.
      CountMonotone(row, Positive, Above(t));
    }
  }

  /** A row with one strict, positive maximum and k = 1 gets exactly one
      pseudo-label, at the maximum. */
  lemma LabelRowStrictMaximum(row: seq<ExtReal>, j: nat)
    requires j < |row| && IsPositive(row[j])
    requires forall i :: 0 <= i < |row| && i != j ==> Gt(row[j], row[i])
    ensures LabelRow(TopKRow(row, 1))[j] == 1.0
    ensures forall i :: 0 <= i < |row| && i != j ==> LabelRow(TopKRow(row, 1))[i] == 0.0
    ensures Ones(LabelRow(TopKRow(row, 1))) == 1
  {
    var t := row[j];
    CountNone(row, Above(t));
    assert Holds(AtLeast(t), row[j]);
    assert Count(row, AtLeast(t)) >= 1 by {
      CountSplit(row, j, AtLeast(t));
      assert row[j..][0] == row[j];
    }
    assert IsKthLargest(row, 1, t);
    TopKRowKeeps(row, 1, t);
    var r := TopKRow(row, 1);
    OnesOfLabels(LabelRow(r), r);
    CountSplit(r, j, Positive);
    CountNone(r[..j], Positive);
    assert r[j..] == [r[j]] + r[j + 1..];
    assert r[j..][1..] == r[j + 1..];
    CountNone(r[j + 1..], Positive);
  }
}
