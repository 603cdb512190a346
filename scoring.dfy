/** The scoring law shared by both versions of `Player.get_score`, and the
    winner marking shared by both versions of `Table.score`.

    A hand is sorted (Python's `sorted`), split into maximal runs of
    consecutive values, and the lowest card of every run is added up; the
    tokens held are subtracted. Both versions compute this by one pass over
    the sorted hand; `RunLowSum` and `RunCount` are what that pass computes,
    and `LowSum` is an independent statement of the law that does not sort:
    a card is the lowest of its run exactly when its predecessor is not held. */
module Scoring {
  import opened Common

  predicate Sorted(s: seq<int>) {
    forall i, j :: 0 <= i < j < |s| ==> s[i] <= s[j]
  }

  lemma SortedHeadLeast(a: seq<int>)
    requires Sorted(a) && a != []
    ensures forall x :: x in multiset(a) ==> a[0] <= x
  {
    forall x | x in multiset(a) ensures a[0] <= x {
      assert x in a;
    }
  }

  lemma MultisetTail(a: seq<int>)
    requires a != []
    ensures multiset(a[1..]) == multiset(a) - multiset{a[0]}
  {
    assert a == [a[0]] + a[1..];
  }

  /** A value no larger than any element can go in front of a sorted sequence. */
  lemma ConsSorted(y: int, t: seq<int>)
    requires Sorted(t)
    requires forall k :: 0 <= k < |t| ==> y <= t[k]
    ensures Sorted([y] + t)
  {
    var u := [y] + t;
    forall i, j | 0 <= i < j < |u| ensures u[i] <= u[j] {
      assert u[j] == t[j - 1];
      if i > 0 {
        assert u[i] == t[i - 1];
      }
    }
  }

  /** Insertion of `x` into a sorted sequence, before the first element not below it. */
  function Insert(x: int, s: seq<int>): (r: seq<int>)
    ensures |r| == |s| + 1
  {
    if s == [] || x <= s[0] then [x] + s
    else [s[0]] + Insert(x, s[1..])
  }

  lemma {:induction false} InsertSorted(x: int, s: seq<int>)
    requires Sorted(s)
    ensures Sorted(Insert(x, s))
    ensures multiset(Insert(x, s)) == multiset(s) + multiset{x}
  {
    assert s != [] ==> s == [s[0]] + s[1..];
    if s == [] || x <= s[0] {
      ConsSorted(x, s);
    } else {
      var r' := Insert(x, s[1..]);
      InsertSorted(x, s[1..]);
      SortedHeadLeast(s);
      MultisetTail(s);
      forall k | 0 <= k < |r'| ensures s[0] <= r'[k] {
        assert r'[k] in multiset(r');
      }
      ConsSorted(s[0], r');
    }
  }

  /** Python's `sorted` on a hand of cards. */
  function Sort(s: seq<int>): (r: seq<int>)
    ensures Sorted(r)
    ensures multiset(r) == multiset(s)
  {
    if s == [] then []
    else
      assert s == [s[0]] + s[1..];
      InsertSorted(s[0], Sort(s[1..]));
      Insert(s[0], Sort(s[1..]))
  }

  /** Two sorted sequences with the same elements are equal. */
  lemma {:induction false} SortedUnique(a: seq<int>, b: seq<int>)
    requires Sorted(a) && Sorted(b)
    requires multiset(a) == multiset(b)
    ensures a == b
  {
    assert |a| == |multiset(a)| == |b|;
    if a != [] {
      assert a[0] == b[0] by {
        assert a[0] in multiset(a) && b[0] in multiset(b);
        SortedHeadLeast(a);
        SortedHeadLeast(b);
      }
      assert multiset(a[1..]) == multiset(b[1..]) by {
        MultisetTail(a);
        MultisetTail(b);
      }
      SortedUnique(a[1..], b[1..]);
      assert a == [a[0]] + a[1..] && b == [b[0]] + b[1..];
    }
  }

  /** Position `i` of the sorted hand opens a new run: the test
      `current > prev + 1` of `get_score`. */
  predicate IsRunStart(s: seq<int>, i: int)
    requires 0 <= i < |s|
  {
    i == 0 || s[i] > s[i - 1] + 1
  }

  /** Sum of the first card of every run of a sorted hand. */
  function RunLowSum(s: seq<int>): int {
    if s == [] then 0
    else RunLowSum(s[..|s| - 1]) + (if IsRunStart(s, |s| - 1) then s[|s| - 1] else 0)
  }

  /** Number of runs of a sorted hand. */
  function RunCount(s: seq<int>): nat {
    if s == [] then 0
    else RunCount(s[..|s| - 1]) + (if IsRunStart(s, |s| - 1) then 1 else 0)
  }

  lemma RunPrefixStep(s: seq<int>, k: nat)
    requires k < |s|
    ensures RunLowSum(s[..k + 1]) == RunLowSum(s[..k]) + (if IsRunStart(s, k) then s[k] else 0)
    ensures RunCount(s[..k + 1]) == RunCount(s[..k]) + (if IsRunStart(s, k) then 1 else 0)
  {
    assert s[..k + 1][..k] == s[..k];
  }

  /** A non-empty hand has at least one run and no more runs than cards. */
  lemma {:induction false} RunCountBounds(s: seq<int>)
    requires |s| >= 1
    ensures 1 <= RunCount(s) <= |s|
  {
    if |s| > 1 {
      RunCountBounds(s[..|s| - 1]);
    }
  }

  /** The score `get_score` stores: 0 for an empty hand, whatever the tokens. */
  function HandScore(cards: seq<int>, tokens: int): int {
    if |cards| == 0 then 0 else RunLowSum(Sort(cards)) - tokens
  }

  /** The `num_runs` that `get_score` stores. */
  function HandRuns(cards: seq<int>): nat {
    if |cards| == 0 then 0 else RunCount(Sort(cards))
  }

  /** The score depends on which cards are held, not on the order they were taken in. */
  lemma ScoreIgnoresOrder(a: seq<int>, b: seq<int>, tokens: int)
    requires multiset(a) == multiset(b)
    ensures HandScore(a, tokens) == HandScore(b, tokens)
    ensures HandRuns(a) == HandRuns(b)
  {
    assert |a| == |multiset(a)| == |b|;
    SortedUnique(Sort(a), Sort(b));
  }

  /** A non-empty hand has at least one run and at most one run per card. */
  lemma HandRunsBounds(cards: seq<int>)
    requires |cards| > 0
    ensures 1 <= HandRuns(cards) <= |cards|
  {
    assert |Sort(cards)| == |multiset(cards)| == |cards|;
    RunCountBounds(Sort(cards));
  }

  /** What card `x` adds to the run sum of a hand whose cards are `held`. */
  function Worth(x: int, held: seq<int>): int {
    if x - 1 in held then 0 else x
  }

  function LowSumIn(s: seq<int>, held: seq<int>): int {
    if s == [] then 0 else LowSumIn(s[..|s| - 1], held) + Worth(s[|s| - 1], held)
  }

  /** The scoring law without sorting: the sum of the held cards whose
      predecessor is not held, i.e. of the lowest card of every maximal run. */
  function LowSum(hand: seq<int>): int {
    LowSumIn(hand, hand)
  }

  lemma {:induction false} LowSumConcat(a: seq<int>, b: seq<int>, held: seq<int>)
    ensures LowSumIn(a + b, held) == LowSumIn(a, held) + LowSumIn(b, held)
    decreases |b|
  {
    if b == [] {
      assert a + b == a;
    } else {
      assert (a + b)[..|a + b| - 1] == a + b[..|b| - 1];
      LowSumConcat(a, b[..|b| - 1], held);
    }
  }

  lemma {:induction false} LowSumPermutation(s: seq<int>, t: seq<int>, held: seq<int>)
    requires multiset(s) == multiset(t)
    ensures LowSumIn(s, held) == LowSumIn(t, held)
    decreases |s|
  {
    assert |s| == |multiset(s)| == |t|;
    if s != [] {
      var x := s[|s| - 1];
      var s' := s[..|s| - 1];
      assert s == s' + [x];
      assert x in multiset(t);
      var k :| 0 <= k < |t| && t[k] == x;
      var t' := t[..k] + t[k + 1..];
      assert t == t[..k] + [x] + t[k + 1..];
      assert multiset(t) == multiset(t[..k]) + multiset{x} + multiset(t[k + 1..]);
      assert multiset(s) == multiset(s') + multiset{x};
      assert multiset(t') == multiset(t[..k]) + multiset(t[k + 1..]);
      assert multiset(t') == multiset(t) - multiset{x};
      assert multiset(s') == multiset(s) - multiset{x};
      assert multiset(s') == multiset(t');
      LowSumPermutation(s', t', held);
      LowSumConcat(t[..k] + [x], t[k + 1..], held);
      LowSumConcat(t[..k], [x], held);
      LowSumConcat(t[..k], t[k + 1..], held);
      assert LowSumIn([x], held) == Worth(x, held) by {
        assert [x][..0] == [];
      }
    }
  }

  lemma {:induction false} LowSumSameMembers(s: seq<int>, h1: seq<int>, h2: seq<int>)
    requires forall x :: x in h1 <==> x in h2
    ensures LowSumIn(s, h1) == LowSumIn(s, h2)
    decreases |s|
  {
    if s != [] {
      LowSumSameMembers(s[..|s| - 1], h1, h2);
    }
  }

  /** In a sorted hand without repeats, a position opens a run exactly when
      the card below it is not held. */
  lemma RunStartIffNoPredecessor(s: seq<int>, k: nat)
    requires Sorted(s) && Distinct(s) && k < |s|
    ensures IsRunStart(s, k) <==> s[k] - 1 !in s
  {
    assert forall i, j :: 0 <= i < j < |s| ==> s[i] < s[j];
    if k > 0 && !IsRunStart(s, k) {
      assert s[k - 1] == s[k] - 1;
    }
  }

  lemma {:induction false} RunLowPrefix(s: seq<int>, k: nat)
    requires Sorted(s) && Distinct(s) && k <= |s|
    ensures RunLowSum(s[..k]) == LowSumIn(s[..k], s)
  {
    if k > 0 {
      RunLowPrefix(s, k - 1);
      RunPrefixStep(s, k - 1);
      RunStartIffNoPredecessor(s, k - 1);
      assert s[..k][..k - 1] == s[..k - 1];
    }
  }

  /** For a hand without repeated cards, the one-pass sum over the sorted
      hand equals the sum of the lowest card of every maximal run. */
  lemma ScoreIsSumOfRunLows(cards: seq<int>, tokens: int)
    requires Distinct(cards) && |cards| > 0
    ensures HandScore(cards, tokens) == LowSum(cards) - tokens
  {
    var s := Sort(cards);
    DistinctPermutation(cards, s);
    RunLowPrefix(s, |s|);
    assert s[..|s|] == s;
    assert forall x :: x in s <==> x in cards by {
      assert forall x :: x in s <==> x in multiset(s);
    }
    LowSumSameMembers(s, s, cards);
    LowSumPermutation(s, cards, cards);
  }

  // ---------------------------------------------------------------------
  // Winner marking

  function Min(s: seq<int>): (m: int)
    requires |s| > 0
    ensures m in s
    ensures forall i :: 0 <= i < |s| ==> m <= s[i]
  {
    if |s| == 1 then s[0]
    else
      var m' := Min(s[1..]);
      assert forall i :: 1 <= i < |s| ==> s[1..][i - 1] == s[i];
      if s[0] <= m' then s[0] else m'
  }

  /** The `win` flags after `Table.score`: every player whose score equals the
      lowest gets 1, and when more than one did, every flag of 1 becomes 2.
      `wins` holds the flags before the call; other flags are not reset. */
  function MarkWinners(scores: seq<int>, wins: seq<int>): (r: seq<int>)
    requires |scores| > 0 && |wins| == |scores|
    ensures |r| == |scores|
  {
    var low := Min(scores);
    var tied := Count(scores, low) > 1;
    seq(|scores|, i requires 0 <= i < |scores| =>
      var marked := if scores[i] == low then 1 else wins[i];
      if tied && marked == 1 then 2 else marked)
  }

  /** One flag of `MarkWinners`. */
  lemma MarkWinnersAt(scores: seq<int>, wins: seq<int>, i: nat)
    requires |scores| > 0 && |wins| == |scores| && i < |scores|
    ensures var marked := if scores[i] == Min(scores) then 1 else wins[i];
      MarkWinners(scores, wins)[i] == if Count(scores, Min(scores)) > 1 && marked == 1 then 2 else marked
  {
  }

  lemma CountAbove(s: seq<int>, i: nat)
    requires i < |s|
    ensures Count(s, s[i]) > 1 <==> exists j :: 0 <= j < |s| && j != i && s[j] == s[i]
  {
    var x := s[i];
    CountIsMultiplicity(s, x);
    assert s == s[..i] + [x] + s[i + 1..];
    assert multiset(s)[x] == multiset(s[..i])[x] + 1 + multiset(s[i + 1..])[x];
    if Count(s, x) > 1 {
      if multiset(s[..i])[x] > 0 {
        assert x in s[..i];
        var j :| 0 <= j < i && s[..i][j] == x;
        assert s[j] == x;
      } else {
        assert x in s[i + 1..];
        var j :| 0 <= j < |s| - i - 1 && s[i + 1..][j] == x;
        assert s[i + 1 + j] == x;
      }
    } else {
      forall j | 0 <= j < |s| && j != i ensures s[j] != x {
        if j < i {
          assert s[j] == s[..i][j];
        } else {
          assert s[j] == s[i + 1..][j - i - 1];
        }
      }
    }
  }

  /** On a fresh table (all flags 0): a unique lowest scorer gets 1, every
      player tied at the lowest score gets 2, and everyone else keeps 0. */
  lemma WinnersAreTheLowest(scores: seq<int>, wins: seq<int>)
    requires |scores| > 0 && |wins| == |scores|
    requires forall i :: 0 <= i < |wins| ==> wins[i] == 0
    ensures forall i :: 0 <= i < |scores| ==>
      (MarkWinners(scores, wins)[i] == 1 <==> forall j :: 0 <= j < |scores| && j != i ==> scores[i] < scores[j])
    ensures forall i :: 0 <= i < |scores| ==>
      (MarkWinners(scores, wins)[i] == 2 <==>
         (forall j :: 0 <= j < |scores| ==> scores[i] <= scores[j]) &&
         exists j :: 0 <= j < |scores| && j != i && scores[j] == scores[i])
    ensures forall i :: 0 <= i < |scores| ==>
      (MarkWinners(scores, wins)[i] == 0 <==> exists j :: 0 <= j < |scores| && scores[j] < scores[i])
  {
    var low := Min(scores);
    var r := MarkWinners(scores, wins);
    forall i | 0 <= i < |scores|
      ensures r[i] == 1 <==> forall j :: 0 <= j < |scores| && j != i ==> scores[i] < scores[j]
      ensures r[i] == 2 <==> (forall j :: 0 <= j < |scores| ==> scores[i] <= scores[j]) &&
                             exists j :: 0 <= j < |scores| && j != i && scores[j] == scores[i]
      ensures r[i] == 0 <==> exists j :: 0 <= j < |scores| && scores[j] < scores[i]
    {
      var k :| 0 <= k < |scores| && scores[k] == low;
      CountAbove(scores, k);
      if scores[i] == low {
        CountAbove(scores, i);
      } else {
        assert scores[k] < scores[i];
      }
    }
  }
}
