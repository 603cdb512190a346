/** Card sequences: the consecutive range a deck is built from, Python's
    `list.remove`, and the shuffle with its random choices made explicit.

    `random.choice(self.cards)` is modelled by an index into the cards still
    to be shuffled: `picks[i]` is the position chosen in round `i`, so it must
    lie below the number of cards left in that round. */
module Cards {
  import opened Common

  /** The `n` consecutive values starting at `lo`. */
  function Range(lo: int, n: nat): (r: seq<int>)
    ensures |r| == n
    ensures forall i :: 0 <= i < n ==> r[i] == lo + i
  {
    if n == 0 then [] else Range(lo, n - 1) + [lo + n - 1]
  }

  lemma RangeDistinct(lo: int, n: nat)
    ensures Distinct(Range(lo, n))
  {
  }

  /** Python's `list.remove(x)`: drop the first occurrence of `x`. */
  function RemoveFirst(s: seq<int>, x: int): (r: seq<int>)
    requires x in s
    ensures |r| == |s| - 1
  {
    if s[0] == x then
      assert s == [s[0]] + s[1..];
      s[1..]
    else
      assert s == [s[0]] + s[1..];
      [s[0]] + RemoveFirst(s[1..], x)
  }

  /** `RemoveFirst` takes away exactly one copy of `x`. */
  lemma {:induction false} RemoveFirstMultiset(s: seq<int>, x: int)
    requires x in s
    ensures multiset(RemoveFirst(s, x)) == multiset(s) - multiset{x}
  {
    assert s == [s[0]] + s[1..];
    if s[0] != x {
      RemoveFirstMultiset(s[1..], x);
    }
  }

  /** Position of the first occurrence of `x`. */
  function IndexOf(s: seq<int>, x: int): (k: nat)
    requires x in s
    ensures k < |s| && s[k] == x
    ensures forall j :: 0 <= j < k ==> s[j] != x
  {
    if s[0] == x then 0 else 1 + IndexOf(s[1..], x)
  }

  /** `picks` supplies one legal choice for each of the `n` shuffle rounds:
      in round `i` an index below the `n - i` cards still left. */
  predicate ValidPicks(picks: seq<nat>, n: int)
    decreases if n < 0 then 0 else n
  {
    n <= 0 || (|picks| > 0 && picks[0] < n && ValidPicks(picks[1..], n - 1))
  }

  /** The order `Deck.shuffle` produces: in each round the chosen card is
      removed from the old list and appended to the new one. */
  function ShuffleOf(s: seq<int>, picks: seq<nat>): (r: seq<int>)
    requires ValidPicks(picks, |s|)
    ensures |r| == |s|
    decreases |s|
  {
    if |s| == 0 then []
    else
      var j := s[picks[0]];
      [j] + ShuffleOf(RemoveFirst(s, j), picks[1..])
  }

  /** One round of the shuffle: the picked card goes first, the rest of the
      cards are shuffled with the remaining choices. */
  lemma ShuffleStep(s: seq<int>, picks: seq<nat>)
    requires |s| > 0 && ValidPicks(picks, |s|)
    ensures |picks| > 0 && picks[0] < |s|
    ensures ValidPicks(picks[1..], |s| - 1)
    ensures ShuffleOf(s, picks) == [s[picks[0]]] + ShuffleOf(RemoveFirst(s, s[picks[0]]), picks[1..])
  {
  }

  /** The shuffle neither loses nor invents cards. */
  lemma {:induction false} ShufflePermutes(s: seq<int>, picks: seq<nat>)
    requires ValidPicks(picks, |s|)
    ensures multiset(ShuffleOf(s, picks)) == multiset(s)
    decreases |s|
  {
    if |s| > 0 {
      ShuffleStep(s, picks);
      var j := s[picks[0]];
      var rest := RemoveFirst(s, j);
      var tail := ShuffleOf(rest, picks[1..]);
      assert multiset(s) == multiset(rest) + multiset{j} by {
        RemoveFirstMultiset(s, j);
        assert j in multiset(s);
      }
      ShufflePermutes(rest, picks[1..]);
      assert multiset([j] + tail) == multiset{j} + multiset(tail);
    }
  }

  /** The choices that make the shuffle of `s` come out as `t`: in each round,
      the position of the next card of `t` among the cards left. */
  function PicksFor(s: seq<int>, t: seq<int>): (picks: seq<nat>)
    requires multiset(s) == multiset(t)
    ensures |picks| == |s|
    decreases |s|
  {
    assert |s| == |multiset(s)| == |t|;
    if |s| == 0 then []
    else
      assert t[0] in multiset(s);
      assert t == [t[0]] + t[1..];
      RemoveFirstMultiset(s, t[0]);
      [IndexOf(s, t[0])] + PicksFor(RemoveFirst(s, t[0]), t[1..])
  }

  lemma {:induction false} PicksForShuffle(s: seq<int>, t: seq<int>)
    requires multiset(s) == multiset(t)
    ensures ValidPicks(PicksFor(s, t), |s|)
    ensures ShuffleOf(s, PicksFor(s, t)) == t
    decreases |s|
  {
    assert |s| == |multiset(s)| == |t|;
    if |s| > 0 {
      assert t[0] in multiset(s);
      assert t == [t[0]] + t[1..];
      var rest := RemoveFirst(s, t[0]);
      RemoveFirstMultiset(s, t[0]);
      PicksForShuffle(rest, t[1..]);
      var picks := PicksFor(s, t);
      assert picks[1..] == PicksFor(rest, t[1..]);
    }
  }

  /** Every rearrangement of the cards is the outcome of some sequence of
      random choices: the shuffle can produce any permutation. */
  lemma EveryPermutationReachable(s: seq<int>, t: seq<int>)
    requires multiset(s) == multiset(t)
    ensures exists picks :: ValidPicks(picks, |s|) && ShuffleOf(s, picks) == t
  {
    PicksForShuffle(s, t);
  }
  /** The cards of all hands together. */
  function Gathered(hands: seq<seq<int>>): multiset<int>
    decreases |hands|
  {
    if hands == [] then multiset{} else Gathered(hands[..|hands| - 1]) + multiset(hands[|hands| - 1])
  }

  /** Empty hands gather no card. */
  lemma {:induction false} GatheredEmpty(hands: seq<seq<int>>)
    requires forall i :: 0 <= i < |hands| ==> hands[i] == []
    ensures Gathered(hands) == multiset{}
  {
    if hands != [] {
      var n := |hands| - 1;
      assert forall i :: 0 <= i < n ==> hands[..n][i] == hands[i];
      GatheredEmpty(hands[..n]);
    }
  }

  /** Every hand is part of the cards gathered. */
  lemma {:induction false} GatheredHolds(hands: seq<seq<int>>, i: nat)
    requires i < |hands|
    ensures multiset(hands[i]) <= Gathered(hands)
  {
    var n := |hands| - 1;
    if i < n {
      assert hands[..n][i] == hands[i];
      GatheredHolds(hands[..n], i);
    }
  }

  /** A card added to one hand is added to the cards gathered. */
  lemma {:induction false} GatheredAdd(hands: seq<seq<int>>, k: nat, c: int)
    requires k < |hands|
    ensures Gathered(hands[k := hands[k] + [c]]) == Gathered(hands) + multiset{c}
  {
    var longer := hands[k := hands[k] + [c]];
    var n := |hands| - 1;
    if k == n {
      assert longer[..n] == hands[..n];
    } else {
      assert longer[..n] == hands[..n][k := hands[k] + [c]];
      GatheredAdd(hands[..n], k, c);
    }
  }

  /** Two different hands are both part of the cards gathered. */
  lemma {:induction false} GatheredPair(hands: seq<seq<int>>, i: nat, j: nat)
    requires i < j < |hands|
    ensures multiset(hands[i]) + multiset(hands[j]) <= Gathered(hands)
  {
    var n := |hands| - 1;
    assert hands[..n][i] == hands[i];
    if j < n {
      assert hands[..n][j] == hands[j];
      GatheredPair(hands[..n], i, j);
    } else {
      GatheredHolds(hands[..n], i);
    }
  }

  /** When the cards dealt are one copy each and consist of the `rest` and
      the hands, no card is in two places: a hand holds different cards, a
      card of the rest is in no hand, and no card is in two hands. */
  lemma HeldOnce(rest: multiset<int>, hands: seq<seq<int>>, dealt: multiset<int>)
    requires rest + Gathered(hands) == dealt
    requires forall c :: dealt[c] <= 1
    ensures forall i :: 0 <= i < |hands| ==> Distinct(hands[i])
    ensures forall i, c :: 0 <= i < |hands| && c in rest ==> c !in hands[i]
    ensures forall i, j, c :: 0 <= i < j < |hands| && c in hands[i] ==> c !in hands[j]
  {
    forall i | 0 <= i < |hands| ensures Distinct(hands[i]) {
      GatheredHolds(hands, i);
      DistinctIffSingleCopies(hands[i]);
      assert forall x :: multiset(hands[i])[x] <= dealt[x];
    }
    forall i, c | 0 <= i < |hands| && c in rest ensures c !in hands[i] {
      GatheredHolds(hands, i);
      assert rest[c] + multiset(hands[i])[c] <= dealt[c];
    }
    forall i, j, c | 0 <= i < j < |hands| && c in hands[i] ensures c !in hands[j] {
      GatheredPair(hands, i, j);
      assert multiset(hands[i])[c] + multiset(hands[j])[c] <= dealt[c];
    }
  }

  /** Moving card `c` from the rest into hand `k` keeps every card. */
  lemma TakenKept(rest: multiset<int>, c: int, hands: seq<seq<int>>, k: nat, dealt: multiset<int>)
    requires k < |hands|
    requires rest + multiset{c} + Gathered(hands) == dealt
    ensures rest + Gathered(hands[k := hands[k] + [c]]) == dealt
  {
    GatheredAdd(hands, k, c);
  }

  /** Turning up the first card of the deck keeps every card; an empty deck
      turns up nothing. */
  lemma DrawnKept(deck: seq<int>, rest: multiset<int>, dealt: multiset<int>)
    requires multiset(deck) + rest == dealt
    ensures deck != [] ==> multiset(deck[1..]) + multiset{deck[0]} + rest == dealt
    ensures deck == [] ==> multiset(deck) + multiset{} + rest == dealt
  {
    if deck != [] {
      assert deck == [deck[0]] + deck[1..];
    }
  }
}
