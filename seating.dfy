/** Seat validation of `Table.__init__` (identical in both versions): the
    positions of the user-supplied players are checked against the number of
    players, then every free seat is filled with a computer player.

    As written, the duplicate scan is `for i in range(4)`, so two players at
    position 4 are not caught (`SeatErrorAsWritten`, `DuplicateAtFourSlipsThrough`).
    The tables of this model use `SeatError`, which scans all five positions. */
module Seating {
  import opened Common
  import Scoring

  function Max(s: seq<int>): (m: int)
    requires |s| > 0
    ensures m in s
    ensures forall i :: 0 <= i < |s| ==> s[i] <= m
  {
    if |s| == 1 then s[0]
    else
      var m' := Max(s[1..]);
      assert forall i :: 1 <= i < |s| ==> s[1..][i - 1] == s[i];
      if s[0] >= m' then s[0] else m'
  }

  /** Round `k` of the counting loop raises no error. */
  predicate SeatOk(given: seq<int>, numPlayers: int, k: int) {
    Count(given, k) <= 1 && (Count(given, k) > 0 ==> k < numPlayers)
  }

  /** The rounds `i = from .. upto - 1` of the counting loop. */
  function ScanSeats(given: seq<int>, numPlayers: int, from: nat, upto: nat): (r: Option<Exit>)
    ensures r.None? <==> forall k :: from <= k < upto ==> SeatOk(given, numPlayers, k)
    ensures r == None || r == Some(DuplicateSeats) || r == Some(SeatOutOfBounds)
    decreases upto - from
  {
    if from >= upto then None
    else if Count(given, from) > 1 then
      assert !SeatOk(given, numPlayers, from);
      Some(DuplicateSeats)
    else if Count(given, from) > 0 && from >= numPlayers then
      assert !SeatOk(given, numPlayers, from);
      Some(SeatOutOfBounds)
    else ScanSeats(given, numPlayers, from + 1, upto)
  }

  /** The checks in the order the source makes them, scanning positions below `upto`. */
  function SeatCheck(given: seq<int>, numPlayers: int, upto: nat): Option<Exit> {
    if numPlayers > 5 then Some(TooManyPlayers)
    else if |given| == 0 then None
    else if Max(given) >= numPlayers || Scoring.Min(given) < 0 then Some(SeatOutOfBounds)
    else ScanSeats(given, numPlayers, 0, upto)
  }

  /** The check as the source writes it: duplicates among positions 0..3 only. */
  function SeatErrorAsWritten(given: seq<int>, numPlayers: int): Option<Exit> {
    SeatCheck(given, numPlayers, 4)
  }

  /** The check as evidently intended: duplicates at any position. */
  function SeatError(given: seq<int>, numPlayers: int): Option<Exit> {
    SeatCheck(given, numPlayers, 5)
  }

  /** The free seats, in the order `add_player` fills them. */
  function MissingSeats(given: seq<int>, n: nat): (r: seq<int>)
    ensures forall p :: p in r <==> 0 <= p < n && p !in given
    ensures forall i, j :: 0 <= i < j < |r| ==> r[i] < r[j]
  {
    if n == 0 then []
    else
      var r' := MissingSeats(given, n - 1);
      assert forall i :: 0 <= i < |r'| ==> r'[i] in r';
      r' + (if n - 1 in given then [] else [n - 1])
  }

  function TakenSeats(given: seq<int>, n: nat): (r: seq<int>)
    ensures forall p :: p in r <==> 0 <= p < n && p in given
    ensures forall i, j :: 0 <= i < j < |r| ==> r[i] < r[j]
    ensures |r| + |MissingSeats(given, n)| == n
  {
    if n == 0 then []
    else
      var r' := TakenSeats(given, n - 1);
      assert forall i :: 0 <= i < |r'| ==> r'[i] in r';
      r' + (if n - 1 in given then [n - 1] else [])
  }

  /** The corrected check accepts exactly the distinct positions in range,
      with at most five players. */
  lemma SeatErrorMeaning(given: seq<int>, numPlayers: int)
    ensures SeatError(given, numPlayers).None? <==>
      numPlayers <= 5 && Distinct(given) && forall i :: 0 <= i < |given| ==> 0 <= given[i] < numPlayers
  {
    DistinctIffSingleCopies(given);
    if SeatError(given, numPlayers).None? && |given| > 0 {
      var hi := Max(given);
      var lo := Scoring.Min(given);
      forall x ensures multiset(given)[x] <= 1 {
        if x in given {
          CountIsMultiplicity(given, x);
          assert 0 <= lo <= x <= hi < numPlayers <= 5;
          assert SeatOk(given, numPlayers, x);
        }
      }
    }
    if numPlayers <= 5 && Distinct(given) && (forall i :: 0 <= i < |given| ==> 0 <= given[i] < numPlayers) {
      if |given| > 0 {
        var hi := Max(given);
        var lo := Scoring.Min(given);
        forall k | 0 <= k < 5 ensures SeatOk(given, numPlayers, k) {
          CountIsMultiplicity(given, k);
          if Count(given, k) > 0 {
            assert k in multiset(given);
          }
        }
      }
    }
  }

  lemma DistinctSameMembers(a: seq<int>, b: seq<int>)
    requires Distinct(a) && Distinct(b)
    requires forall x :: x in a <==> x in b
    ensures |a| == |b|
  {
    DistinctIffSingleCopies(a);
    DistinctIffSingleCopies(b);
    assert multiset(a) == multiset(b) by {
      forall x ensures multiset(a)[x] == multiset(b)[x] {
        assert x in a <==> x in multiset(a);
        assert x in b <==> x in multiset(b);
      }
    }
    assert |a| == |multiset(a)| == |multiset(b)| == |b|;
  }

  /** With accepted positions, filling the free seats gives exactly
      `numPlayers` players. */
  lemma FillGivesAllSeats(given: seq<int>, numPlayers: nat)
    requires SeatError(given, numPlayers).None?
    ensures |given| + |MissingSeats(given, numPlayers)| == numPlayers
  {
    SeatErrorMeaning(given, numPlayers);
    var taken := TakenSeats(given, numPlayers);
    assert Distinct(taken);
    DistinctSameMembers(taken, given);
  }

  /** The scan as written misses two players both at position 4: five
      players are announced, the check passes, and filling the free seats
      0..3 seats six. The corrected check rejects the same input. */
  lemma DuplicateAtFourSlipsThrough()
    ensures SeatErrorAsWritten([4, 4], 5) == None
    ensures |[4, 4]| + |MissingSeats([4, 4], 5)| == 6
    ensures SeatError([4, 4], 5) == Some(DuplicateSeats)
  {
    var given := [4, 4];
    assert Count(given, 4) == 2;
    assert forall k :: 0 <= k < 4 ==> Count(given, k) == 0;
    assert Max(given) == 4 && Scoring.Min(given) == 4;
    assert ScanSeats(given, 5, 0, 4) == None;
    assert !SeatOk(given, 5, 4);
    assert TakenSeats(given, 5) == [4];
  }
}
