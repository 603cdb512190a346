/** Error signalling shared by both versions of the game.

    The source stops the process with `sys.exit` on a bad configuration or on
    an impossible move; here every such exit is a value the caller inspects. */
module Common {

  /** The reasons the source gives for stopping the process, one constructor per message. */
  datatype Exit =
    | TooFewCards          // the deck would have no card
    | NonPositiveOffset    // the lowest card is not positive
    | DiscardAll           // the setup discard would empty the deck
    | BadDiscard           // a discard count outside the deck
    | BadTokenThreshold    // a token threshold outside 0..10
    | TooManyPlayers       // more than five players
    | SeatOutOfBounds      // a seat outside the table
    | DuplicateSeats       // two players on one seat
    | ImaginaryToken       // a pass without a token

  datatype Option<T> = None | Some(value: T)

  datatype Result<T> = Ok(value: T) | Err(error: Exit)

  /** No value occurs twice in `s`. */
  predicate Distinct(s: seq<int>) {
    forall i, j :: 0 <= i < j < |s| ==> s[i] != s[j]
  }

  /** Python's `list.count(x)`. */
  function Count(s: seq<int>, x: int): (n: nat)
    ensures n <= |s|
  {
    if s == [] then 0
    else (if s[0] == x then 1 else 0) + Count(s[1..], x)
  }

  /** `Count` is the multiplicity of `x` in the multiset of `s`. */
  lemma {:induction false} CountIsMultiplicity(s: seq<int>, x: int)
    ensures Count(s, x) == multiset(s)[x]
  {
    if s != [] {
      assert s == [s[0]] + s[1..];
      CountIsMultiplicity(s[1..], x);
    }
  }

  /** A sequence is distinct exactly when every value occurs in it at most once. */
  lemma {:induction false} DistinctIffSingleCopies(s: seq<int>)
    ensures Distinct(s) <==> forall x :: multiset(s)[x] <= 1
  {
    if s == [] {
    } else {
      var t := s[1..];
      assert s == [s[0]] + t;
      DistinctIffSingleCopies(t);
      if Distinct(s) {
        assert Distinct(t) by {
          forall i, j | 0 <= i < j < |t| ensures t[i] != t[j] {
            assert t[i] == s[i + 1] && t[j] == s[j + 1];
          }
        }
        assert s[0] !in t;
        forall x ensures multiset(s)[x] <= 1 {
          assert multiset(s)[x] == (if x == s[0] then 1 else 0) + multiset(t)[x];
        }
      } else {
        var i, j :| 0 <= i < j < |s| && s[i] == s[j];
        if i == 0 {
          assert t[j - 1] == s[0];
          assert multiset(t)[s[0]] >= 1;
          assert multiset(s)[s[0]] == 1 + multiset(t)[s[0]];
        } else {
          assert t[i - 1] == t[j - 1];
          assert !Distinct(t);
          var x :| multiset(t)[x] > 1;
          assert multiset(s)[x] >= multiset(t)[x];
        }
      }
    }
  }

  /** A rearrangement of a distinct sequence is distinct. */
  lemma DistinctPermutation(s: seq<int>, t: seq<int>)
    requires Distinct(s)
    requires multiset(s) == multiset(t)
    ensures Distinct(t)
  {
    DistinctIffSingleCopies(s);
    DistinctIffSingleCopies(t);
  }

  lemma DistinctDrop(s: seq<int>, k: nat)
    requires Distinct(s) && k <= |s|
    ensures Distinct(s[k..])
  {
    forall i, j | 0 <= i < j < |s| - k ensures s[k..][i] != s[k..][j] {
      assert s[k..][i] == s[k + i] && s[k..][j] == s[k + j];
    }
  }

  function Sum(s: seq<int>): int {
    if s == [] then 0 else s[0] + Sum(s[1..])
  }

  /** Replacing one entry changes the sum by the difference. */
  lemma {:induction false} SumUpdate(s: seq<int>, k: nat, v: int)
    requires k < |s|
    ensures Sum(s[k := v]) == Sum(s) - s[k] + v
  {
    if k > 0 {
      assert s[k := v][1..] == s[1..][k - 1 := v];
      SumUpdate(s[1..], k - 1, v);
    }
  }

  lemma {:induction false} SumNonNegative(s: seq<int>)
    requires forall i :: 0 <= i < |s| ==> s[i] >= 0
    ensures Sum(s) >= 0
  {
    if s != [] {
      SumNonNegative(s[1..]);
    }
  }

  /** The most rounds `cards` cards can last with `supply` tokens in play:
      each card is passed at most once per token, then taken. */
  function Rounds(cards: nat, supply: nat): nat {
    if cards == 0 then 0 else supply + 1 + Rounds(cards - 1, supply)
  }

  lemma {:induction false} RoundsProduct(cards: nat, supply: nat)
    ensures Rounds(cards, supply) == cards * (supply + 1)
  {
    if cards > 0 {
      RoundsProduct(cards - 1, supply);
      assert cards * (supply + 1) == (cards - 1) * (supply + 1) + (supply + 1);
    }
  }

  /** Settling a card brings the budget down by a full card's worth. */
  lemma {:induction false} RoundsSettle(cards: nat, fewer: nat, supply: nat)
    requires fewer < cards
    ensures Rounds(fewer, supply) + supply + 1 <= Rounds(cards, supply)
  {
    if fewer < cards - 1 {
      RoundsSettle(cards - 1, fewer, supply);
    }
  }

  /** A round of play spends one unit of the budget `Rounds(cards, supply) -
      pot`: a pass raises the pot by one, and a take settles at least one
      card and empties a pot of at most `supply` tokens. */
  lemma RoundBudget(rounds: int, cards: nat, pot: int, cards': nat, pot': int, supply: nat, budget: int)
    requires rounds + Rounds(cards, supply) - pot <= budget
    requires (cards' == cards && pot' == pot + 1) || (cards' < cards && pot' == 0 && pot <= supply)
    ensures rounds + 1 + Rounds(cards', supply) - pot' <= budget
  {
    if cards' < cards {
      RoundsSettle(cards, cards', supply);
    }
  }
}
