/** The decision rules of the earlier version (`Table.player_logic`,
    `milking_potential` and `vindictive_potential` in `nothx.py`), on values.

    Differences from the later rules:
    - there is no early take for a player short of tokens facing a big pot;
    - with an empty hand the raw card, not its effective value, is compared
      with the card threshold, and a player short of tokens takes;
    - milking declines when an opponent has no token at all, not when it
      has fewer tokens than there are players;
    - the max-card test `self.deck.num == 0` compares the method itself
      with 0 and is never true, so the highest card is milked exactly when
      the pot is below the random `potThresh`, even with an empty deck.

    `vindictive_potential` as written adds `thresh` to what `get_score`
    returns, which is `None` for a player without cards: Python stops with a
    type error (`VindictiveAsWritten`, `DecideAsWritten`). The corrected rules
    (`Vindictive`, `Decide`) use the score `get_score` stores, which is 0 for
    an empty hand, like the later version. */
module NoThxPolicy {
  import opened Common
  import opened Scoring
  import Policy
  import Valuation

  /** What the rules read of one player. */
  datatype Seat = Seat(
    cards: seq<int>,
    tokens: int,
    effVal: real,
    cardThreshold: int,
    tokenThreshold: int,
    effValThreshold: int)

  /** The hands of all seats. */
  function Hands(seats: seq<Seat>): (r: seq<seq<int>>)
    ensures |r| == |seats| && forall i :: 0 <= i < |seats| ==> r[i] == seats[i].cards
  {
    seq(|seats|, i requires 0 <= i < |seats| => seats[i].cards)
  }

  /** The seats as the later rules see them, for the scans both versions
      share; those scans read only the hand, the tokens and the value. */
  function Spots(seats: seq<Seat>): (r: seq<Policy.Seat>)
    ensures |r| == |seats|
    ensures forall i :: 0 <= i < |seats| ==>
      r[i].cards == seats[i].cards && r[i].tokens == seats[i].tokens && r[i].effVal == seats[i].effVal
  {
    seq(|seats|, i requires 0 <= i < |seats| =>
      Policy.Seat(seats[i].cards, seats[i].tokens, seats[i].effVal, 0, 0, 0, 0))
  }

  /** The second loop of `milking_potential`, from seat `i` on: no other
      seat is out of tokens or values the card below `n + 4`. */
  function OthersKeepPassing(seats: seq<Seat>, me: int, i: nat): (r: bool)
    requires i <= |seats|
    ensures r <==> forall j :: i <= j < |seats| && j != me ==>
      seats[j].tokens != 0 && seats[j].effVal >= (|seats| + 4) as real
    decreases |seats| - i
  {
    if i == |seats| then true
    else if i != me && (seats[i].tokens == 0 || seats[i].effVal < (|seats| + 4) as real) then false
    else OthersKeepPassing(seats, me, i + 1)
  }

  /** `milking_potential` with the random `potThresh`: never while an
      opponent has an empty hand; then the highest card is milked when the
      pot is below `potThresh`, and any card when no opponent is out of
      tokens and every opponent values it at `n + 4` or more. */
  function Milking(seats: seq<Seat>, me: nat, cardUp: int, maxCard: int, pot: int, potThresh: int): (r: bool)
    requires me < |seats|
    ensures r <==>
      (forall j :: 0 <= j < |seats| && j != me ==> |seats[j].cards| > 0) &&
      ((cardUp == maxCard && pot < potThresh) ||
       forall j :: 0 <= j < |seats| && j != me ==>
         seats[j].tokens != 0 && seats[j].effVal >= (|seats| + 4) as real)
  {
    if !Policy.OthersHoldCards(Spots(seats), me, 0) then false
    else if cardUp == maxCard && pot < potThresh then true
    else OthersKeepPassing(seats, me, 0)
  }

  /** What `get_score` returns for a seat: nothing for an empty hand. */
  function Returned(s: Seat): (r: Option<int>)
    ensures r.Some? <==> |s.cards| > 0
    ensures r.Some? ==> r.value == HandScore(s.cards, s.tokens)
  {
    if |s.cards| == 0 then None else Some(HandScore(s.cards, s.tokens))
  }

  /** The loop of `vindictive_potential` as written, from seat `i` on, with
      `score` what `get_score` returned for the player whose turn it is.
      `None` is the type error of adding to or comparing with `None`. */
  function SpiteScanAsWritten(seats: seq<Seat>, me: int, score: Option<int>, thresh: int, i: nat, val: real): (r: Option<bool>)
    requires i <= |seats|
    decreases |seats| - i
  {
    if i == |seats| then Some(val < 0.0)
    else if i == me then SpiteScanAsWritten(seats, me, score, thresh, i + 1, val)
    else if Returned(seats[i]).None? || score.None? then None
    else if Returned(seats[i]).value + thresh > score.value then Some(false)
    else SpiteScanAsWritten(seats, me, score, thresh, i + 1, if seats[i].effVal < val then seats[i].effVal else val)
  }

  /** `vindictive_potential` as written; `None` when it stops with a type
      error. A result of Python's `None` (no spite) is `Some(false)`. */
  function VindictiveAsWritten(seats: seq<Seat>, me: nat, deckLen: nat, thresh: int): (r: Option<bool>)
    requires me < |seats|
  {
    if deckLen > |seats| then Some(false)
    else SpiteScanAsWritten(seats, me, Returned(seats[me]), thresh, 0, 0.0)
  }

  /** `vindictive_potential` with the stored scores: the later version's rule. */
  function Vindictive(seats: seq<Seat>, me: nat, deckLen: nat, thresh: int): (r: bool)
    requires me < |seats|
    ensures r <==>
      deckLen <= |seats| &&
      (forall j :: 0 <= j < |seats| && j != me ==>
         HandScore(seats[j].cards, seats[j].tokens) + thresh <= HandScore(seats[me].cards, seats[me].tokens)) &&
      exists j :: 0 <= j < |seats| && j != me && seats[j].effVal < 0.0
  {
    var spots := Spots(seats);
    assert forall j :: 0 <= j < |seats| ==> Policy.SeatScore(spots[j]) == HandScore(seats[j].cards, seats[j].tokens);
    Policy.Vindictive(spots, me, deckLen, thresh)
  }

  /** The scan from seat `i` on, seen from both versions: where the written
      scan gives an answer, the corrected scan with the stored `score` of
      the player to move gives the same one. */
  lemma {:induction false} SpiteScanAgrees(seats: seq<Seat>, me: int, returned: Option<int>, score: int,
                                           thresh: int, i: nat, val: real)
    requires i <= |seats|
    requires returned.Some? ==> returned.value == score
    requires SpiteScanAsWritten(seats, me, returned, thresh, i, val).Some?
    ensures SpiteScanAsWritten(seats, me, returned, thresh, i, val).value ==
      Policy.SpiteScan(Spots(seats), me, score, thresh, i, val)
    decreases |seats| - i
  {
    var spots := Spots(seats);
    if i < |seats| {
      assert Policy.SeatScore(spots[i]) == HandScore(seats[i].cards, seats[i].tokens);
      if i == me {
        SpiteScanAgrees(seats, me, returned, score, thresh, i + 1, val);
      } else if Returned(seats[i]).value + thresh <= score {
        SpiteScanAgrees(seats, me, returned, score, thresh, i + 1, if seats[i].effVal < val then seats[i].effVal else val);
      }
    }
  }

  /** When every hand holds a card the written scan never stops. */
  lemma {:induction false} SpiteScanTotal(seats: seq<Seat>, me: int, score: int, thresh: int, i: nat, val: real)
    requires i <= |seats|
    requires forall j :: 0 <= j < |seats| ==> |seats[j].cards| > 0
    ensures SpiteScanAsWritten(seats, me, Some(score), thresh, i, val).Some?
    decreases |seats| - i
  {
    if i < |seats| {
      if i == me {
        SpiteScanTotal(seats, me, score, thresh, i + 1, val);
      } else {
        assert Returned(seats[i]).Some?;
        if Returned(seats[i]).value + thresh <= score {
          SpiteScanTotal(seats, me, score, thresh, i + 1, if seats[i].effVal < val then seats[i].effVal else val);
        }
      }
    }
  }

  /** The written rule and the corrected one differ only where the written
      one stops; when every player holds a card it never stops. */
  lemma VindictiveAgrees(seats: seq<Seat>, me: nat, deckLen: nat, thresh: int)
    requires me < |seats|
    ensures VindictiveAsWritten(seats, me, deckLen, thresh).Some? ==>
      VindictiveAsWritten(seats, me, deckLen, thresh).value == Vindictive(seats, me, deckLen, thresh)
    ensures (forall j :: 0 <= j < |seats| ==> |seats[j].cards| > 0) ==>
      VindictiveAsWritten(seats, me, deckLen, thresh).Some?
  {
    if deckLen <= |seats| {
      var spots := Spots(seats);
      assert Policy.SeatScore(spots[me]) == HandScore(seats[me].cards, seats[me].tokens);
      var score := HandScore(seats[me].cards, seats[me].tokens);
      if SpiteScanAsWritten(seats, me, Returned(seats[me]), thresh, 0, 0.0).Some? {
        SpiteScanAgrees(seats, me, Returned(seats[me]), score, thresh, 0, 0.0);
      }
      if forall j :: 0 <= j < |seats| ==> |seats[j].cards| > 0 {
        SpiteScanTotal(seats, me, score, thresh, 0, 0.0);
      }
    }
  }

  /** The rules of `player_logic` before the spite rule, in order: the first
      that applies gives the move; `None` when none applies. One `ensures`
      per rule, each guarded by the failure of the rules before it. */
  function EarlyRules(seats: seq<Seat>, me: nat, cardUp: int, pot: int, deckLen: nat, maxCard: int, potThresh: int): (r: Option<Policy.Move>)
    requires me < |seats|
    // a player without tokens takes
    ensures seats[me].tokens == 0 ==> r == Some(Policy.Take)
    // first card: take when within the card threshold or short of tokens
    ensures seats[me].tokens != 0 && |seats[me].cards| == 0 ==>
      r.Some? &&
      (r == Some(Policy.Take) <==> cardUp <= seats[me].cardThreshold || seats[me].tokens < seats[me].tokenThreshold)
    // a card worth less than 1: pass exactly while milking, else take
    ensures seats[me].tokens != 0 && |seats[me].cards| > 0 && seats[me].effVal < 1.0 ==>
      r.Some? && (r == Some(Policy.Pass) <==> Milking(seats, me, cardUp, maxCard, pot, potThresh))
    // otherwise the speculative take, or no decision yet
    ensures seats[me].tokens != 0 && |seats[me].cards| > 0 && seats[me].effVal >= 1.0 ==>
      r != Some(Policy.Pass) &&
      (r == Some(Policy.Take) <==>
        Policy.Speculates(Hands(seats), me, seats[me].effVal, seats[me].effValThreshold, cardUp, pot, deckLen))
  {
    var p := seats[me];
    if p.tokens == 0 then Some(Policy.Take)
    else if |p.cards| == 0 then
      if cardUp <= p.cardThreshold then Some(Policy.Take)
      else if p.tokens < p.tokenThreshold then Some(Policy.Take)
      else Some(Policy.Pass)
    else if p.effVal < 1.0 then
      if Milking(seats, me, cardUp, maxCard, pot, potThresh) then Some(Policy.Pass) else Some(Policy.Take)
    else if Policy.Speculates(Hands(seats), me, p.effVal, p.effValThreshold, cardUp, pot, deckLen) then Some(Policy.Take)
    else None
  }

  /** The rule that counts `pass_before_first_card`: no card yet, the card
      above the card threshold, and fewer tokens than the token threshold. */
  predicate TakesToKeepTokens(s: Seat, cardUp: int) {
    s.tokens != 0 && |s.cards| == 0 && cardUp > s.cardThreshold && s.tokens < s.tokenThreshold
  }

  /** `player_logic` as written; `None` when the spite rule stops with a
      type error. */
  function DecideAsWritten(seats: seq<Seat>, me: nat, cardUp: int, pot: int, deckLen: nat, maxCard: int,
                           potThresh: int, thresh: int): (r: Option<Policy.Move>)
    requires me < |seats|
  {
    match EarlyRules(seats, me, cardUp, pot, deckLen, maxCard, potThresh)
    case Some(m) => Some(m)
    case None =>
      match VindictiveAsWritten(seats, me, deckLen, thresh)
      case None => None
      case Some(b) => Some(if b then Policy.Take else Policy.Pass)
  }

  /** `player_logic` with the corrected spite rule. A player without tokens
      always takes, so a pass always has a token to pay; a card worth less
      than 1 to a player with cards is passed only while every opponent
      holds a card; a player without cards takes exactly when the card is
      within its card threshold or it is short of tokens. */
  function Decide(seats: seq<Seat>, me: nat, cardUp: int, pot: int, deckLen: nat, maxCard: int,
                  potThresh: int, thresh: int): (m: Policy.Move)
    requires me < |seats|
    ensures m == Policy.Pass ==> seats[me].tokens != 0
    ensures m == Policy.Pass && |seats[me].cards| > 0 && seats[me].effVal < 1.0 ==>
      forall j :: 0 <= j < |seats| && j != me ==> |seats[j].cards| > 0
    ensures seats[me].tokens != 0 && |seats[me].cards| == 0 ==>
      (m == Policy.Take <==> cardUp <= seats[me].cardThreshold || seats[me].tokens < seats[me].tokenThreshold)
  {
    match EarlyRules(seats, me, cardUp, pot, deckLen, maxCard, potThresh)
    case Some(m) => m
    case None => if Vindictive(seats, me, deckLen, thresh) then Policy.Take else Policy.Pass
  }

  /** The corrected rules decide as the written ones wherever those do not
      stop, and the written ones never stop while every player holds a card. */
  lemma DecideAgrees(seats: seq<Seat>, me: nat, cardUp: int, pot: int, deckLen: nat, maxCard: int,
                     potThresh: int, thresh: int)
    requires me < |seats|
    ensures DecideAsWritten(seats, me, cardUp, pot, deckLen, maxCard, potThresh, thresh).Some? ==>
      DecideAsWritten(seats, me, cardUp, pot, deckLen, maxCard, potThresh, thresh).value ==
      Decide(seats, me, cardUp, pot, deckLen, maxCard, potThresh, thresh)
    ensures (forall j :: 0 <= j < |seats| ==> |seats[j].cards| > 0) ==>
      DecideAsWritten(seats, me, cardUp, pot, deckLen, maxCard, potThresh, thresh).Some?
  {
    VindictiveAgrees(seats, me, deckLen, thresh);
  }

  /** Two players, late in the game: the player to move holds card 10 and
      values card 20 at 20, which is above its threshold; the opponent holds
      no card. Both values are the ones `get_effective_value` computes. The
      spite rule is reached and `get_score` of the opponent gives `None`: the
      written rules stop, the corrected ones pass. */
  lemma DecideAsWrittenStops()
    ensures var seats := [Seat([10], 11, 20.0, 9, 0, 0), Seat([], 11, 20.0, 9, 0, 0)];
      && (forall i :: 0 <= i < |seats| ==>
            seats[i].effVal == Valuation.EffectiveValue(20, seats[i].cards, Policy.OtherCards(Hands(seats), 0), 1, 33, 0))
      && DecideAsWritten(seats, 0, 20, 0, 1, 35, 8, 20).None?
      && Decide(seats, 0, 20, 0, 1, 35, 8, 20) == Policy.Pass
  {
    var seats := [Seat([10], 11, 20.0, 9, 0, 0), Seat([], 11, 20.0, 9, 0, 0)];
    assert EarlyRules(seats, 0, 20, 0, 1, 35, 8) == None;
    assert Returned(seats[1]).None?;
    assert SpiteScanAsWritten(seats, 0, Returned(seats[0]), 20, 1, 0.0).None?;
    assert SpiteScanAsWritten(seats, 0, Returned(seats[0]), 20, 0, 0.0).None?;
    assert !Vindictive(seats, 0, 1, 20);
  }
}
