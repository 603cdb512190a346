/** The decision rules of the later `Table.play`, on values.

    A `Seat` is what the rules read of one player: the hand, the tokens, the
    effective value of the card up (already computed) and the thresholds.
    `me` is the seat whose turn it is. The rules read other players through
    the same loops the source uses: over all seats, skipping seat `me`. */
module Policy {
  import opened Common
  import opened Scoring

  datatype Seat = Seat(
    cards: seq<int>,
    tokens: int,
    effVal: real,
    initThreshold: int,
    effValThreshold: int,
    tokenThreshold: int,
    potThreshold: int)

  datatype Move = Take | Pass

  /** The hand of every seat. */
  function Hands(seats: seq<Seat>): (r: seq<seq<int>>)
    ensures |r| == |seats| && forall i :: 0 <= i < |seats| ==> r[i] == seats[i].cards
  {
    seq(|seats|, i requires 0 <= i < |seats| => seats[i].cards)
  }

  /** `other_player_cards`: the hands of all seats but `me`, in seat order. */
  function OtherCards(hands: seq<seq<int>>, me: int): (r: seq<int>)
    ensures forall c :: c in r <==> exists i :: 0 <= i < |hands| && i != me && c in hands[i]
    decreases |hands|
  {
    if hands == [] then []
    else
      var rest := OtherCards(hands[1..], me - 1);
      assert forall i :: 1 <= i < |hands| ==> hands[1..][i - 1] == hands[i];
      (if me == 0 then [] else hands[0]) + rest
  }

  /** The first loop of `milking_potential`, from seat `i` on: does every
      other seat hold a card? */
  function OthersHoldCards(seats: seq<Seat>, me: int, i: nat): (r: bool)
    requires i <= |seats|
    ensures r <==> forall j :: i <= j < |seats| && j != me ==> |seats[j].cards| > 0
    decreases |seats| - i
  {
    if i == |seats| then true
    else if i != me && |seats[i].cards| == 0 then false
    else OthersHoldCards(seats, me, i + 1)
  }

  /** The second loop of `milking_potential`, from seat `i` on: will every
      other seat pass the card back? With `n` players that needs at least `n`
      tokens and an effective value of at least `n + 4`. */
  function OthersWillPass(seats: seq<Seat>, me: int, i: nat): (r: bool)
    requires i <= |seats|
    ensures r <==> forall j :: i <= j < |seats| && j != me ==>
      seats[j].tokens >= |seats| && seats[j].effVal >= (|seats| + 4) as real
    decreases |seats| - i
  {
    if i == |seats| then true
    else if i != me && (seats[i].tokens < |seats| || seats[i].effVal < (|seats| + 4) as real) then false
    else OthersWillPass(seats, me, i + 1)
  }

  /** `milking_potential`: pass a card one wants, hoping it comes back with
      a bigger pot. Only when every opponent already holds a card; then the
      highest card is milked while the deck is empty or the pot is below the
      player's pot threshold, and any other card exactly when every opponent
      can afford to pass and values the card at `n + 4` or more. */
  function Milking(seats: seq<Seat>, me: nat, cardUp: int, maxCard: int, deckLen: nat, pot: int): (r: bool)
    requires me < |seats|
    ensures r <==>
      (forall j :: 0 <= j < |seats| && j != me ==> |seats[j].cards| > 0) &&
      ((cardUp == maxCard && (deckLen == 0 || pot < seats[me].potThreshold)) ||
       forall j :: 0 <= j < |seats| && j != me ==>
         seats[j].tokens >= |seats| && seats[j].effVal >= (|seats| + 4) as real)
  {
    if !OthersHoldCards(seats, me, 0) then false
    else if cardUp == maxCard && (deckLen == 0 || pot < seats[me].potThreshold) then true
    else OthersWillPass(seats, me, 0)
  }

  /** The score `get_score` gives a seat. */
  function SeatScore(s: Seat): int {
    HandScore(s.cards, s.tokens)
  }

  /** The loop of `vindictive_potential` from seat `i` on, with `val` the
      lowest effective value seen so far (starting at 0). */
  function SpiteScan(seats: seq<Seat>, me: int, score: int, thresh: int, i: nat, val: real): (r: bool)
    requires i <= |seats|
    ensures r <==>
      (forall j :: i <= j < |seats| && j != me ==> SeatScore(seats[j]) + thresh <= score) &&
      (val < 0.0 || exists j :: i <= j < |seats| && j != me && seats[j].effVal < 0.0)
    decreases |seats| - i
  {
    if i == |seats| then val < 0.0
    else if i == me then SpiteScan(seats, me, score, thresh, i + 1, val)
    else if SeatScore(seats[i]) + thresh > score then false
    else SpiteScan(seats, me, score, thresh, i + 1, if seats[i].effVal < val then seats[i].effVal else val)
  }

  /** Where the loop of `vindictive_potential` stops, from seat `i` on: the
      first other seat that is more than `thresh` points ahead of `score`, or
      the number of seats when there is none. Every other seat up to and
      including that one is scored. */
  function SpiteStop(seats: seq<Seat>, me: int, score: int, thresh: int, i: nat): (k: nat)
    requires i <= |seats|
    ensures i <= k <= |seats|
    ensures forall j :: i <= j < k && j != me ==> SeatScore(seats[j]) + thresh <= score
    ensures k < |seats| ==> k != me && SeatScore(seats[k]) + thresh > score
    decreases |seats| - i
  {
    if i == |seats| then |seats|
    else if i != me && SeatScore(seats[i]) + thresh > score then i
    else SpiteStop(seats, me, score, thresh, i + 1)
  }

  /** The seats whose score `vindictive_potential` computes: the player
      itself always, and late in the game every other seat up to where the
      loop stops. */
  predicate Consulted(seats: seq<Seat>, me: nat, deckLen: nat, thresh: int, j: nat)
    requires me < |seats|
  {
    j == me || (deckLen <= |seats| && j <= SpiteStop(seats, me, SeatScore(seats[me]), thresh, 0))
  }

  /** `vindictive_potential` with the random `thresh`: a player turns
      vindictive exactly late in the game (no more cards left than players),
      when trailing every opponent by at least `thresh` points, and when some
      opponent values the card below zero. */
  function Vindictive(seats: seq<Seat>, me: nat, deckLen: nat, thresh: int): (r: bool)
    requires me < |seats|
    ensures r <==>
      deckLen <= |seats| &&
      (forall j :: 0 <= j < |seats| && j != me ==> SeatScore(seats[j]) + thresh <= SeatScore(seats[me])) &&
      exists j :: 0 <= j < |seats| && j != me && seats[j].effVal < 0.0
  {
    if deckLen > |seats| then false
    else SpiteScan(seats, me, SeatScore(seats[me]), thresh, 0, 0.0)
  }

  /** The speculative take of `play`: cards are left in the deck, the
      effective value is within the player's threshold, and either the pot
      holds a token or a neighbour of the card is not in an opponent's hand. */
  predicate Speculates(hands: seq<seq<int>>, me: int, effVal: real, effValThreshold: int, cardUp: int, pot: int, deckLen: nat) {
    && deckLen > 0
    && effVal <= effValThreshold as real
    && (pot > 0 || cardUp - 1 !in OtherCards(hands, me) || cardUp + 1 !in OtherCards(hands, me))
  }

  /** The early take of `play`: short of tokens while the pot is big. */
  predicate PotRule(s: Seat, pot: int) {
    s.tokens < s.tokenThreshold && pot > s.potThreshold
  }

  /** The rules of `play` before the last one, in order: the first that
      applies gives the move; `None` when none applies. One `ensures` per
      rule, each guarded by the failure of the rules before it. */
  function EarlyRules(seats: seq<Seat>, me: nat, cardUp: int, pot: int, deckLen: nat, maxCard: int): (r: Option<Move>)
    requires me < |seats|
    // a player without tokens takes
    ensures seats[me].tokens == 0 ==> r == Some(Take)
    // short of tokens with a big pot: take
    ensures seats[me].tokens != 0 && PotRule(seats[me], pot) ==> r == Some(Take)
    // first card: take exactly when its effective value is within the initial threshold
    ensures seats[me].tokens != 0 && !PotRule(seats[me], pot) && |seats[me].cards| == 0 ==>
      r.Some? && (r == Some(Take) <==> seats[me].effVal <= seats[me].initThreshold as real)
    // a card worth less than 1: pass exactly while milking, else take
    ensures seats[me].tokens != 0 && !PotRule(seats[me], pot) && |seats[me].cards| > 0 && seats[me].effVal < 1.0 ==>
      r.Some? && (r == Some(Pass) <==> Milking(seats, me, cardUp, maxCard, deckLen, pot))
    // otherwise the speculative take, or no decision yet
    ensures seats[me].tokens != 0 && !PotRule(seats[me], pot) && |seats[me].cards| > 0 && seats[me].effVal >= 1.0 ==>
      r != Some(Pass) &&
      (r == Some(Take) <==> Speculates(Hands(seats), me, seats[me].effVal, seats[me].effValThreshold, cardUp, pot, deckLen))
  {
    var p := seats[me];
    if p.tokens == 0 then Some(Take)
    else if PotRule(p, pot) then Some(Take)
    else if |p.cards| == 0 then
      if p.effVal <= p.initThreshold as real then Some(Take) else Some(Pass)
    else if p.effVal < 1.0 then
      if Milking(seats, me, cardUp, maxCard, deckLen, pot) then Some(Pass) else Some(Take)
    else if Speculates(Hands(seats), me, p.effVal, p.effValThreshold, cardUp, pot, deckLen) then Some(Take)
    else None
  }

  /** `play`: the first rule that applies decides, and when none of the
      others does, spite decides. A player without tokens always takes, so a
      pass always has a token to pay; and a card worth less than 1 to a player
      who holds cards is passed only while every opponent holds a card too. */
  function Decide(seats: seq<Seat>, me: nat, cardUp: int, pot: int, deckLen: nat, maxCard: int, thresh: int): (m: Move)
    requires me < |seats|
    ensures m == Pass ==> seats[me].tokens != 0
    ensures m == Pass && |seats[me].cards| > 0 && seats[me].effVal < 1.0 ==>
      forall j :: 0 <= j < |seats| && j != me ==> |seats[j].cards| > 0
  {
    match EarlyRules(seats, me, cardUp, pot, deckLen, maxCard)
    case Some(m) => m
    case None => if Vindictive(seats, me, deckLen, thresh) then Take else Pass
  }
}
