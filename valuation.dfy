/** The effective value of the face-up card to one player
    (`Table.get_effective_value`, identical in both versions): by how much
    taking the card and the pot would change that player's score.

    `others` is what `other_player_cards` returns; the model keeps the
    source's choice of computing it relative to the player whose turn it is,
    not to the player being valued (see `Tables.Table.GetEffectiveValue`).
    The source computes the gap-case probability in floating point; here it
    is exact real arithmetic. */
module Valuation {
  import opened Common
  import opened Scoring

  /** `len(self.deck.cards) / self.deck.tot_orig_cards`, the chance used for
      the card that would close a one-card gap. */
  function DrawChance(deckLen: nat, totOrig: int): real
    requires totOrig > 0
  {
    deckLen as real / totOrig as real
  }

  /** The one case the effective value does not know exactly: the player
      holds `c + 2` but neither neighbour, and nobody else holds `c + 1`. */
  predicate GapOpen(c: int, hand: seq<int>, others: seq<int>) {
    c + 1 !in hand && c - 1 !in hand && c + 2 in hand && c + 1 !in others
  }

  /** The player-specific value of card `c` before the pot is subtracted. */
  function BaseValue(c: int, hand: seq<int>, others: seq<int>, deckLen: nat, totOrig: int): real
    requires totOrig > 0
  {
    if c + 1 in hand then
      if c - 1 in hand then -(c + 1) as real else -1.0
    else if c - 1 in hand then 0.0
    else if c + 2 in hand then
      if c + 1 in others then c as real
      else
        var p := DrawChance(deckLen, totOrig);
        -2.0 * p + (c as real) * (1.0 - p)
    else c as real
  }

  /** `player.eff_val` after `get_effective_value`. */
  function EffectiveValue(c: int, hand: seq<int>, others: seq<int>, deckLen: nat, totOrig: int, pot: int): real
    requires totOrig > 0
  {
    BaseValue(c, hand, others, deckLen, totOrig) - pot as real
  }

  lemma {:induction false} ExtendHeld(s: seq<int>, held: seq<int>, c: int)
    requires Distinct(s) && c !in held
    ensures LowSumIn(s, held + [c]) == LowSumIn(s, held) - (if c + 1 in s then c + 1 else 0)
    decreases |s|
  {
    if s != [] {
      var s' := s[..|s| - 1];
      var y := s[|s| - 1];
      assert s == s' + [y];
      assert Distinct(s');
      ExtendHeld(s', held, c);
      assert y == c + 1 ==> c + 1 !in s';
    }
  }

  /** Adding a new card `c` to a hand changes its run sum by `c` unless `c - 1`
      is held (then `c` extends that run), and by `-(c + 1)` if `c + 1` is held
      (then `c + 1` no longer opens a run). */
  lemma AddCardDelta(hand: seq<int>, c: int)
    requires Distinct(hand) && c !in hand
    ensures LowSum(hand + [c]) ==
      LowSum(hand) + (if c - 1 in hand then 0 else c) - (if c + 1 in hand then c + 1 else 0)
  {
    var h := hand + [c];
    assert h[..|h| - 1] == hand;
    ExtendHeld(hand, hand, c);
  }

  /** Outside the open-gap case the effective value is exactly the change in
      "run sum minus tokens" that taking the card and the pot causes. */
  lemma EffectiveValueIsRunSumChange(c: int, hand: seq<int>, others: seq<int>, deckLen: nat,
                                     totOrig: int, pot: int, tokens: int)
    requires totOrig > 0
    requires Distinct(hand) && c !in hand
    requires !GapOpen(c, hand, others)
    ensures EffectiveValue(c, hand, others, deckLen, totOrig, pot) ==
      ((LowSum(hand + [c]) - (tokens + pot)) - (LowSum(hand) - tokens)) as real
  {
    var d := LowSum(hand + [c]) - LowSum(hand);
    assert d == (if c - 1 in hand then 0 else c) - (if c + 1 in hand then c + 1 else 0) by {
      AddCardDelta(hand, c);
    }
    BaseValueIsDelta(c, hand, others, deckLen, totOrig, d);
  }

  /** For a non-empty hand, that change is the change of `get_score`. */
  lemma EffectiveValueIsScoreChange(c: int, hand: seq<int>, others: seq<int>, deckLen: nat,
                                    totOrig: int, pot: int, tokens: int)
    requires totOrig > 0
    requires Distinct(hand) && c !in hand && |hand| > 0
    requires !GapOpen(c, hand, others)
    ensures EffectiveValue(c, hand, others, deckLen, totOrig, pot) ==
      (HandScore(hand + [c], tokens + pot) - HandScore(hand, tokens)) as real
  {
    EffectiveValueIsRunSumChange(c, hand, others, deckLen, totOrig, pot, tokens);
    assert Distinct(hand + [c]);
    ScoreIsSumOfRunLows(hand, tokens);
    ScoreIsSumOfRunLows(hand + [c], tokens + pot);
  }

  lemma BaseValueIsDelta(c: int, hand: seq<int>, others: seq<int>, deckLen: nat, totOrig: int, d: int)
    requires totOrig > 0
    requires !GapOpen(c, hand, others)
    requires d == (if c - 1 in hand then 0 else c) - (if c + 1 in hand then c + 1 else 0)
    ensures BaseValue(c, hand, others, deckLen, totOrig) == d as real
  {
  }

  /** In the open-gap case the effective value is the expectation of the two
      outcomes: with chance `p` the player also gets `c + 1`, and the two cards
      change the run sum by exactly -2; otherwise `c` opens a run of its own
      and changes it by exactly `c`. */
  lemma GapValueIsExpectation(c: int, hand: seq<int>, others: seq<int>, deckLen: nat, totOrig: int)
    requires totOrig > 0
    requires Distinct(hand) && c !in hand
    requires GapOpen(c, hand, others)
    ensures LowSum(hand + [c]) - LowSum(hand) == c
    ensures LowSum(hand + [c, c + 1]) - LowSum(hand) == -2
    ensures var p := DrawChance(deckLen, totOrig);
      BaseValue(c, hand, others, deckLen, totOrig) ==
        p * (LowSum(hand + [c, c + 1]) - LowSum(hand)) as real +
        (1.0 - p) * (LowSum(hand + [c]) - LowSum(hand)) as real
  {
    AddCardDelta(hand, c);
    var h := hand + [c];
    assert Distinct(h);
    assert c + 1 !in h;
    AddCardDelta(h, c + 1);
    assert h + [c + 1] == hand + [c, c + 1];
  }
}
