/** The player of the earlier version (`Player` in `nothx.py`).

    Instead of histories it keeps the lowest and the highest token count
    reached, and it counts the times it took a card before its first card
    only to keep tokens. Taking a card only adds the card; the table adds the
    pot and raises the highest count. */
module NoThxPlayers {
  import opened Common
  import opened Scoring

  class Player {
    const pos: int
    const cardThreshold: int
    const tokenThreshold: int
    const effValThreshold: int
    var win: int
    var tokens: int
    var minTokens: int
    var maxTokens: int
    var cards: seq<int>
    var passBeforeFirstCard: int
    var score: int
    var effVal: real

    /** The token threshold is one the constructor accepts, and the token
        count lies between the lowest and the highest count recorded, the
        lowest never below 0. */
    ghost predicate Valid()
      reads this`tokens, this`minTokens, this`maxTokens
    {
      && 0 <= tokenThreshold <= 10
      && 0 <= minTokens <= tokens <= maxTokens
    }

    /** `Player(pos, card_threshold, token_threshold, eff_val_threshold)`
        with an accepted token threshold. */
    constructor (pos: int, cardThreshold: int, tokenThreshold: int, effValThreshold: int)
      requires 0 <= tokenThreshold <= 10
      ensures Valid()
      ensures this.pos == pos && this.cardThreshold == cardThreshold
      ensures this.tokenThreshold == tokenThreshold && this.effValThreshold == effValThreshold
      ensures win == 0 && tokens == 11 && minTokens == 11 && maxTokens == 11
      ensures cards == [] && passBeforeFirstCard == 0 && score == 0 && effVal == 0.0
    {
      this.pos := pos;
      win := 0;
      tokens := 11;
      minTokens := 11;
      maxTokens := 11;
      cards := [];
      passBeforeFirstCard := 0;
      score := 0;
      effVal := 0.0;
      this.cardThreshold := cardThreshold;
      this.tokenThreshold := tokenThreshold;
      this.effValThreshold := effValThreshold;
    }

    /** The constructor with its process exit on a bad token threshold as an
        error result. */
    static method New(pos: int, cardThreshold: int, tokenThreshold: int, effValThreshold: int)
      returns (r: Result<Player>)
      ensures !(0 <= tokenThreshold <= 10) <==> r == Err(BadTokenThreshold)
      ensures 0 <= tokenThreshold <= 10 ==> r.Ok?
      ensures r.Ok? ==>
        && fresh(r.value) && r.value.Valid()
        && r.value.pos == pos && r.value.cardThreshold == cardThreshold
        && r.value.tokenThreshold == tokenThreshold && r.value.effValThreshold == effValThreshold
        && r.value.tokens == 11 && r.value.minTokens == 11 && r.value.maxTokens == 11
        && r.value.cards == []
    {
      if tokenThreshold > 10 || tokenThreshold < 0 {
        return Err(BadTokenThreshold);
      }
      var p := new Player(pos, cardThreshold, tokenThreshold, effValThreshold);
      return Ok(p);
    }

    /** Pay one token, lowering the lowest count when it is passed. Without a
        token the source stops the process; here that is `ok == false` and
        nothing changes. */
    method PlayToken() returns (ok: bool)
      modifies this`tokens, this`minTokens
      ensures ok <==> old(tokens) > 0
      ensures ok ==>
        && tokens == old(tokens) - 1
        && minTokens == (if tokens < old(minTokens) then tokens else old(minTokens))
      ensures !ok ==> tokens == old(tokens) && minTokens == old(minTokens)
      ensures old(Valid()) ==> Valid()
    {
      if tokens > 0 {
        tokens := tokens - 1;
        if tokens < minTokens {
          minTokens := tokens;
        }
        return true;
      }
      return false;
    }

    /** Add `card` to the hand, nothing more. */
    method TakeCard(card: int)
      modifies this`cards
      ensures cards == old(cards) + [card]
    {
      cards := cards + [card];
    }

    /** The same pass over the sorted hand as the later version, without the
        run count. It stores the score, 0 for an empty hand, but returns it
        only for a hand that is not empty: for an empty hand it returns
        nothing (Python's `None`). */
    method GetScore() returns (s: Option<int>)
      modifies this`score
      ensures score == HandScore(cards, tokens)
      ensures s == if |cards| == 0 then None else Some(score)
    {
      var rest := Sort(cards);
      ghost var sorted := rest;
      var tot := 0;
      if |rest| == 0 {
        score := 0;
        return None;
      }
      var low := rest[0];
      rest := rest[1..];
      var prev := low;
      ghost var k := 1;
      RunPrefixStep(sorted, 0);
      assert sorted[..0] == [];
      while |rest| > 0
        invariant 1 <= k <= |sorted| && rest == sorted[k..]
        invariant prev == sorted[k - 1]
        invariant tot + low == RunLowSum(sorted[..k])
        decreases |rest|
      {
        var current := rest[0];
        rest := rest[1..];
        RunPrefixStep(sorted, k);
        if current > prev + 1 {
          tot := tot + low;
          low := current;
        }
        prev := current;
        k := k + 1;
      }
      tot := tot + low;
      assert sorted[..k] == sorted;
      score := tot - tokens;
      return Some(score);
    }
  }
}
