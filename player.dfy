/** `player.py`: a player of the later version.

    A player owns tokens and cards. Passing costs a token, taking a card gains
    the pot. Every change of the token count is appended to the token history
    and every card taken appends the effective value it had to the value
    history, so the last entry of the token history is always the token count. */
module Players {
  import opened Common
  import opened Scoring

  class Player {
    const pos: int
    const initThreshold: int
    const effValThreshold: int
    const tokenThreshold: int
    const potThreshold: int
    var tokens: int
    var cards: seq<int>
    var score: int
    var effVal: real
    var win: int
    var numRuns: int
    var tokenHistory: seq<int>
    var effValHistory: seq<real>

    /** The token threshold is one the constructor accepts, the token count
        never goes negative and is the last one recorded, and one effective
        value is recorded per card taken. */
    ghost predicate Valid()
      reads this`tokens, this`tokenHistory, this`cards, this`effValHistory
    {
      && 0 <= tokenThreshold <= 10
      && 0 <= tokens
      && |tokenHistory| > 0 && tokenHistory[|tokenHistory| - 1] == tokens
      && |effValHistory| == |cards|
    }

    /** `Player(pos, init_threshold, eff_val_threshold, token_threshold,
        pot_threshold)` with an accepted token threshold. */
    constructor (pos: int, initThreshold: int, effValThreshold: int, tokenThreshold: int, potThreshold: int)
      requires 0 <= tokenThreshold <= 10
      ensures Valid()
      ensures this.pos == pos && this.initThreshold == initThreshold
      ensures this.effValThreshold == effValThreshold && this.tokenThreshold == tokenThreshold
      ensures this.potThreshold == potThreshold
      ensures tokens == 11 && cards == [] && score == 0 && effVal == 0.0
      ensures win == 0 && numRuns == 0
      ensures tokenHistory == [11] && effValHistory == []
    {
      this.pos := pos;
      this.initThreshold := initThreshold;
      this.effValThreshold := effValThreshold;
      this.tokenThreshold := tokenThreshold;
      this.potThreshold := potThreshold;
      tokens := 11;
      cards := [];
      score := 0;
      effVal := 0.0;
      win := 0;
      numRuns := 0;
      tokenHistory := [11];
      effValHistory := [];
    }

    /** The constructor with its process exit on a bad token threshold as an
        error result. */
    static method New(pos: int, initThreshold: int, effValThreshold: int, tokenThreshold: int, potThreshold: int)
      returns (r: Result<Player>)
      ensures !(0 <= tokenThreshold <= 10) <==> r == Err(BadTokenThreshold)
      ensures 0 <= tokenThreshold <= 10 ==> r.Ok?
      ensures r.Ok? ==>
        && fresh(r.value) && r.value.Valid()
        && r.value.pos == pos && r.value.initThreshold == initThreshold
        && r.value.effValThreshold == effValThreshold && r.value.tokenThreshold == tokenThreshold
        && r.value.potThreshold == potThreshold
        && r.value.tokens == 11 && r.value.cards == [] && r.value.tokenHistory == [11]
        && r.value.effValHistory == []
    {
      if tokenThreshold > 10 || tokenThreshold < 0 {
        return Err(BadTokenThreshold);
      }
      var p := new Player(pos, initThreshold, effValThreshold, tokenThreshold, potThreshold);
      return Ok(p);
    }

    /** Pay one token into the pot. Without a token the source stops the
        process; here that is `ok == false` and nothing changes. */
    method PlayToken() returns (ok: bool)
      modifies this`tokens, this`tokenHistory
      ensures ok <==> old(tokens) > 0
      ensures ok ==> tokens == old(tokens) - 1 && tokenHistory == old(tokenHistory) + [tokens]
      ensures !ok ==> tokens == old(tokens) && tokenHistory == old(tokenHistory)
      ensures old(Valid()) ==> Valid()
    {
      if tokens > 0 {
        tokens := tokens - 1;
        tokenHistory := tokenHistory + [tokens];
        return true;
      }
      return false;
    }

    /** Take `card` together with the `pot` tokens. */
    method TakeCard(card: int, pot: int)
      modifies this`cards, this`tokens, this`tokenHistory, this`effValHistory
      ensures cards == old(cards) + [card]
      ensures tokens == old(tokens) + pot
      ensures tokenHistory == old(tokenHistory) + [tokens]
      ensures effValHistory == old(effValHistory) + [effVal]
      ensures old(Valid()) && pot >= 0 ==> Valid()
    {
      cards := cards + [card];
      tokens := tokens + pot;
      tokenHistory := tokenHistory + [tokens];
      effValHistory := effValHistory + [effVal];
    }

    /** The one pass of `get_score` over the sorted hand: `low` is the lowest
        card of the current run, `prev` the card popped last, and a card more
        than one above `prev` closes the run. Stores and returns the score,
        and stores the number of runs. */
    method GetScore() returns (s: int)
      modifies this`score, this`numRuns
      ensures s == score == HandScore(cards, tokens)
      ensures numRuns == HandRuns(cards)
    {
      var rest := Sort(cards);
      ghost var sorted := rest;
      var tot := 0;
      numRuns := 0;
      if |rest| == 0 {
        score := 0;
      } else {
        var low := rest[0];
        rest := rest[1..];
        var prev := low;
        numRuns := 1;
        ghost var k := 1;
        RunPrefixStep(sorted, 0);
        assert sorted[..0] == [];
        while |rest| > 0
          invariant 1 <= k <= |sorted| && rest == sorted[k..]
          invariant prev == sorted[k - 1]
          invariant tot + low == RunLowSum(sorted[..k])
          invariant numRuns == RunCount(sorted[..k])
          decreases |rest|
        {
          var current := rest[0];
          rest := rest[1..];
          RunPrefixStep(sorted, k);
          if current > prev + 1 {
            tot := tot + low;
            low := current;
            numRuns := numRuns + 1;
          }
          prev := current;
          k := k + 1;
        }
        tot := tot + low;
        assert sorted[..k] == sorted;
        score := tot - tokens;
      }
      return score;
    }
  }
}
