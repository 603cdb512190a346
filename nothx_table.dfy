/** The table of the earlier version (`Table` in `nothx.py`) and its game
    loop.

    It holds what the later table holds. The game loop is again mutual
    recursion (`play` calls `player_logic`, which calls `player_passes` or
    `player_takes_card`, which call `play`); here it is the loop of
    `Table.Play`. Unlike the later version, a take draws the next card only
    while the deck has one; otherwise the game is over and the card up stays
    the card just taken, so the card up is always a real card. Winners are
    marked whatever the verbosity. The random draws are inputs: the shuffle
    choices, the thresholds of every computer player (`ai`), and in turn `k`
    the `pot_thresh` of `milking_potential` (`pots(k)`) and the `thresh` of
    `vindictive_potential` (`spite(k)`). The spite rule is the corrected one
    of `NoThxPolicy`. */
module NoThxTables {
  import opened Common
  import opened Cards
  import opened Scoring
  import opened Valuation
  import opened Seating
  import Decks
  import opened NoThxDecks
  import opened NoThxPlayers
  import Policy
  import opened NoThxPolicy

  /** The random thresholds `add_player` gives a computer player. */
  datatype AiDraw = AiDraw(cardThreshold: int, tokenThreshold: int, effValThreshold: int)

  /** What the decision rules read of a player. */
  function SeatOf(p: Player): Seat
    reads p`cards, p`tokens, p`effVal
  {
    Seat(p.cards, p.tokens, p.effVal, p.cardThreshold, p.tokenThreshold, p.effValThreshold)
  }

  function SeatsOf(ps: seq<Player>): (r: seq<Seat>)
    reads ps`cards, ps`tokens, ps`effVal
    ensures |r| == |ps| && forall i {:trigger r[i]} :: 0 <= i < |ps| ==> r[i] == SeatOf(ps[i])
  {
    if ps == [] then [] else SeatsOf(ps[..|ps| - 1]) + [SeatOf(ps[|ps| - 1])]
  }

  function HandsOf(ps: seq<Player>): (r: seq<seq<int>>)
    reads ps`cards
    ensures |r| == |ps| && forall i {:trigger r[i]} :: 0 <= i < |ps| ==> r[i] == ps[i].cards
  {
    if ps == [] then [] else HandsOf(ps[..|ps| - 1]) + [ps[|ps| - 1].cards]
  }

  function TokensOf(ps: seq<Player>): (r: seq<int>)
    reads ps`tokens
    ensures |r| == |ps| && forall i {:trigger r[i]} :: 0 <= i < |ps| ==> r[i] == ps[i].tokens
  {
    if ps == [] then [] else TokensOf(ps[..|ps| - 1]) + [ps[|ps| - 1].tokens]
  }

  function ScoresOf(ps: seq<Player>): (r: seq<int>)
    reads ps
    ensures |r| == |ps| && forall i {:trigger r[i]} :: 0 <= i < |ps| ==> r[i] == ps[i].score
  {
    seq(|ps|, i requires 0 <= i < |ps| reads ps => ps[i].score)
  }

  function WinsOf(ps: seq<Player>): (r: seq<int>)
    reads ps
    ensures |r| == |ps| && forall i {:trigger r[i]} :: 0 <= i < |ps| ==> r[i] == ps[i].win
  {
    seq(|ps|, i requires 0 <= i < |ps| reads ps => ps[i].win)
  }

  function PositionsOf(ps: seq<Player>): (r: seq<int>)
    ensures |r| == |ps| && forall i {:trigger r[i]} :: 0 <= i < |ps| ==> r[i] == ps[i].pos
  {
    seq(|ps|, i requires 0 <= i < |ps| => ps[i].pos)
  }

  /** Seat `i` holds `p`: the given player whose position is `i`, or else a
      new computer player with the thresholds drawn for seat `i`. */
  ghost predicate SeatedAt(p: Player, i: int, given: seq<Player>, ai: int -> AiDraw)
    reads p`tokens, p`minTokens, p`maxTokens, p`cards
  {
    && p.pos == i && p.Valid()
    && (i in PositionsOf(given) ==> p == given[IndexOf(PositionsOf(given), i)])
    && (i !in PositionsOf(given) ==>
          && p.tokens == 11 && p.cards == []
          && p.cardThreshold == ai(i).cardThreshold
          && p.tokenThreshold == ai(i).tokenThreshold
          && p.effValThreshold == ai(i).effValThreshold)
  }

  /** A table set up from players who bring no cards holds every card once. */
  lemma FreshSingle(t: Table, given: seq<Player>, ai: int -> AiDraw, num: nat, offset: int, dis: nat, picks: seq<nat>)
    requires dis <= num && ValidPicks(picks, num)
    requires t.dealt == multiset(Decks.DealtCards(num, offset, dis, picks)) + t.brought && t.brought == Gathered(t.hands)
    requires t.HandsMirrored() && forall i :: 0 <= i < |t.players| ==> SeatedAt(t.players[i], i, given, ai)
    requires forall i :: 0 <= i < |given| ==> given[i].cards == []
    ensures t.SingleCopies()
  {
    NothingBrought(t.players, given, ai);
    assert t.hands == HandsOf(t.players);
    Decks.DealtSingle(num, offset, dis, picks);
  }

  /** When the given players bring no cards, no seat holds any. */
  lemma NothingBrought(ps: seq<Player>, given: seq<Player>, ai: int -> AiDraw)
    requires forall i :: 0 <= i < |ps| ==> SeatedAt(ps[i], i, given, ai)
    requires forall i :: 0 <= i < |given| ==> given[i].cards == []
    ensures Gathered(HandsOf(ps)) == multiset{}
  {
    GatheredEmpty(HandsOf(ps));
  }

  /** The seat after `w` round a table of `n`. */
  function NextSeat(w: int, n: int): int
    requires n > 0
  {
    (w + 1) % n
  }

  /** The seats after `get_effective_value`: every seat holds the value of
      the card up to it, computed with the cards of everybody but `me`. */
  function Valued(seats: seq<Seat>, cardUp: int, me: int, deckLen: nat, totOrig: int, pot: int): (r: seq<Seat>)
    requires totOrig > 0
    ensures |r| == |seats|
    ensures forall i {:trigger r[i]} :: 0 <= i < |seats| ==>
      r[i] == seats[i].(effVal := EffectiveValue(cardUp, seats[i].cards, Policy.OtherCards(Hands(seats), me), deckLen, totOrig, pot))
  {
    seq(|seats|, i requires 0 <= i < |seats| =>
      seats[i].(effVal := EffectiveValue(cardUp, seats[i].cards, Policy.OtherCards(Hands(seats), me), deckLen, totOrig, pot)))
  }

  /** Players whose values were set as `get_effective_value` sets them, and
      who hold the hands and tokens of `seats`, hold the valued seats. */
  lemma NowValued(seats: seq<Seat>, ps: seq<Player>, cardUp: int, me: int, deckLen: nat, totOrig: int, pot: int)
    requires totOrig > 0 && |seats| == |ps|
    requires forall i :: 0 <= i < |ps| ==> SeatOf(ps[i]) == seats[i].(effVal := ps[i].effVal)
    requires forall i :: 0 <= i < |ps| ==>
      ps[i].effVal == EffectiveValue(cardUp, ps[i].cards, Policy.OtherCards(HandsOf(ps), me), deckLen, totOrig, pot)
    ensures SeatsOf(ps) == Valued(seats, cardUp, me, deckLen, totOrig, pot)
  {
    assert Hands(seats) == HandsOf(ps);
  }

  class Table {
    const players: seq<Player>
    const numPlayers: int
    const deck: Deck
    const verbosity: int
    var whoseTurn: int
    var pot: int
    var cardUp: int
    /** The tokens on the table when it was set up. */
    ghost const supply: int
    /** The token count of every seat, in seat order. */
    ghost var purses: seq<int>
    /** The cards on the table when it was set up: the deck as dealt and the
        hands the given players brought. */
    ghost const dealt: multiset<int>
    /** The cards the given players brought to the table. */
    ghost const brought: multiset<int>
    /** The hand of every seat, in seat order. */
    ghost var hands: seq<seq<int>>
    /** The game is over: the last card was taken, and the card up is still
        that card, now in a hand. */
    ghost var ended: bool

    /** A table in play: its tokens and its cards are all accounted for. */
    ghost predicate Valid()
      reads this, deck, players`tokens, players`minTokens, players`maxTokens, players`cards
    {
      Sound() && CardsKept()
    }

    /** `hands` are the players' hands. */
    ghost predicate HandsMirrored()
      reads this`hands, players`cards
    {
      |hands| == |players| && forall i :: 0 <= i < |players| ==> hands[i] == players[i].cards
    }

    /** No card is created or lost: every card on the table when it was set
        up is in the deck, in a hand, or the card up while the game goes on;
        once it is over the deck is empty. */
    ghost predicate CardsKept()
      reads this`hands, this`cardUp, this`ended, deck`cards, players`cards
    {
      && HandsMirrored()
      && multiset(deck.cards) + (if ended then multiset{} else multiset{cardUp}) + Gathered(hands) == dealt
      && (ended ==> deck.cards == [])
    }

    /** Between taking the card up and turning up the next one: every card
        is in the deck or in a hand. */
    ghost predicate CardsTaken()
      reads this`hands, deck`cards, players`cards
    {
      HandsMirrored() && multiset(deck.cards) + Gathered(hands) == dealt
    }

    /** Every card on the table is a single copy, as the cards of a dealt
        deck are. */
    ghost predicate SingleCopies() {
      forall c :: dealt[c] <= 1
    }

    /** With single copies, the cards of a hand differ, the card up of a game
        in progress is in no hand, and no card is in two hands. */
    lemma HeldApart()
      requires CardsKept() && SingleCopies()
      ensures forall i :: 0 <= i < |players| ==> Distinct(players[i].cards)
      ensures !ended ==> forall i :: 0 <= i < |players| ==> cardUp !in players[i].cards
      ensures forall i, j, c :: 0 <= i < j < |players| && c in players[i].cards ==> c !in players[j].cards
    {
      var rest := multiset(deck.cards) + (if ended then multiset{} else multiset{cardUp});
      HeldOnce(rest, hands, dealt);
      assert forall i, c :: 0 <= i < |hands| && c in rest ==> c !in hands[i];
      if !ended {
        assert cardUp in rest;
      }
    }

    /** Outside the open-gap case, the value of the card up to a player who
        holds cards is what taking it and the pot changes the player's
        `get_score` by. */
    lemma ValueIsScoreChange(i: int)
      requires Sound() && CardsKept() && SingleCopies() && !ended
      requires 0 <= i < |players| && |players[i].cards| > 0
      requires !GapOpen(cardUp, players[i].cards, Policy.OtherCards(HandsOf(players), whoseTurn))
      ensures EffectiveValue(cardUp, players[i].cards, Policy.OtherCards(HandsOf(players), whoseTurn), |deck.cards|, deck.totOrigCards, pot)
        == (HandScore(players[i].cards + [cardUp], players[i].tokens + pot) - HandScore(players[i].cards, players[i].tokens)) as real
    {
      HeldApart();
      EffectiveValueIsScoreChange(cardUp, players[i].cards, Policy.OtherCards(HandsOf(players), whoseTurn),
                                  |deck.cards|, deck.totOrigCards, pot, players[i].tokens);
    }

    /** The seats are filled in order, the turn is a seat, no token is
        created or lost, and the card up is a card of the deck's range. */
    ghost predicate Sound()
      reads this`whoseTurn, this`pot, this`cardUp, this`purses, deck, players`tokens, players`minTokens, players`maxTokens
    {
      && deck.Valid()
      && |players| <= 5
      && |players| == (if numPlayers < 0 then 0 else numPlayers)
      && (forall i :: 0 <= i < |players| ==> players[i].Valid() && players[i].pos == i)
      && (forall i, j :: 0 <= i < j < |players| ==> players[i] != players[j])
      && 0 <= whoseTurn && (|players| > 0 ==> whoseTurn < |players|)
      && 0 <= pot
      && |purses| == |players| && (forall i :: 0 <= i < |players| ==> purses[i] == players[i].tokens)
      && Sum(purses) + pot == supply
      && deck.minCard <= cardUp <= deck.maxCard
    }

    /** `Table(players, num_ai_players, num_cards, offset, dis, verbose)` for
        a configuration that passes every check. The deck is built first; the
        given players keep their seats, every free seat gets a new computer
        player, and the first card of the deck is turned up. */
    constructor (given: seq<Player>, numAi: int, numCards: int, offset: int, dis: int, verbose: int,
                 picks: seq<nat>, ai: int -> AiDraw)
      requires NoThxDecks.DeckError(numCards, offset, dis).None? && ValidPicks(picks, numCards)
      requires SeatError(PositionsOf(given), |given| + numAi).None?
      requires forall i :: 0 <= i < |given| ==> given[i].Valid()
      requires forall p :: 0 <= ai(p).tokenThreshold <= 10
      ensures Sound()
      ensures CardsKept() && !ended
      ensures numPlayers == |given| + numAi && verbosity == verbose
      ensures whoseTurn == 0 && pot == 0 && fresh(deck)
      ensures var dealt := Decks.DealtCards(numCards, offset, dis, picks);
        cardUp == dealt[0] && deck.cards == dealt[1..]
      ensures forall i :: 0 <= i < |players| ==> SeatedAt(players[i], i, given, ai)
      ensures forall i :: 0 <= i < |players| && i !in PositionsOf(given) ==> fresh(players[i])
      ensures dealt == multiset(Decks.DealtCards(numCards, offset, dis, picks)) + brought
      ensures brought == Gathered(hands)
    {
      var n := |given| + numAi;
      var d, first := Deal(numCards, offset, dis, picks);
      var ps, counts, held := FillSeats(given, n, ai);
      hands := held;
      brought := Gathered(held);
      dealt := multiset(Decks.DealtCards(numCards, offset, dis, picks)) + Gathered(held);
      ended := false;
      deck := d;
      players := ps;
      numPlayers := n;
      verbosity := verbose;
      whoseTurn := 0;
      pot := 0;
      cardUp := first;
      supply := Sum(counts);
      purses := counts;
    }

    /** The deck part of `Table.__init__`: a new deck, with its first card
        turned up. */
    static method Deal(numCards: int, offset: int, dis: int, picks: seq<nat>) returns (d: Deck, first: int)
      requires NoThxDecks.DeckError(numCards, offset, dis).None? && ValidPicks(picks, numCards)
      ensures fresh(d) && d.Valid()
      ensures d.minCard == offset && d.maxCard == numCards + offset - 1 && d.totOrigCards == numCards
      ensures d.minCard <= first <= d.maxCard
      ensures var dealt := Decks.DealtCards(numCards, offset, dis, picks);
        first == dealt[0] && d.cards == dealt[1..] && multiset(d.cards) + multiset{first} == multiset(dealt)
    {
      d := new Deck(numCards, offset, dis, picks);
      Decks.DealtCardsDistinctInRange(numCards, offset, dis, picks);
      ghost var cards := d.cards;
      first := d.Draw();
      assert cards == [first] + d.cards;
    }

    /** The seating part of `Table.__init__`: every seat without a given
        player gets a new computer player (`add_player`), and the players are
        put in seat order. `counts` are their token counts, `held` their
        hands. */
    static method FillSeats(given: seq<Player>, n: int, ai: int -> AiDraw)
      returns (ps: seq<Player>, ghost counts: seq<int>, ghost held: seq<seq<int>>)
      requires SeatError(PositionsOf(given), n).None?
      requires forall i :: 0 <= i < |given| ==> given[i].Valid()
      requires forall p :: 0 <= ai(p).tokenThreshold <= 10
      ensures |ps| == (if n < 0 then 0 else n) && |ps| <= 5
      ensures |counts| == |ps| && forall i :: 0 <= i < |ps| ==> counts[i] == ps[i].tokens
      ensures |held| == |ps| && forall i :: 0 <= i < |ps| ==> held[i] == ps[i].cards
      ensures forall i :: 0 <= i < |ps| ==> SeatedAt(ps[i], i, given, ai)
      ensures forall i :: 0 <= i < |ps| && i !in PositionsOf(given) ==> fresh(ps[i])
    {
      var positions := PositionsOf(given);
      assert n <= 5 by {
        SeatErrorMeaning(positions, n);
      }
      ps := [];
      var pos := 0;
      while pos < n
        invariant 0 <= pos <= (if n < 0 then 0 else n) && |ps| == pos
        invariant forall i :: 0 <= i < pos ==> SeatedAt(ps[i], i, given, ai)
        invariant forall i :: 0 <= i < pos && i !in positions ==> fresh(ps[i])
      {
        var p := SeatFor(given, pos, ai);
        ps := ps + [p];
        pos := pos + 1;
      }
      counts := TokensOf(ps);
      held := HandsOf(ps);
    }

    /** The player for seat `pos`: the given player sitting there, or else a
        new computer player (`add_player`). */
    static method SeatFor(given: seq<Player>, pos: int, ai: int -> AiDraw) returns (p: Player)
      requires forall i :: 0 <= i < |given| ==> given[i].Valid()
      requires forall p :: 0 <= ai(p).tokenThreshold <= 10
      ensures SeatedAt(p, pos, given, ai)
      ensures pos !in PositionsOf(given) ==> fresh(p)
    {
      var positions := PositionsOf(given);
      if pos in positions {
        p := given[IndexOf(positions, pos)];
      } else {
        var a := ai(pos);
        p := new Player(pos, a.cardThreshold, a.tokenThreshold, a.effValThreshold);
      }
    }

    /** `Table(...)`, with the process exits as error results: the deck's
        checks come first, then the seat checks. */
    static method New(given: seq<Player>, numAi: int, numCards: int, offset: int, dis: int, verbose: int,
                      picks: seq<nat>, ai: int -> AiDraw) returns (r: Result<Table>)
      requires ValidPicks(picks, numCards)
      requires forall i :: 0 <= i < |given| ==> given[i].Valid()
      requires forall p :: 0 <= ai(p).tokenThreshold <= 10
      ensures NoThxDecks.DeckError(numCards, offset, dis).Some? ==>
        r == Err(NoThxDecks.DeckError(numCards, offset, dis).value)
      ensures NoThxDecks.DeckError(numCards, offset, dis).None? && SeatError(PositionsOf(given), |given| + numAi).Some? ==>
        r == Err(SeatError(PositionsOf(given), |given| + numAi).value)
      ensures r.Ok? ==> fresh(r.value) && r.value.Valid() && !r.value.ended && r.value.numPlayers == |given| + numAi
      ensures NoThxDecks.DeckError(numCards, offset, dis).None? && SeatError(PositionsOf(given), |given| + numAi).None? ==>
        && r.Ok? && r.value.verbosity == verbose
        && r.value.whoseTurn == 0 && r.value.pot == 0 && fresh(r.value.deck)
        && (var dealt := Decks.DealtCards(numCards, offset, dis, picks);
            r.value.cardUp == dealt[0] && r.value.deck.cards == dealt[1..])
        && (forall i :: 0 <= i < |r.value.players| ==> SeatedAt(r.value.players[i], i, given, ai))
      ensures r.Ok? && (forall i :: 0 <= i < |given| ==> given[i].cards == []) ==> r.value.SingleCopies()
    {
      var e := NoThxDecks.DeckError(numCards, offset, dis);
      if e.Some? {
        return Err(e.value);
      }
      var s := SeatError(PositionsOf(given), |given| + numAi);
      if s.Some? {
        return Err(s.value);
      }
      var t := new Table(given, numAi, numCards, offset, dis, verbose, picks, ai);
      if forall i :: 0 <= i < |given| ==> given[i].cards == [] {
        FreshSingle(t, given, ai, numCards, offset, dis, picks);
      }
      return Ok(t);
    }

    /** `get_effective_value`: every player's `eff_val` becomes the value of
        the card up to that player, with the cards of the others taken
        relative to the player whose turn it is, as in the later version. */
    method GetEffectiveValue()
      requires deck.totOrigCards > 0
      modifies players`effVal
      ensures forall i :: 0 <= i < |players| ==>
        players[i].effVal ==
          EffectiveValue(cardUp, players[i].cards, Policy.OtherCards(HandsOf(players), whoseTurn),
                         |deck.cards|, deck.totOrigCards, pot)
      ensures SeatsOf(players) == Valued(old(SeatsOf(players)), cardUp, whoseTurn, |deck.cards|, deck.totOrigCards, pot)
    {
      ghost var seats := SeatsOf(players);
      var others := Policy.OtherCards(HandsOf(players), whoseTurn);
      var i := 0;
      while i < |players|
        invariant 0 <= i <= |players|
        invariant forall j :: 0 <= j < i ==>
          players[j].effVal == EffectiveValue(cardUp, players[j].cards, others, |deck.cards|, deck.totOrigCards, pot)
      {
        var player := players[i];
        player.effVal := EffectiveValue(cardUp, player.cards, others, |deck.cards|, deck.totOrigCards, pot);
        i := i + 1;
      }
      NowValued(seats, players, cardUp, whoseTurn, |deck.cards|, deck.totOrigCards, pot);
    }

    /** `vindictive_potential` with the corrected comparison: each player is
        scored and its stored score, not what `get_score` returns, is used.
        Exactly the consulted players are scored. */
    method VindictivePotential(thresh: int) returns (r: bool)
      requires 0 <= whoseTurn < |players|
      requires forall i, j :: 0 <= i < j < |players| ==> players[i] != players[j]
      modifies players`score
      ensures SeatsOf(players) == old(SeatsOf(players))
      ensures r == Vindictive(old(SeatsOf(players)), whoseTurn, |deck.cards|, thresh)
      ensures forall j :: 0 <= j < |players| ==>
        if Policy.Consulted(Spots(old(SeatsOf(players))), whoseTurn, |deck.cards|, thresh, j)
        then players[j].score == HandScore(players[j].cards, players[j].tokens)
        else players[j].score == old(players[j].score)
    {
      ghost var spots := Spots(SeatsOf(players));
      var player := players[whoseTurn];
      var _ := player.GetScore();
      var score := player.score;
      if |deck.cards| > |players| {
        return false;
      }
      ghost var stop;
      r, stop := SpiteLoop(score, thresh, spots);
    }

    /** The loop of `vindictive_potential`: scores the other players until
        one of them is less than `thresh` points ahead of `score`, keeping
        the lowest effective value seen, and turns spiteful when that is
        below zero. The players' hands, tokens and values are `spots`; the
        players scored are the others up to where the loop stops. */
    method SpiteLoop(score: int, thresh: int, ghost spots: seq<Policy.Seat>) returns (r: bool, ghost stop: nat)
      requires 0 <= whoseTurn < |players| && |spots| == |players|
      requires forall i, j :: 0 <= i < j < |players| ==> players[i] != players[j]
      requires forall j :: 0 <= j < |players| ==>
        players[j].cards == spots[j].cards && players[j].tokens == spots[j].tokens && players[j].effVal == spots[j].effVal
      modifies players`score
      ensures r == Policy.SpiteScan(spots, whoseTurn, score, thresh, 0, 0.0)
      ensures stop == Policy.SpiteStop(spots, whoseTurn, score, thresh, 0)
      ensures forall j :: 0 <= j < |players| && j != whoseTurn && j <= stop ==>
        players[j].score == HandScore(spots[j].cards, spots[j].tokens)
      ensures forall j :: 0 <= j < |players| && (j == whoseTurn || stop < j) ==>
        players[j].score == old(players[j].score)
    {
      var val := 0.0;
      var i := 0;
      while i < |players|
        invariant 0 <= i <= |players|
        invariant forall j :: 0 <= j < i && j != whoseTurn ==> Policy.SeatScore(spots[j]) + thresh <= score
        invariant val <= 0.0 && (val < 0.0 <==> exists j :: 0 <= j < i && j != whoseTurn && spots[j].effVal < 0.0)
        invariant forall j :: 0 <= j < i && j != whoseTurn ==>
          players[j].score == HandScore(spots[j].cards, spots[j].tokens)
        invariant forall j :: 0 <= j < |players| && (j == whoseTurn || i <= j) ==>
          players[j].score == old(players[j].score)
      {
        if i != whoseTurn {
          var s := ScoreSeat(i);
          assert Policy.SeatScore(spots[i]) == s;
          if s + thresh > score {
            return false, i;
          }
          if players[i].effVal < val {
            val := players[i].effVal;
          }
        }
        i := i + 1;
      }
      return val < 0.0, |players|;
    }

    /** `get_score` of seat `i`, keeping the stored score: only that seat's
        score changes. */
    method ScoreSeat(i: int) returns (s: int)
      requires 0 <= i < |players|
      requires forall i, j :: 0 <= i < j < |players| ==> players[i] != players[j]
      modifies players`score
      ensures s == players[i].score == HandScore(players[i].cards, players[i].tokens)
      ensures forall j :: 0 <= j < |players| && j != i ==> players[j].score == old(players[j].score)
    {
      var player := players[i];
      var _ := player.GetScore();
      s := player.score;
    }

    /** The decision part of `player_logic`, with the effective values
        already set, as the corrected rules of `NoThxPolicy` decide. The
        scoring inside `vindictive_potential` changes nothing the rules read,
        and happens only when no earlier rule decides. */
    method ChooseMove(potThresh: int, thresh: int) returns (m: Policy.Move)
      requires 0 <= whoseTurn < |players|
      requires forall i, j :: 0 <= i < j < |players| ==> players[i] != players[j]
      modifies players`score
      ensures SeatsOf(players) == old(SeatsOf(players))
      ensures m == Decide(old(SeatsOf(players)), whoseTurn, cardUp, pot, |deck.cards|, deck.maxCard, potThresh, thresh)
      ensures forall j :: 0 <= j < |players| ==>
        if && EarlyRules(old(SeatsOf(players)), whoseTurn, cardUp, pot, |deck.cards|, deck.maxCard, potThresh).None?
           && Policy.Consulted(Spots(old(SeatsOf(players))), whoseTurn, |deck.cards|, thresh, j)
        then players[j].score == HandScore(players[j].cards, players[j].tokens)
        else players[j].score == old(players[j].score)
    {
      var early := EarlyRules(SeatsOf(players), whoseTurn, cardUp, pot, |deck.cards|, deck.maxCard, potThresh);
      if early.Some? {
        m := early.value;
      } else {
        var spite := VindictivePotential(thresh);
        m := if spite then Policy.Take else Policy.Pass;
      }
    }

    /** The count of `player_logic` for a player without cards who takes
        only to keep tokens. */
    method CountTokenKeeping()
      requires 0 <= whoseTurn < |players|
      modifies (players[whoseTurn] as Player)`passBeforeFirstCard
      ensures SeatsOf(players) == old(SeatsOf(players))
      ensures players[whoseTurn].passBeforeFirstCard ==
        old(players[whoseTurn].passBeforeFirstCard) + if TakesToKeepTokens(SeatOf(players[whoseTurn]), cardUp) then 1 else 0
    {
      var player := players[whoseTurn];
      if TakesToKeepTokens(SeatOf(player), cardUp) {
        player.passBeforeFirstCard := player.passBeforeFirstCard + 1;
      }
    }

    /** `player_passes`: the player whose turn it is pays a token into the
        pot, lowering its lowest token count when it is passed, and the turn
        moves on. Without a token the source stops; here `paid` is false and
        nothing changes. */
    method PlayerPasses() returns (paid: bool)
      requires Sound() && |players| > 0
      modifies players`tokens, players`minTokens, this`pot, this`whoseTurn, this`purses
      ensures Sound()
      ensures paid <==> old(players[whoseTurn].tokens) > 0
      ensures paid ==>
        && players[old(whoseTurn)].tokens == old(players[whoseTurn].tokens) - 1
        && pot == old(pot) + 1
        && whoseTurn == NextSeat(old(whoseTurn), numPlayers)
        && Sum(purses) == old(Sum(purses)) - 1
      ensures paid ==>
        players[old(whoseTurn)].minTokens ==
          if players[old(whoseTurn)].tokens < old(players[whoseTurn].minTokens) then players[old(whoseTurn)].tokens
          else old(players[whoseTurn].minTokens)
      ensures !paid ==>
        && players[whoseTurn].tokens == old(players[whoseTurn].tokens)
        && players[whoseTurn].minTokens == old(players[whoseTurn].minTokens)
        && pot == old(pot) && whoseTurn == old(whoseTurn)
      ensures forall i :: 0 <= i < |players| && i != old(whoseTurn) ==>
        players[i].tokens == old(players[i].tokens) && players[i].minTokens == old(players[i].minTokens)
    {
      var player := players[whoseTurn];
      paid := player.PlayToken();
      if !paid {
        return;
      }
      SumUpdate(purses, whoseTurn, purses[whoseTurn] - 1);
      purses := purses[whoseTurn := purses[whoseTurn] - 1];
      pot := pot + 1;
      whoseTurn := NextSeat(whoseTurn, numPlayers);
    }

    /** `player_takes_card`: the player whose turn it is takes the card up
        and the pot. While the deck has a card the next one is turned up;
        otherwise the game is over (`over`) and nothing is drawn. */
    method PlayerTakesCard() returns (over: bool)
      requires Valid() && |players| > 0 && !ended
      modifies players`cards, players`tokens, players`maxTokens
      modifies this`pot, this`cardUp, this`purses, this`hands, this`ended, deck`cards
      ensures Valid()
      ensures var p := players[whoseTurn];
        && p.cards == old(p.cards) + [old(cardUp)]
        && p.tokens == old(p.tokens) + old(pot)
        && p.maxTokens == if p.tokens > old(p.maxTokens) then p.tokens else old(p.maxTokens)
      ensures forall i :: 0 <= i < |players| && i != whoseTurn ==> unchanged(players[i])
      ensures pot == 0 && whoseTurn == old(whoseTurn)
      ensures over == ended && (over <==> old(deck.cards) == [])
      ensures over ==> cardUp == old(cardUp) && deck.cards == []
      ensures !over ==> cardUp == old(deck.cards)[0] && deck.cards == old(deck.cards)[1..]
    {
      TakeCardUp();
      over := NextCard();
    }

    /** The second half of `player_takes_card`: the next card is turned up
        while the deck has one; otherwise the game is over. */
    method NextCard() returns (over: bool)
      requires Sound() && CardsTaken() && !ended
      modifies this`cardUp, this`ended, deck`cards
      ensures Sound()
      ensures CardsKept()
      ensures over == ended && (over <==> old(deck.cards) == [])
      ensures over ==> cardUp == old(cardUp) && deck.cards == []
      ensures !over ==> cardUp == old(deck.cards)[0] && deck.cards == old(deck.cards)[1..]
    {
      if |deck.cards| > 0 {
        TurnUp();
        over := false;
      } else {
        EndGame();
        over := true;
      }
    }

    /** Turning up the next card of a deck that has one. */
    method TurnUp()
      requires Sound() && CardsTaken() && !ended && deck.cards != []
      modifies this`cardUp, deck`cards
      ensures Sound()
      ensures CardsKept()
      ensures cardUp == old(deck.cards)[0] && deck.cards == old(deck.cards)[1..]
    {
      ghost var before := deck.cards;
      cardUp := deck.Draw();
      DrawnKept(before, Gathered(hands), dealt);
    }

    /** The game is over when a take finds the deck empty; the card up stays
        the card just taken. */
    method EndGame()
      requires CardsTaken() && deck.cards == []
      modifies this`ended
      ensures CardsKept() && ended
    {
      ended := true;
    }

    /** The first half of `player_takes_card`: the card up and the pot go to
        the player whose turn it is. */
    method TakeCardUp()
      requires Valid() && |players| > 0 && !ended
      modifies players`cards, players`tokens, players`maxTokens, this`pot, this`purses, this`hands
      ensures Sound() && CardsTaken()
      ensures var p := players[whoseTurn];
        && p.cards == old(p.cards) + [cardUp]
        && p.tokens == old(p.tokens) + old(pot)
        && p.maxTokens == if p.tokens > old(p.maxTokens) then p.tokens else old(p.maxTokens)
      ensures forall i :: 0 <= i < |players| && i != whoseTurn ==> unchanged(players[i])
      ensures pot == 0
    {
      CollectCardUp();
      TakenKept(multiset(deck.cards), cardUp, hands, whoseTurn, dealt);
      hands := hands[whoseTurn := hands[whoseTurn] + [cardUp]];
    }

    /** The player whose turn it is adds the card up to its hand and the pot
        to its tokens, and its highest token count is raised when it is
        passed. */
    method CollectCardUp()
      requires Sound() && |players| > 0
      modifies players`cards, players`tokens, players`maxTokens, this`pot, this`purses
      ensures Sound()
      ensures var p := players[whoseTurn];
        && p.cards == old(p.cards) + [cardUp]
        && p.tokens == old(p.tokens) + old(pot)
        && p.maxTokens == if p.tokens > old(p.maxTokens) then p.tokens else old(p.maxTokens)
      ensures forall i :: 0 <= i < |players| && i != whoseTurn ==> unchanged(players[i])
      ensures pot == 0
    {
      var player := players[whoseTurn];
      player.TakeCard(cardUp);
      player.tokens := player.tokens + pot;
      if player.tokens > player.maxTokens {
        player.maxTokens := player.tokens;
      }
      SumUpdate(purses, whoseTurn, purses[whoseTurn] + pot);
      purses := purses[whoseTurn := purses[whoseTurn] + pot];
      pot := 0;
    }

    /** One call of `play` without the recursion: value the card up, decide,
        and take or pass; `move` is the move made and `over` whether it ended
        the game. A pass is always paid for, so the exit for a pass without a
        token is never reached. Each turn that does not end the game either
        draws a card or moves a token into the pot. */
    method PlayTurn(potThresh: int, thresh: int) returns (move: Policy.Move, over: bool)
      requires Sound() && CardsKept() && numPlayers >= 1 && !ended
      modifies players`cards, players`tokens, players`minTokens, players`maxTokens, players`effVal
      modifies players`score, (players[whoseTurn] as Player)`passBeforeFirstCard
      modifies this`pot, this`cardUp, this`whoseTurn, this`purses, this`hands, this`ended, deck`cards
      ensures Sound()
      ensures CardsKept()
      ensures move == Decide(Valued(old(SeatsOf(players)), old(cardUp), old(whoseTurn), old(|deck.cards|), deck.totOrigCards, old(pot)),
                             old(whoseTurn), old(cardUp), old(pot), old(|deck.cards|), deck.maxCard, potThresh, thresh)
      ensures move == Policy.Take ==>
        && players[whoseTurn].cards == old(players[whoseTurn].cards) + [old(cardUp)]
        && players[whoseTurn].tokens == old(players[whoseTurn].tokens) + old(pot)
        && pot == 0 && whoseTurn == old(whoseTurn)
        && (over <==> old(deck.cards) == [])
        && (over ==> cardUp == old(cardUp) && deck.cards == [])
        && (!over ==> cardUp == old(deck.cards)[0] && deck.cards == old(deck.cards)[1..])
      ensures move == Policy.Pass ==>
        && players[old(whoseTurn)].tokens == old(players[whoseTurn].tokens) - 1
        && pot == old(pot) + 1 && whoseTurn == NextSeat(old(whoseTurn), numPlayers)
        && cardUp == old(cardUp) && deck.cards == old(deck.cards) && !over
      ensures players[old(whoseTurn)].passBeforeFirstCard ==
        old(players[whoseTurn].passBeforeFirstCard) + if TakesToKeepTokens(old(SeatOf(players[whoseTurn])), old(cardUp)) then 1 else 0
      ensures over == ended
      ensures over ==> deck.cards == [] && pot == 0
      ensures || (CardsToPlay() < old(CardsToPlay()) && pot == 0)
              || (CardsToPlay() == old(CardsToPlay()) && pot == old(pot) + 1 && Sum(purses) < old(Sum(purses)))
    {
      ghost var mover := players[whoseTurn];
      move := Decision(potThresh, thresh);
      ghost var counted := mover.passBeforeFirstCard;
      KeptAside();
      over := MakeMove(move);
      assert mover.passBeforeFirstCard == counted;
    }

    /** The moving part of `player_logic`: take the card up, or pass. */
    method MakeMove(move: Policy.Move) returns (over: bool)
      requires Sound() && CardsKept() && numPlayers >= 1 && !ended
      requires move == Policy.Pass ==> players[whoseTurn].tokens != 0
      modifies players`cards, players`tokens, players`minTokens, players`maxTokens
      modifies this`pot, this`cardUp, this`whoseTurn, this`purses, this`hands, this`ended, deck`cards
      ensures Sound()
      ensures CardsKept()
      ensures move == Policy.Take ==>
        && players[whoseTurn].cards == old(players[whoseTurn].cards) + [old(cardUp)]
        && players[whoseTurn].tokens == old(players[whoseTurn].tokens) + old(pot)
        && pot == 0 && whoseTurn == old(whoseTurn)
        && (over <==> old(deck.cards) == [])
        && (over ==> cardUp == old(cardUp) && deck.cards == [])
        && (!over ==> cardUp == old(deck.cards)[0] && deck.cards == old(deck.cards)[1..])
      ensures move == Policy.Pass ==>
        && players[old(whoseTurn)].tokens == old(players[whoseTurn].tokens) - 1
        && pot == old(pot) + 1 && whoseTurn == NextSeat(old(whoseTurn), numPlayers)
        && cardUp == old(cardUp) && deck.cards == old(deck.cards) && !over
        && Sum(purses) == old(Sum(purses)) - 1
      ensures move == Policy.Take ==>
        && players[whoseTurn].maxTokens ==
             (if players[whoseTurn].tokens > old(players[whoseTurn].maxTokens) then players[whoseTurn].tokens
              else old(players[whoseTurn].maxTokens))
        && forall i :: 0 <= i < |players| && i != whoseTurn ==> unchanged(players[i])
      ensures move == Policy.Pass ==>
        && players[old(whoseTurn)].minTokens ==
             (if players[old(whoseTurn)].tokens < old(players[whoseTurn].minTokens) then players[old(whoseTurn)].tokens
              else old(players[whoseTurn].minTokens))
        && forall i :: 0 <= i < |players| && i != old(whoseTurn) ==>
             players[i].tokens == old(players[i].tokens) && players[i].minTokens == old(players[i].minTokens)
      ensures move == Policy.Pass ==> forall i :: 0 <= i < |players| ==>
        players[i].cards == old(players[i].cards) && players[i].maxTokens == old(players[i].maxTokens)
      ensures over == ended
    {
      if move == Policy.Take {
        over := PlayerTakesCard();
      } else {
        var paid := PlayerPasses();
        over := false;
      }
    }

    /** The deciding part of `play`: value the card up for every player,
        choose the move, and count a take that only keeps tokens. */
    method Decision(potThresh: int, thresh: int) returns (move: Policy.Move)
      requires 0 <= whoseTurn < |players| && deck.totOrigCards > 0
      requires forall i, j :: 0 <= i < j < |players| ==> players[i] != players[j]
      modifies players`effVal, players`score, (players[whoseTurn] as Player)`passBeforeFirstCard
      ensures SeatsOf(players) == Valued(old(SeatsOf(players)), cardUp, whoseTurn, |deck.cards|, deck.totOrigCards, pot)
      ensures move == Decide(SeatsOf(players), whoseTurn, cardUp, pot, |deck.cards|, deck.maxCard, potThresh, thresh)
      ensures move == Policy.Pass ==> players[whoseTurn].tokens != 0
      ensures forall j {:trigger Policy.Consulted(Spots(SeatsOf(players)), whoseTurn, |deck.cards|, thresh, j)} :: 0 <= j < |players| ==>
        if && EarlyRules(SeatsOf(players), whoseTurn, cardUp, pot, |deck.cards|, deck.maxCard, potThresh).None?
           && Policy.Consulted(Spots(SeatsOf(players)), whoseTurn, |deck.cards|, thresh, j)
        then players[j].score == HandScore(players[j].cards, players[j].tokens)
        else players[j].score == old(players[j].score)
      ensures players[whoseTurn].passBeforeFirstCard ==
        old(players[whoseTurn].passBeforeFirstCard) + if TakesToKeepTokens(old(SeatOf(players[whoseTurn])), cardUp) then 1 else 0
    {
      ghost var before := SeatOf(players[whoseTurn]);
      GetEffectiveValue();
      assert TakesToKeepTokens(SeatOf(players[whoseTurn]), cardUp) == TakesToKeepTokens(before, cardUp);
      move := ChooseMove(potThresh, thresh);
      CountTokenKeeping();
    }

    /** Valuing, scoring and counting keep the table sound and the seats as
        they are. */
    twostate lemma KeptAside()
      requires old(Sound()) && old(CardsKept())
      requires unchanged(this`whoseTurn, this`pot, this`cardUp, this`purses, this`hands, this`ended, deck`cards)
      requires unchanged(players`tokens, players`minTokens, players`maxTokens, players`cards)
      ensures Sound()
      ensures CardsKept()
    {
    }

    /** `play` and its recursion, until a take finds the deck empty;
        `pots(k)` and `spite(k)` are the random thresholds of round `k`,
        and `turns` the number of rounds played. At the end the deck and the
        pot are empty and all tokens are back with the players. Every card
        is passed at most as often as there are tokens in play and then
        taken, so the game lasts at most `supply + 1` rounds per card still
        to play. */
    method Play(pots: nat -> int, spite: nat -> int) returns (turns: nat)
      requires Valid() && numPlayers >= 1 && !ended
      requires forall k :: 8 <= pots(k) <= 15 && 20 <= spite(k) <= 40
      modifies players`cards, players`tokens, players`minTokens, players`maxTokens, players`effVal
      modifies players`score, players`passBeforeFirstCard
      modifies this`pot, this`cardUp, this`whoseTurn, this`purses, this`hands, this`ended, deck`cards
      ensures Valid() && ended
      ensures deck.cards == [] && pot == 0
      ensures Sum(purses) == supply
      ensures turns <= (old(|deck.cards|) + 1) * (supply + 1)
    {
      SumNonNegative(purses);
      ghost var tokens: nat := supply;
      ghost var budget := Rounds(CardsToPlay(), tokens) - pot;
      turns := 0;
      var over := false;
      while !over
        invariant Valid() && over == ended
        invariant over ==> deck.cards == [] && pot == 0
        invariant turns + Rounds(CardsToPlay(), tokens) - pot <= budget
        decreases CardsToPlay(), Sum(purses)
      {
        SumNonNegative(purses);
        ghost var left, stake := CardsToPlay(), pot;
        var move;
        move, over := PlayTurn(pots(turns), spite(turns));
        RoundBudget(turns, left, stake, CardsToPlay(), pot, tokens, budget);
        turns := turns + 1;
      }
      RoundsProduct(old(|deck.cards|) + 1, tokens);
    }

    /** The cards still to be decided: the deck and, until the game is
        over, the card up. */
    ghost function CardsToPlay(): nat
      reads this, deck
    {
      |deck.cards| + if ended then 0 else 1
    }

    /** `score`: every player's score is computed and stored, and the
        players with the lowest score are marked as winners, 1 for a single
        winner and 2 for each of several tied ones, at every verbosity. */
    method Score()
      requires |players| > 0
      requires forall i, j :: 0 <= i < j < |players| ==> players[i] != players[j]
      modifies players`score, players`win
      ensures forall i :: 0 <= i < |players| ==> players[i].score == HandScore(players[i].cards, players[i].tokens)
      ensures WinsOf(players) == MarkWinners(ScoresOf(players), old(WinsOf(players)))
    {
      ghost var before := WinsOf(players);
      var scores := ScoreAll();
      MarkWinnersOf(scores, before);
      assert WinsOf(players) == MarkWinners(scores, before);
      assert ScoresOf(players) == scores;
    }

    /** The marking part of `score`, on the collected scores; `before` are
        the flags it starts from. */
    method MarkWinnersOf(scores: seq<int>, ghost before: seq<int>)
      requires forall i, j :: 0 <= i < j < |players| ==> players[i] != players[j]
      requires |scores| == |players| > 0 && forall j :: 0 <= j < |players| ==> players[j].score == scores[j]
      requires |before| == |players| && forall j :: 0 <= j < |players| ==> players[j].win == before[j]
      modifies players`win
      ensures forall j :: 0 <= j < |players| ==> players[j].win == MarkWinners(scores, before)[j]
    {
      var low := Min(scores);
      var wins := MarkLowest(scores, low);
      CountIsMultiplicity(scores, low);
      if wins > 1 {
        PromoteTies();
      }
      forall j | 0 <= j < |players| ensures players[j].win == MarkWinners(scores, before)[j] {
        MarkWinnersAt(scores, before, j);
      }
    }

    /** The first loop of `score`: every player is scored and the stored
        score collected, in seat order. */
    method ScoreAll() returns (scores: seq<int>)
      requires forall i, j :: 0 <= i < j < |players| ==> players[i] != players[j]
      modifies players`score
      ensures |scores| == |players|
      ensures forall j :: 0 <= j < |players| ==>
        scores[j] == players[j].score == HandScore(players[j].cards, players[j].tokens)
    {
      scores := [];
      var i := 0;
      while i < |players|
        invariant 0 <= i <= |players| && |scores| == i
        invariant forall j :: 0 <= j < i ==>
          scores[j] == players[j].score == HandScore(players[j].cards, players[j].tokens)
      {
        var player := players[i];
        var _ := player.GetScore();
        scores := scores + [player.score];
        i := i + 1;
      }
    }

    /** The second loop of `score`: flag 1 for every player scoring `low`,
        counting them. */
    method MarkLowest(scores: seq<int>, low: int) returns (wins: int)
      requires forall i, j :: 0 <= i < j < |players| ==> players[i] != players[j]
      requires |scores| == |players| && forall j :: 0 <= j < |players| ==> players[j].score == scores[j]
      modifies players`win
      ensures forall j :: 0 <= j < |players| ==> players[j].win == if scores[j] == low then 1 else old(players[j].win)
      ensures wins == multiset(scores)[low]
    {
      wins := 0;
      var i := 0;
      while i < |players|
        invariant 0 <= i <= |players|
        invariant forall j :: 0 <= j < i ==> players[j].win == if scores[j] == low then 1 else old(players[j].win)
        invariant forall j :: i <= j < |players| ==> players[j].win == old(players[j].win)
        invariant wins == multiset(scores[..i])[low]
      {
        var player := players[i];
        if player.score == low {
          player.win := 1;
          wins := wins + 1;
        }
        assert scores[..i + 1] == scores[..i] + [scores[i]];
        i := i + 1;
      }
      assert scores[..i] == scores;
    }

    /** The last loop of `score`: with several winners every flag 1 becomes 2. */
    method PromoteTies()
      requires forall i, j :: 0 <= i < j < |players| ==> players[i] != players[j]
      modifies players`win
      ensures forall j :: 0 <= j < |players| ==> players[j].win == if old(players[j].win) == 1 then 2 else old(players[j].win)
    {
      var i := 0;
      while i < |players|
        invariant 0 <= i <= |players|
        invariant forall j :: 0 <= j < i ==> players[j].win == if old(players[j].win) == 1 then 2 else old(players[j].win)
        invariant forall j :: i <= j < |players| ==> players[j].win == old(players[j].win)
      {
        var player := players[i];
        if player.win == 1 {
          player.win := 2;
        }
        i := i + 1;
      }
    }
  }
}
