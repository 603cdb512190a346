/** `deck.py`: the deck of the later version.

    The deck holds the cards still to be drawn, front first. It is built from
    `num` consecutive values starting at `offset`, shuffled, and its first
    `dis` cards are discarded. Drawing from an empty deck yields the sentinel
    0, which is never a card because the offset is at least 1. */
module Decks {
  import opened Common
  import opened Cards

  /** The checks of `Deck.__init__`, first failing check first. The last one
      is made by `discard(dis)`, which the constructor calls. */
  function DeckError(num: int, offset: int, dis: int): (r: Option<Exit>)
    ensures r.None? <==> 1 <= num && 1 <= offset && 0 <= dis < num
  {
    if num < 1 then Some(TooFewCards)
    else if offset < 1 then Some(NonPositiveOffset)
    else if num <= dis then Some(DiscardAll)
    else if dis < 0 then Some(BadDiscard)
    else None
  }

  /** The cards a new deck holds: the shuffled range without its first `dis` cards. */
  function DealtCards(num: nat, offset: int, dis: nat, picks: seq<nat>): seq<int>
    requires dis <= num && ValidPicks(picks, num)
  {
    ShuffleOf(Range(offset, num), picks)[dis..]
  }

  /** A new deck holds exactly `num - dis` different cards, all between
      `offset` and `num + offset - 1`. */
  lemma DealtCardsDistinctInRange(num: nat, offset: int, dis: nat, picks: seq<nat>)
    requires dis <= num && ValidPicks(picks, num)
    ensures var d := DealtCards(num, offset, dis, picks);
      |d| == num - dis && Distinct(d) &&
      forall i :: 0 <= i < |d| ==> offset <= d[i] <= num + offset - 1
  {
    var r := Range(offset, num);
    var s := ShuffleOf(r, picks);
    RangeDistinct(offset, num);
    ShufflePermutes(r, picks);
    DistinctPermutation(r, s);
    DistinctDrop(s, dis);
    forall i | 0 <= i < |s| ensures offset <= s[i] <= num + offset - 1 {
      assert s[i] in multiset(r);
      assert s[i] in r;
    }
  }

  /** A new deck holds every card once. */
  lemma DealtSingle(num: nat, offset: int, dis: nat, picks: seq<nat>)
    requires dis <= num && ValidPicks(picks, num)
    ensures forall c :: multiset(DealtCards(num, offset, dis, picks))[c] <= 1
  {
    DealtCardsDistinctInRange(num, offset, dis, picks);
    DistinctIffSingleCopies(DealtCards(num, offset, dis, picks));
  }

  class Deck {
    var cards: seq<int>
    const minCard: int
    const maxCard: int
    const totOrigCards: int
    const totCards: int

    /** Distinct cards of the configured range; the range starts at 1 or above. */
    ghost predicate Valid()
      reads this
    {
      && 1 <= minCard
      && 1 <= totOrigCards
      && maxCard == minCard + totOrigCards - 1
      && Distinct(cards)
      && forall i :: 0 <= i < |cards| ==> minCard <= cards[i] <= maxCard
    }

    /** `Deck(num, offset, dis)` for a configuration that passes its checks. */
    constructor (num: int, offset: int, dis: int, picks: seq<nat>)
      requires DeckError(num, offset, dis).None?
      requires ValidPicks(picks, num)
      ensures Valid()
      ensures minCard == offset && maxCard == num + offset - 1
      ensures totOrigCards == num && totCards == num - dis
      ensures cards == DealtCards(num, offset, dis, picks)
    {
      minCard := offset;
      maxCard := num + offset - 1;
      totOrigCards := num;
      totCards := num - dis;
      cards := [];
      new;
      var i := 0;
      while i < num
        invariant 0 <= i <= num
        invariant cards == Range(offset, i)
      {
        cards := cards + [i + offset];
        i := i + 1;
      }
      Shuffle(picks);
      var ok := Discard(dis);
      DealtCardsDistinctInRange(num, offset, dis, picks);
    }

    /** `Deck(num, offset, dis)`, with the process exit of a bad configuration
        as an error result. */
    static method New(num: int, offset: int, dis: int, picks: seq<nat>) returns (r: Result<Deck>)
      requires ValidPicks(picks, num)
      ensures DeckError(num, offset, dis).Some? ==> r == Err(DeckError(num, offset, dis).value)
      ensures DeckError(num, offset, dis).None? ==>
        && r.Ok? && fresh(r.value) && r.value.Valid()
        && r.value.minCard == offset && r.value.maxCard == num + offset - 1
        && r.value.totOrigCards == num && r.value.totCards == num - dis
        && r.value.cards == DealtCards(num, offset, dis, picks)
    {
      var e := DeckError(num, offset, dis);
      if e.Some? {
        return Err(e.value);
      }
      var d := new Deck(num, offset, dis, picks);
      return Ok(d);
    }

    /** Move randomly chosen cards, one at a time, to a new list: the result
        is the shuffle the choices `picks` determine. */
    method Shuffle(picks: seq<nat>)
      requires ValidPicks(picks, |cards|)
      modifies this
      ensures cards == ShuffleOf(old(cards), picks)
    {
      var left := cards;
      var shuffled: seq<int> := [];
      var choices := picks;
      while |left| > 0
        invariant ValidPicks(choices, |left|)
        invariant shuffled + ShuffleOf(left, choices) == ShuffleOf(old(cards), picks)
        decreases |left|
      {
        ShuffleStep(left, choices);
        var j := left[choices[0]];
        var left' := RemoveFirst(left, j);
        var choices' := choices[1..];
        ghost var rest := ShuffleOf(left', choices');
        assert ShuffleOf(left, choices) == [j] + rest;
        assert shuffled + ([j] + rest) == (shuffled + [j]) + rest;
        left := left';
        shuffled := shuffled + [j];
        choices := choices';
      }
      cards := shuffled;
    }

    /** Remove the first `begone` cards; an impossible count is an error and
        leaves the deck alone. */
    method Discard(begone: int) returns (ok: bool)
      modifies this
      ensures ok <==> 0 <= begone <= |old(cards)|
      ensures ok ==> cards == old(cards)[begone..]
      ensures !ok ==> cards == old(cards)
      ensures old(Valid()) ==> Valid()
    {
      if begone < 0 || begone > |cards| {
        return false;
      }
      var k := begone;
      while k > 0
        invariant 0 <= k <= begone
        invariant cards == old(cards)[begone - k..]
      {
        cards := cards[1..];
        k := k - 1;
      }
      return true;
    }

    /** Take the front card; an empty deck yields 0 and stays empty. */
    method Draw() returns (card: int)
      modifies this`cards
      ensures old(cards) == [] ==> card == 0 && cards == []
      ensures old(cards) != [] ==> card == old(cards)[0] && cards == old(cards)[1..]
      ensures old(Valid()) ==> Valid() && (card == 0 <==> old(cards) == [])
    {
      if |cards| == 0 {
        return 0;
      }
      card := cards[0];
      cards := cards[1..];
    }
  }
}
