/** The deck of the earlier version (`Deck` in `nothx.py`).

    It is built, shuffled and cut like the later deck, with three
    differences: an offset of 0 is accepted, a negative offset stops the
    process with the message for too few cards, and drawing from an empty
    deck yields -1, which is never a card because the offset is at least 0.
    Both of its loops are counted `for` loops over the starting size. */
module NoThxDecks {
  import opened Common
  import opened Cards
  import Decks

  /** The checks of `Deck.__init__`, first failing check first; the last one
      is made by `discard(dis)`. */
  function DeckError(num: int, offset: int, dis: int): (r: Option<Exit>)
    ensures r.None? <==> 1 <= num && 0 <= offset && 0 <= dis < num
    ensures r.Some? && (num < 1 || offset < 0) ==> r == Some(TooFewCards)
  {
    if num < 1 || offset < 0 then Some(TooFewCards)
    else if num <= dis then Some(DiscardAll)
    else if dis < 0 then Some(BadDiscard)
    else None
  }

  class Deck {
    var cards: seq<int>
    const minCard: int
    const maxCard: int
    const totOrigCards: int
    const totCards: int

    /** Distinct cards of the configured range; the range starts at 0 or above. */
    ghost predicate Valid()
      reads this
    {
      && 0 <= minCard
      && 1 <= totOrigCards
      && maxCard == minCard + totOrigCards - 1
      && Distinct(cards)
      && forall i :: 0 <= i < |cards| ==> minCard <= cards[i] <= maxCard
    }

    /** `Deck(num, offset, dis)` for a configuration that passes its checks:
        the shuffled range without its first `dis` cards. */
    constructor (num: int, offset: int, dis: int, picks: seq<nat>)
      requires DeckError(num, offset, dis).None?
      requires ValidPicks(picks, num)
      ensures Valid()
      ensures minCard == offset && maxCard == num + offset - 1
      ensures totOrigCards == num && totCards == num - dis
      ensures cards == Decks.DealtCards(num, offset, dis, picks)
    {
      minCard := offset;
      maxCard := num + offset - 1;
      totOrigCards := num;
      totCards := num - dis;
      cards := [];
      new;
      for i := 0 to num
        invariant cards == Range(offset, i)
      {
        cards := cards + [i + offset];
      }
      Shuffle(picks);
      var ok := Discard(dis);
      Decks.DealtCardsDistinctInRange(num, offset, dis, picks);
    }

    /** `Deck(num, offset, dis)`, with the process exit of a bad configuration
        as an error result. */
    static method New(num: int, offset: int, dis: int, picks: seq<nat>) returns (r: Result<Deck>)
      requires ValidPicks(picks, num)
      ensures DeckError(num, offset, dis).Some? ==> r == Err(DeckError(num, offset, dis).value)
      ensures DeckError(num, offset, dis).None? ==>
        && r.Ok? && fresh(r.value) && r.value.Valid()
        && r.value.minCard == offset && r.value.maxCard == num + offset - 1
        && r.value.totOrigCards == num && r.value.totCards == num - dis
        && r.value.cards == Decks.DealtCards(num, offset, dis, picks)
    {
      var e := DeckError(num, offset, dis);
      if e.Some? {
        return Err(e.value);
      }
      var d := new Deck(num, offset, dis, picks);
      return Ok(d);
    }

    /** As many rounds as there are cards: a randomly chosen card leaves the
        deck and goes to the end of a new list, which becomes the deck. */
    method Shuffle(picks: seq<nat>)
      requires ValidPicks(picks, |cards|)
      modifies this
      ensures cards == ShuffleOf(old(cards), picks)
    {
      var shuffled: seq<int> := [];
      var num := |cards|;
      for i := 0 to num
        invariant |cards| == num - i && i <= |picks|
        invariant ValidPicks(picks[i..], |cards|)
        invariant shuffled + ShuffleOf(cards, picks[i..]) == ShuffleOf(old(cards), picks)
      {
        ShuffleStep(cards, picks[i..]);
        var j := cards[picks[i]];
        var left := RemoveFirst(cards, j);
        ghost var rest := ShuffleOf(left, picks[i + 1..]);
        assert picks[i..][1..] == picks[i + 1..];
        assert ShuffleOf(cards, picks[i..]) == [j] + rest;
        assert shuffled + ([j] + rest) == (shuffled + [j]) + rest;
        cards := left;
        shuffled := shuffled + [j];
      }
      cards := shuffled;
    }

    /** Remove the first `begone` cards; an impossible count is an error and
        leaves the deck alone. */
    method Discard(begone: int) returns (ok: bool)
      modifies this
      ensures ok <==> 0 <= begone <= |old(cards)|
      ensures ok ==> cards == old(cards)[begone..]
      ensures !ok ==> cards == old(cards)
      ensures old(Valid()) ==> Valid()
    {
      if begone < 0 || begone > |cards| {
        return false;
      }
      for i := 0 to begone
        invariant cards == old(cards)[i..]
      {
        cards := cards[1..];
      }
      return true;
    }

    /** Take the front card; an empty deck yields -1 and stays empty. */
    method Draw() returns (card: int)
      modifies this`cards
      ensures old(cards) == [] ==> card == -1 && cards == []
      ensures old(cards) != [] ==> card == old(cards)[0] && cards == old(cards)[1..]
      ensures old(Valid()) ==> Valid() && (card == -1 <==> old(cards) == [])
    {
      if |cards| > 0 {
        card := cards[0];
        cards := cards[1..];
        return card;
      }
      return -1;
    }
  }
}
