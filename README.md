# No Thanks! — a verified model of the simulator

This project models a simulator of the card game *No Thanks!* in two
versions, and proves properties of that model.

- **The later version** is split into a deck (`deck.py`), a player
  (`player.py`) and a table with the game loop, the computer players'
  decision rules and the scoring (`table.py`).
- **The earlier version** keeps the same three classes in one file
  (`nothx.py`).

**The game.** Cards run from `offset` to `num + offset - 1`. The deck is
shuffled and its first `dis` cards are removed. Each player starts with 11
tokens. The player whose turn it is either takes the card that is face up,
together with the tokens in the pot, or pays a token into the pot and
passes. A hand scores the sum of the lowest card of every run of
consecutive cards, minus the tokens held. The lowest score wins.

**Modules.**

| module | models |
|---|---|
| `Common` | results of checks that stop the process (`Exit`), `Option`/`Result`, counting, sums |
| `Cards` | the card range and the shuffle, as a function of the random picks |
| `Scoring` | sorting, the run law of `get_score`, and the marking of winners |
| `Valuation` | the effective value of the card up, shared by both versions |
| `Seating` | the checks of the given seat positions, shared by both versions |
| `Decks`, `Players`, `Policy`, `Tables` | the later version |
| `NoThxDecks`, `NoThxPlayers`, `NoThxPolicy`, `NoThxTables` | the earlier version |

**How the code is modelled.**

- Decks, players and tables are classes. Their methods change fields in
  place, under field-level `modifies` clauses.
- The decision rules are pure functions over a value snapshot (`Seat`) of
  every player. The table methods are proved to compute exactly those
  functions.
- **The game loop.** The source plays by mutual recursion: `play` calls
  `player_passes` or `player_takes_card`, which call `play` again. Here one
  round is a `PlayTurn` method, and `Play` loops over rounds. Termination
  is proved: every round either draws a card or moves a token into the
  pot.
- **Token conservation.** A ghost copy of every player's token count
  (`purses`) proves that the tokens held plus the pot never change.
- **Card conservation.** A ghost copy of every hand (`hands`) and the
  multiset of dealt cards (`dealt`) prove that the deck, the card up and
  the hands together always hold exactly the dealt cards. When the given
  players start without cards, every card is held once, so no hand has a
  repeated card and no card is in two places.
- **The earlier end of game.** The earlier version leaves the last card
  taken as the card up when the game ends. A ghost flag (`ended`) records
  that the game is over, so that this card is counted in its hand only.
- **Errors.** Every `sys.exit` of a bad configuration becomes an error
  value (`Exit`) or a `false` flag.
- **Randomness.** Every random draw is an input:
  - the shuffle choices (`picks`, an index into the remaining cards per
    round);
  - the thresholds of every computer player (`ai`);
  - the per-turn `thresh` of `vindictive_potential` (`spite(k)`);
  - the per-turn `pot_thresh` of the earlier `milking_potential`
    (`pots(k)`).

**The earlier deck's empty check.** The earlier `milking_potential`
compares the method `self.deck.num` with 0 rather than calling it, so that
test is always false. `NoThxPolicy.Milking` models it as written.

## Model

Some definitions carry no row of their own and are stated through the
members that use them: `Valuation.BaseValue` and `Valuation.DrawChance`
are the value arithmetic of table.py:95-132, `Scoring.HandScore` and
`Scoring.HandRuns` the score of player.py:62-84, `Decks.DealtCards` the
deal of deck.py:40-48, and `NoThxPolicy.SpiteScanAsWritten` and
`NoThxPolicy.Returned` the spite scan of nothx.py:282-293 as written.

| member | source | states |
|---|---|---|
| `Common.CountIsMultiplicity` | table.py:47-52 | `given_pos.count(i)` is the multiplicity of `i` among the given positions |
| `Cards.Range` | deck.py:44-46 | the unshuffled deck holds `n` cards, the `i`-th being `offset + i` |
| `Cards.RangeDistinct` | deck.py:44-46 | the unshuffled deck has no repeated card |
| `Cards.RemoveFirst` | deck.py:55 | `list.remove` drops one occurrence, so the list is one shorter |
| `Cards.RemoveFirstMultiset` | deck.py:55 | `list.remove(x)` removes exactly one copy of `x` and nothing else |
| `Cards.ShuffleOf` | deck.py:50-57 | shuffling by a choice sequence keeps the number of cards |
| `Cards.ShufflePermutes` | deck.py:50-57 | every shuffle is a permutation of the deck |
| `Cards.PicksForShuffle` | deck.py:50-57 | for every reordering of the deck there is a valid choice sequence that produces it |
| `Cards.EveryPermutationReachable` | deck.py:50-57 | every ordering of the cards is a possible outcome of the shuffle |
| `Cards.GatheredEmpty` | player.py:33 | hands that are all empty hold no card between them |
| `Cards.GatheredAdd` | player.py:57 | appending a card to one hand adds exactly that card to the cards held |
| `Cards.HeldOnce` | table.py:285-287 | when the dealt cards are single copies and every card is in the deck, up, or in one hand: each hand has no repeat, no card of the rest is in a hand, and no card is in two hands |
| `Cards.TakenKept` | table.py:285-286 | moving the card up into a hand keeps every dealt card in exactly one place |
| `Cards.DrawnKept` | deck.py:71-81 | drawing the front card keeps every dealt card in exactly one place; an empty deck draws nothing |
| `Decks.DeckError` | deck.py:34-39 | the later deck is accepted exactly when `1 <= num`, `1 <= offset` and `0 <= dis < num` |
| `Decks.DealtCardsDistinctInRange` | deck.py:40-48 | the dealt deck has `num - dis` distinct cards, all in `offset .. num + offset - 1` |
| `Decks.DealtSingle` | deck.py:40-48 | every card of the dealt deck occurs once |
| `Decks.Deck.constructor` | deck.py:22-48 | the deck records its range and totals, and holds the shuffled range without its first `dis` cards |
| `Decks.Deck.New` | deck.py:34-39 | a rejected configuration gives the error of its first failing check; an accepted one gives a valid deck |
| `Decks.Deck.Shuffle` | deck.py:50-57 | the loop leaves the deck in the order `ShuffleOf` the old deck and the picks |
| `Decks.Deck.Discard` | deck.py:59-69 | a count in `0 .. len` drops exactly that many front cards; any other count is refused and changes nothing; validity is kept |
| `Decks.Deck.Draw` | deck.py:71-81 | takes the front card; an empty deck yields 0 and stays empty; on a valid deck, 0 means the deck was empty |
| `Scoring.Sort` | player.py:67 | `sorted` returns an ascending permutation of the hand |
| `Scoring.RunStartIffNoPredecessor` | player.py:70-79 | in a sorted hand without repeats, a card opens a run exactly when the card one below is not held |
| `Scoring.ScoreIgnoresOrder` | player.py:62-84 | score and run count depend only on which cards are held, not their order |
| `Scoring.HandRunsBounds` | player.py:62-84 | a non-empty hand has between 1 and `len(cards)` runs |
| `Scoring.ScoreIsSumOfRunLows` | player.py:62-84 | the score is the sum of the lowest card of every maximal run minus the tokens |
| `Scoring.Min` | table.py:314 | `min(scores)` is one of the scores and at most every score |
| `Scoring.MarkWinners` | table.py:314-323 | after marking there is one flag per player; what each flag is is stated by `WinnersAreTheLowest` |
| `Scoring.WinnersAreTheLowest` | table.py:314-323 | from all-zero flags: 1 iff strictly lowest; 2 iff tied for lowest; 0 iff someone scores lower |
| `Valuation.AddCardDelta` | table.py:101-115 | taking a new card `c` adds `c` to the run sum (0 when `c - 1` is held) and subtracts `c + 1` when that is held |
| `Valuation.BaseValueIsDelta` | table.py:101-132 | outside the open-gap case the per-branch value is that change of the run sum |
| `Valuation.EffectiveValueIsRunSumChange` | table.py:95-135 | outside the open-gap case the effective value is the change of run sum minus tokens that taking the card and pot causes |
| `Valuation.EffectiveValueIsScoreChange` | table.py:95-135 | for a non-empty hand that is exactly the change of `get_score` |
| `Valuation.GapValueIsExpectation` | table.py:116-127 | in the open-gap case the card alone adds its face value, card plus bridge adds -2, and the value before the pot is their expectation at the draw chance |
| `Seating.Max` | table.py:45 | `max(given_pos)` is a position and at least every position |
| `Seating.ScanSeats` | table.py:47-52 | the counting loop passes iff each scanned position is held at most once and only below the player count; it yields only those two errors |
| `Seating.MissingSeats` | table.py:53-56 | the computer players fill exactly the free seats below the player count, in ascending order |
| `Seating.TakenSeats` | table.py:53-56 | the occupied seats below the player count, ascending, and with the free seats they make up all seats |
| `Seating.SeatErrorMeaning` | table.py:36-52 | the corrected check accepts exactly at most 5 players whose given positions are distinct and in `0 .. num_players - 1` |
| `Seating.FillGivesAllSeats` | table.py:53-57 | with accepted positions the table seats exactly `num_players` players |
| `Seating.DuplicateAtFourSlipsThrough` | table.py:47-52 | the check as written accepts two players at position 4 of five and seats six; the corrected check rejects this |
| `Players.Player.constructor` | player.py:13-47 | a new player holds 11 tokens, no cards, a token history of `[11]`, zero score, runs and win flag, and its thresholds |
| `Players.Player.New` | player.py:36-39 | a token threshold outside `0 .. 10` is refused; any other gives `Ok` with a valid new player holding the given thresholds |
| `Players.Player.PlayToken` | player.py:49-54 | with a token: one fewer, the new count appended to the history; without one: refused, nothing changes |
| `Players.Player.TakeCard` | player.py:56-60 | the card is added to the hand and the pot to the tokens; both histories grow by one entry |
| `Players.Player.GetScore` | player.py:62-84 | the stored and returned score is the run law's score of the hand; the stored run count is the number of runs |
| `Policy.OtherCards` | table.py:83-93 | a card is in the result iff some other player holds it |
| `Policy.OthersHoldCards` | table.py:145-148 | true iff every other player holds at least one card |
| `Policy.OthersWillPass` | table.py:160-167 | true iff every other player has at least `len(players)` tokens and values the card at `len(players) + 4` or more |
| `Policy.Milking` | table.py:137-170 | milk iff all others hold cards, and either the card is the top card with an empty deck or a pot below the threshold, or all others will keep passing |
| `Policy.SpiteScan` | table.py:186-197 | the loop turns spiteful iff every other player's score plus `thresh` is at most the own score and some value seen is negative |
| `Policy.SpiteStop` | table.py:186-197 | the loop stops at the first other player whose score plus `thresh` exceeds the own score, or at the end; every other player before it trails by `thresh` or more |
| `Policy.Vindictive` | table.py:172-197 | spite iff the deck has at most `len(players)` cards, everyone else trails the player by `thresh` or more, and some other player values the card below 0 |
| `Policy.EarlyRules` | table.py:207-236 | the rules in order, the first that applies decides: no tokens, take; fewer tokens than the token threshold and a pot above the pot threshold, take; no cards, take iff the value is within the initial threshold, else pass; a value below 1, pass iff milking, else take; otherwise take iff the speculative rule holds, and no decision yet when it does not |
| `Policy.Decide` | table.py:207-259 | a pass needs a token; a pass over a card worth below 1 with cards needs every other player to hold cards |
| `Tables.Table.constructor` | table.py:12-62 | valid table; deck as dealt, its first card up; given players keep their seats; every free seat gets a new computer player; pot and turn are 0 |
| `Tables.Table.Deal` | table.py:60 | the deck built at line 30 is the dealt deck without its first card, and that first card is the card up |
| `Tables.Table.FillSeats` | table.py:53-81 | seat `i` holds the given player with position `i`, else a new computer player with the drawn thresholds; `num_players` seats |
| `Tables.Table.SeatFor` | table.py:53-81 | the seat gets the given player at that position, else a new computer player with the drawn thresholds and no cards |
| `Tables.FreshSingle` | table.py:23-62 | a new table whose given players hold no cards holds every dealt card once |
| `Tables.NothingBrought` | table.py:53-62 | players seated from empty-handed given players and new computer players bring no cards |
| `Tables.Table.HeldApart` | table.py:285-287 | on a table with single copies, every hand has distinct cards, the card up is in no hand, and no card is in two hands |
| `Tables.Table.ValueIsScoreChange` | table.py:95-135 | on a reachable table, a player's effective value outside the open-gap case is exactly the change of its `get_score` from taking the card up and the pot |
| `Tables.Table.New` | table.py:30-62 | a bad deck gives the deck's error first, then a bad seating its error; otherwise `Ok`: a valid table with the dealt deck, its first card up, pot and turn 0, and the given and computer players in their seats; when the given players hold no cards, every dealt card is held once |
| `Tables.Table.GetEffectiveValue` | table.py:95-135 | every player's value becomes `EffectiveValue` of the card up against its hand and the cards of the others |
| `Tables.Valued` | table.py:95-135 | the valued seats are the seats with `effVal` replaced by `EffectiveValue` against the cards of the others, and nothing else changed |
| `Tables.NowValued` | table.py:95-135 | players whose values are all computed from the current hands are seen as `Valued` of their previous seats |
| `Tables.HandsOfSeats` | table.py:83-93 | the players' hands are the hands of their seat snapshots |
| `Tables.Table.VindictivePotential` | table.py:172-197 | the method returns `Policy.Vindictive` of the players before the call; exactly the players the loop consults get the run law's score and run count stored, and every other player keeps its stored score and run count |
| `Tables.Table.SpiteLoop` | table.py:186-197 | the loop returns `Policy.SpiteScan` of the players from the first seat and stops at `Policy.SpiteStop`; the other players up to the stop get the run law's score stored, the rest keep theirs |
| `Tables.Table.ScoreSeat` | table.py:188 | one player's score and run count are stored as the run law gives them and returned; no other player changes |
| `Tables.Table.ChooseMove` | table.py:207-259 | the move chosen is `Policy.Decide` of the players, card, pot and deck; scores are stored only when no earlier rule decides, and then exactly for the players the spite loop consults |
| `Tables.Table.PlayerPasses` | table.py:261-273 | with a token: player one fewer, the new count appended to its token history, pot one more, turn to the next seat, tokens conserved; without one nothing changes; every other player keeps its tokens and history |
| `Tables.Table.PlayerTakesCard` | table.py:275-295 | the player gets the card and the pot, both its histories grow by the new count and value, every other player is unchanged, the pot empties, and the next card is turned up; 0 exactly when the deck was empty |
| `Tables.Table.TakeCardUp` | table.py:285-286 | the card up and the pot go to the player whose turn it is, whose histories grow; every other player is unchanged; the pot empties; every card stays in one place |
| `Tables.Table.CollectCardUp` | table.py:285-286 | `take_card` with the card up and the pot, then the pot empties; every other player is unchanged and tokens are conserved |
| `Tables.Table.TurnUp` | table.py:287 | the next card of the deck becomes the card up, or 0 when the deck is empty; every card stays in one place |
| `Tables.Table.PlayTurn` | table.py:199-295 | the move is `Policy.Decide` of the players valued for the card up; a take gives the player the card and the pot and turns up the next card (0 once the deck is empty); a pass moves one of its tokens into the pot and the turn to the next seat; validity is kept; every round draws a card or moves a token into the pot |
| `Tables.Table.Decision` | table.py:199-259 | the players become `Valued` of the old ones: every value is `EffectiveValue` of the card up, nothing else they show changes; the move is `Policy.Decide` of the valued players; a pass is only chosen with a token; scores and run counts are stored only when no earlier rule decides, and then exactly for the players the spite loop consults |
| `Tables.Table.MakeMove` | table.py:261-295 | a take: the player gets the card and the pot, both its histories grow, every other player is unchanged, and the next card (0 once the deck is empty) is up; a pass: the player pays one token into the pot, its token history grows, the turn moves to the next seat, no hand changes, and every other player keeps its tokens and history; validity is kept |
| `Tables.Table.Play` | table.py:199-295 | the game ends with card up 0, empty deck and pot, and every token back with the players; the number of rounds played is at most (cards in the deck + 1) × (tokens in play + 1) |
| `Tables.Table.Score` | table.py:297-323 | every score is the run law's score; at verbosity 0 or below winners are marked as `MarkWinners`, above 0 no flag changes |
| `Tables.Table.MarkWinnersOf` | table.py:314-323 | every player's flag becomes its `MarkWinners` flag |
| `Tables.Table.ScoreAll` | table.py:303-306 | every player's stored score, and the returned list, is the run law's score of its hand |
| `Tables.Table.MarkLowest` | table.py:315-319 | players at the lowest score get 1, others keep their flag; the count returned is how many score lowest |
| `Tables.Table.PromoteTies` | table.py:320-323 | every flag 1 becomes 2 and every other flag is unchanged |
| `NoThxDecks.DeckError` | nothx.py:21-24 | the earlier deck is accepted exactly when `1 <= num`, `0 <= offset` and `0 <= dis < num`; too few cards or a negative offset give the first message |
| `NoThxDecks.Deck.constructor` | nothx.py:11-33 | the deck records its range and totals, and holds the shuffled range without its first `dis` cards |
| `NoThxDecks.Deck.New` | nothx.py:21-24 | a rejected configuration gives the error of its first failing check; an accepted one gives a valid deck |
| `NoThxDecks.Deck.Shuffle` | nothx.py:38-45 | the counted loop leaves the deck in the order `ShuffleOf` the old deck and the picks |
| `NoThxDecks.Deck.Discard` | nothx.py:47-51 | a count in `0 .. len` drops exactly that many front cards; any other count is refused and changes nothing |
| `NoThxDecks.Deck.Draw` | nothx.py:53-58 | takes the front card; an empty deck yields -1 and stays empty; on a valid deck, -1 means the deck was empty |
| `NoThxPlayers.Player.constructor` | nothx.py:63-87 | a new player holds 11 tokens, with lowest and highest count 11, no cards, zero counters, and its thresholds |
| `NoThxPlayers.Player.New` | nothx.py:83-86 | a token threshold outside `0 .. 10` is refused; any other gives `Ok` with a valid new player holding the given thresholds |
| `NoThxPlayers.Player.PlayToken` | nothx.py:89-95 | with a token: one fewer, the lowest count follows it down; without one: refused, nothing changes |
| `NoThxPlayers.Player.TakeCard` | nothx.py:97-99 | the card is appended to the hand and nothing else changes |
| `NoThxPlayers.Player.GetScore` | nothx.py:101-117 | the stored score is the run law's score (0 for an empty hand); it is returned only for a non-empty hand |
| `NoThxPolicy.OthersKeepPassing` | nothx.py:260-266 | true iff every other player has a token and values the card at `len(players) + 4` or more |
| `NoThxPolicy.Milking` | nothx.py:236-269 | milk iff all others hold cards, and either the card is the top card with a pot below the threshold, or all others will keep passing |
| `NoThxPolicy.Vindictive` | nothx.py:271-293 | spite iff the deck has at most `len(players)` cards, every other stored score plus `thresh` is at most the own run-law score, and some other value is below 0 |
| `NoThxPolicy.SpiteScanAgrees` | nothx.py:282-293 | where the loop as written yields a value, it is that of the corrected loop |
| `NoThxPolicy.SpiteScanTotal` | nothx.py:282-293 | when every player holds a card, the loop as written never hits a type error |
| `NoThxPolicy.VindictiveAgrees` | nothx.py:271-293 | where `vindictive_potential` as written returns, it agrees with the corrected rule; it always returns when every hand is non-empty |
| `NoThxPolicy.EarlyRules` | nothx.py:295-330 | one clause per rule, in order: no tokens, take; no cards, a decision that takes iff the card is within the card threshold or the tokens are below the token threshold; cards and a value below 1, pass iff `Milking`, else take; otherwise never a pass, a take iff the speculative rule holds, and no decision yet when it does not |
| `NoThxPolicy.Decide` | nothx.py:295-346 | a pass needs a token; a pass over a card worth below 1 needs every other player to hold cards; the empty-hand rule as in `EarlyRules` |
| `NoThxPolicy.DecideAgrees` | nothx.py:295-346 | where `player_logic` as written decides, it decides as `Decide`; it always decides when every hand is non-empty |
| `NoThxPolicy.DecideAsWrittenStops` | nothx.py:284 | a concrete late-game table where `player_logic` as written stops with a type error and the corrected rule passes |
| `NoThxTables.Table.constructor` | nothx.py:122-165 | valid table; deck as dealt, its first card up; given players keep their seats; every free seat gets a new computer player; pot and turn are 0 |
| `NoThxTables.Table.Deal` | nothx.py:163 | the deck built at line 138 is the dealt deck without its first card, and that first card is the card up |
| `NoThxTables.Table.FillSeats` | nothx.py:156-189 | seat `i` holds the given player with position `i`, else a new computer player with the drawn thresholds; `num_players` seats |
| `NoThxTables.Table.SeatFor` | nothx.py:156-189 | the seat gets the given player at that position, else a new computer player with the drawn thresholds |
| `NoThxTables.FreshSingle` | nothx.py:122-165 | a new table whose given players hold no cards holds every dealt card once |
| `NoThxTables.NothingBrought` | nothx.py:156-161 | players seated from empty-handed given players and new computer players bring no cards |
| `NoThxTables.Table.HeldApart` | nothx.py:363-369 | on a table with single copies, every hand has distinct cards, the card up of a game in play is in no hand, and no card is in two hands |
| `NoThxTables.Table.ValueIsScoreChange` | nothx.py:199-234 | during play, a player's effective value outside the open-gap case is exactly the change of its run-law score from taking the card up and the pot |
| `NoThxTables.Table.New` | nothx.py:134-165 | a bad deck gives the deck's error first, then a bad seating its error; otherwise `Ok`: a valid table in play with the dealt deck, its first card up, pot and turn 0, and the given and computer players in their seats; when the given players hold no cards, every dealt card is held once |
| `NoThxTables.Table.GetEffectiveValue` | nothx.py:199-234 | every player's value becomes `EffectiveValue` of the card up against its hand and the cards of the others |
| `NoThxTables.Valued` | nothx.py:199-234 | the valued seats are the seats with `effVal` replaced by `EffectiveValue` against the cards of the others, and nothing else changed |
| `NoThxTables.NowValued` | nothx.py:199-234 | players whose values are all computed from the current hands are seen as `Valued` of their previous seats |
| `NoThxTables.Table.VindictivePotential` | nothx.py:271-293 | the method returns the corrected `NoThxPolicy.Vindictive` of the players before the call; exactly the players the loop consults get the run law's score stored, and every other player keeps its stored score |
| `NoThxTables.Table.SpiteLoop` | nothx.py:282-293 | the loop returns the shared spite scan of the players from the first seat and stops at `Policy.SpiteStop`; the other players up to the stop get the run law's score stored, the rest keep theirs |
| `NoThxTables.Table.ScoreSeat` | nothx.py:284 | one player's score is stored as the run law gives it and returned; no other player changes |
| `NoThxTables.Table.ChooseMove` | nothx.py:295-346 | the move chosen is `NoThxPolicy.Decide` of the players, card, pot and deck; scores are stored only when no earlier rule decides, and then exactly for the players the spite loop consults |
| `NoThxTables.Table.CountTokenKeeping` | nothx.py:307-311 | the counter of the player whose turn it is grows by one exactly when it takes only to keep tokens; nothing else changes |
| `NoThxTables.Table.PlayerPasses` | nothx.py:348-356 | with a token: player one fewer, its lowest count following it down, pot one more, turn to the next seat, tokens conserved; without one nothing changes; every other player keeps its tokens and lowest count |
| `NoThxTables.Table.PlayerTakesCard` | nothx.py:358-377 | the player gets card and pot, its highest count following it up; every other player is unchanged; the pot empties; the game is over iff the deck was empty, when the card up stays; else the next card is up |
| `NoThxTables.Table.TakeCardUp` | nothx.py:363-367 | the card up and the pot go to the player whose turn it is, whose highest count follows; every other player is unchanged; the pot empties; every card stays in one place |
| `NoThxTables.Table.CollectCardUp` | nothx.py:363-367 | `take_card` with the card up, then the pot is added and the highest count follows it up; every other player is unchanged; the pot empties and tokens are conserved |
| `NoThxTables.Table.NextCard` | nothx.py:368-377 | with cards left the next one is turned up and the game goes on; with none the game is over and the card up stays; every card stays in one place |
| `NoThxTables.Table.TurnUp` | nothx.py:369 | the front card of the deck becomes the card up; every card stays in one place |
| `NoThxTables.Table.EndGame` | nothx.py:373-377 | with an empty deck the game is over and every card stays in one place |
| `NoThxTables.Table.PlayTurn` | nothx.py:295-381 | the move is `NoThxPolicy.Decide` of the players valued for the card up; a take gives the player the card and the pot, and ends the game iff the deck was empty, else turns up the next card; a pass moves one of its tokens into the pot and the turn to the next seat; the mover's `pass_before_first_card` grows by one exactly when it takes only to keep tokens; validity is kept; every round ends the game, draws a card or moves a token into the pot |
| `NoThxTables.Table.Decision` | nothx.py:295-346 | the players become `Valued` of the old ones; the move is `NoThxPolicy.Decide` of the valued players; a pass is only chosen with a token; scores are stored only when no earlier rule decides, and then exactly for the players the spite loop consults; the mover's `pass_before_first_card` grows by one exactly when it takes only to keep tokens |
| `NoThxTables.Table.MakeMove` | nothx.py:348-377 | a take: the player gets the card and the pot, its highest count follows, every other player is unchanged, and the game ends iff the deck was empty, else the next card is up; a pass: the player pays one token into the pot, its lowest count follows, the turn moves to the next seat, no hand or highest count changes, and every other player keeps its tokens and lowest count; validity is kept |
| `NoThxTables.Table.Play` | nothx.py:379-381 | the game ends over, with empty deck and pot and every token back with the players; the number of rounds played is at most (cards in the deck + 1) × (tokens in play + 1) |
| `NoThxTables.Table.Score` | nothx.py:383-400 | every score is the run law's score, and the winners are marked as `MarkWinners` at every verbosity |
| `NoThxTables.Table.MarkWinnersOf` | nothx.py:391-400 | every player's flag becomes its `MarkWinners` flag |
| `NoThxTables.Table.ScoreAll` | nothx.py:384-387 | every player's stored score, and the returned list, is the run law's score of its hand |
| `NoThxTables.Table.MarkLowest` | nothx.py:391-396 | players at the lowest score get 1, others keep their flag; the count returned is how many score lowest |
| `NoThxTables.Table.PromoteTies` | nothx.py:397-400 | every flag 1 becomes 2 and every other flag is unchanged |

## Left out

- Printed output and the verbosity messages. They are output only. The
  verbosity is kept where it changes behaviour, in `Tables.Table.Score`.
- The feature vectors that `score` returns at verbosity 0, and the
  statistics of the histories in the later version (mean, median, min,
  max). They are output for analysis. The later version fails on
  `min(player.eff_val_history)` for a player who never took a card, since
  that history grows only in `take_card` (player.py:60); `player.cards[0]`
  and `mean(player.cards)` (table.py:344-348) fail for the same player.
  That is not modelled either.
- The `random` module. Every draw is an input of the model (see above).
  The source's ranges are kept only where a proof needs them: the token
  threshold (`0 .. 10`), `thresh` (`20 .. 40`) and the earlier
  `pot_thresh` (`8 .. 15`). The other thresholds of computer players may
  be any integers.
- `add_player` with a one-card deck. `randint(min_card, max_card - 1)`
  fails on an empty range. The model takes the threshold as given.
- Floating point. Effective values and the draw probability are exact
  `real`s; the source uses Python floats.
- `sys.exit` itself. An error stops the process in the source; here it is
  an `Exit` value or a `false` flag.
  - `discard` passes three arguments to `sys.exit`, which raises a type
    error instead. Either way the process stops; the model returns the
    discard error.
- Recursion depth. The mutual recursion of the game loop is a loop here.
  Python's recursion limit, which a long game may reach, is not modelled.
- `main`, the Python version check, and the earlier
  `get_player_positions`.
  - `get_player_positions` is never called.
  - It returns `None`, the result of `list.sort`.
- Aliasing of the given player list. The later constructor stores the
  caller's list and appends the computer players to it; the model makes a
  new sequence. The given players are the same objects in both.
- The final `players.sort(key=pos)`. It is modelled as placing each seat's
  player directly, which gives the same order once the positions are
  accepted.
- Tables.Table.PlayTurn: requires at least one player and a card up that
  is not 0. With no players the source fails on
  `self.players[self.whose_turn]`. A fresh table always has a card up,
  because the deck keeps at least one card after the discard. It states
  the move and what it does to the player to move, the pot, the turn and
  the deck. It does not restate what its two calls state: every player's
  new value of the card up and the scores and run counts the spite rule
  stores (`Decision`), and the histories and the players who do not move
  (`MakeMove`).
- Tables.Table.Play: has the same requirements as `PlayTurn`. It states the
  end of the game and token conservation, not the final hands. The hands
  depend on every random draw; each round is stated by `PlayTurn`.
- Tables.Table.Play: no bound of the form "cards plus players times the
  starting tokens" holds for the length of a game. Every take hands the
  pot back to a player, so the passes are bounded per card, not per game:
  one card can go round until every token in play is in the pot, and the
  same tokens are free to be passed again on the next card. The bound
  proved instead gives each card still to play one round per token in play
  plus the round that takes it.
- NoThxTables.Table.PlayTurn: requires at least one player, for the same
  reason. Like the later `PlayTurn` it does not restate what its two calls
  state: every player's new value of the card up and the stored scores
  (`Decision`), and the lowest and highest counts and the players who do
  not move (`MakeMove`).
- NoThxTables.Table.Play: requires at least one player. Like the later
  `Play` it states the end of the game and token conservation, not the
  final hands.
- NoThxTables.Table.Play: as in the later version, no bound of the form
  "cards plus players times the starting tokens" holds, because every take
  hands the pot back; the bound proved is again one round per token in play
  plus one for the take, for each card still to play.
- Tables.Table.Score: requires at least one player where winners are
  marked, because `min` of an empty list fails.
- NoThxTables.Table.Score: requires at least one player, because the
  earlier version marks winners at every verbosity and `min` of an empty
  list fails.
- Policy.Decide: states the safety facts of the rules: never pass without a
  token, and never pass over a card worth below 1 unless every other player
  holds cards. The full case split is given by `Policy.EarlyRules`, with
  one clause per rule in the source's order, and by `Policy.Vindictive`.
- NoThxPolicy.Decide: states the same safety facts and the empty-hand rule.
  The full case split is given by `NoThxPolicy.EarlyRules` and
  `NoThxPolicy.Vindictive`.

## Findings

| source | as written | input that shows it | evidently intended | confidence | as-written member | corrected member |
|---|---|---|---|---|---|---|
| table.py:47-52 | the duplicate-position scan is `for i in range(4)`, so position 4 is never checked for duplicates (the same loop is at nothx.py:150-155) | two given players both at position 4 with three computer players: five players are announced, every check passes, and seats 0..3 get computer players, giving six players | two players in one seat are rejected at every position up to the maximum of five | not executed | `Seating.SeatErrorAsWritten`, `Seating.DuplicateAtFourSlipsThrough` | `Seating.SeatError`, `Seating.SeatErrorMeaning`, `Seating.FillGivesAllSeats` |
| nothx.py:284 | `other_player.get_score() + thresh` adds `thresh` to `None`, which the earlier `get_score` returns for an empty hand (nothx.py:101-117), so `player_logic` stops with a type error | two players, late game (one card in the deck); card 20 is up; the player to move holds card 10 and 11 tokens, values card 20 at 20.0 as `get_effective_value` computes it, and has value threshold 0; the other player has no card and also values it at 20.0 | an empty hand counts with its stored score 0, as `get_score` stores it and as the later version returns it | not executed | `NoThxPolicy.DecideAsWritten`, `NoThxPolicy.VindictiveAsWritten`, `NoThxPolicy.DecideAsWrittenStops` | `NoThxPolicy.Decide`, `NoThxPolicy.Vindictive`, `NoThxPolicy.DecideAgrees` |
