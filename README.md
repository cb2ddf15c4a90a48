# Card battler and to-do list, modelled in Dafny

This project models two small programs and proves properties of the model.

**The card battler** (`card-battler/script.js`) is a browser game. A deck is
built from two copies of a six-card catalog and shuffled with Fisher–Yates.
The first half goes to the player and the second half to the AI. Each click
plays one card from each hand. A critical hit doubles a card's attack. Each
side's damage is its attack minus the *opposing* card's defense, never
below zero. The side with strictly more damage wins the round. When every
round is played, the game winner is decided by comparing the scores.

- `CardRules` holds the catalog, the deck, damage and the round and game
  decisions.
- `Shuffling` holds the in-place shuffle on an array. It is proved against a
  functional definition, `Shuffled`.
- `CardGame` holds the class `Game`. Its fields are the script's
  module-level variables. Its methods are `startGame`, `handleCardClick`,
  `endGame` and `resetGame`.

Every `Math.random` draw is a parameter:

- one swap index per shuffle step;
- the index of the AI's card;
- the two critical-hit rolls.

**The to-do list** (`todolist/todo.py`) is a command-line program. It keeps
`self.tasks` as a list of records, each with a description and a completion
flag. `Todo.TodoCLI` keeps that list in a `tasks` field. Its methods model
the commands `add`, `complete`, `remove`, `clear` and `list`. The module also
defines:

- Python's `str.strip()`, over the characters `str.isspace` accepts;
- the filter `clear` applies;
- the lines `list` prints.

`Wrappers` (an `Option` type) and `Sequences` (`RemoveAt`, which is
`splice(i, 1)` and `list.pop(i)`) are shared by both programs.

Some consequences of `script.js` that the model keeps:

- Damage subtracts the opposing card's defense, so Fox against Bear without crits deals 0 each way and ties (`script.js:125-126`, stated in `CardRules.CatalogExamples`).
- `handleCardClick` does not check the index it is given (see "## Left out").
- The deck is always 12 cards, and no check on its size exists.
- The game ends when `round >= maxRounds` (`script.js:155`).

## Model

| member | source | states |
|---|---|---|
| CardRules.CatalogDistinct | card-battler/script.js:1-8 | The catalog has six templates, and no two of them share a name. |
| CardRules.BuildDeck | card-battler/script.js:78 | The deck is twice as long as the catalog, and position `i` holds catalog template `i` modulo 6: the catalog, then the catalog again. |
| CardRules.EachTemplateTwice | card-battler/script.js:78 | The deck `[...cards, ...cards]` has 12 cards. It holds each catalog template exactly twice and nothing outside the catalog. |
| CardRules.Damage | card-battler/script.js:112-126 | Damage is zero exactly when the effective attack (doubled on a crit) does not exceed the opposing card's defense. Otherwise it is the excess, so it is never negative. |
| CardRules.EffectiveAttack | card-battler/script.js:112-123 | A card attacks with its own attack, doubled exactly when its critical-hit roll came up, so a roll never lowers it. |
| CardRules.Resolve | card-battler/script.js:112-137 | The round keeps both cards and both rolls. The player's damage is reduced by the AI card's defense, and the AI's damage by the player card's defense. The player wins iff they dealt strictly more, the AI wins iff it dealt strictly more, and equal damage is a tie. |
| CardRules.Decide | card-battler/script.js:129-137 | The player wins iff their value is strictly larger. The AI wins iff its value is strictly larger. It is a tie iff the values are equal. |
| CardRules.ResolveSymmetric | card-battler/script.js:112-137 | Exchanging the two cards and the two rolls exchanges the winner of the round. |
| CardRules.CritNeverHurts | card-battler/script.js:112-126 | A critical hit never turns a round against the side that lands it, for the player's roll and for the AI's roll alike, whatever the other side rolled. |
| CardRules.MirrorMatchTies | card-battler/script.js:125-137 | Two equal cards with equal rolls always tie. |
| CardRules.CatalogExamples | card-battler/script.js:125-126 | Fox (4/2) against Bear (2/5) deals 0 each way and ties. A critical Fox deals 3 and wins. Deer against Deer deals 0 each way and ties. |
| Shuffling.Swap | card-battler/script.js:41 | The destructuring swap exchanges two positions, leaves every other position alone and keeps the multiset. |
| Shuffling.FisherYates | card-battler/script.js:38-43 | The remaining steps of the shuffle keep the length and the multiset, and never touch positions above the step counter. |
| Shuffling.Shuffled | card-battler/script.js:38-43 | Whatever the draws, the shuffled sequence has the same length and the same multiset of elements as the input. |
| Shuffling.Shuffle | card-battler/script.js:38-43 | The in-place loop leaves the array equal to `Shuffled` of its old contents under the given draws, which is a permutation of them. |
| Shuffling.EveryOrderReachable | card-battler/script.js:38-43 | Every permutation of the input is produced by some valid sequence of draws. |
| Shuffling.ShuffledInjective | card-battler/script.js:38-43 | On an input without repeated elements, two valid draw sequences that give the same order are the same. With `EveryOrderReachable`, each order comes from exactly one draw sequence. |
| Sequences.RemoveAt | card-battler/script.js:99-101 | `splice(i, 1)` / `pop(i)`: one element shorter, elements before `i` are unchanged, elements after shift down by one, and the multiset loses exactly the removed element. |
| CardGame.ShuffledCopy | card-battler/script.js:78-79 | Copying the deck into an array and shuffling it in place yields `Shuffled(deck, picks)`. |
| CardGame.DealHoldsEachCardTwice | card-battler/script.js:78-81 | Whatever the draws, the dealt cards hold each catalog template exactly twice and nothing outside the catalog. |
| CardGame.Game.Valid | card-battler/script.js:10-17 | The invariant of the game state: the deck is dealt out, and both hands hold `maxRounds - round` cards. The scores add up to at most `round`, which is at most `maxRounds`. The game is running exactly while the player still holds cards. |
| CardGame.Game.constructor | card-battler/script.js:10-17 | The initial state: empty deck and hands, zero counters, game not started. |
| CardGame.Game.StartGame | card-battler/script.js:77-94 | Together the hands are the shuffled two-copy deck. Each hand has 6 cards and the deck is empty. Scores and round are 0, `maxRounds` is the hand size and the game is running. |
| CardGame.Game.Deal | card-battler/script.js:80-86 | The first half of the shuffled deck goes to the player and the second half to the AI. The counters restart and the invariant holds. |
| CardGame.Game.HandleCardClick | card-battler/script.js:96-158 | Without a running game nothing changes. Otherwise the card at `index` and the card at `aiIndex` leave their hands, with the rest kept in order and the multisets accounting for exactly those two cards. `round` grows by 1. A score grows by 1 iff that side won the round, so at most one score changes. The game ends iff `round >= maxRounds`; then both hands are empty and the winner is `Decide(playerScore, aiScore)`. |
| CardGame.Game.EndGame | card-battler/script.js:160-170 | `gameStarted` becomes false and the winner is decided by strict comparison of the scores. |
| CardGame.Game.ResetGame | card-battler/script.js:172-180 | Empty deck and hands, zero scores, `round == 0`, `maxRounds == 0`, game not started. |
| Todo.IsSpace | todolist/todo.py:40 | The whitespace `strip` removes is the set Python's `str.isspace` accepts. It includes blank, tab, line feed and carriage return, and no visible ASCII character. |
| Todo.Strip | todolist/todo.py:40 | The result is empty iff the input is all whitespace. Otherwise it neither starts nor ends with whitespace. It is a slice of the input with only whitespace on either side. |
| Todo.StripUnique | todolist/todo.py:40 | Any cut of the input into whitespace, a part that neither starts nor ends with whitespace, and whitespace gives that part as the strip. |
| Todo.StripIdempotent | todolist/todo.py:40 | Stripping twice is stripping once. |
| Todo.CompletedCount | todolist/todo.py:87 | The number of completed tasks never exceeds the number of tasks. |
| Todo.Pending | todolist/todo.py:86 | A task is kept iff it was in the list and is not completed. The kept count is the length minus the completed count. |
| Todo.PendingAppend | todolist/todo.py:86 | The filter keeps order: filtering a concatenation concatenates the filtered parts. |
| Todo.NoneCompleted | todolist/todo.py:86 | A list with no completed task is left unchanged by the filter. |
| Todo.PendingIdempotent | todolist/todo.py:83-89 | After a clear no task is completed, and a second clear changes nothing and removes 0. |
| Todo.NatToString | todolist/todo.py:55 | A task number prints as a non-empty string of decimal digits, with no leading zero except for 0 itself. |
| Todo.NatToStringRoundTrip | todolist/todo.py:53-55 | Reading the printed digits back gives the number. |
| Todo.Mark | todolist/todo.py:54 | The status mark is three characters, `[`, then a status character, then `]`. The status character is `x` exactly when the task is completed and a blank exactly when it is not. |
| Todo.Line | todolist/todo.py:55 | A listing line starts with the task number and ends with the description, with six characters between them. |
| Todo.LineShowsStatus | todolist/todo.py:53-55 | A listing line is the number, then `. `, then `[x]` exactly when that entry is completed (`[ ]` otherwise), then a space and the description. |
| Todo.TodoCLI.constructor | todolist/todo.py:12-18 | The list starts as the entries that were loaded. |
| Todo.TodoCLI.Add | todolist/todo.py:38-46 | An argument that strips to nothing is refused and nothing changes. Otherwise exactly one task, with the stripped description and not completed, is appended at the end. |
| Todo.TodoCLI.Complete | todolist/todo.py:57-68 | It succeeds iff the number parsed and lies between 1 and the number of tasks. On success that task is marked completed and the length and every other task are unchanged. On failure nothing changes. |
| Todo.TodoCLI.Remove | todolist/todo.py:70-81 | It succeeds iff the number parsed and lies between 1 and the number of tasks. On success exactly the entry at `idx-1` is popped and returned, and the others keep their order. On failure nothing changes. |
| Todo.TodoCLI.Clear | todolist/todo.py:83-89 | The list becomes exactly the uncompleted tasks in their original order. The count reported is the number of completed tasks before the call. |
| Todo.TodoCLI.List | todolist/todo.py:48-55 | An empty list prints only `No tasks found.`. Otherwise there is one line per task, in order, numbered from 1 and showing its status mark. |

## Left out

- The DOM work in `script.js`: element lookups, text and class updates, `renderPlayerHand`, `logMessage`, `updateScores`, event listeners and button enabling. It is display only.
- `Math.random` and the `< 0.1` critical-hit threshold. The draws become parameters, so the model says nothing about the probability of a crit or about the shuffle being uniform. `EveryOrderReachable` and `ShuffledInjective` prove that, when all elements are different, each order comes from exactly one valid draw sequence, which is what makes uniform draws give a uniform shuffle. For an input with repeated elements, such as the 12-card deck, the model does not prove that each order comes from equally many draw sequences.
- CardGame.Game.HandleCardClick: requires `0 <= index < |playerHand|` while a game runs, because a click can only come from a rendered card. The script does not check the index. A negative `index` makes `splice` count from the end of the hand, so `-1` plays the last card and the round goes on. An `index` at or past the end makes `playerCard` undefined. The script then throws a `TypeError` when it reads the card's fields, and by that time it has already removed the AI's card. Neither behaviour is modelled.
- CardGame.Game.Deal: requires a non-empty deck of even length. The script only ever deals the 12-card deck, and its `deck.length / 2` would not be a whole number for an odd length.
- CardGame.Game.Valid: carries the counts of the session, not a ledger of every card played. Card conservation is stated per click in `HandleCardClick`.
- `load_tasks` and `save_tasks` (JSON file I/O) and the path handling in `__init__`. The constructor takes the list that loading produced.
- The `cmd.Cmd` loop, the messages printed besides the listing, and `do_exit`, `do_quit` and `do_EOF`.
- Python's `int()` grammar on `arg.strip()`. `Complete` and `Remove` take the parsed number as an `Option<int>`, and `None` stands for a `ValueError`.
- Tasks with non-boolean `completed` values or missing keys, which `.get` tolerates. `completed` is a `bool` and `description` a string.
