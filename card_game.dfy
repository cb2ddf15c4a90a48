/** The game session of card-battler/script.js: the module-level variables
    `deck`, `playerHand`, `aiHand`, `playerScore`, `aiScore`, `round`,
    `maxRounds` and `gameStarted` become the fields of one object, and
    `startGame`, `handleCardClick`, `endGame` and `resetGame` its methods.
    Every draw of `Math.random` is a parameter: the shuffle's swap indices,
    the index of the card the AI plays and the two critical-hit rolls. */
module CardGame {
  import opened Wrappers
  import opened Sequences
  import opened CardRules
  import opened Shuffling

  /** `startGame`'s shuffle: the fresh deck is copied into an array and
      shuffled in place with the draws `picks`. */
  method ShuffledCopy(cards: seq<Card>, picks: seq<nat>) returns (shuffled: seq<Card>)
    requires ValidPicks(picks, |cards|)
    ensures shuffled == Shuffled(cards, picks)
  {
    var a := new Card[|cards|](i requires 0 <= i < |cards| => cards[i]);
    assert a[..] == cards;
    Shuffle(a, picks);
    shuffled := a[..];
  }

  /** The hands `startGame` deals hold every catalog card exactly twice
      between them, and nothing else, whatever the draws. */
  lemma DealHoldsEachCardTwice(picks: seq<nat>)
    requires ValidPicks(picks, |BuildDeck()|)
    ensures forall k :: 0 <= k < |Catalog| ==> multiset(Shuffled(BuildDeck(), picks))[Catalog[k]] == 2
    ensures forall c :: c in Shuffled(BuildDeck(), picks) <==> c in Catalog
  {
    EachTemplateTwice();
    var deck := Shuffled(BuildDeck(), picks);
    assert multiset(deck) == multiset(BuildDeck());
    forall c
      ensures c in deck <==> c in Catalog
    {
      assert c in deck <==> c in multiset(deck);
      assert c in BuildDeck() <==> c in multiset(BuildDeck());
    }
  }

  class Game {
    var deck: seq<Card>
    var playerHand: seq<Card>
    var aiHand: seq<Card>
    var playerScore: nat
    var aiScore: nat
    var round: nat
    var maxRounds: nat
    var gameStarted: bool

    /** What every operation keeps, whatever the status flag says: the deck
        has been dealt out, both hands hold one card per round still to play,
        that is `maxRounds - round` cards each, and the rounds won by either
        side never exceed the rounds played. */
    predicate Consistent()
      reads this
    {
      && deck == []
      && |playerHand| + round == maxRounds
      && |aiHand| + round == maxRounds
      && playerScore + aiScore <= round
    }

    /** The object invariant: in addition, the game runs exactly while
        rounds remain to be played, which is while the player holds cards. */
    predicate Valid()
      reads this
      ensures Valid() ==> |playerHand| == |aiHand| == maxRounds - round
      ensures Valid() ==> playerScore + aiScore <= round <= maxRounds
      ensures Valid() ==> (gameStarted <==> playerHand != [])
    {
      Consistent() && (gameStarted <==> round < maxRounds)
    }

    /** The state of the script's variables when it loads. */
    constructor ()
      ensures Valid()
      ensures deck == [] && playerHand == [] && aiHand == []
      ensures playerScore == 0 && aiScore == 0 && round == 0 && maxRounds == 0
      ensures !gameStarted
    {
      deck, playerHand, aiHand := [], [], [];
      playerScore, aiScore, round, maxRounds := 0, 0, 0, 0;
      gameStarted := false;
    }

    /** `startGame`: build the deck from two copies of the catalog, shuffle it
        with the draws `picks`, give the first half to the player and the rest
        to the AI, and reset the counters. */
    method StartGame(picks: seq<nat>)
      requires ValidPicks(picks, |BuildDeck()|)
      modifies this
      ensures Valid()
      ensures playerHand + aiHand == Shuffled(BuildDeck(), picks)
      ensures |playerHand| == |aiHand| == |Catalog|
      ensures deck == []
      ensures playerScore == 0 && aiScore == 0 && round == 0
      ensures maxRounds == |playerHand| && gameStarted
    {
      EachTemplateTwice();
      var shuffled := ShuffledCopy(BuildDeck(), picks);
      Deal(shuffled);
    }

    /** `startGame`'s two splices: the first half of the shuffled deck goes
        to the player, the rest to the AI, and the counters restart. */
    method Deal(shuffled: seq<Card>)
      requires 0 < |shuffled| && |shuffled| % 2 == 0
      modifies this
      ensures Valid()
      ensures playerHand + aiHand == shuffled
      ensures |playerHand| == |aiHand| == |shuffled| / 2
      ensures deck == []
      ensures playerScore == 0 && aiScore == 0 && round == 0
      ensures maxRounds == |playerHand| && gameStarted
    {
      deck := shuffled;
      playerHand := deck[..|deck| / 2];
      deck := deck[|deck| / 2..];
      aiHand := deck;
      deck := [];
      assert playerHand + aiHand == shuffled;
      playerScore, aiScore, round := 0, 0, 0;
      maxRounds := |playerHand|;
      gameStarted := true;
    }

    /** `handleCardClick(index)`: ignored unless a game is running; otherwise
        the player's card at `index` and the AI's card at `aiIndex` leave
        their hands, the round is resolved with the rolls `playerCrit` and
        `aiCrit`, the side that dealt strictly more damage scores, and the
        game ends once `round` reaches `maxRounds`. `index` is not checked by
        the script; a click can only come from a card of the hand. Returns
        the resolved round and, when the game ended, its winner. */
    method HandleCardClick(index: int, aiIndex: int, playerCrit: bool, aiCrit: bool)
      returns (played: Option<Round>, winner: Option<Outcome>)
      requires Valid()
      requires gameStarted ==> 0 <= index < |playerHand| && 0 <= aiIndex < |aiHand|
      modifies this
      ensures Valid()
      ensures !old(gameStarted) ==> unchanged(this) && played == None && winner == None
      ensures old(gameStarted) ==>
        && played == Some(Resolve(old(playerHand[index]), old(aiHand[aiIndex]), playerCrit, aiCrit))
        && playerHand == RemoveAt(old(playerHand), index)
        && aiHand == RemoveAt(old(aiHand), aiIndex)
        && multiset(playerHand) + multiset{played.value.playerCard} == multiset(old(playerHand))
        && multiset(aiHand) + multiset{played.value.aiCard} == multiset(old(aiHand))
        && round == old(round) + 1
        && playerScore == old(playerScore) + (if played.value.outcome == PlayerWins then 1 else 0)
        && aiScore == old(aiScore) + (if played.value.outcome == AiWins then 1 else 0)
        && deck == old(deck) && maxRounds == old(maxRounds)
        && gameStarted == (round < maxRounds)
        && (winner.Some? <==> round >= maxRounds)
        && (winner.Some? ==> winner.value == Decide(playerScore, aiScore) && playerHand == [] && aiHand == [])
    {
      if !gameStarted {
        return None, None;
      }
      var playerCard := playerHand[index];
      playerHand := RemoveAt(playerHand, index);
      var aiCard := aiHand[aiIndex];
      aiHand := RemoveAt(aiHand, aiIndex);

      var r := Resolve(playerCard, aiCard, playerCrit, aiCrit);
      assert r.outcome == Decide(r.playerDamage, r.aiDamage);
      if r.playerDamage > r.aiDamage {
        playerScore := playerScore + 1;
      } else if r.aiDamage > r.playerDamage {
        aiScore := aiScore + 1;
      }
      round := round + 1;
      played := Some(r);

      if round >= maxRounds {
        var w := EndGame();
        winner := Some(w);
      } else {
        winner := None;
      }
    }

    /** `endGame`: the game stops and the winner is decided by strict
        comparison of the scores. Only reached once every round is played. */
    method EndGame() returns (winner: Outcome)
      requires Consistent() && round >= maxRounds
      modifies this`gameStarted
      ensures Valid()
      ensures !gameStarted
      ensures winner == Decide(playerScore, aiScore)
    {
      gameStarted := false;
      winner := Decide(playerScore, aiScore);
    }

    /** `resetGame`: every field back to its initial value. */
    method ResetGame()
      modifies this
      ensures Valid()
      ensures deck == [] && playerHand == [] && aiHand == []
      ensures playerScore == 0 && aiScore == 0 && round == 0 && maxRounds == 0
      ensures !gameStarted
    {
      deck := [];
      playerHand := [];
      aiHand := [];
      playerScore := 0;
      aiScore := 0;
      round := 0;
      maxRounds := 0;
      gameStarted := false;
    }
  }
}
