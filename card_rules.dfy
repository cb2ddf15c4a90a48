/** The rules of card-battler/script.js that do not depend on the game's
    state: the card catalog, the deck built from it, damage and the decision
    of a round or of a whole game. */
module CardRules {
  import opened Sequences

  /** A card template; the emoji is carried along but no rule reads it. */
  datatype Card = Card(name: string, emoji: string, attack: nat, defense: nat)

  /** The fixed catalog of six templates. */
  const Catalog: seq<Card> := [
    Card("Fox", "\U{1F98A}", 4, 2),
    Card("Bear", "\U{1F43B}", 2, 5),
    Card("Deer", "\U{1F98C}", 3, 3),
    Card("Rabbit", "\U{1F407}", 1, 1),
    Card("Wolf", "\U{1F43A}", 5, 3),
    Card("Squirrel", "\U{1F43F}\U{FE0F}", 2, 2)
  ]

  /** The six templates are told apart by their names, so no template of
      the catalog repeats another. */
  lemma CatalogDistinct()
    ensures |Catalog| == 6
    ensures forall i, j :: 0 <= i < j < |Catalog| ==> Catalog[i].name != Catalog[j].name
  {
    forall i, j | 0 <= i < j < |Catalog| ensures Catalog[i].name != Catalog[j].name { }
  }

  /** `[...cards, ...cards]`: two copies of the catalog, one after the other,
      so position `i` of the deck holds template `i` modulo the catalog size. */
  function BuildDeck(): (d: seq<Card>)
    ensures |d| == 2 * |Catalog|
    ensures forall i :: 0 <= i < |d| ==> d[i] == Catalog[i % |Catalog|]
  {
    Catalog + Catalog
  }

  /** In a sequence without repetitions every element occurs once. */
  lemma {:induction false} DistinctOccursOnce<T>(s: seq<T>, k: nat)
    requires Distinct(s) && k < |s|
    ensures multiset(s)[s[k]] == 1
  {
    if k == 0 {
      assert s == [s[0]] + s[1..];
      assert s[0] !in s[1..];
    } else {
      assert s == [s[0]] + s[1..];
      assert s[1..][k - 1] == s[k];
      DistinctOccursOnce(s[1..], k - 1);
    }
  }

  /** The deck holds twelve cards, each template of the catalog exactly
      twice, and nothing else. */
  lemma EachTemplateTwice()
    ensures |BuildDeck()| == 2 * |Catalog| == 12
    ensures forall k :: 0 <= k < |Catalog| ==> multiset(BuildDeck())[Catalog[k]] == 2
    ensures forall c :: c in BuildDeck() <==> c in Catalog
  {
    CatalogDistinct();
    assert Distinct(Catalog);
    forall k | 0 <= k < |Catalog| ensures multiset(BuildDeck())[Catalog[k]] == 2 {
      DistinctOccursOnce(Catalog, k);
    }
  }

  /** A card's attack for this round: doubled on a critical hit, so a roll
      never lowers it. */
  function EffectiveAttack(card: Card, crit: bool): (a: nat)
    ensures a >= card.attack
    ensures crit ==> a == 2 * card.attack
    ensures !crit ==> a == card.attack
  {
    if crit then card.attack * 2 else card.attack
  }

  /** `Math.max(0, attack - opponent.defense)`: the damage `attacker` deals,
      reduced by the defense of the OPPOSING card. It is zero exactly when the
      effective attack does not exceed that defense, and otherwise the excess. */
  function Damage(attacker: Card, crit: bool, defender: Card): (d: nat)
    ensures d == 0 <==> EffectiveAttack(attacker, crit) <= defender.defense
    ensures d > 0 ==> d + defender.defense == EffectiveAttack(attacker, crit)
  {
    if EffectiveAttack(attacker, crit) > defender.defense
    then EffectiveAttack(attacker, crit) - defender.defense
    else 0
  }

  datatype Outcome = PlayerWins | AiWins | Tie

  /** The comparison used both for a round (on damage) and for the game (on
      score): the strictly larger value wins, equal values tie. */
  function Decide(playerValue: nat, aiValue: nat): (o: Outcome)
    ensures o == PlayerWins <==> playerValue > aiValue
    ensures o == AiWins <==> aiValue > playerValue
    ensures o == Tie <==> playerValue == aiValue
  {
    if playerValue > aiValue then PlayerWins
    else if aiValue > playerValue then AiWins
    else Tie
  }

  /** Everything one round determines: the two cards, the two critical-hit
      rolls, the damage each way and who won. */
  datatype Round = Round(playerCard: Card, aiCard: Card, playerCrit: bool, aiCrit: bool,
                         playerDamage: nat, aiDamage: nat, outcome: Outcome)

  /** The combat of one round: each side's damage is reduced by the defense
      of the card it faces, and the side that dealt strictly more wins. */
  function Resolve(playerCard: Card, aiCard: Card, playerCrit: bool, aiCrit: bool): (r: Round)
    ensures r.playerCard == playerCard && r.aiCard == aiCard
    ensures r.playerCrit == playerCrit && r.aiCrit == aiCrit
    ensures r.playerDamage == Damage(playerCard, playerCrit, aiCard)
    ensures r.aiDamage == Damage(aiCard, aiCrit, playerCard)
    ensures r.outcome == PlayerWins <==> r.playerDamage > r.aiDamage
    ensures r.outcome == AiWins <==> r.aiDamage > r.playerDamage
    ensures r.outcome == Tie <==> r.playerDamage == r.aiDamage
  {
    var playerDamage := Damage(playerCard, playerCrit, aiCard);
    var aiDamage := Damage(aiCard, aiCrit, playerCard);
    Round(playerCard, aiCard, playerCrit, aiCrit, playerDamage, aiDamage,
          Decide(playerDamage, aiDamage))
  }

  /** The outcome seen from the other side. */
  function Mirror(o: Outcome): Outcome {
    match o
    case PlayerWins => AiWins
    case AiWins => PlayerWins
    case Tie => Tie
  }

  /** The rules treat both sides alike: exchanging the cards and the rolls
      exchanges the winner. */
  lemma ResolveSymmetric(playerCard: Card, aiCard: Card, playerCrit: bool, aiCrit: bool)
    ensures Resolve(aiCard, playerCard, aiCrit, playerCrit).outcome
         == Mirror(Resolve(playerCard, aiCard, playerCrit, aiCrit).outcome)
  {
  }

  /** A critical hit never turns a round against the side that lands it,
      whatever the other side rolled. */
  lemma CritNeverHurts(playerCard: Card, aiCard: Card, playerCrit: bool, aiCrit: bool)
    ensures Resolve(playerCard, aiCard, false, aiCrit).outcome != AiWins
         ==> Resolve(playerCard, aiCard, true, aiCrit).outcome != AiWins
    ensures Resolve(playerCard, aiCard, false, aiCrit).outcome == PlayerWins
         ==> Resolve(playerCard, aiCard, true, aiCrit).outcome == PlayerWins
    ensures Resolve(playerCard, aiCard, playerCrit, false).outcome != PlayerWins
         ==> Resolve(playerCard, aiCard, playerCrit, true).outcome != PlayerWins
    ensures Resolve(playerCard, aiCard, playerCrit, false).outcome == AiWins
         ==> Resolve(playerCard, aiCard, playerCrit, true).outcome == AiWins
  {
  }

  /** Two equal cards with equal rolls always tie. */
  lemma MirrorMatchTies(card: Card, crit: bool)
    ensures Resolve(card, card, crit, crit).outcome == Tie
  {
  }

  /** Worked rounds from the catalog. Fox (4/2) against Bear (2/5) without
      critical hits deals 0 each way, since each attack meets the opposing
      defense, and ties; a critical Fox deals 8 - 5 = 3 and wins. Deer
      against Deer deals 0 each way and ties. */
  lemma CatalogExamples()
    ensures var fox, bear, deer := Catalog[0], Catalog[1], Catalog[2];
      && Resolve(fox, bear, false, false) == Round(fox, bear, false, false, 0, 0, Tie)
      && Resolve(fox, bear, true, false) == Round(fox, bear, true, false, 3, 0, PlayerWins)
      && Resolve(deer, deer, false, false) == Round(deer, deer, false, false, 0, 0, Tie)
  {
  }
}
