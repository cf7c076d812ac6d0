/** The Pesten card minigame played in the cafe: deck, dealing, the legality rule,
    the player's moves and the NPC's greedy turn.

    The engine's state updaters build a new `PestenState` from the previous one;
    here each is a function from state to state. The status message of the state
    is display text and is not modelled. */
module Pesten {
  import opened Seqs

  datatype Suit = Hearts | Diamonds | Clubs | Spades

  datatype Rank = Two | Three | Four | Five | Six | Seven | Eight | Nine | Ten | Jack | Queen | King | Ace

  /** `value` is the index of the rank in rank order. */
  datatype Card = Card(suit: Suit, rank: Rank, value: nat)

  datatype Side = PlayerSide | NpcSide

  datatype PestenState = PestenState(active: bool, playerHand: seq<Card>, npcHand: seq<Card>,
                                     discardPile: seq<Card>, deck: seq<Card>, turn: Side)

  /** The state before any game: inactive, every pile empty. */
  const NO_GAME: PestenState := PestenState(false, [], [], [], [], PlayerSide)

  const SUITS: seq<Suit> := [Hearts, Diamonds, Clubs, Spades]
  const RANKS: seq<Rank> := [Two, Three, Four, Five, Six, Seven, Eight, Nine, Ten, Jack, Queen, King, Ace]

  function SuitIndex(s: Suit): (i: nat)
    ensures i < 4 && SUITS[i] == s
  {
    match s
    case Hearts => 0
    case Diamonds => 1
    case Clubs => 2
    case Spades => 3
  }

  function RankIndex(r: Rank): (i: nat)
    ensures i < 13 && RANKS[i] == r
  {
    match r
    case Two => 0
    case Three => 1
    case Four => 2
    case Five => 3
    case Six => 4
    case Seven => 5
    case Eight => 6
    case Nine => 7
    case Ten => 8
    case Jack => 9
    case Queen => 10
    case King => 11
    case Ace => 12
  }

  lemma RanksDistinct(i: nat)
    requires i < 13
    ensures RankIndex(RANKS[i]) == i
  {
  }

  lemma SuitsDistinct(i: nat)
    requires i < 4
    ensures SuitIndex(SUITS[i]) == i
  {
  }

  /** A card as `createDeck` makes them: its value is the index of its rank. */
  predicate ValidCard(c: Card)
  {
    c.value == RankIndex(c.rank)
  }

  /** Position of a card in the unshuffled deck: suits outer, ranks inner. */
  function CardIndex(c: Card): nat
  {
    13 * SuitIndex(c.suit) + RankIndex(c.rank)
  }

  /** The k-th card the nested loops of `createDeck` push. */
  function CardAt(k: nat): (c: Card)
    requires k < 52
    ensures ValidCard(c) && CardIndex(c) == k
  {
    RanksDistinct(k % 13);
    SuitsDistinct(k / 13);
    Card(SUITS[k / 13], RANKS[k % 13], k % 13)
  }

  lemma CardAtIndex(c: Card)
    requires ValidCard(c)
    ensures CardIndex(c) < 52 && CardAt(CardIndex(c)) == c
  {
    var k := CardIndex(c);
    assert k / 13 == SuitIndex(c.suit) && k % 13 == RankIndex(c.rank);
  }

  /** The deck of `createDeck` before it is shuffled: card k is the k-th one its nested
      loops push. */
  function OrderedDeck(): (d: seq<Card>)
    ensures |d| == 52
  {
    seq(52, k requires 0 <= k < 52 => CardAt(k))
  }

  lemma {:induction false} DeckPrefixCount(k: nat, c: Card)
    requires k <= 52
    ensures multiset(OrderedDeck()[..k])[c] == if ValidCard(c) && CardIndex(c) < k then 1 else 0
  {
    if k > 0 {
      DeckPrefixCount(k - 1, c);
      PrefixStep(OrderedDeck(), k, c);
      var top := CardAt(k - 1);
      assert OrderedDeck()[k - 1] == top;
      if ValidCard(c) && CardIndex(c) == k - 1 {
        CardAtIndex(c);
      }
    }
  }

  /** Extending a prefix by one element counts that element once more. */
  lemma PrefixStep<T>(d: seq<T>, k: nat, x: T)
    requires 0 < k <= |d|
    ensures multiset(d[..k])[x] == multiset(d[..k - 1])[x] + if d[k - 1] == x then 1 else 0
  {
    assert d[..k] == d[..k - 1] + [d[k - 1]];
  }

  /** The deck holds 52 cards: every suit-rank card exactly once, with its rank index as
      value, and nothing else. */
  lemma CreateDeckExact(c: Card)
    ensures |OrderedDeck()| == 52
    ensures multiset(OrderedDeck())[c] == if ValidCard(c) then 1 else 0
  {
    DeckPrefixCount(52, c);
    assert OrderedDeck()[..52] == OrderedDeck();
    if ValidCard(c) {
      CardAtIndex(c);
    }
  }

  /** A result of `createDeck`: the shuffle is an arbitrary permutation of the ordered deck. */
  predicate IsShuffle(d: seq<Card>)
  {
    |d| == 52 && multiset(d) == multiset(OrderedDeck())
  }

  lemma RepeatCounts<T>(d: seq<T>, i: nat, j: nat)
    requires i < j < |d|
    ensures d[i] == d[j] ==> multiset(d)[d[i]] >= 2
  {
    assert d == d[..j] + [d[j]] + d[j + 1..];
    assert d[i] in d[..j];
  }

  /** A shuffled deck still holds each of the 52 cards exactly once: its cards are distinct,
      valid, and every valid card is among them. */
  lemma ShuffleExact(d: seq<Card>)
    requires IsShuffle(d)
    ensures |d| == 52
    ensures forall i, j :: 0 <= i < j < |d| ==> d[i] != d[j]
    ensures forall i :: 0 <= i < |d| ==> ValidCard(d[i])
    ensures forall c :: ValidCard(c) ==> c in d
  {
    CreateDeckExact(Card(Hearts, Two, 0));
    assert |multiset(d)| == |d|;
    forall i, j | 0 <= i < j < |d|
      ensures d[i] != d[j]
    {
      CreateDeckExact(d[i]);
      RepeatCounts(d, i, j);
    }
    forall i | 0 <= i < |d|
      ensures ValidCard(d[i])
    {
      CreateDeckExact(d[i]);
      assert d[i] in multiset(d);
    }
    forall c | ValidCard(c)
      ensures c in d
    {
      CreateDeckExact(c);
      assert c in multiset(d);
    }
  }

  function Top(s: PestenState): Card
    requires |s.discardPile| > 0
  {
    Last(s.discardPile)
  }

  /** The legality rule: same suit or same rank as the top of the discard pile. */
  predicate Matches(c: Card, top: Card)
  {
    c.suit == top.suit || c.rank == top.rank
  }

  /** Every card of the game, wherever it lies. */
  function Cards(s: PestenState): multiset<Card>
  {
    multiset(s.playerHand) + multiset(s.npcHand) + multiset(s.discardPile) + multiset(s.deck)
  }

  /** A bound on the moves left: each play or draw lowers it by one. */
  function Remaining(s: PestenState): nat
  {
    2 * |s.deck| + |s.playerHand| + |s.npcHand|
  }

  function Other(who: Side): Side
  {
    if who == PlayerSide then NpcSide else PlayerSide
  }

  /** `startPesten` on the deck `createDeck` returned: seven `pop()`s from its end, three to
      the player, three to the NPC and one face up; the player starts. */
  function StartPesten(shuffled: seq<Card>): (r: PestenState)
    requires |shuffled| == 52
    ensures r.active && r.turn == PlayerSide
    ensures |r.playerHand| == 3 && |r.npcHand| == 3 && |r.discardPile| == 1 && |r.deck| == 45
    ensures r.deck == shuffled[..45] && Top(r) == shuffled[45]
    ensures Remaining(r) == 96
  {
    var d := shuffled;
    PestenState(true, [d[51], d[50], d[49]], [d[48], d[47], d[46]], [d[45]], d[..45], PlayerSide)
  }

  /** The deal neither loses nor invents a card: the 52 cards of the shuffled deck are all
      in the hands, the pile and the deck. */
  lemma StartKeepsCards(shuffled: seq<Card>)
    requires |shuffled| == 52
    ensures Cards(StartPesten(shuffled)) == multiset(shuffled)
  {
    DealCount(shuffled);
  }

  /** The shape of the deal on any 52-element sequence: the last three, reversed, the three
      before them, reversed, the one before those, and the first 45. */
  lemma DealCount<T>(d: seq<T>)
    requires |d| == 52
    ensures multiset([d[51], d[50], d[49]]) + multiset([d[48], d[47], d[46]]) + multiset([d[45]]) + multiset(d[..45])
         == multiset(d)
  {
    DealSlices(d);
    ReverseCount(d, 49);
    ReverseCount(d, 46);
    OneCount(d, 45);
  }

  /** The four parts of the deal as slices of `d`. */
  lemma DealSlices<T>(d: seq<T>)
    requires |d| == 52
    ensures multiset(d) == multiset(d[49..52]) + multiset(d[46..49]) + multiset(d[45..46]) + multiset(d[..45])
  {
    assert d[..52] == d;
    SliceCount(d, 0, 45, 52);
    SliceCount(d, 45, 46, 52);
    SliceCount(d, 46, 49, 52);
  }

  lemma SliceCount<T>(d: seq<T>, i: nat, j: nat, k: nat)
    requires i <= j <= k <= |d|
    ensures multiset(d[i..k]) == multiset(d[i..j]) + multiset(d[j..k])
  {
    assert d[i..k] == d[i..j] + d[j..k];
  }

  lemma OneCount<T>(d: seq<T>, k: nat)
    requires k < |d|
    ensures multiset(d[k..k + 1]) == multiset([d[k]])
  {
    assert d[k..k + 1] == [d[k]];
  }

  /** Three cards popped off the end of `d[..k + 3]` come out in reverse. */
  lemma ReverseCount<T>(d: seq<T>, k: nat)
    requires k + 3 <= |d|
    ensures multiset(d[k..k + 3]) == multiset([d[k + 2], d[k + 1], d[k]])
  {
    assert d[k..k + 3] == [d[k], d[k + 1], d[k + 2]];
    ReverseThree(d[k], d[k + 1], d[k + 2]);
  }

  lemma ReverseThree<T>(a: T, b: T, c: T)
    ensures multiset([a, b, c]) == multiset([c, b, a])
  {
  }

  /** `drawCard(who)`: the last card of the deck goes to `who`'s hand and the turn passes;
      on an empty deck the game ends in a draw. */
  function DrawCard(s: PestenState, who: Side): (r: PestenState)
    ensures |s.deck| == 0 ==> r == s.(active := false)
    ensures |s.deck| > 0 ==>
      && r.active == s.active && r.discardPile == s.discardPile && r.turn == Other(who)
      && r.deck + [Last(s.deck)] == s.deck
      && (if who == PlayerSide
          then r.playerHand == s.playerHand + [Last(s.deck)] && r.npcHand == s.npcHand
          else r.npcHand == s.npcHand + [Last(s.deck)] && r.playerHand == s.playerHand)
  {
    if |s.deck| == 0 then s.(active := false)
    else
      var card := Last(s.deck);
      s.(deck := DropLast(s.deck), turn := Other(who),
         playerHand := if who == PlayerSide then s.playerHand + [card] else s.playerHand,
         npcHand := if who == NpcSide then s.npcHand + [card] else s.npcHand)
  }

  /** The guard `playCard` needs before it reads the chosen card and the top card. */
  predicate CanPlay(s: PestenState, i: nat)
  {
    s.turn == PlayerSide ==> i < |s.playerHand| && |s.discardPile| > 0
  }

  /** `playCard(i)`: only on the player's turn; a matching card leaves the hand for the top
      of the pile and the turn passes to the NPC, any other card makes the player draw. */
  function PlayCard(s: PestenState, i: nat): (r: PestenState)
    requires CanPlay(s, i)
    ensures s.turn != PlayerSide ==> r == s
    ensures s.turn == PlayerSide && Matches(s.playerHand[i], Top(s)) ==>
      && r.playerHand == Remove(s.playerHand, i)
      && r.discardPile == s.discardPile + [s.playerHand[i]] && Top(r) == s.playerHand[i]
      && r.turn == NpcSide && r.npcHand == s.npcHand && r.deck == s.deck && r.active == s.active
    ensures s.turn == PlayerSide && !Matches(s.playerHand[i], Top(s)) ==> r == DrawCard(s, PlayerSide)
  {
    if s.turn != PlayerSide then s
    else
      var card := s.playerHand[i];
      if Matches(card, Top(s)) then
        s.(playerHand := Remove(s.playerHand, i), discardPile := s.discardPile + [card], turn := NpcSide)
      else
        DrawCard(s, PlayerSide)
  }

  /** The player emptied their hand with this play (the +20 prize). */
  predicate PlayerWins(s: PestenState, i: nat)
    requires CanPlay(s, i)
  {
    s.turn == PlayerSide && Matches(s.playerHand[i], Top(s)) && |s.playerHand| == 1
  }

  /** Index of the NPC's first card that matches the top, or -1. */
  function NpcChoice(s: PestenState): int
    requires |s.discardPile| > 0
  {
    var top := Top(s);
    FindIndex(s.npcHand, (c: Card) => Matches(c, top))
  }

  /** `npcTurnPesten`: nothing while inactive (so a turn that comes due after STOP changes
      nothing); otherwise the NPC plays its first matching card (keeping the turn if that
      empties its hand), else draws, else ends the game. The player's hand is never touched. */
  function NpcTurn(s: PestenState): (r: PestenState)
    requires s.active ==> |s.discardPile| > 0
    ensures !s.active ==> r == s
    ensures r.playerHand == s.playerHand
  {
    if !s.active then s
    else
      var k := NpcChoice(s);
      if k != -1 then
        var card := s.npcHand[k];
        var hand := Remove(s.npcHand, k);
        s.(npcHand := hand, discardPile := s.discardPile + [card],
           turn := if |hand| == 0 then s.turn else PlayerSide)
      else if |s.deck| == 0 then s.(active := false)
      else s.(deck := DropLast(s.deck), npcHand := s.npcHand + [Last(s.deck)], turn := PlayerSide)
  }

  /** The NPC's policy is greedy and deterministic: when some card in its hand matches, it plays
      the FIRST one in hand order, leaving the deck and the player's hand alone; the turn goes
      back to the player unless the NPC emptied its hand. */
  lemma NpcTurnPlaysFirst(s: PestenState, j: nat)
    requires s.active && |s.discardPile| > 0
    requires j < |s.npcHand| && Matches(s.npcHand[j], Top(s))
    ensures var r := NpcTurn(s);
      exists k :: (0 <= k <= j && Matches(s.npcHand[k], Top(s))
        && (forall m :: 0 <= m < k ==> !Matches(s.npcHand[m], Top(s)))
        && r.npcHand == Remove(s.npcHand, k) && r.discardPile == s.discardPile + [s.npcHand[k]]
        && r.deck == s.deck && r.playerHand == s.playerHand && r.active
        && (r.turn == PlayerSide <==> |r.npcHand| > 0 || s.turn == PlayerSide))
  {
    var k := NpcChoice(s);
    assert k != -1 && k <= j;
  }

  /** Only when no card matches does the NPC draw the deck's last card, and on an empty deck
      the game ends. */
  lemma NpcTurnDraws(s: PestenState)
    requires s.active && |s.discardPile| > 0
    requires forall j :: 0 <= j < |s.npcHand| ==> !Matches(s.npcHand[j], Top(s))
    ensures var r := NpcTurn(s);
      if |s.deck| == 0 then r == s.(active := false) else
        r.npcHand == s.npcHand + [Last(s.deck)] && r.deck + [Last(s.deck)] == s.deck
        && r.discardPile == s.discardPile && r.playerHand == s.playerHand
        && r.turn == PlayerSide && r.active
  {
  }

  /** One transition of the minigame: a click on a hand card, a click on the draw pile,
      or the NPC's scheduled turn. */
  datatype Move = Play(i: nat) | Draw | NpcMove

  predicate MoveOk(s: PestenState, m: Move)
  {
    match m
    case Play(i) => CanPlay(s, i)
    case Draw => true
    case NpcMove => s.active ==> |s.discardPile| > 0
  }

  function Step(s: PestenState, m: Move): PestenState
    requires MoveOk(s, m)
  {
    match m
    case Play(i) => PlayCard(s, i)
    case Draw => DrawCard(s, PlayerSide)
    case NpcMove => NpcTurn(s)
  }

  /** No move creates or loses a card: the multiset of both hands, the discard pile and the
      deck is the same after every play or draw. */
  lemma CardsConserved(s: PestenState, m: Move)
    requires MoveOk(s, m)
    ensures Cards(Step(s, m)) == Cards(s)
  {
    match m
    case Play(i) =>
      if s.turn == PlayerSide && Matches(s.playerHand[i], Top(s)) {
        assert multiset(s.playerHand) == multiset(Remove(s.playerHand, i)) + multiset{s.playerHand[i]};
      }
    case Draw =>
    case NpcMove =>
      if s.active && NpcChoice(s) != -1 {
        var k := NpcChoice(s);
        assert multiset(s.npcHand) == multiset(Remove(s.npcHand, k)) + multiset{s.npcHand[k]};
      }
  }

  /** Termination: every move either changes nothing, ends the game, or lowers `Remaining`
      by exactly one, so a game dealt by `StartPesten` (Remaining 96) ends within 96
      effective moves, and the player can draw at most 45 times. */
  lemma MoveProgress(s: PestenState, m: Move)
    requires MoveOk(s, m)
    ensures var r := Step(s, m);
      r == s || !r.active || Remaining(r) == Remaining(s) - 1
    ensures |Step(s, m).deck| <= |s.deck|
  {
  }

  /** The invariant the engine keeps for its game state: either no game was ever dealt, or
      all 52 cards are in play and the discard pile has a top card. */
  predicate Dealt(s: PestenState)
  {
    |s.discardPile| > 0 && Cards(s) == multiset(OrderedDeck())
  }

  predicate PestenOk(s: PestenState)
  {
    (!s.active && Cards(s) == multiset{}) || Dealt(s)
  }

  /** A fresh deal satisfies the invariant. */
  lemma StartIsDealt(shuffled: seq<Card>)
    requires IsShuffle(shuffled)
    ensures PestenOk(StartPesten(shuffled)) && Dealt(StartPesten(shuffled))
  {
    StartKeepsCards(shuffled);
  }

  lemma MovePreservesDealt(s: PestenState, m: Move)
    requires Dealt(s) && MoveOk(s, m)
    ensures Dealt(Step(s, m))
  {
    CardsConserved(s, m);
  }
}
