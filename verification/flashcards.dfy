/**
 * The flashcard screen: a fixed deck of three cards, an index that moves
 * both ways inside the deck (the moves at either end do nothing), and a
 * flip flag that shows the answer side of the current card.
 */
module Flashcards {

  datatype Card = Card(id: int, question: string, answer: string)

  /** The screen's hard-coded deck. */
  const MockCards: seq<Card> := [
    Card(1, "What is a rational number?",
         "A number that can be expressed as the quotient p/q of two integers, where q \U{2260} 0."),
    Card(2, "Define Euclid's Division Lemma",
         "Given positive integers a and b, there exist unique integers q and r satisfying a = bq + r, 0 \U{2264} r < b."),
    Card(3, "What is the Fundamental Theorem of Arithmetic?",
         "Every composite number can be expressed as a product of primes, and this factorisation is unique.")
  ]

  /** The screen state: `currentIndex` and `isFlipped`. */
  datatype Deck = Deck(currentIndex: nat, isFlipped: bool)

  const Start := Deck(0, false)

  /** `handleNext` on a deck of `len` cards. */
  function Next(d: Deck, len: nat): (e: Deck)
    ensures d.currentIndex < len - 1 ==> e == Deck(d.currentIndex + 1, false)
    ensures d.currentIndex >= len - 1 ==> e == d
  {
    if d.currentIndex < len - 1 then Deck(d.currentIndex + 1, false) else d
  }

  /** `handlePrev`. */
  function Prev(d: Deck): (e: Deck)
    ensures d.currentIndex > 0 ==> e == Deck(d.currentIndex - 1, false)
    ensures d.currentIndex == 0 ==> e == d
  {
    if d.currentIndex > 0 then Deck(d.currentIndex - 1, false) else d
  }

  /** Tapping the card: `setIsFlipped(!isFlipped)`. */
  function Flip(d: Deck): (e: Deck)
    ensures e.currentIndex == d.currentIndex && e.isFlipped != d.isFlipped
  {
    d.(isFlipped := !d.isFlipped)
  }

  /** The user actions on the screen. */
  datatype Action = NextCard | PrevCard | TapCard

  function Apply(d: Deck, len: nat, a: Action): Deck {
    match a
    case NextCard => Next(d, len)
    case PrevCard => Prev(d)
    case TapCard => Flip(d)
  }

  /** The state after a run of actions. */
  function Run(d: Deck, len: nat, actions: seq<Action>): Deck
    decreases |actions|
  {
    if actions == [] then d else Run(Apply(d, len, actions[0]), len, actions[1..])
  }

  /** The index stays a valid card index whatever the user does. */
  lemma {:induction false} RunStaysInDeck(d: Deck, len: nat, actions: seq<Action>)
    requires d.currentIndex < len
    ensures Run(d, len, actions).currentIndex < len
    decreases |actions|
  {
    if actions != [] {
      RunStaysInDeck(Apply(d, len, actions[0]), len, actions[1..]);
    }
  }

  /** Two taps give back the state they started from. */
  lemma FlipTwice(d: Deck)
    ensures Flip(Flip(d)) == d
  {
  }

  /** From any card but the last, next then previous comes back to it, face down. */
  lemma NextThenPrev(d: Deck, len: nat)
    requires d.currentIndex < len - 1
    ensures Prev(Next(d, len)) == Deck(d.currentIndex, false)
  {
  }

  /** From any card but the first, previous then next comes back to it, face down. */
  lemma PrevThenNext(d: Deck, len: nat)
    requires 0 < d.currentIndex < len
    ensures Next(Prev(d), len) == Deck(d.currentIndex, false)
  {
  }

  /** The "i / n" counter above the card. */
  function Counter(d: Deck, len: nat): (c: (nat, nat))
    ensures c.1 == len && 1 <= c.0
    ensures d.currentIndex < len ==> c.0 <= len
  {
    (d.currentIndex + 1, len)
  }

  /** The counter starts at 1, follows every move by one, and ignores a tap. */
  lemma CounterMoves(d: Deck, len: nat)
    ensures Counter(Start, len).0 == 1
    ensures d.currentIndex < len - 1 ==> Counter(Next(d, len), len).0 == Counter(d, len).0 + 1
    ensures d.currentIndex > 0 ==> Counter(Prev(d), len).0 == Counter(d, len).0 - 1
    ensures d.currentIndex >= len - 1 ==> Counter(Next(d, len), len) == Counter(d, len)
    ensures d.currentIndex == 0 ==> Counter(Prev(d), len) == Counter(d, len)
    ensures Counter(Flip(d), len) == Counter(d, len)
  {
  }

  /** The text on the card's visible face. */
  function Face(d: Deck, cards: seq<Card>): string
    requires d.currentIndex < |cards|
  {
    var card := cards[d.currentIndex];
    if d.isFlipped then card.answer else card.question
  }

  /** A tap turns the question of the current card into its answer, and back. */
  lemma FaceAfterFlip(d: Deck, cards: seq<Card>)
    requires d.currentIndex < |cards|
    ensures !d.isFlipped ==> Face(Flip(d), cards) == cards[d.currentIndex].answer
    ensures d.isFlipped ==> Face(Flip(d), cards) == cards[d.currentIndex].question
    ensures Face(Flip(Flip(d)), cards) == Face(d, cards)
  {
  }

  /** A move to another card shows that card's question, whichever side was up before. */
  lemma FaceAfterMove(d: Deck, cards: seq<Card>)
    requires d.currentIndex < |cards|
    ensures d.currentIndex < |cards| - 1 ==> Face(Next(d, |cards|), cards) == cards[d.currentIndex + 1].question
    ensures d.currentIndex > 0 ==> Face(Prev(d), cards) == cards[d.currentIndex - 1].question
  {
  }

  /** The screen opens on the question of the first card. */
  lemma FaceAtStart()
    ensures Face(Start, MockCards) == "What is a rational number?"
  {
  }

  /** Over the fixed deck every reachable counter lies between "1 / 3" and "3 / 3". */
  lemma CounterOverMockDeck(actions: seq<Action>)
    ensures var c := Counter(Run(Start, |MockCards|, actions), |MockCards|); 1 <= c.0 <= 3 && c.1 == 3
  {
    RunStaysInDeck(Start, |MockCards|, actions);
  }

  /** The screen component with its two state variables. */
  class Screen {
    const cards: seq<Card>
    var currentIndex: nat
    var isFlipped: bool

    function State(): Deck
      reads this
    {
      Deck(currentIndex, isFlipped)
    }

    ghost predicate Valid()
      reads this
    {
      currentIndex < |cards|
    }

    constructor ()
      ensures Valid() && cards == MockCards && State() == Start
    {
      cards := MockCards;
      currentIndex := 0;
      isFlipped := false;
    }

    method HandleNext()
      requires Valid()
      modifies this
      ensures Valid() && State() == Next(old(State()), |cards|)
    {
      if currentIndex < |cards| - 1 {
        currentIndex := currentIndex + 1;
        isFlipped := false;
      }
    }

    method HandlePrev()
      requires Valid()
      modifies this
      ensures Valid() && State() == Prev(old(State()))
    {
      if currentIndex > 0 {
        currentIndex := currentIndex - 1;
        isFlipped := false;
      }
    }

    method HandleTap()
      requires Valid()
      modifies this
      ensures Valid() && State() == Flip(old(State()))
    {
      isFlipped := !isFlipped;
    }
  }
}
