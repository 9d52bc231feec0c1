/** Playing cards (model/Card.kt, model/Suit.kt and the enum `Rank`, whose
    file is not part of this model): a card is a rank and a suit, and each
    rank carries its Blackjack value. Enum names are what the TXT and XML
    codecs write, so each enum has its `name` and its `valueOf`. */
module Cards {
  import opened Options

  datatype Suit = Clubs | Diamonds | Hearts | Spades

  /** Declaration order is the order `Rank.values()` yields. */
  datatype Rank = Two | Three | Four | Five | Six | Seven | Eight | Nine | Ten
                | Jack | Queen | King | Ace

  datatype Card = Card(rank: Rank, suit: Suit)

  /** `Suit.values()`. */
  const AllSuits: seq<Suit> := [Clubs, Diamonds, Hearts, Spades]

  /** `Rank.values()`. */
  const AllRanks: seq<Rank> :=
    [Two, Three, Four, Five, Six, Seven, Eight, Nine, Ten, Jack, Queen, King, Ace]

  /** `rank.value`: an Ace counts 11, a face card 10, a numeral its number. */
  function RankValue(r: Rank): (v: int)
    ensures 2 <= v <= 11
    ensures v == 11 <==> r == Ace
  {
    match r
    case Two => 2
    case Three => 3
    case Four => 4
    case Five => 5
    case Six => 6
    case Seven => 7
    case Eight => 8
    case Nine => 9
    case Ten | Jack | Queen | King => 10
    case Ace => 11
  }

  /** The characters the hand codec uses as separators. */
  predicate IsPlainName(name: string) {
    name != "" && ',' !in name && '_' !in name && '\n' !in name && '\r' !in name
  }

  /** `rank.name`. */
  function RankName(r: Rank): (name: string)
    ensures IsPlainName(name)
  {
    match r
    case Two => "TWO"
    case Three => "THREE"
    case Four => "FOUR"
    case Five => "FIVE"
    case Six => "SIX"
    case Seven => "SEVEN"
    case Eight => "EIGHT"
    case Nine => "NINE"
    case Ten => "TEN"
    case Jack => "JACK"
    case Queen => "QUEEN"
    case King => "KING"
    case Ace => "ACE"
  }

  /** `Rank.valueOf(name)`, None where it throws. */
  function ParseRank(name: string): (r: Option<Rank>)
    ensures r.Some? ==> RankName(r.value) == name
    ensures forall k :: RankName(k) == name ==> r == Some(k)
  {
    if name == "TWO" then Some(Two)
    else if name == "THREE" then Some(Three)
    else if name == "FOUR" then Some(Four)
    else if name == "FIVE" then Some(Five)
    else if name == "SIX" then Some(Six)
    else if name == "SEVEN" then Some(Seven)
    else if name == "EIGHT" then Some(Eight)
    else if name == "NINE" then Some(Nine)
    else if name == "TEN" then Some(Ten)
    else if name == "JACK" then Some(Jack)
    else if name == "QUEEN" then Some(Queen)
    else if name == "KING" then Some(King)
    else if name == "ACE" then Some(Ace)
    else None
  }

  /** `suit.name`. */
  function SuitName(s: Suit): (name: string)
    ensures IsPlainName(name)
  {
    match s
    case Clubs => "CLUBS"
    case Diamonds => "DIAMONDS"
    case Hearts => "HEARTS"
    case Spades => "SPADES"
  }

  /** `Suit.valueOf(name)`, None where it throws. */
  function ParseSuit(name: string): (r: Option<Suit>)
    ensures r.Some? ==> SuitName(r.value) == name
    ensures forall k :: SuitName(k) == name ==> r == Some(k)
  {
    if name == "CLUBS" then Some(Clubs)
    else if name == "DIAMONDS" then Some(Diamonds)
    else if name == "HEARTS" then Some(Hearts)
    else if name == "SPADES" then Some(Spades)
    else None
  }

  /** The position of a suit in `Suit.values()`. */
  function SuitIndex(s: Suit): (i: nat)
    ensures i < |AllSuits| && AllSuits[i] == s
  {
    match s
    case Clubs => 0
    case Diamonds => 1
    case Hearts => 2
    case Spades => 3
  }

  /** The position of a rank in `Rank.values()`. */
  function RankIndex(r: Rank): (i: nat)
    ensures i < |AllRanks| && AllRanks[i] == r
  {
    match r
    case Two => 0
    case Three => 1
    case Four => 2
    case Five => 3
    case Six => 4
    case Seven => 5
    case Eight => 6
    case Nine => 7
    case Ten => 8
    case Jack => 9
    case Queen => 10
    case King => 11
    case Ace => 12
  }

  /** The enum lists hold each value once. */
  lemma EnumIndicesAreUnique()
    ensures forall i :: 0 <= i < |AllSuits| ==> SuitIndex(AllSuits[i]) == i
    ensures forall i :: 0 <= i < |AllRanks| ==> RankIndex(AllRanks[i]) == i
  {
  }
}
