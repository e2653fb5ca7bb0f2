/** Day 7: Camel Cards. A hand of five cards gets a type from its card
    counts; hands are ranked by type, then card by card, and each wins its
    bid times its rank. In part two jacks become jokers, the weakest card,
    which count towards the largest group. */
module Day7 {
  import opened Wrappers
  import opened Text
  import opened Sorting

  const HandSize: nat := 5

  datatype Card = Joker | Two | Three | Four | Five | Six | Seven | Eight | Nine | Ten | Jack | Queen | King | Ace

  /** The discriminant: the joker is 0, the others their face value, the
      ten 10, jack 11, queen 12, king 13, ace 14. Cards compare by it. */
  function Value(c: Card): nat {
    match c
    case Joker => 0
    case Two => 2
    case Three => 3
    case Four => 4
    case Five => 5
    case Six => 6
    case Seven => 7
    case Eight => 8
    case Nine => 9
    case Ten => 10
    case Jack => 11
    case Queen => 12
    case King => 13
    case Ace => 14
  }

  /** Different cards have different values, all below 15. */
  lemma ValueInjective(c: Card, d: Card)
    ensures Value(c) < 15
    ensures Value(c) == Value(d) ==> c == d
  {
  }

  /** `Card::try_from`: the character itself is the error. */
  function CardOf(ch: char): (r: Result<Card>)
    ensures r.Err? ==> r.error == Bad([ch])
  {
    match ch
    case '2' => Ok(Two)
    case '3' => Ok(Three)
    case '4' => Ok(Four)
    case '5' => Ok(Five)
    case '6' => Ok(Six)
    case '7' => Ok(Seven)
    case '8' => Ok(Eight)
    case '9' => Ok(Nine)
    case 'T' => Ok(Ten)
    case 'J' => Ok(Jack)
    case 'Q' => Ok(Queen)
    case 'K' => Ok(King)
    case 'A' => Ok(Ace)
    case _ => Err(Bad([ch]))
  }

  /** A parsed card is never a joker. */
  lemma NoJokerParsed(ch: char)
    ensures CardOf(ch) != Ok(Joker)
  {
  }

  datatype HandType = HighCard | OnePair | TwoPairs | ThreeOfAKind | FullHouse | FourOfAKind | FiveOfAKind

  /** The declaration order, which orders the types. */
  function Strength(t: HandType): nat {
    match t
    case HighCard => 0
    case OnePair => 1
    case TwoPairs => 2
    case ThreeOfAKind => 3
    case FullHouse => 4
    case FourOfAKind => 5
    case FiveOfAKind => 6
  }

  // ---------------------------------------------------------------------
  // Counting

  /** `counter`: how many of each non-joker card, indexed by value. */
  function CountsOf(cards: seq<Card>): (c: seq<nat>)
    ensures |c| == 15
  {
    if cards == [] then seq(15, _ => 0)
    else
      var c := CountsOf(cards[..|cards| - 1]);
      var last := cards[|cards| - 1];
      if last == Joker then c else c[Value(last) := c[Value(last)] + 1]
  }

  function Jokers(cards: seq<Card>): nat {
    if cards == [] then 0
    else Jokers(cards[..|cards| - 1]) + (if cards[|cards| - 1] == Joker then 1 else 0)
  }

  /** The counter holds the multiplicity of each card, the jokers aside. */
  lemma {:induction false} CountsOfMultiset(cards: seq<Card>)
    ensures Jokers(cards) == multiset(cards)[Joker]
    ensures forall c :: c != Joker ==> CountsOf(cards)[Value(c)] == multiset(cards)[c]
    ensures CountsOf(cards)[0] == 0 && CountsOf(cards)[1] == 0
  {
    if cards != [] {
      var front, last := cards[..|cards| - 1], cards[|cards| - 1];
      CountsOfMultiset(front);
      assert cards == front + [last];
      assert multiset(cards) == multiset(front) + multiset{last};
      forall c | c != Joker
        ensures CountsOf(cards)[Value(c)] == multiset(cards)[c]
      {
        ValueInjective(c, last);
      }
    }
  }

  function Sum(xs: seq<nat>): nat {
    if xs == [] then 0 else Sum(xs[..|xs| - 1]) + xs[|xs| - 1]
  }

  /** Every card is counted once: as a joker or in the counter. */
  lemma {:induction false} CountsTotal(cards: seq<Card>)
    ensures Sum(CountsOf(cards)) + Jokers(cards) == |cards|
  {
    if cards != [] {
      var front, last := cards[..|cards| - 1], cards[|cards| - 1];
      CountsTotal(front);
      var c := CountsOf(front);
      if last != Joker {
        ValueInjective(last, last);
        assert CountsOf(cards) == c[Value(last) := c[Value(last)] + 1];
        SumUpdate(c, Value(last), c[Value(last)] + 1);
      } else {
        assert CountsOf(cards) == c;
      }
      assert Jokers(cards) == Jokers(front) + (if last == Joker then 1 else 0);
    } else {
      SumZero(CountsOf(cards));
    }
  }

  lemma {:induction false} SumZero(xs: seq<nat>)
    requires forall i :: 0 <= i < |xs| ==> xs[i] == 0
    ensures Sum(xs) == 0
  {
    if xs != [] {
      SumZero(xs[..|xs| - 1]);
    }
  }

  lemma {:induction false} SumUpdate(xs: seq<nat>, i: nat, v: nat)
    requires i < |xs|
    ensures Sum(xs[i := v]) == Sum(xs) - xs[i] + v
  {
    var n := |xs|;
    assert xs[i := v][..n - 1] == if i < n - 1 then xs[..n - 1][i := v] else xs[..n - 1];
    if i < n - 1 {
      SumUpdate(xs[..n - 1], i, v);
    }
  }

  // ---------------------------------------------------------------------
  // The two largest counts

  /** The index of the first largest element. */
  function ArgMax(xs: seq<nat>): (m: nat)
    requires xs != []
    ensures m < |xs|
  {
    if |xs| == 1 then 0
    else
      var m := ArgMax(xs[..|xs| - 1]);
      if xs[|xs| - 1] > xs[m] then |xs| - 1 else m
  }

  /** No element is larger than the one `ArgMax` picks. */
  lemma {:induction false} ArgMaxIsMax(xs: seq<nat>)
    requires xs != []
    ensures forall i :: 0 <= i < |xs| ==> xs[i] <= xs[ArgMax(xs)]
  {
    if |xs| > 1 {
      var front := xs[..|xs| - 1];
      ArgMaxIsMax(front);
      assert forall i :: 0 <= i < |front| ==> front[i] == xs[i];
    }
  }

  /** The largest element (0 for none). */
  function Top(xs: seq<nat>): nat {
    if xs == [] then 0 else xs[ArgMax(xs)]
  }

  /** The largest element once one largest element is set aside. */
  function RunnerUp(xs: seq<nat>): nat {
    if xs == [] then 0
    else
      var m := ArgMax(xs);
      Top(xs[..m] + xs[m + 1..])
  }

  /** The largest element depends only on the multiset. */
  lemma TopOfMultiset(a: seq<nat>, b: seq<nat>)
    requires multiset(a) == multiset(b)
    ensures Top(a) == Top(b)
  {
    if a != [] {
      assert a[ArgMax(a)] in multiset(b);
      assert b != [];
      assert b[ArgMax(b)] in multiset(a);
      ArgMaxIsMax(a);
      ArgMaxIsMax(b);
    } else {
      assert |multiset(b)| == 0;
    }
  }

  /** In a sorted sequence the two last elements are the two largest. */
  lemma SortedTopTwo(sorted: seq<nat>, xs: seq<nat>)
    requires |xs| >= 2 && |sorted| == |xs| && multiset(sorted) == multiset(xs)
    requires Sorted(sorted, (x: nat, y: nat) => x <= y)
    ensures sorted[|sorted| - 1] == Top(xs)
    ensures sorted[|sorted| - 2] == RunnerUp(xs)
  {
    assert forall k, l :: 0 <= k < l < |sorted| ==> sorted[k] <= sorted[l];
    SortedLast(sorted, xs);
    RunnerUpLast(sorted, xs);
  }

  lemma RunnerUpLast(sorted: seq<nat>, xs: seq<nat>)
    requires |xs| >= 2 && |sorted| == |xs| && multiset(sorted) == multiset(xs)
    requires forall k, l :: 0 <= k < l < |sorted| ==> sorted[k] <= sorted[l]
    requires sorted[|sorted| - 1] == Top(xs)
    ensures sorted[|sorted| - 2] == RunnerUp(xs)
  {
    var n := |sorted|;
    var m := ArgMax(xs);
    var rest := xs[..m] + xs[m + 1..];
    var front := sorted[..n - 1];
    assert RunnerUp(xs) == Top(rest);
    RemoveBoth(sorted, xs, m);
    AscendingFront(sorted, front);
    SortedLast(front, rest);
  }

  /** Setting aside the same element from two arrangements of a multiset
      leaves two arrangements of one multiset. */
  lemma RemoveBoth(sorted: seq<nat>, xs: seq<nat>, m: nat)
    requires |sorted| >= 1 && m < |xs| && multiset(sorted) == multiset(xs)
    requires sorted[|sorted| - 1] == xs[m]
    ensures multiset(sorted[..|sorted| - 1]) == multiset(xs[..m] + xs[m + 1..])
  {
    var n := |sorted|;
    RemoveAtMultiset(xs, m);
    RemoveAtMultiset(sorted, n - 1);
    assert sorted[..n - 1] + sorted[n..] == sorted[..n - 1];
  }

  lemma AscendingFront(s: seq<nat>, front: seq<nat>)
    requires s != [] && front == s[..|s| - 1]
    requires forall k, l :: 0 <= k < l < |s| ==> s[k] <= s[l]
    ensures forall k, l :: 0 <= k < l < |front| ==> front[k] <= front[l]
  {
  }

  /** The last element of a sorted sequence is the largest. */
  lemma SortedLast(sorted: seq<nat>, xs: seq<nat>)
    requires |xs| >= 1 && |sorted| == |xs| && multiset(sorted) == multiset(xs)
    requires forall k, l :: 0 <= k < l < |sorted| ==> sorted[k] <= sorted[l]
    ensures sorted[|sorted| - 1] == Top(xs)
  {
    TopOfMultiset(sorted, xs);
    assert sorted[ArgMax(sorted)] <= sorted[|sorted| - 1];
  }

  /** Setting one element aside takes it out of the multiset. */
  lemma RemoveAtMultiset(xs: seq<nat>, m: nat)
    requires m < |xs|
    ensures multiset(xs[..m] + xs[m + 1..]) == multiset(xs) - multiset{xs[m]}
  {
    assert xs == xs[..m] + [xs[m]] + xs[m + 1..];
  }

  /** The two largest elements sum to at least any two elements at
      different places. */
  lemma TopTwoBound(xs: seq<nat>, i: nat, k: nat)
    requires i < |xs| && k < |xs| && i != k
    ensures xs[i] + xs[k] <= Top(xs) + RunnerUp(xs)
  {
    var m := ArgMax(xs);
    ArgMaxIsMax(xs);
    var rest := xs[..m] + xs[m + 1..];
    assert forall j :: 0 <= j < |xs| && j != m ==> xs[j] in rest by {
      forall j | 0 <= j < |xs| && j != m
        ensures xs[j] in rest
      {
        if j < m {
          assert rest[j] == xs[j];
        } else {
          assert rest[j - 1] == xs[j];
        }
      }
    }
    InTop(rest);
  }

  /** Every element is at most the largest. */
  lemma InTop(xs: seq<nat>)
    ensures forall x :: x in xs ==> x <= Top(xs)
  {
    if xs != [] {
      ArgMaxIsMax(xs);
    }
  }

  /** The two largest elements lie at two different places. */
  lemma TopTwoAt(xs: seq<nat>) returns (i: nat, k: nat)
    requires |xs| >= 2
    ensures i < |xs| && k < |xs| && i != k
    ensures xs[i] == Top(xs) && xs[k] == RunnerUp(xs)
    ensures RunnerUp(xs) <= Top(xs)
  {
    i := ArgMax(xs);
    ArgMaxIsMax(xs);
    var rest := xs[..i] + xs[i + 1..];
    var q := ArgMax(rest);
    k := if q < i then q else q + 1;
    assert rest[q] == xs[k];
  }

  /** The counter cells other than those of `a` and `b` hold at most the
      count of `b`. */
  lemma CountsDominated(cards: seq<Card>, a: Card, b: Card)
    requires a != Joker && b != Joker
    requires forall d :: d != Joker && d != a && d != b ==> multiset(cards)[d] <= multiset(cards)[b]
    ensures forall l :: 0 <= l < 15 && l != Value(a) && l != Value(b) ==> CountsOf(cards)[l] <= CountsOf(cards)[Value(b)]
  {
    CountsOfMultiset(cards);
    var c := CountsOf(cards);
    forall l | 0 <= l < 15 && l != Value(a) && l != Value(b)
      ensures c[l] <= c[Value(b)]
    {
      if l >= 2 {
        var d := CardWithValue(l);
        assert c[Value(d)] <= c[Value(b)];
      }
    }
  }

  /** Two places whose counts dominate every other place hold the largest
      and the runner-up count. */
  lemma TopTwoIs(c: seq<nat>, i: nat, k: nat)
    requires i < |c| && k < |c| && i != k && c[k] <= c[i]
    requires forall l :: 0 <= l < |c| && l != i && l != k ==> c[l] <= c[k]
    ensures Top(c) == c[i] && RunnerUp(c) == c[k]
  {
    var i', k' := TopTwoAt(c);
    InTop(c);
    assert c[i] in c;
    TopTwoBound(c, i, k);
  }

  /** Two elements at different places sum to at most the whole. */
  lemma {:induction false} PairBelowSum(xs: seq<nat>, i: nat, k: nat)
    requires i < |xs| && k < |xs| && i != k
    ensures xs[i] + xs[k] <= Sum(xs)
  {
    var n := |xs|;
    if i == n - 1 || k == n - 1 {
      var j := if i == n - 1 then k else i;
      ElementBelowSum(xs[..n - 1], j);
    } else {
      PairBelowSum(xs[..n - 1], i, k);
    }
  }

  lemma {:induction false} ElementBelowSum(xs: seq<nat>, i: nat)
    requires i < |xs|
    ensures xs[i] <= Sum(xs)
  {
    if i < |xs| - 1 {
      ElementBelowSum(xs[..|xs| - 1], i);
    }
  }

  // ---------------------------------------------------------------------
  // Classification

  /** The `match` on the last two sorted counts, `second` and `top`, the
      jokers already added to `top`. */
  function Class(second: nat, top: nat): HandType {
    if top == 5 then FiveOfAKind
    else if top == 4 then FourOfAKind
    else if second == 2 && top == 3 then FullHouse
    else if top == 3 then ThreeOfAKind
    else if second == 2 && top == 2 then TwoPairs
    else if top == 2 then OnePair
    else HighCard
  }

  /** `HandType::from`: the jokers join the largest count. */
  function TypeOf(cards: seq<Card>): HandType {
    TypeOfCounts(CountsOf(cards), Jokers(cards))
  }

  /** The type of a hand with these counts and this many jokers. */
  function TypeOfCounts(counts: seq<nat>, jokers: nat): HandType {
    Class(RunnerUp(counts), Top(counts) + jokers)
  }

  /** `HandType::from` as the source writes it: the cards are counted into a
      15-cell counter, the counter is sorted, the jokers are added to the
      last cell, and the last two cells decide. */
  method Classify(cards: seq<Card>) returns (t: HandType)
    ensures t == TypeOf(cards)
  {
    var counter := new nat[15](_ => 0);
    var jokers := 0;
    for i := 0 to |cards|
      invariant counter[..] == CountsOf(cards[..i])
      invariant jokers == Jokers(cards[..i])
    {
      assert cards[..i + 1][..i] == cards[..i];
      var card := cards[i];
      if card == Joker {
        jokers := jokers + 1;
      } else {
        ValueInjective(card, card);
        counter[Value(card)] := counter[Value(card)] + 1;
      }
    }
    assert cards[..|cards|] == cards;
    ghost var counts := counter[..];
    SortUnstable(counter, (x: nat, y: nat) => x <= y);
    SortedTopTwo(counter[..], counts);
    counter[14] := counter[14] + jokers;
    t := Class(counter[13], counter[14]);
  }

  /** The type depends only on which cards the hand holds, not on their
      order. */
  lemma TypeOfMultiset(a: seq<Card>, b: seq<Card>)
    requires multiset(a) == multiset(b)
    ensures TypeOf(a) == TypeOf(b)
  {
    CountsOfMultiset(a);
    CountsOfMultiset(b);
    var ca, cb := CountsOf(a), CountsOf(b);
    forall v | 0 <= v < 15
      ensures ca[v] == cb[v]
    {
      if v >= 2 {
        var c := CardWithValue(v);
        assert ca[Value(c)] == cb[Value(c)];
      }
    }
    assert ca == cb;
  }

  function CardWithValue(v: nat): (c: Card)
    requires 2 <= v < 15
    ensures Value(c) == v && c != Joker
  {
    [Two, Three, Four, Five, Six, Seven, Eight, Nine, Ten, Jack, Queen, King, Ace][v - 2]
  }

  /** Five jokers are five of a kind. */
  lemma FiveJokers()
    ensures TypeOf([Joker, Joker, Joker, Joker, Joker]) == FiveOfAKind
  {
    var cards := [Joker, Joker, Joker, Joker, Joker];
    CountsTotal(cards);
    CountsOfMultiset(cards);
    forall i | 0 <= i < 15
      ensures CountsOf(cards)[i] == 0
    {
      if i >= 2 {
        assert CountsOf(cards)[Value(CardWithValue(i))] == 0;
      }
    }
    assert Top(CountsOf(cards)) == 0;
  }

  // ---------------------------------------------------------------------
  // Jacks to jokers

  function JacksToJokers(cards: seq<Card>): (r: seq<Card>)
    ensures |r| == |cards|
    ensures forall i :: 0 <= i < |cards| ==> r[i] == if cards[i] == Jack then Joker else cards[i]
  {
    if cards == [] then []
    else JacksToJokers(cards[..|cards| - 1]) + [if cards[|cards| - 1] == Jack then Joker else cards[|cards| - 1]]
  }

  /** Turning the jacks into jokers moves the jack count to the jokers. */
  lemma {:induction false} JokerCounts(cards: seq<Card>)
    ensures CountsOf(JacksToJokers(cards)) == CountsOf(cards)[Value(Jack) := 0]
    ensures Jokers(JacksToJokers(cards)) == Jokers(cards) + CountsOf(cards)[Value(Jack)]
  {
    if cards != [] {
      var front := cards[..|cards| - 1];
      JokerCounts(front);
      var r := JacksToJokers(cards);
      assert r[..|r| - 1] == JacksToJokers(front);
    }
  }

  /** The class never drops when the largest count grows and the two
      largest counts together do not shrink. */
  lemma ClassMonotone(second: nat, top: nat, second': nat, top': nat)
    requires second <= top && second' <= top' && top' + second' <= 5
    requires top <= top' && top + second <= top' + second'
    ensures Strength(Class(second, top)) <= Strength(Class(second', top'))
  {
  }

  /** Jokers never make a hand weaker: the type after turning the jacks of
      five cards into jokers is at least the type before. */
  lemma JokersNeverLower(cards: seq<Card>)
    requires |cards| == HandSize
    ensures Strength(TypeOf(cards)) <= Strength(TypeOf(JacksToJokers(cards)))
  {
    var jokered := JacksToJokers(cards);
    var c, c' := CountsOf(cards), CountsOf(jokered);
    JokeredCounts(cards, jokered);
    CountsNeverLower(c, Jokers(cards), 11, c', Jokers(jokered), TypeOf(cards), TypeOf(jokered));
  }

  /** The counts after `jacks_to_jokers`: the jacks' cell is emptied into
      the jokers, and every card is still counted once. */
  lemma JokeredCounts(cards: seq<Card>, jokered: seq<Card>)
    requires jokered == JacksToJokers(cards)
    ensures |CountsOf(cards)| == 15
    ensures CountsOf(jokered) == CountsOf(cards)[11 := 0]
    ensures Jokers(jokered) == Jokers(cards) + CountsOf(cards)[11]
    ensures Sum(CountsOf(jokered)) + Jokers(jokered) == |cards|
  {
    JokerCounts(cards);
    CountsTotal(jokered);
  }

  /** Moving the count at `j` to the jokers never lowers the type of five
      cards. */
  lemma CountsNeverLower(c: seq<nat>, jokers: nat, j: nat, c': seq<nat>, jokers': nat, t: HandType, t': HandType)
    requires 2 <= |c| && j < |c|
    requires c' == c[j := 0] && jokers' == jokers + c[j]
    requires Sum(c') + jokers' == HandSize
    requires t == TypeOfCounts(c, jokers) && t' == TypeOfCounts(c', jokers')
    ensures Strength(t) <= Strength(t')
  {
    var i, k := TopTwoAt(c);
    var i', k' := TopTwoAt(c');
    PairBelowSum(c', i', k');
    TopTwoGrow(c, j);
    assert Top(c') + RunnerUp(c') <= Sum(c');
    ClassMonotone(RunnerUp(c), Top(c) + jokers, RunnerUp(c'), Top(c') + jokers + c[j]);
  }

  /** Emptying the cell at `j` and adding its count to the largest leaves
      the largest count no smaller, and the two largest together no smaller. */
  lemma TopTwoGrow(c: seq<nat>, j: nat)
    requires 2 <= |c| && j < |c|
    ensures Top(c) <= Top(c[j := 0]) + c[j]
    ensures Top(c) + RunnerUp(c) <= Top(c[j := 0]) + c[j] + RunnerUp(c[j := 0])
  {
    var c' := c[j := 0];
    var i, k := TopTwoAt(c);
    InTop(c');
    if i == j {
      assert c'[k] in c';
    } else if k == j {
      assert c'[i] in c';
    } else {
      TopTwoBound(c', i, k);
      assert c'[i] in c';
    }
  }

  // ---------------------------------------------------------------------
  // Hands

  datatype Hand = Hand(handType: HandType, cards: seq<Card>, bid: nat)

  /** Cards compare lexicographically by value. */
  function CompareCards(a: seq<Card>, b: seq<Card>): Ordering {
    if a == [] && b == [] then Equal
    else if a == [] then Less
    else if b == [] then Greater
    else if Value(a[0]) != Value(b[0]) then Cmp(Value(a[0]), Value(b[0]))
    else CompareCards(a[1..], b[1..])
  }

  /** `Hand::cmp`: the type first, then the cards; the bid plays no part. */
  function Compare(a: Hand, b: Hand): Ordering {
    if a.handType != b.handType then Cmp(Strength(a.handType), Strength(b.handType))
    else CompareCards(a.cards, b.cards)
  }

  function HandLe(a: Hand, b: Hand): bool {
    Compare(a, b) != Greater
  }

  lemma {:induction false} CompareCardsFlip(a: seq<Card>, b: seq<Card>)
    ensures CompareCards(a, b) == Greater <==> CompareCards(b, a) == Less
    ensures CompareCards(a, b) == Equal <==> a == b
  {
    if a != [] && b != [] {
      ValueInjective(a[0], b[0]);
      if Value(a[0]) == Value(b[0]) {
        CompareCardsFlip(a[1..], b[1..]);
        if a[1..] == b[1..] {
          assert a == [a[0]] + a[1..] && b == [b[0]] + b[1..];
        }
      }
    }
  }

  lemma {:induction false} CompareCardsTransitive(a: seq<Card>, b: seq<Card>, c: seq<Card>)
    requires CompareCards(a, b) != Greater && CompareCards(b, c) != Greater
    ensures CompareCards(a, c) != Greater
  {
    if a != [] && b != [] && c != [] && Value(a[0]) == Value(b[0]) == Value(c[0]) {
      CompareCardsTransitive(a[1..], b[1..], c[1..]);
    }
  }

  /** `Hand::cmp` is a total order up to ties, and a tie is two hands with
      the same type and cards. */
  lemma HandOrder()
    ensures TotalPreorder(HandLe)
    ensures forall a, b :: HandLe(a, b) && HandLe(b, a) ==> a.handType == b.handType && a.cards == b.cards
  {
    forall a, b
      ensures HandLe(a, b) || HandLe(b, a)
      ensures HandLe(a, b) && HandLe(b, a) ==> a.handType == b.handType && a.cards == b.cards
    {
      CompareCardsFlip(a.cards, b.cards);
      CompareCardsFlip(b.cards, a.cards);
      if a.handType != b.handType {
        assert Strength(a.handType) != Strength(b.handType);
      }
    }
    forall a, b, c | HandLe(a, b) && HandLe(b, c)
      ensures HandLe(a, c)
    {
      if a.handType == b.handType == c.handType {
        CompareCardsTransitive(a.cards, b.cards, c.cards);
      } else {
        assert Strength(a.handType) <= Strength(b.handType) <= Strength(c.handType);
      }
    }
  }

  /** Each hand wins its bid times its rank, the weakest ranked 1. */
  function Winnings(hands: seq<Hand>): nat {
    if hands == [] then 0
    else Winnings(hands[..|hands| - 1]) + |hands| * hands[|hands| - 1].bid
  }

  /** `part1`: the hands sorted, then each bid times its rank. */
  method Part1(hands: seq<Hand>) returns (total: nat)
    ensures exists sorted :: multiset(sorted) == multiset(hands) && Sorted(sorted, HandLe) && total == Winnings(sorted)
  {
    var a := new Hand[|hands|](i requires 0 <= i < |hands| => hands[i]);
    assert a[..] == hands;
    SortHands(a);
    total := 0;
    for i := 0 to a.Length
      invariant total == Winnings(a[..i])
    {
      assert a[..i + 1][..i] == a[..i];
      total := total + (i + 1) * a[i].bid;
    }
    assert a[..a.Length] == a[..];
  }

  /** `hands.sort_unstable()`, under `Hand::cmp`. */
  method SortHands(a: array<Hand>)
    modifies a
    ensures Sorted(a[..], HandLe)
    ensures multiset(a[..]) == multiset(old(a[..]))
  {
    HandOrder();
    SortUnstable(a, HandLe);
  }

  /** The winnings are fixed once no two different hands tie: every sorted
      arrangement then earns the same. */
  lemma WinningsDetermined(a: seq<Hand>, b: seq<Hand>)
    requires multiset(a) == multiset(b) && Sorted(a, HandLe) && Sorted(b, HandLe)
    requires forall x, y :: x in a && y in a && x.handType == y.handType && x.cards == y.cards ==> x == y
    ensures Winnings(a) == Winnings(b)
  {
    HandOrder();
    SortedUnique(a, b, HandLe);
  }

  /** `jacks_to_jokers`: every jack becomes a joker, the bid stays, and the
      type is recomputed. */
  function Jokered(h: Hand): Hand {
    var cards := JacksToJokers(h.cards);
    Hand(TypeOf(cards), cards, h.bid)
  }

  /** `jacks_to_jokers` as the source writes it, replacing the jacks in
      place and classifying again. */
  method ToJokers(h: Hand) returns (r: Hand)
    ensures r == Jokered(h)
  {
    var cards := new Card[|h.cards|](i requires 0 <= i < |h.cards| => h.cards[i]);
    for i := 0 to cards.Length
      invariant forall k :: 0 <= k < i ==> cards[k] == if h.cards[k] == Jack then Joker else h.cards[k]
      invariant forall k :: i <= k < cards.Length ==> cards[k] == h.cards[k]
    {
      if cards[i] == Jack {
        cards[i] := Joker;
      }
    }
    assert cards[..] == JacksToJokers(h.cards);
    var t := Classify(cards[..]);
    r := Hand(t, cards[..], h.bid);
  }

  /** `part2`: part one on the hands with their jacks turned into jokers. */
  method Part2(hands: seq<Hand>) returns (total: nat)
    ensures exists sorted ::
      && multiset(sorted) == multiset(seq(|hands|, i requires 0 <= i < |hands| => Jokered(hands[i])))
      && Sorted(sorted, HandLe)
      && total == Winnings(sorted)
  {
    var jokered: seq<Hand> := [];
    for i := 0 to |hands|
      invariant |jokered| == i
      invariant forall j :: 0 <= j < i ==> jokered[j] == Jokered(hands[j])
    {
      var h := ToJokers(hands[i]);
      jokered := jokered + [h];
    }
    assert jokered == seq(|hands|, i requires 0 <= i < |hands| => Jokered(hands[i]));
    total := Part1(jokered);
  }

  // ---------------------------------------------------------------------
  // Parsing

  /** The cards written in a hand: each character is read in turn, a
      refused character stops the reading, and a sixth card has no place in
      the five-card array. The cells not written keep the ace the array
      starts with. */
  function CardsOf(s: string): (r: Result<seq<Card>>)
    ensures r.Ok? ==> |r.value| == HandSize
  {
    if s == [] then Ok([Ace, Ace, Ace, Ace, Ace])
    else
      var n := |s| - 1;
      match CardsOf(s[..n])
      case Err(e) => Err(e)
      case Ok(cards) =>
        match CardOf(s[n])
        case Err(e) => Err(e)
        case Ok(card) => if n < HandSize then Ok(cards[n := card]) else Err(Panic)
  }

  /** Five card characters give those five cards; fewer leave aces. */
  lemma {:induction false} CardsOfLength(s: string)
    ensures CardsOf(s).Ok? ==> |CardsOf(s).value| == HandSize && |s| <= HandSize
    ensures CardsOf(s).Ok? ==> forall i :: 0 <= i < |s| ==> CardOf(s[i]) == Ok(CardsOf(s).value[i])
    ensures CardsOf(s).Ok? ==> forall i :: |s| <= i < HandSize ==> CardsOf(s).value[i] == Ace
  {
    if s != [] {
      var n := |s| - 1;
      CardsOfLength(s[..n]);
      if CardsOf(s).Ok? {
        assert forall i :: 0 <= i < n ==> s[..n][i] == s[i];
      }
    }
  }

  /** `Hand::from_str`: the cards and the bid are separated by a space; a
      missing space or a bid that is not a 32-bit unsigned number is a
      panic, a refused card character is the error. */
  function HandOf(s: string): Result<Hand> {
    match SplitOnce(Trim(s), ' ')
    case None => Err(Panic)
    case Some((cards, bid)) =>
      match CardsOf(cards)
      case Err(e) => Err(e)
      case Ok(hand) =>
        match ParseNat(bid)
        case None => Err(Panic)
        case Some(b) => if b < 0x1_0000_0000 then Ok(Hand(TypeOf(hand), hand, b)) else Err(Panic)
  }

  /** `Hand::from_str` as the source writes it: the cards are written one
      by one into a five-card array that starts as five aces. */
  method ParseHand(s: string) returns (r: Result<Hand>)
    ensures r == HandOf(s)
  {
    var split := SplitOnce(Trim(s), ' ');
    if split.None? {
      return Err(Panic);
    }
    var (text, bid) := split.value;
    var hand := new Card[HandSize](_ => Ace);
    assert hand[..] == [Ace, Ace, Ace, Ace, Ace];
    for i := 0 to |text|
      invariant CardsOf(text[..i]) == Ok(hand[..])
    {
      assert text[..i + 1][..i] == text[..i];
      var card := CardOf(text[i]);
      if card.Err? {
        CardsOfErr(text, i + 1);
        return Err(card.error);
      }
      if i >= HandSize {
        CardsOfErr(text, i + 1);
        return Err(Panic);
      }
      hand[i] := card.value;
    }
    assert text[..|text|] == text;
    var cards := hand[..];
    var handType := Classify(cards);
    var number := ParseNat(bid);
    if number.None? || number.value >= 0x1_0000_0000 {
      return Err(Panic);
    }
    return Ok(Hand(handType, cards, number.value));
  }

  /** A failure while reading the first cards is the failure of the whole. */
  lemma {:induction false} CardsOfErr(s: string, i: nat)
    requires i <= |s| && CardsOf(s[..i]).Err?
    ensures CardsOf(s) == CardsOf(s[..i])
    decreases |s| - i
  {
    if i < |s| {
      assert s[..i + 1][..i] == s[..i];
      CardsOfErr(s, i + 1);
    } else {
      assert s[..i] == s;
    }
  }

  /** The type of a hand whose two most frequent cards (jokers aside) are
      `a` and `b`. */
  lemma TypeByCounts(cards: seq<Card>, a: Card, b: Card)
    requires a != b && a != Joker && b != Joker
    requires multiset(cards)[b] <= multiset(cards)[a]
    requires forall d :: d != Joker && d != a && d != b ==> multiset(cards)[d] <= multiset(cards)[b]
    ensures TypeOf(cards) == Class(multiset(cards)[b], multiset(cards)[a] + multiset(cards)[Joker])
  {
    CountsOfMultiset(cards);
    var c := CountsOf(cards);
    ValueInjective(a, b);
    CountsDominated(cards, a, b);
    TopTwoIs(c, Value(a), Value(b));
  }

  // ---------------------------------------------------------------------
  // The worked example

  /** The cards and bids of the example of the puzzle: `32T3K 765`,
      `T55J5 684`, `KK677 28`, `KTJJT 220` and `QQQJA 483`. */
  predicate ExampleCards(h: seq<Hand>) {
    && |h| == 5
    && IsHand(h[0].cards, Three, Two, Ten, Three, King) && h[0].bid == 765
    && IsHand(h[1].cards, Ten, Five, Five, Jack, Five) && h[1].bid == 684
    && IsHand(h[2].cards, King, King, Six, Seven, Seven) && h[2].bid == 28
    && IsHand(h[3].cards, King, Ten, Jack, Jack, Ten) && h[3].bid == 220
    && IsHand(h[4].cards, Queen, Queen, Queen, Jack, Ace) && h[4].bid == 483
  }

  /** The example hands as `Hand::from_str` reads them: with the types
      `ExampleTypes` shows `Hand::from` gives them. */
  predicate IsExample(h: seq<Hand>) {
    && ExampleCards(h)
    && h[0].handType == OnePair && h[1].handType == ThreeOfAKind
    && h[2].handType == TwoPairs && h[3].handType == TwoPairs
    && h[4].handType == ThreeOfAKind
  }

  /** The example hands once `Hand::jacks_to_jokers` has turned them. */
  predicate IsJokeredExample(j: seq<Hand>) {
    && |j| == 5
    && IsHand(j[0].cards, Three, Two, Ten, Three, King) && j[0].handType == OnePair && j[0].bid == 765
    && IsHand(j[1].cards, Ten, Five, Five, Joker, Five) && j[1].handType == FourOfAKind && j[1].bid == 684
    && IsHand(j[2].cards, King, King, Six, Seven, Seven) && j[2].handType == TwoPairs && j[2].bid == 28
    && IsHand(j[3].cards, King, Ten, Joker, Joker, Ten) && j[3].handType == FourOfAKind && j[3].bid == 220
    && IsHand(j[4].cards, Queen, Queen, Queen, Joker, Ace) && j[4].handType == FourOfAKind && j[4].bid == 483
  }

  /** The five cards `a b c d e`, in this order. */
  predicate IsHand(h: seq<Card>, a: Card, b: Card, c: Card, d: Card, e: Card) {
    |h| == 5 && h[0] == a && h[1] == b && h[2] == c && h[3] == d && h[4] == e
  }

  lemma TypeOf32T3K(h: seq<Card>)
    requires IsHand(h, Three, Two, Ten, Three, King)
    ensures TypeOf(h) == OnePair
  {
    assert h == [h[0], h[1], h[2], h[3], h[4]];
    TypeByCounts(h, Three, Two);
  }

  lemma TypeOfT55J5(h: seq<Card>)
    requires IsHand(h, Ten, Five, Five, Jack, Five)
    ensures TypeOf(h) == ThreeOfAKind
  {
    assert h == [h[0], h[1], h[2], h[3], h[4]];
    TypeByCounts(h, Five, Ten);
  }

  lemma TypeOfKK677(h: seq<Card>)
    requires IsHand(h, King, King, Six, Seven, Seven)
    ensures TypeOf(h) == TwoPairs
  {
    assert h == [h[0], h[1], h[2], h[3], h[4]];
    TypeByCounts(h, King, Seven);
  }

  lemma TypeOfKTJJT(h: seq<Card>)
    requires IsHand(h, King, Ten, Jack, Jack, Ten)
    ensures TypeOf(h) == TwoPairs
  {
    assert h == [h[0], h[1], h[2], h[3], h[4]];
    TypeByCounts(h, Jack, Ten);
  }

  lemma TypeOfQQQJA(h: seq<Card>)
    requires IsHand(h, Queen, Queen, Queen, Jack, Ace)
    ensures TypeOf(h) == ThreeOfAKind
  {
    assert h == [h[0], h[1], h[2], h[3], h[4]];
    TypeByCounts(h, Queen, Jack);
  }

  /** With a joker among them, three fives and a ten are four of a kind. */
  lemma TypeOfT55Joker5(h: seq<Card>)
    requires IsHand(h, Ten, Five, Five, Joker, Five)
    ensures TypeOf(h) == FourOfAKind
  {
    assert h == [h[0], h[1], h[2], h[3], h[4]];
    TypeByCounts(h, Five, Ten);
  }

  /** Two jokers join the two tens: four of a kind, not a full house. */
  lemma TypeOfKTJokersT(h: seq<Card>)
    requires IsHand(h, King, Ten, Joker, Joker, Ten)
    ensures TypeOf(h) == FourOfAKind
  {
    assert h == [h[0], h[1], h[2], h[3], h[4]];
    TypeByCounts(h, Ten, King);
  }

  lemma TypeOfQQQJokerA(h: seq<Card>)
    requires IsHand(h, Queen, Queen, Queen, Joker, Ace)
    ensures TypeOf(h) == FourOfAKind
  {
    assert h == [h[0], h[1], h[2], h[3], h[4]];
    TypeByCounts(h, Queen, Ace);
  }

  /** Classified by `Hand::from`, the example hands are one pair, three of
      a kind, two pairs, two pairs and three of a kind. */
  lemma ExampleTypes(h: seq<Hand>)
    requires ExampleCards(h)
    ensures TypeOf(h[0].cards) == OnePair && TypeOf(h[1].cards) == ThreeOfAKind
    ensures TypeOf(h[2].cards) == TwoPairs && TypeOf(h[3].cards) == TwoPairs
    ensures TypeOf(h[4].cards) == ThreeOfAKind
  {
    TypeOf32T3K(h[0].cards);
    TypeOfT55J5(h[1].cards);
    TypeOfKK677(h[2].cards);
    TypeOfKTJJT(h[3].cards);
    TypeOfQQQJA(h[4].cards);
  }

  /** Ranked by strength, the example hands win 6440 in total. */
  lemma ExamplePart1(h: seq<Hand>, sorted: seq<Hand>)
    requires IsExample(h)
    requires multiset(sorted) == multiset(h) && Sorted(sorted, HandLe)
    ensures Winnings(sorted) == 6440
  {
    var ranked := h[1 := h[3]][3 := h[1]];
    SwapMultiset(h, 1, 3);
    ExampleRanked(h);
    RankedWinnings(ranked, sorted);
  }

  /** With jacks as jokers the three strongest example hands are four of a
      kind, and ranked they win 5905. */
  lemma ExamplePart2(h: seq<Hand>, sorted: seq<Hand>)
    requires IsExample(h)
    requires multiset(sorted) == multiset(seq(5, i requires 0 <= i < 5 => Jokered(h[i])))
    requires Sorted(sorted, HandLe)
    ensures Winnings(sorted) == 5905
  {
    var j := seq(5, i requires 0 <= i < 5 => Jokered(h[i]));
    ExampleJokered(h, j);
    JokeredWinnings(j, sorted);
  }

  lemma JokeredWinnings(j: seq<Hand>, sorted: seq<Hand>)
    requires IsJokeredExample(j)
    requires multiset(sorted) == multiset(j) && Sorted(sorted, HandLe)
    ensures Winnings(sorted) == 5905
  {
    var swapped := j[1 := j[2]][2 := j[1]];
    var ranked := swapped[3 := j[4]][4 := j[3]];
    SwapMultiset(j, 1, 2);
    SwapMultiset(swapped, 3, 4);
    JokeredRanked(j);
    RankedWinnings(ranked, sorted);
  }

  /** `32T3K` < `KTJJT` < `KK677` < `T55J5` < `QQQJA`. */
  lemma ExampleRanked(h: seq<Hand>)
    requires IsExample(h)
    ensures Compare(h[0], h[3]) == Less && Compare(h[3], h[2]) == Less
    ensures Compare(h[2], h[1]) == Less && Compare(h[1], h[4]) == Less
  {
    assert h[3].cards[1..][0] == Ten && h[2].cards[1..][0] == King;
    assert CompareCards(h[3].cards[1..], h[2].cards[1..]) == Less;
  }

  /** With jokers, `32T3K` < `KK677` < `T55J5` < `QQQJA` < `KTJJT`. */
  lemma JokeredRanked(j: seq<Hand>)
    requires IsJokeredExample(j)
    ensures Compare(j[0], j[2]) == Less && Compare(j[2], j[1]) == Less
    ensures Compare(j[1], j[4]) == Less && Compare(j[4], j[3]) == Less
  {
    assert j[4].cards[1..][0] == Queen && j[3].cards[1..][0] == Ten;
    assert CompareCards(j[4].cards[1..], j[3].cards[1..]) == Greater;
  }

  /** Five hands, each strictly stronger than the one before, win as
      ranked whichever way the sort arranges them. */
  lemma RankedWinnings(ranked: seq<Hand>, sorted: seq<Hand>)
    requires |ranked| == 5
    requires Compare(ranked[0], ranked[1]) == Less && Compare(ranked[1], ranked[2]) == Less
    requires Compare(ranked[2], ranked[3]) == Less && Compare(ranked[3], ranked[4]) == Less
    requires multiset(sorted) == multiset(ranked) && Sorted(sorted, HandLe)
    ensures Winnings(sorted) == ranked[0].bid + 2 * ranked[1].bid + 3 * ranked[2].bid + 4 * ranked[3].bid + 5 * ranked[4].bid
  {
    StrictChain(ranked);
    WinningsDetermined(ranked, sorted);
    WinningsOfFive(ranked);
  }

  lemma WinningsOfFive(s: seq<Hand>)
    requires |s| == 5
    ensures Winnings(s) == s[0].bid + 2 * s[1].bid + 3 * s[2].bid + 4 * s[3].bid + 5 * s[4].bid
  {
    assert s[..1][..0] == [];
    assert Winnings(s[..1]) == s[0].bid;
    assert s[..2][..1] == s[..1];
    assert Winnings(s[..2]) == Winnings(s[..1]) + 2 * s[1].bid;
    assert s[..3][..2] == s[..2];
    assert Winnings(s[..3]) == Winnings(s[..2]) + 3 * s[2].bid;
    assert s[..4][..3] == s[..3];
    assert Winnings(s[..4]) == Winnings(s[..3]) + 4 * s[3].bid;
    assert s[..5] == s && s[..4] == s[..|s| - 1];
  }

  /** Hands each strictly stronger than the one before are sorted, and no
      two of them tie. */
  lemma StrictChain(s: seq<Hand>)
    requires forall k :: 0 <= k < |s| - 1 ==> Compare(s[k], s[k + 1]) == Less
    ensures Sorted(s, HandLe)
    ensures forall x, y :: x in s && y in s && x.handType == y.handType && x.cards == y.cards ==> x == y
  {
    HandOrder();
    forall k | 0 <= k < |s| - 1
      ensures HandLe(s[k], s[k + 1]) && !HandLe(s[k + 1], s[k])
    {
      CompareCardsFlip(s[k].cards, s[k + 1].cards);
    }
    StrictlyIncreasing(s);
    SortedChain(s, HandLe);
    forall x, y | x in s && y in s && x.handType == y.handType && x.cards == y.cards
      ensures x == y
    {
      var i :| 0 <= i < |s| && s[i] == x;
      var j :| 0 <= j < |s| && s[j] == y;
      CompareCardsFlip(x.cards, y.cards);
      assert HandLe(x, y) && HandLe(y, x);
      assert i == j;
    }
  }

  lemma {:induction false} StrictlyIncreasing(s: seq<Hand>)
    requires TotalPreorder(HandLe)
    requires forall k :: 0 <= k < |s| - 1 ==> HandLe(s[k], s[k + 1]) && !HandLe(s[k + 1], s[k])
    ensures forall i, j :: 0 <= i < j < |s| ==> !HandLe(s[j], s[i])
    decreases |s|
  {
    if |s| > 1 {
      var p := s[..|s| - 1];
      assert forall k :: 0 <= k < |p| ==> p[k] == s[k];
      StrictlyIncreasing(p);
      var n := |s| - 1;
      forall i | 0 <= i < n
        ensures !HandLe(s[n], s[i])
      {
        if i < n - 1 {
          assert !HandLe(p[n - 1], p[i]) && HandLe(s[n - 1], s[n]);
        }
      }
    }
  }

  /** The example hands with their jacks turned into jokers. */
  lemma ExampleJokered(h: seq<Hand>, j: seq<Hand>)
    requires ExampleCards(h) && j == seq(5, i requires 0 <= i < 5 => Jokered(h[i]))
    ensures IsJokeredExample(j)
  {
    TypeOf32T3K(j[0].cards);
    TypeOfT55Joker5(j[1].cards);
    TypeOfKK677(j[2].cards);
    TypeOfKTJokersT(j[3].cards);
    TypeOfQQQJokerA(j[4].cards);
  }
}
