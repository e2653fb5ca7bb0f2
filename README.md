# Advent of Code 2023 solvers, modelled in Dafny

This project models the Rust solvers of the Advent of Code 2023 puzzles and
proves properties of them. The solvers are independent binaries, one per day,
plus a helper trait on half-open ranges (`range_extension`). Each day's module
parses its puzzle input, then computes the two answers. Modelled days:

- 1: calibration digits.
- 2: cube sets.
- 3: the engine schematic.
- 4: scratch cards.
- 5: seed maps.
- 7: camel cards.
- 8: the desert network.
- 9: the oasis sequences.
- 10: the pipe maze.
- 11: cosmic expansion.
- 12: spring arrangements.
- 13: mirrors.
- 14: the tilting platform.
- 15: the HASH algorithm and the lens library.
- 16: the beam contraption.
- 17: the crucible search.
- 18: the dig plan.
- 19: the part workflows.
- 20: pulse propagation.
- 21: the garden steps.
- 22: falling bricks.
- 23: the long hike.

There is one Dafny module per source file: `RangeExtension` and `Day1` to
`Day23`, with day 14's in-place platform in `Day14Platform`. Shared modules
support them:

- `Wrappers`: the `Option` and `Result` types.
- `Text`: the string operations the solvers call, such as `lines`, `split`,
  `split_once`, `trim` and integer parsing.
- `Grid`: the interface of the repository's grid and position types that the
  solvers use.
- `Sequences`, `Sorting` and `Arith`: small lemma libraries.

Pure code is modelled as functions over datatypes. Code that mutates is
modelled as methods with loop invariants, proved against those functions:

- the copy counter of day 4;
- the tilts and the spin cycle of day 14;
- the box table of day 15;
- the beam queue of day 16;
- the Dijkstra loop of day 17;
- the range splitting of day 19;
- the pulse queue of day 20;
- the settling of day 22;
- the explicit stack of day 23.

Panics in parsers become an error value of `Result`. Panics that the source
rules out by the shape of the puzzle input become `requires` clauses, listed
below.

## Model

| member | source | states |
|---|---|---|
| RangeExtension.Covers | src/range_extension.rs:11-13 | the containment `contains_range` is meant to decide: every value of the other range is a value of this one |
| RangeExtension.Overlaps | src/range_extension.rs:15-17 | for non-empty ranges, overlapping holds exactly when some value lies in both |
| RangeExtension.Intersection | src/range_extension.rs:19-24 | a value is in the intersection iff it is in both ranges; the intersection is empty iff no value is shared |
| RangeExtension.ContainsRangeMissesSharedEnd | src/range_extension.rs:11-13 | `contains_range` rejects any non-empty range ending where this one ends, though every value of it is covered |
| RangeExtension.ContainsRangeMissesItself | src/range_extension.rs:11-13 | a range does not `contains_range` itself (0..1 against 0..1), although it covers itself |
| RangeExtension.ContainsRangeBounds | src/range_extension.rs:11-13 | `contains_range` holds iff both the other's start and its exclusive end lie inside this range |
| RangeExtension.IntersectionCommutes | src/range_extension.rs:19-24 | intersection is commutative and idempotent |
| RangeExtension.ContainsRangeImpliesCovers | src/range_extension.rs:11-13 | whenever `contains_range` answers yes the other range is covered: it is stricter than containment |
| RangeExtension.OverlapsIsSymmetric | src/range_extension.rs:15-17 | `overlaps` does not depend on the order of the two ranges |
| RangeExtension.OverlapsIffIntersection | src/range_extension.rs:15-24 | for non-empty ranges, overlapping is equivalent to a non-empty intersection |
| Day1.FirstDigit | src/bin/day1.rs:7-11 | none iff the line has no digit; otherwise the value of a digit that occurs in the line |
| Day1.LastDigit | src/bin/day1.rs:12-16 | none iff the line has no digit; otherwise the value of a digit that occurs in the line |
| Day1.LineValue | src/bin/day1.rs:6-18 | a value exactly when the line has a digit (the `expect` fails otherwise), and it is at most 99 |
| Day1.SingleDigitLine | src/bin/day1.rs:6-18 | a line whose only digit is d is worth 11·d (first and last digit coincide) |
| Day1.Part1 | src/bin/day1.rs:3-20 | the sum is at most 99 per line |
| Day1.SumLines | src/bin/day1.rs:4-19 | the sum exists iff every line has a value, and is at most 99 per line |
| Day1.MatchConvert | src/bin/day1.rs:23-47 | the closure returns a digit below 10 |
| Day1.MatchConvertSpells | src/bin/day1.rs:23-47 | the closure returns d exactly when the string begins with the digit d or its English word |
| Day1.MatchConvertSound | src/bin/day1.rs:23-47 | what the closure returns is spelled at the start of the string |
| Day1.MatchConvertComplete | src/bin/day1.rs:23-47 | a spelled digit is always found |
| Day1.MatchConvertNone | src/bin/day1.rs:23-47 | nothing is found iff no digit is spelled |
| Day1.SpellsUnique | src/bin/day1.rs:23-47 | no string begins with two different digits, so the order of the tests is irrelevant |
| Day1.SpellsHead | src/bin/day1.rs:23-47 | a spelled digit fixes the first character (and the second for a word) |
| Day1.SpellsNothing | src/bin/day1.rs:23-47 | a string not starting with a digit or the first letter of a word spells nothing |
| Day1.FirstMatchFrom | src/bin/day1.rs:52-54 | the forward `find_map` returns a digit below 10 |
| Day1.FirstMatchFromSpec | src/bin/day1.rs:52-54 | nothing found iff no index from i on spells a digit; otherwise the digit spelled at some index from i on |
| Day1.LastMatchBelow | src/bin/day1.rs:55-58 | the reverse `find_map` returns a digit below 10 |
| Day1.LastMatchBelowSpec | src/bin/day1.rs:55-58 | nothing found iff no index below i spells a digit; otherwise the digit spelled at some index below i |
| Day1.LineValue2 | src/bin/day1.rs:51-60 | the part-two value of a line is at most 99 |
| Day1.LineValue2Some | src/bin/day1.rs:51-60 | a line has a part-two value exactly when some index spells a digit |
| Day1.Part2 | src/bin/day1.rs:22-62 | the sum is at most 99 per line |
| Day1.EightWoThree | src/bin/day1.rs:91 | "eightwothree" is worth 83: overlapping words both count |
| Day1.EightFirst | src/bin/day1.rs:91 | the first digit of "eightwothree" is 8 |
| Day1.ThreeLast | src/bin/day1.rs:91 | the last digit of "eightwothree" is 3 |
| Day1.DigitsAt | src/bin/day1.rs:6-18 | a line whose leftmost digit is at i and rightmost at k is worth ten times the one plus the other |
| Day1.PaddedDigits | src/bin/day1.rs:6-18 | leading spaces, which `lines` keeps, do not change a line's value |
| Day1.Value12 | src/bin/day1.rs:79 | "1abc2" is worth 12 |
| Day1.Value38 | src/bin/day1.rs:80 | the indented "pqr3stu8vwx" is worth 38 |
| Day1.Value15 | src/bin/day1.rs:81 | the indented "a1b2c3d4e5f" is worth 15 |
| Day1.Value77 | src/bin/day1.rs:82 | the indented "treb7uchet" is worth 77: one digit is both first and last |
| Day1.ExampleLines1 | src/bin/day1.rs:79-82 | splitting the example text into lines gives back its four lines, indentation included |
| Day1.ExampleValues1 | src/bin/day1.rs:79-82 | the example's line values are 12, 38, 15 and 77 |
| Day1.ExamplePart1 | src/bin/day1.rs:78-86 | part one of the example text is 142 |
| Day2.PartialCmpIsDominance | src/bin/day2.rs:20-56 | the 27-entry table is exactly componentwise dominance: Equal iff equal, Less/Greater iff strictly dominated, None iff incomparable |
| Day2.PartialCmpReverses | src/bin/day2.rs:20-56 | swapping the operands reverses the answer |
| Day2.LeIsDominated | src/bin/day2.rs:20-56 | `<=` derived from `partial_cmp` holds iff every colour count is at most the other's |
| Day2.BitOr | src/bin/day2.rs:58-68 | `a \| b` is the least cube set dominating both operands |
| Day2.BitOrLaws | src/bin/day2.rs:58-68 | `\|` is commutative, associative, idempotent, with the empty set as unit |
| Day2.PowerMonotone | src/bin/day2.rs:14-18 | more cubes of every colour never lower the power |
| Day2.SetCount | src/bin/day2.rs:91-96 | assigning a colour's count changes that colour only |
| Day2.ApplyItemsOk | src/bin/day2.rs:88-97 | parsing a set fails exactly when one of its items is malformed |
| Day2.ApplyItemsLastWins | src/bin/day2.rs:88-97 | each colour keeps the count of its last mention, 0 when not mentioned |
| Day2.LastWinsStep | src/bin/day2.rs:88-97 | one more item preserves the last-mention property |
| Day2.ParseSet | src/bin/day2.rs:86-100 | the loop over the items of a set computes the set's specification `SetOf` |
| Day2.ParseDraws | src/bin/day2.rs:84-101 | the draws are parsed in order, failing on the first bad one |
| Day2.ParseGame | src/bin/day2.rs:79-104 | the imperative parser computes the game's specification `GameOf` |
| Day2.PossibleIffWithinBag | src/bin/day2.rs:107-124 | a game passes the filter iff no draw shows more than 12 red, 13 green or 14 blue cubes |
| Day2.Part1Bounds | src/bin/day2.rs:107-124 | part one is at most the sum of all ids and equals it when every game is possible |
| Day2.FewestIsLeastBound | src/bin/day2.rs:126-136 | the fold dominates each draw, and every set dominating each draw dominates the fold |
| Day2.FewestPowerAtLeastDraw | src/bin/day2.rs:126-136 | the fewest cubes never have a smaller power than any one draw |
| Day2.FewestOfThree | src/bin/day2.rs:130-132 | for three draws the fold is `((default \| s0) \| s1) \| s2` |
| Day2.ExamplePart1 | src/bin/day2.rs:156-170 | the example games give 8 |
| Day2.ExampleFewest | src/bin/day2.rs:173-187 | the fewest cubes of the first four example games |
| Day2.ExamplePart2 | src/bin/day2.rs:173-187 | the example games give 2286 |
| Day3.RunStartSpec | src/bin/day3.rs:17-38 | the number being accumulated before column x is a run of digits that cannot be extended to the left |
| Day3.RunsAreMaximal | src/bin/day3.rs:17-44 | every number the row scan closes is a maximal run of digits |
| Day3.RunsCoverDigits | src/bin/day3.rs:17-44 | every digit of a row lies in one of the numbers the scan closes |
| Day3.ClosedRunsMaximal | src/bin/day3.rs:17-38 | the numbers closed before column x are maximal runs |
| Day3.RunEnd | src/bin/day3.rs:17-38 | the first non-digit at or after k: everything between is a digit |
| Day3.StepDigit | src/bin/day3.rs:20-21 | reading a digit extends the open number: `accumulator * 10 + digit` |
| Day3.StepOther | src/bin/day3.rs:32-38 | reading a non-digit closes the open number, if any |
| Day3.RunValueIsDigitsValue | src/bin/day3.rs:20-21 | the accumulator of a run is the decimal value of its digits |
| Day3.AnySymbolMeans | src/bin/day3.rs:25-30 | `any` over the neighbours holds iff one of them is on the grid and a symbol (neither digit nor `.`) |
| Day3.NearSymbolMeans | src/bin/day3.rs:25-30 | a cell is near a symbol iff one of its eight neighbours is a symbol |
| Day3.PartNumberMeans | src/bin/day3.rs:24-31 | `to_add` is set for a number iff one of its digits is next to a symbol |
| Day3.ClosedSumIsPartSum | src/bin/day3.rs:17-38 | the running result is the sum of the part numbers closed so far |
| Day3.RowSumIsPartSum | src/bin/day3.rs:13-45 | a row adds exactly the part numbers among its maximal runs of digits, the one at the row's end included |
| Day3.SumDigit | src/bin/day3.rs:20-31 | a digit extends the number and ors in its own nearness to a symbol |
| Day3.SumOther | src/bin/day3.rs:32-38 | a non-digit adds the open number when it is a part number and resets |
| Day3.Part1 | src/bin/day3.rs:10-48 | the nested loops compute the sum over all rows of the part numbers |
| Day3.RowPartSum | src/bin/day3.rs:13-45 | the inner loop over a row computes that row's part-number sum |
| Day3.GearsInMeans | src/bin/day3.rs:62-66 | the filter keeps exactly the given positions that hold a gear |
| Day3.GearsAroundMeans | src/bin/day3.rs:62-66 | the gears around a cell are exactly the adjacent gear cells |
| Day3.GearsNearMeans | src/bin/day3.rs:60-66 | the gears collected for a number are those around any of its digits |
| Day3.GearsNearOnGrid | src/bin/day3.rs:60-66 | on the grid: a gear adjacent to one of the number's cells |
| Day3.ReadingsOne | src/bin/day3.rs:67-72 | closing one more number appends its gears and value to the readings |
| Day3.ClosedNearIsReadings | src/bin/day3.rs:57-73 | column by column, a gear's list gains the values of the adjacent closed numbers in order |
| Day3.ClosedGearsMeans | src/bin/day3.rs:67-72 | a gear becomes a key of the map once a number has been pushed for it |
| Day3.RowNearIsReadings | src/bin/day3.rs:53-79 | after a row (including the drain at its end) each gear's list gained that row's adjacent numbers |
| Day3.RowGearSetMeans | src/bin/day3.rs:53-79 | after a row the keys are the old keys plus the gears next to a number of the row |
| Day3.AllNearIsReadings | src/bin/day3.rs:53-79 | after y rows a gear's list holds the numbers next to it in reading order |
| Day3.AllGearsMeans | src/bin/day3.rs:53-79 | a position is a key exactly when some number is next to it |
| Day3.GearMapSpec | src/bin/day3.rs:51-79 | the map part two builds: keys and lists as the readings describe them |
| Day3.RatioSumRemove | src/bin/day3.rs:82-91 | the sum of ratios does not depend on the order the map is iterated in |
| Day3.Drain | src/bin/day3.rs:68-70 | `drain().for_each`: the value is pushed onto each gear's list, a missing list created first; other lists unchanged |
| Day3.RowGears | src/bin/day3.rs:53-79 | the body for one row builds exactly the row's keys and lists |
| Day3.CollectGears | src/bin/day3.rs:51-79 | the first loop builds exactly the specified gear map |
| Day3.CollectDone | src/bin/day3.rs:51-79 | a map with the keys and lists of every row is that gear map |
| Day3.SumRatios | src/bin/day3.rs:82-91 | the products of the two-number lists are added |
| Day3.Part2 | src/bin/day3.rs:50-92 | the result is the sum, over the gear map, of the products of lists of exactly two numbers |
| Day4.CountMatching | src/bin/day4.rs:15-21 | the number of matches is at most the size of either set |
| Day4.NoMatch | src/bin/day4.rs:15-21 | a card has no match exactly when no winning number is among its numbers |
| Day4.NumberSet | src/bin/day4.rs:36-43 | a list parses iff every word is a number, and the set holds exactly the parsed numbers |
| Day4.NoBarNoNumbers | src/bin/day4.rs:28-35 | a line without a `|` falls back to two empty strings and gives a card with no numbers |
| Day4.TrimSubsequence | src/bin/day4.rs:29-33 | trimming keeps only characters of the original line |
| Day4.ScoreClosedForm | src/bin/day4.rs:55 | `(1 << m) >> 1` is 0 for no match and `2^(m-1)` for m matches |
| Day4.Matches | src/bin/day4.rs:62-65 | the i-th entry is the number of matches of card i |
| Day4.CountsStep | src/bin/day4.rs:66-70 | one outer iteration raises the next `m` counts by the current count, within the vector's bounds |
| Day4.CountsAfterSpec | src/bin/day4.rs:60-71 | after k cards the first k counts are final and each later count is 1 plus the copies won from cards before k |
| Day4.CountsAtLeastOne | src/bin/day4.rs:60-71 | no count drops below the original single copy |
| Day4.TotalAtLeastCards | src/bin/day4.rs:73 | the total number of cards is at least the number of original cards |
| Day4.Part2 | src/bin/day4.rs:59-74 | the loop computes the sum of the counts after all cards have handed out their copies |
| Day4.AddToEach | src/bin/day4.rs:68-70 | exactly `counter[lo..hi]` is raised by the value, the rest unchanged |
| Day4.SumArray | src/bin/day4.rs:73 | the sum of the counter |
| Day4.Example | src/bin/day4.rs:93-126 | the example's match counts score 13 and give 30 cards |
| Day5.ConversionOfLine | src/bin/day5.rs:24-36 | "dest src len" becomes the range src..src+len with offset dest - src |
| Day5.ConversionOfErrors | src/bin/day5.rs:24-27 | a line with fewer than three words fails (the empty default does not parse), and every failure is a bad number |
| Day5.MapOfSpec | src/bin/day5.rs:20-40 | the header is skipped; each conversion is the reading of the line at the same place, and a failure comes from some line |
| Day5.FirstError | src/bin/day5.rs:23-27 | the `?` stops at a line whose number does not parse |
| Day5.ParseMap | src/bin/day5.rs:20-40 | the loop pushing one conversion per line builds exactly the specified map or error |
| Day5.Seeds | src/bin/day5.rs:46-51 | the seeds are no more than the words of the first section |
| Day5.SeedsSpec | src/bin/day5.rs:49-50 | a value is a seed iff some word of the first section parses to it |
| Day5.SeedLabel | src/bin/day5.rs:49-50 | the "seeds:" label is dropped by the `filter_map` |
| Day5.ParseInput | src/bin/day5.rs:43-58 | one map per section after the first; a section that fails to parse is a panic |
| Day5.AddOffset | src/bin/day5.rs:65-67 | `range_mut` adds the offset to exactly the values stored under keys in the range |
| Day5.Part1 | src/bin/day5.rs:60-74 | the result is the least location the seed values reach through all maps, or 0 without seeds |
| Day5.ApplyValues | src/bin/day5.rs:70 | rebuilding the map from its values keeps exactly the images of the old keys |
| Day5.MinKey | src/bin/day5.rs:73 | the minimum key, or 0 for an empty map |
| Day5.Unmatched | src/bin/day5.rs:64-68 | a value in no range of a map passes it unchanged |
| Day5.OffsetAppend | src/bin/day5.rs:64-68 | every conversion whose range holds the value the map started from adds its offset |
| Day5.MatchedOnce | src/bin/day5.rs:64-68 | a value in exactly one range moves by exactly that range's offset |
| Day5.ApplyNoLarger | src/bin/day5.rs:70 | equal values merge: a map never yields more values than it is given |
| Day5.LocationsNoLarger | src/bin/day5.rs:63-71 | the number of values never grows through the maps |
| Day5.LocationsStep | src/bin/day5.rs:63-71 | each round of the outer loop applies the next map to the values so far |
| Day5.Example | src/bin/day5.rs:112-155 | the example's seeds 79, 14, 55, 13 end at 82, 43, 86, 35, so part one answers 35 |
| Day7.ValueInjective | src/bin/day7.rs:9-24 | the discriminants are distinct and below 15, so they index the 15-cell counter |
| Day7.CardOf | src/bin/day7.rs:29-46 | a character outside the thirteen card letters is refused with itself as the error |
| Day7.NoJokerParsed | src/bin/day7.rs:29-46 | no character reads as a joker |
| Day7.CountsOfMultiset | src/bin/day7.rs:63-71 | the counter holds the multiplicity of each non-joker card; the jokers are counted apart |
| Day7.CountsTotal | src/bin/day7.rs:63-71 | every card is counted exactly once, in the counter or among the jokers |
| Day7.ArgMaxIsMax | src/bin/day7.rs:73-76 | the cell the jokers join holds the largest count |
| Day7.SortedTopTwo | src/bin/day7.rs:73-86 | after `sort_unstable` the last two cells hold the largest and the second largest count |
| Day7.TopOfMultiset | src/bin/day7.rs:73 | the largest count does not depend on the order of the counter |
| Day7.TopTwoBound | src/bin/day7.rs:78-86 | any two counts sum to at most the two largest |
| Day7.Classify | src/bin/day7.rs:60-88 | the counting loop, sort and pattern match compute the type of the hand |
| Day7.TypeOfMultiset | src/bin/day7.rs:60-88 | the type depends only on which cards the hand holds, not on their order |
| Day7.TypeByCounts | src/bin/day7.rs:73-86 | with `a` the most and `b` the second most frequent card, the type is decided by b's count and a's count plus the jokers |
| Day7.FiveJokers | src/bin/day7.rs:76-79 | five jokers are five of a kind |
| Day7.JacksToJokers | src/bin/day7.rs:99-103 | each jack becomes a joker and every other card is kept |
| Day7.JokerCounts | src/bin/day7.rs:98-106 | turning the jacks into jokers empties the jack cell into the jokers |
| Day7.ClassMonotone | src/bin/day7.rs:78-86 | the type never drops when the largest count grows and the two largest together do not shrink |
| Day7.JokersNeverLower | src/bin/day7.rs:74-106 | adding the jokers to the largest count never makes a hand weaker than it was with jacks |
| Day7.TopTwoGrow | src/bin/day7.rs:74-76 | moving one cell's count onto the largest keeps the largest and the top two no smaller |
| Day7.CompareCardsFlip | src/bin/day7.rs:120 | the card-by-card comparison is antisymmetric and ties only on equal cards |
| Day7.CompareCardsTransitive | src/bin/day7.rs:120 | the card-by-card comparison is transitive |
| Day7.HandOrder | src/bin/day7.rs:116-122 | `Hand::cmp` is a total preorder, and a tie is two hands with the same type and cards |
| Day7.Part1 | src/bin/day7.rs:145-154 | the result is the winnings of an arrangement of the hands sorted by `Hand::cmp` |
| Day7.SortHands | src/bin/day7.rs:147 | `sort_unstable` leaves a sorted permutation |
| Day7.WinningsDetermined | src/bin/day7.rs:145-154 | when no two different hands tie, every sorted arrangement earns the same |
| Day7.ToJokers | src/bin/day7.rs:98-107 | the in-place loop replaces the jacks and reclassifies the hand |
| Day7.Part2 | src/bin/day7.rs:156-160 | the result is part one's winnings on the hands with their jacks turned into jokers |
| Day7.CardsOf | src/bin/day7.rs:129-132 | a parsed hand always has five cards |
| Day7.CardsOfLength | src/bin/day7.rs:129-132 | the cards written are read in order and cells not written keep the ace they start with |
| Day7.CardsOfErr | src/bin/day7.rs:131 | the first refused character is the error of the whole |
| Day7.ParseHand | src/bin/day7.rs:127-142 | the loop writing into the five-card array computes the specified hand or error |
| Day7.ExampleTypes | src/bin/day7.rs:180-186 | the example hands are one pair, three of a kind, two pairs, two pairs and three of a kind |
| Day7.ExampleRanked | src/bin/day7.rs:180-186 | ranked, the example hands are `32T3K` < `KTJJT` < `KK677` < `T55J5` < `QQQJA` |
| Day7.ExamplePart1 | src/bin/day7.rs:188-199 | any sorted arrangement of the example hands wins 6440 |
| Day7.JokeredRanked | src/bin/day7.rs:201-213 | with jokers the example ranks `32T3K` < `KK677` < `T55J5` < `QQQJA` < `KTJJT` |
| Day7.ExamplePart2 | src/bin/day7.rs:201-213 | with jacks as jokers any sorted arrangement of the example wins 5905 |
| Day8.StepRoundTrip | src/bin/day8.rs:18-24 | exactly `L` and `R` are instructions, and each is read back as the instruction it writes |
| Day8.StepsRoundTrip | src/bin/day8.rs:77-80 | collecting written-out instructions gives them back |
| Day8.Move | src/bin/day8.rs:39-43 | one move takes the left or right destination; an unknown node is the `unwrap` panic |
| Day8.IndexNext | src/bin/day8.rs:38 | `cycle` moves on by one place and wraps from the last instruction to the first |
| Day8.WalkOkBefore | src/bin/day8.rs:38-45 | once a lookup fails the walk is over: a walk that reaches a node reached one at every earlier move |
| Day8.WalkRound | src/bin/day8.rs:38-45 | after a whole round of instructions the walk starts over from the node reached |
| Day8.NeverArrives | src/bin/day8.rs:47-52 | a walk back at the start after one round without meeting the end never meets it, so `count_steps` would not return |
| Day8.CountSteps | src/bin/day8.rs:47-52 | the count is the index of the first arrival at the end (1 when there are no instructions) |
| Day8.NodeLineOf | src/bin/day8.rs:60-67 | a line `a = (b, c)` is read as the entry a -> (b, c) |
| Day8.DestinationsOf | src/bin/day8.rs:62-67 | the text after `=` is split at the comma and the parentheses are dropped |
| Day8.BuildKeys | src/bin/day8.rs:59-68 | the nodes are exactly the origins of the lines |
| Day8.BuildLast | src/bin/day8.rs:65-67 | a node repeated on several lines keeps the destinations of its last line |
| Day8.ParseNetwork | src/bin/day8.rs:58-71 | the insertion loop builds exactly the specified network or error |
| Day8.ParseInputSteps | src/bin/day8.rs:74-85 | the instructions line and the node lines are read back as the instructions and network they write |
| Day8.Example | src/bin/day8.rs:128-168 | `RL` from `AAA` arrives at `ZZZ` first after 2 steps |
| Day8.SecondExample | src/bin/day8.rs:140-177 | `LLR` from `AAA` arrives at `ZZZ` first after 6 steps |
| Day9.BinomialStep | src/bin/day9.rs:14-17 | the scan's step: `k * C(n, k) == (n + 1 - k) * C(n, k - 1)`, so its division is exact |
| Day9.Scan | src/bin/day9.rs:14-17 | the scan yields one value per column from `col` to `l` |
| Day9.Coefficients | src/bin/day9.rs:12-18 | `coefficients` yields l + 1 values |
| Day9.ScanBinomial | src/bin/day9.rs:14-17 | from column `col` the scan yields the binomial coefficients of row l |
| Day9.CoefficientsBinomial | src/bin/day9.rs:12-18 | `coefficients` is the row `C(l, 0), ..., C(l, l)`; the division by zero at column 0 gives 1 |
| Day9.Weights | src/bin/day9.rs:29-32 | the alternating signs zipped with the coefficients after the first give one weight per reading |
| Day9.WeightsRow | src/bin/day9.rs:29-36 | the weights are the signed binomials `(-1)^i C(l, i + 1)` |
| Day9.PrevIsNextOfReverse | src/bin/day9.rs:39-49 | `prev_value` is `next_value` of the readings in reverse order |
| Day9.DotAddWeights | src/bin/day9.rs:34-36 | the fold is linear in the weights |
| Day9.DotAddReadings | src/bin/day9.rs:34-36 | the fold is linear in the readings |
| Day9.RowPascal | src/bin/day9.rs:20-28 | the weights of l + 1 readings follow from those of l by Pascal's rule |
| Day9.RowStep | src/bin/day9.rs:20-28 | the weighted sum of the readings is the first reading minus the weighted sum of their differences |
| Day9.RowIsExtrapolateBack | src/bin/day9.rs:39-49 | the binomial combination is the puzzle's backward extrapolation through the difference rows |
| Day9.ExtrapolateReversed | src/bin/day9.rs:19-37 | forward extrapolation is backward extrapolation of the reversed readings |
| Day9.ReverseDiffs | src/bin/day9.rs:20-28 | the differences of reversed readings are the reversed differences negated |
| Day9.PrevValueIsExtrapolateBack | src/bin/day9.rs:39-49 | `prev_value` equals extrapolating backward through the rows of differences |
| Day9.NextValueIsExtrapolate | src/bin/day9.rs:19-37 | `next_value` equals extrapolating forward through the rows of differences down to zeros |
| Day9.Linear | src/bin/day9.rs:19-49 | both extrapolations are linear in the readings |
| Day9.Constant | src/bin/day9.rs:19-49 | a constant sequence extends with the same constant both ways; no readings give zero |
| Day9.ParseSequenceSpec | src/bin/day9.rs:55-61 | a line parses iff every word is an integer, and the readings are those integers in order |
| Day9.WeightsOfSix | src/bin/day9.rs:29-32 | six readings have weights 6, -15, 20, -15, 6, -1 |
| Day9.NextOfSix | src/bin/day9.rs:19-37 | forward from six readings a..f: `6f - 15e + 20d - 15c + 6b - a` |
| Day9.PrevOfSix | src/bin/day9.rs:39-49 | backward from six readings a..f: `6a - 15b + 20c - 15d + 6e - f` |
| Day9.ExamplePart1 | src/bin/day9.rs:89-106 | the example's next values add up to 114 |
| Day9.ExamplePart2 | src/bin/day9.rs:108-119 | the example's previous values add up to 2 |
| Day10.TileDirections | src/bin/day10.rs:19-33 | a pipe opens to two different sides, ground to none, the start to all four |
| Day10.TileOf | src/bin/day10.rs:39-51 | exactly the eight tile characters are tiles, each read back as its symbol; any other character is its own error |
| Day10.TileRoundTrip | src/bin/day10.rs:39-51 | every tile's symbol reads back as that tile |
| Day10.ConnectsToSpec | src/bin/day10.rs:61-68 | a position connects to the steps along its tile's directions that stay on the quadrant, an off-grid position to nothing |
| Day10.FirstIndexSpec | src/bin/day10.rs:122-125 | `position` finds the first starting tile, or none when there is none |
| Day10.MapOfStart | src/bin/day10.rs:113-133 | a parsed map is valid and its start holds the first starting tile in reading order |
| Day10.StartCell | src/bin/day10.rs:126-131 | the flat index `idx` is the cell `(idx % width, idx / width)` of the grid |
| Day10.FirstStepSpec | src/bin/day10.rs:77-92 | the corrected first step is the first direction whose neighbour opens back to the start, none only when none does |
| Day10.FirstStepVertical | src/bin/day10.rs:85-86 | for up and down the source's lists are right: it agrees with the corrected step there |
| Day10.FirstStepCounterexample | src/bin/day10.rs:87-92 | on `FS7 / L-J` the source's Left/Right lists refuse the loop (the `expect` panics) though the left neighbour points back |
| Day10.FirstOtherSpec | src/bin/day10.rs:100-103 | `find(p != previous)` gives a connected position other than the previous one, none only when there is none |
| Day10.NextPositionSpec | src/bin/day10.rs:97-103 | the next position is one the pipe connects to, other than where the walk came from; otherwise the `unwrap` panics |
| Day10.GeneratePath | src/bin/day10.rs:70-107 | starting from the corrected first step rather than the source's Left/Right lists, the while loop computes the specified path (or error; fuel bounds the loop) |
| Day10.TraceAdvance | src/bin/day10.rs:96-104 | one turn of the loop pushes the position and moves on, or stops with the panic |
| Day10.WalkStep | src/bin/day10.rs:96-104 | pushing a connected position that does not turn straight back keeps the path a walk along the pipes |
| Day10.TraceWalk | src/bin/day10.rs:96-104 | a path the loop finishes is a walk along the pipes back to the start |
| Day10.PathIsLoop | src/bin/day10.rs:70-107 | the path from the corrected first step is a closed loop along the pipes from the start back to it that never turns straight back |
| Day10.ConnectsParity | src/bin/day10.rs:61-68 | each step along the pipes moves to a neighbour, changing chessboard colour |
| Day10.WalkParity | src/bin/day10.rs:96-104 | along a walk the colour alternates |
| Day10.LoopIsEven | src/bin/day10.rs:136-140 | a closed loop has even length, so `len() / 2` loses nothing |
| Day10.Part1IsFarthest | src/bin/day10.rs:136-140 | the answer is half the loop: no position of the loop is farther from the start either way round |
| Day10.Part2Agrees | src/bin/day10.rs:151-158 | the code as written agrees with the corrected formula except that it panics exactly when the double area is below the length |
| Day10.Part2Counterexample | src/bin/day10.rs:158 | the 2x2 loop `S7 / LJ` has double area 2 and length 4, so `double_area - path.len()` underflows; it encloses nothing |
| Day10.SmallestLoop | src/bin/day10.rs:70-107 | the map `S7 / LJ` traces exactly that 2x2 loop |
| Day10.Rect | src/bin/day10.rs:151-158 | the loop around a w by h rectangle has 2w + 2h positions |
| Day10.RectSum | src/bin/day10.rs:151-155 | the shoelace sum around a rectangle is twice its area |
| Day10.RectangleInterior | src/bin/day10.rs:142-159 | on the loop around a rectangle, part two counts exactly the (w-1)(h-1) tiles strictly inside; as written it panics exactly when that is zero |
| Day10.PickRectangle | src/bin/day10.rs:143-158 | Pick's formula applied to a rectangle's area and boundary |
| Day11.RowGalaxiesSpec | src/bin/day11.rs:68-74 | a position of a line is read as a galaxy exactly when its character is `#` |
| Day11.GalaxiesSpec | src/bin/day11.rs:64-77 | the galaxies of the first n lines are exactly their `#` cells |
| Day11.ImageOfSpec | src/bin/day11.rs:63-78 | the image of a text holds exactly the `#` cells of its lines |
| Day11.Largest | src/bin/day11.rs:13-15 | the fold yields the largest coordinate on an axis, 0 for no galaxy |
| Day11.Flags | src/bin/day11.rs:19-27 | a line is flagged exactly when no galaxy lies on it |
| Day11.ScanCount | src/bin/day11.rs:18-23 | entry k of the scan is `age` times the number of flagged lines up to k |
| Day11.ScanSpec | src/bin/day11.rs:17-32 | entry k of an incrementer is `age` times the empty lines up to line k, however many lines it covers |
| Day11.OwnLine | src/bin/day11.rs:40-41 | a galaxy's own line is not empty, so counting up to it or before it agrees |
| Day11.Expand | src/bin/day11.rs:11-46 | the corrected expansion keeps one galaxy per galaxy |
| Day11.ExpandSpec | src/bin/day11.rs:11-46 | every galaxy moves right by `age` per empty column and down by `age` per empty row before it |
| Day11.ExpandZero | src/bin/day11.rs:11-46 | expanding by age 0 changes nothing |
| Day11.ExpandKeepsOrder | src/bin/day11.rs:11-46 | expansion keeps the order of galaxies along each axis, strictly and not strictly |
| Day11.AsWrittenAgrees | src/bin/day11.rs:11-46 | whenever the source's `expand` does not panic it computes the corrected expansion |
| Day11.AsWrittenPanics | src/bin/day11.rs:13-41 | as written it panics exactly when a galaxy lies right of the largest y or below the largest x |
| Day11.AsWrittenCounterexample | src/bin/day11.rs:13-41 | one galaxy at (0, 1): the row incrementer has one entry and is indexed at 1 |
| Day11.SumFromSnoc | src/bin/day11.rs:47-57 | adding a galaxy at the end adds its distance to every earlier galaxy |
| Day11.SumShortestPathsIsPairSum | src/bin/day11.rs:47-57 | `sum_shortest_paths` counts each unordered pair of galaxies exactly once |
| Day11.ExampleExpand | src/bin/day11.rs:101-112 | the example's galaxies after expansion by any age |
| Day11.GrownDistance | src/bin/day11.rs:54 | the Manhattan distance of two galaxies grows by `age` per empty line between them |
| Day11.ExampleSum | src/bin/day11.rs:101-112 | the example's expanded pair sum is 292 + 82 age |
| Day11.ExampleSolve | src/bin/day11.rs:114-140 | the example gives 374 at age 1, 1030 at age 9 and 8410 at age 99 |
| Day12.FormatRoundTrip | src/bin/day12.rs:14-22 | reading back the text of a row with at least one group gives the row |
| Day12.Recursive | src/bin/day12.rs:37-107 | the cached recursion returns the uncached count and the cache only ever holds values of that recursion |
| Day12.RecursiveOperate | src/bin/day12.rs:54-85 | the working-spring branch: skip when no run is open, close the run only when it matches the group |
| Day12.CountPossibleArrangements | src/bin/day12.rs:32-35 | from the first spring on an empty cache; with positive groups the result is the number of arrangements whose runs are the groups |
| Day12.RunsSpec | src/bin/day12.rs:26-29 | the runs of broken springs are positive and together hold every broken spring |
| Day12.Snoc | src/bin/day12.rs:54-70 | a broken spring extends the open run, a working one closes it |
| Day12.Dead | src/bin/day12.rs:57-65 | once the closed runs stop being a prefix of the groups no arrangement is left |
| Day12.CountIsArrangements | src/bin/day12.rs:37-107 | with positive groups, the recursion in the state a prefix leaves counts the arrangements extending that prefix |
| Day12.OperateIsArrangements | src/bin/day12.rs:54-66 | the arrangements with a working spring at i are counted by the working branch |
| Day12.AtEnd | src/bin/day12.rs:91-101 | at the end of the row the recursion accepts exactly when the closed runs and the open run are the groups |
| Day12.ExpandSpec | src/bin/day12.rs:109-121 | unfolded springs are five copies joined by four unknown springs, 5n + 4 in all |
| Day12.ExpandGroups | src/bin/day12.rs:119 | unfolded groups are five copies of the groups |
| Day12.RunsExample | src/bin/day12.rs:26-29 | the runs of `##.#` are 2 and 1 |
| Day12.ExampleLine | src/bin/day12.rs:169-183 | each line of the example reads as the row of its springs and groups |
| Day12.ExampleCount1 | src/bin/day12.rs:170 | `???.### 1,1,3` has one arrangement |
| Day12.ExampleCount2 | src/bin/day12.rs:171 | `.??..??...?##. 1,1,3` has four arrangements |
| Day12.ExampleCount3 | src/bin/day12.rs:172 | `?#?#?#?#?#?#?#? 1,3,1,6` has one arrangement |
| Day12.ExampleCount4 | src/bin/day12.rs:173 | `????.#...#... 4,1,1` has one arrangement |
| Day12.ExampleCount5 | src/bin/day12.rs:174 | `????.######..#####. 1,6,5` has four arrangements |
| Day12.ExampleCount6 | src/bin/day12.rs:175 | `?###???????? 3,2,1` has ten arrangements |
| Day12.ExampleTotal | src/bin/day12.rs:178-189 | the rows of the example have 21 arrangements in all, the first answer on the example |
| Day13.FindLineSpec | src/bin/day13.rs:32-54 | `find` gives the first line of reflection from m on with exactly the given smudges, none only when there is none |
| Day13.MismatchesZero | src/bin/day13.rs:37-51 | two lines have no mismatch among their first k cells exactly when those cells are equal |
| Day13.MirrorDiffZero | src/bin/day13.rs:33-52 | the mirrored pairs have no mismatch exactly when each pair is equal |
| Day13.PerfectMirror | src/bin/day13.rs:28-55 | with zero smudges a line of reflection is a true mirror: all overlapping mirrored lines are equal |
| Day13.Columns | src/bin/day13.rs:29-30 | the columns of a pattern, left to right |
| Day13.FindFirst | src/bin/day13.rs:32-54 | the search from line 1 finds the first qualifying line or reports that none qualifies |
| Day13.SummarizeSpec | src/bin/day13.rs:56-62 | the first qualifying row times 100 wins; otherwise the first qualifying column; with neither it panics |
| Day13.LineMismatch | src/bin/day13.rs:45-52 | one cell that differs between two mirrored lines makes the count of smudges positive |
| Day13.MirrorDiffOne | src/bin/day13.rs:45-52 | mirrored pairs all equal but one, which differs in exactly one cell, count exactly one smudge |
| Day13.Example1Clean | src/bin/day13.rs:164-169 | the first example pattern, without smudges, has no row of reflection and reflects about column 5: it summarizes to 5 |
| Day13.Example2Clean | src/bin/day13.rs:172-177 | the second example pattern, without smudges, first reflects about row 4: it summarizes to 400 |
| Day13.Example1Smudged | src/bin/day13.rs:191-196 | the first example pattern, with one smudge, first reflects about row 3: it summarizes to 300 |
| Day13.Example2Smudged | src/bin/day13.rs:199-204 | the second example pattern, with one smudge, first reflects about row 1: it summarizes to 100 |
| Day13.Example3Clean | src/bin/day13.rs:180-187 | the third pattern of the four-pattern example, without smudges, has no row of reflection and reflects about column 4: it summarizes to 4 |
| Day13.Example4Clean | src/bin/day13.rs:180-187 | the fourth pattern of the four-pattern example, without smudges, first reflects about row 3: it summarizes to 300 |
| Day13.Example3Smudged | src/bin/day13.rs:207-214 | the third pattern of the four-pattern example, with one smudge, first reflects about row 4: it summarizes to 400 |
| Day13.Example4Smudged | src/bin/day13.rs:207-214 | the fourth pattern of the four-pattern example, with one smudge, first reflects about row 6: it summarizes to 600 |
| Day13.ExampleTotals | src/bin/day13.rs:180-214 | the four patterns of the example sum to 709 without smudges and to 1400 with one smudge |
| Day14.RockOf | src/bin/day14.rs:18-25 | exactly `O`, `#` and `.` are rocks, each read back as its symbol; any other character is the error |
| Day14.RockRoundTrip | src/bin/day14.rs:18-25 | the character `Display` writes for a rock reads back as that rock |
| Day14.PlatformOf | src/bin/day14.rs:159-168 | a parsed platform is a valid grid as high as the lines and as wide as the first line |
| Day14.CountAll | src/bin/day14.rs:8-13 | every place holds exactly one of the three kinds |
| Day14.LastCube | src/bin/day14.rs:64 | the last cube of a line, none when there is none: `clear` forgets the places before it |
| Day14.TiltedSegment | src/bin/day14.rs:55-67 | a line tilts as its part up to the last cube followed by the packed stretch after it |
| Day14.TiltedCubes | src/bin/day14.rs:55-67 | a tilt keeps every cube where it is and makes no other cube |
| Day14.TiltedCounts | src/bin/day14.rs:55-67 | a tilt keeps the number of rocks of every kind |
| Day14.TiltedPacked | src/bin/day14.rs:55-67 | after a tilt no round rock can roll any further |
| Day14.PackedIsTilted | src/bin/day14.rs:55-67 | a line where nothing can roll is left as it is |
| Day14.TiltedIdempotent | src/bin/day14.rs:55-67 | tilting twice is tilting once |
| Day14.CellX | src/bin/day14.rs:55 | place k of line i is a cell of the grid whose line and place are i and k again |
| Day14.CellOfPlace | src/bin/day14.rs:55 | every cell is the cell of its own place on its own line, for each of the four walks |
| Day14.Line | src/bin/day14.rs:55 | line i in the order the tilt walks it has one place per cell of the column or row |
| Day14.TiltGrid | src/bin/day14.rs:48-146 | a tilted platform keeps its dimensions |
| Day14.TiltGridLine | src/bin/day14.rs:48-146 | each line of the tilted platform is that line tilted on its own |
| Day14.TiltKeepsCubes | src/bin/day14.rs:48-146 | a tilt moves no cube and makes none |
| Day14.TiltKeepsCounts | src/bin/day14.rs:48-146 | every line keeps its numbers of round rocks, cubes and empty places |
| Day14.TiltNorthPacked | src/bin/day14.rs:48-71 | after a tilt north every round rock lies in the top row or below a cube or round rock |
| Day14.TiltIdempotent | src/bin/day14.rs:48-146 | a second tilt the same way moves nothing |
| Day14.SpinsAdd | src/bin/day14.rs:148-153 | spinning a times and then b times is spinning a + b times |
| Day14.SpinsPeriodic | src/bin/day14.rs:194-209 | once a state recurs after a period, every later state recurs with that period |
| Day14.FastForward | src/bin/day14.rs:203-208 | skipping whole periods and spinning `(CYCLES - current) % period` more reaches the state after CYCLES spins |
| Day14.LoadAppend | src/bin/day14.rs:32-46 | a column's load splits over its parts, each weighed from its own height |
| Day14.PackHeavier | src/bin/day14.rs:37-43 | rolling the round rocks of a stretch to its front never lightens it |
| Day14.TiltedHeavier | src/bin/day14.rs:37-43 | a tilt towards the front of a column never lightens it |
| Day14.ColumnIsLine | src/bin/day14.rs:35-55 | `columns()` and `column_mut` walk the same cells |
| Day14.Part1Heavier | src/bin/day14.rs:32-71 | the load after tilting north is at least the load before |
| Day14.ScanTilts | src/bin/day14.rs:55-67 | the walk with the queue of empty places leaves the line tilted |
| Day14.ScanKeeps | src/bin/day14.rs:55-67 | the walk keeps its invariant: the part visited, tilted, is laid out with the queued places empty |
| Day14.LaidSwap | src/bin/day14.rs:58-62 | a round rock swaps with the first queued empty place, which then joins the queue |
| Day14.LaidCube | src/bin/day14.rs:64 | a cube closes the stretch: the line so far is tilted |
| Day14.LaidEmpty | src/bin/day14.rs:65 | an empty place stays and joins the queue |
| Day14.TiltInPlace | src/bin/day14.rs:53-67 | the loop over a line with the `VecDeque` of empty places leaves the line tilted |
| Day14Platform.Platform.ReadLine | src/bin/day14.rs:55 | `column_mut`/`row_mut` (reversed for south and east): the rocks of line i from the side they roll to |
| Day14Platform.Platform.WriteLine | src/bin/day14.rs:55-67 | the rocks are written back into line i and every other cell is unchanged |
| Day14Platform.Platform.TiltLine | src/bin/day14.rs:53-67 | line i is tilted in place and nothing else changes |
| Day14Platform.Platform.Tilt | src/bin/day14.rs:48-146 | each of the four tilts leaves the platform tilted that way |
| Day14Platform.Platform.SpinCycle | src/bin/day14.rs:148-153 | a spin cycle tilts north, west, south and east in turn |
| Day14Platform.Part2 | src/bin/day14.rs:190-212 | the result is the load after 10^9 spin cycles (after one more when no state recurs) |
| Day14Platform.FindRepeat | src/bin/day14.rs:194-201 | the search finds the first cycle whose state was seen before, and the cycle it was seen at |
| Day14Platform.SpinTimes | src/bin/day14.rs:206-208 | n more spin cycles |
| Day14Platform.RememberNext | src/bin/day14.rs:195-199 | a new state is remembered with the cycle it was reached at |
| Day14Platform.NoRecurrence | src/bin/day14.rs:194-201 | when the first CYCLES + 1 states all differ, none comes back |
| Day15.ByteOf | src/bin/day15.rs:11 | a character is taken as one byte |
| Day15.HashRound | src/bin/day15.rs:12 | `wrapping_add` then `wrapping_mul(17)` on a `u8` stays a byte |
| Day15.HashFromAppend | src/bin/day15.rs:10-12 | the fold over a concatenation continues from where the first part ended |
| Day15.HashBounds | src/bin/day15.rs:9-13 | a hash is a byte, the empty string hashes to 0, and surrounding whitespace does not change it |
| Day15.SumHashesBound | src/bin/day15.rs:57-62 | part one is at most 255 per step |
| Day15.FindLabel | src/bin/day15.rs:21 | `find` gives a slot holding the label |
| Day15.FindLabelSpec | src/bin/day15.rs:21 | none exactly when no slot holds the label, otherwise the first slot that does |
| Day15.PutSpec | src/bin/day15.rs:20-25 | a label already in the box has its focal length replaced in place, nothing else changing; otherwise the lens is appended; labels stay unique |
| Day15.RetainAbsent | src/bin/day15.rs:27 | removing an absent label changes nothing |
| Day15.RetainOne | src/bin/day15.rs:27 | removing a label held once takes out exactly its lens, the others keeping their order |
| Day15.RetainDrops | src/bin/day15.rs:27 | no lens keeps the removed label, and no other lens is lost |
| Day15.RetainUnique | src/bin/day15.rs:27 | removal keeps labels unique and never grows a box |
| Day15.EmptyBoxes | src/bin/day15.rs:49-55 | `default` gives 256 empty boxes |
| Day15.ApplyOpSpec | src/bin/day15.rs:15-29 | a step changes only the box of its label's hash and keeps every lens in its own box, once |
| Day15.StepsWellPlaced | src/bin/day15.rs:64-73 | any sequence of steps leaves every lens in its label's box, with no label twice in a box |
| Day15.StepsErr | src/bin/day15.rs:17 | a step whose lens is missing panics and ends the whole run |
| Day15.FocusingPowerEmptyTail | src/bin/day15.rs:31-46 | empty boxes add nothing to the focusing power |
| Day15.LensBoxes.Step | src/bin/day15.rs:15-29 | the in-place step updates the boxes as specified, or reports the panic with no box changed |
| Day15.Find | src/bin/day15.rs:21 | the search over one box finds the first slot with the label |
| Day15.RetainLoop | src/bin/day15.rs:27 | the removal loop computes the specified box |
| Day15.RunPart2 | src/bin/day15.rs:64-73 | the fold over the trimmed, comma-separated steps and then `focusing_power` |
| Day15.Hash3 | src/bin/day15.rs:9-13 | the hash of a three-byte step from the accumulator after each byte |
| Day15.HashVector0 | src/bin/day15.rs:88-97 | `rn=1` hashes to 30 (and the other ten example steps as listed) |
| Day15.ExampleSplit | src/bin/day15.rs:87 | the example line splits at its commas back into its eleven steps |
| Day15.ExamplePart1 | src/bin/day15.rs:87-105 | part one of the example is 1320 |
| Day15.ExampleOp | src/bin/day15.rs:15-29 | each of the example's steps parses as the insertion or removal it spells |
| Day15.ExampleChange | src/bin/day15.rs:15-29 | each example step changes its own box as the puzzle's walkthrough shows, and no other of boxes 0, 1 and 3 |
| Day15.ExampleUpTo | src/bin/day15.rs:64-73 | after any number of the example's steps, boxes 0, 1 and 3 hold the walkthrough's lenses and every other box is empty |
| Day15.ExamplePower | src/bin/day15.rs:31-46 | box 0 holding rn=1, cm=2 and box 3 holding ot=7, ab=5, pc=6 give a focusing power of 145 |
| Day15.ExamplePart2 | src/bin/day15.rs:87-113 | part two of the example is 145 |
| Day15.InsertThenRemove | src/bin/day15.rs:20-27 | removing a label just inserted into a box that lacked it restores the box |
| Day15.InsertTwice | src/bin/day15.rs:20-25 | inserting a label twice is the same as inserting it once with the later focal length |
| Day16.TileOf | src/bin/day16.rs:19-28 | exactly the five tile characters are tiles, each read back as its symbol; any other character is the error |
| Day16.TileRoundTrip | src/bin/day16.rs:19-28 | every tile's symbol reads back as that tile |
| Day16.ContraptionOf | src/bin/day16.rs:90-99 | a parsed contraption is a valid grid as high as the lines and as wide as the trimmed first line |
| Day16.MirrorsReverse | src/bin/day16.rs:66-73 | each mirror undoes itself and a beam sent back leaves it the way it came |
| Day16.OutgoingSpec | src/bin/day16.rs:53-78 | only a splitter hit broadside splits the beam, into two opposite ways; empty tiles and splitters hit end on let it through |
| Day16.Moves | src/bin/day16.rs:55-79 | a beam is pushed exactly for the directions whose step stays in the quadrant |
| Day16.AllBeams | src/bin/day16.rs:42 | only beams on the contraption are kept |
| Day16.LitIs | src/bin/day16.rs:35-84 | the beams the loop sees are the least closed set of beams holding the start |
| Day16.EnergizedBounds | src/bin/day16.rs:83 | a beam entering the contraption energizes at least one and at most all tiles |
| Day16.KeysAreTiles | src/bin/day16.rs:38-49 | the keys of `energized_tiles` are the tiles of the beams seen |
| Day16.Drop | src/bin/day16.rs:41-49 | a beam off the contraption, or seen before on its tile in its direction, is dropped |
| Day16.Visit | src/bin/day16.rs:41-80 | a new beam on the contraption is recorded and pushes the beams it sends on |
| Day16.Record | src/bin/day16.rs:43-47 | `insert` reports whether the direction was new, and the map then tracks the beam |
| Day16.Energize | src/bin/day16.rs:35-84 | the loop returns the number of tiles crossed by the beams that the start lights |
| Day16.Part1 | src/bin/day16.rs:102-104 | part one is the energy of the beam entering at the top left heading right |
| Day16.EdgeStarts | src/bin/day16.rs:110-118 | 2·width + 2·height starts, all on the contraption; the underflow panic exactly when one dimension is zero and the other is not |
| Day16.Part2 | src/bin/day16.rs:106-122 | the largest energy over the starts from the edges, 0 for an empty contraption, and the panic exactly where the edge starts underflow |
| Day16.RowsWithoutColumns | src/bin/day16.rs:113 | the text "\n" reads as one row without columns, and part two panics on it |
| Day16.Part1Start | src/bin/day16.rs:103-112 | part one's start is among part two's |
| Day17.BlockOf | src/bin/day17.rs:14 | a digit gives its value; `block - b'0'` panics below `'0'` |
| Day17.CityOf | src/bin/day17.rs:9-18 | a parsed city map is a valid grid as high as the lines and as wide as the first line |
| Day17.MovesSpec | src/bin/day17.rs:40-68 | a move enters a neighbouring block: turning only after a run of at least the minimum, restarting the run at 1; straight only below the maximum, lengthening it by one |
| Day17.RouteExtend | src/bin/day17.rs:44-65 | a route one move longer loses the heat of the block entered |
| Day17.RunBound | src/bin/day17.rs:57 | no route runs straight for more than the maximum |
| Day17.FrontierReach | src/bin/day17.rs:30-69 | any route to a state not yet visited passes an entry of the queue with no more heat |
| Day17.PopLeast | src/bin/day17.rs:30 | the entry the heap yields has lost no more heat than any route to an unvisited state |
| Day17.Drop | src/bin/day17.rs:35-37 | an entry of a state already visited is skipped and the search invariant is kept |
| Day17.SettleLeast | src/bin/day17.rs:35 | the first entry popped for a state carries the least heat of any route to it |
| Day17.PushSound | src/bin/day17.rs:40-68 | every pushed entry is reached by a route with exactly its heat |
| Day17.PushWaits | src/bin/day17.rs:40-68 | pushing the moves from the state just visited completes the frontier |
| Day17.Settle | src/bin/day17.rs:35-68 | visiting a new state that is not the destination keeps the search invariant |
| Day17.Found | src/bin/day17.rs:31-33 | the first entry popped at the destination has the least heat of any route there |
| Day17.NoArrival | src/bin/day17.rs:30-71 | when the queue runs dry no route reaches the destination |
| Day17.LeastIndex | src/bin/day17.rs:30 | the heap's pop yields an entry with the least heat |
| Day17.MinimizeHeatLoss | src/bin/day17.rs:20-72 | the result is the least heat lost by any route from the top left to the bottom right with the given run limits, or 0 when none exists |
| Day18.InstructionRoundTrip | src/bin/day18.rs:16-34 | reading a written instruction gives it back |
| Day18.MoveByDelta | src/bin/day18.rs:68-71 | one instruction moves the position by `dx * steps` and `dy * steps` |
| Day18.Part1 | src/bin/day18.rs:53-78 | the loop accumulating the shoelace sum and the steps computes the lagoon's number of cubes |
| Day18.WalkStep | src/bin/day18.rs:67-75 | one turn of the loop advances the walk by one instruction |
| Day18.RectangleLagoon | src/bin/day18.rs:53-78 | an a by b rectangle of trenches holds (a + 1)(b + 1) cubes |
| Day18.OutAndBack | src/bin/day18.rs:150-157 | a trench dug out n and back encloses nothing: its n + 1 cubes are the lagoon (`L 2` then `R 2` digs 3) |
| Day18.MoveBack | src/bin/day18.rs:68-71 | digging back the way one came returns to the start |
| Day18.LagoonTurned | src/bin/day18.rs:53-78 | the lagoon does not depend on the plan's orientation |
| Day18.ExampleWalk | src/bin/day18.rs:116-131 | the example's walk ends at the origin with shoelace sum 84 and 38 steps |
| Day18.ExamplePart1 | src/bin/day18.rs:133-140 | the example's lagoon holds 62 cubes |
| Day18.ExamplePart2 | src/bin/day18.rs:142-148 | the decoded example's lagoon holds 952408144115 cubes |
| Day18.ParseHexOfHex | src/bin/day18.rs:85-86 | five hexadecimal digits read back as the number they write |
| Day18.DecodeRoundTrip | src/bin/day18.rs:83-96 | a colour code `(#` + five step digits + direction digit + `)` decodes to that instruction |
| Day18.DecodeCode | src/bin/day18.rs:83 | only the last word of a line is decoded |
| Day19.ConditionOfRule | src/bin/day19.rs:109-133 | `c<v:o` reads as a rule over `0..v` and `c>v:o` as one over `v+1..u64::MAX`, sending to o |
| Day19.ConditionOfBare | src/bin/day19.rs:134-141 | text without a colon is an outcome for every part |
| Day19.ConditionOfAnchored | src/bin/day19.rs:109-142 | every rule read starts at 0 or ends at `u64::MAX`, over the category its text names |
| Day19.FirstMatchSpec | src/bin/day19.rs:144-162 | a workflow sends a part to the target of the first condition that applies to it, and to none only when none applies |
| Day19.EmptySpec | src/bin/day19.rs:55-66 | a range of parts is empty exactly when it holds no part, and then it has no combinations |
| Day19.HoldsWith | src/bin/day19.rs:167-173 | a part lies in a range with one category replaced iff it lies in the new range there and in the old ranges elsewhere |
| Day19.CombinationsAt | src/bin/day19.rs:61-66 | the combinations are the width in one category times those across the other three |
| Day19.CombinationsSplit | src/bin/day19.rs:61-66 | splitting one category's range in two splits the combinations |
| Day19.OverlapIsIntersection | src/bin/day19.rs:175 | the overlap used is the range helper's intersection |
| Day19.ApplyRangeSplits | src/bin/day19.rs:164-194 | a part of the range lies in the piece taken iff the condition applies to it, and otherwise in the remainder |
| Day19.ApplyRangeWithin | src/bin/day19.rs:164-194 | nothing outside the range is taken or left |
| Day19.ApplyRangeShape | src/bin/day19.rs:176-192 | the piece goes to the condition's target; an empty intersection leaves the range as it is; a bare outcome takes all and leaves nothing |
| Day19.ApplyRangeCount | src/bin/day19.rs:164-194 | the combinations of the piece and the remainder add up to those of the range |
| Day19.SplitWidths | src/bin/day19.rs:179-183 | the intersection with an anchored rule and what lies beside it split the range's width |
| Day19.PiecesSound | src/bin/day19.rs:238-251 | a part in a piece is a part of the range that the workflow sends to that piece's outcome |
| Day19.PiecesComplete | src/bin/day19.rs:238-251 | a part of the range that the workflow sends somewhere lies in a piece sent there |
| Day19.PiecesDisjoint | src/bin/day19.rs:238-251 | no part lies in two pieces |
| Day19.PiecesCount | src/bin/day19.rs:238-251 | the pieces and what is left split the combinations of the range |
| Day19.EndsAlways | src/bin/day19.rs:188-192 | a workflow ending in a bare outcome leaves nothing: its pieces hold all the combinations |
| Day19.ApplyRanges | src/bin/day19.rs:238-251 | the loop over the conditions, stopping once nothing is left, yields exactly the specified pieces |
| Day19.PiecesRanked | src/bin/day19.rs:280-282 | the pieces of a ranked workflow go to workflows of lower rank or to a final outcome |
| Day19.SumsAppend | src/bin/day19.rs:276-284 | the counts of two stacks on top of each other add up |
| Day19.Expand | src/bin/day19.rs:280-282 | the pieces a workflow pushes count what sending the range to it counts |
| Day19.Part2 | src/bin/day19.rs:270-287 | the stack loop computes the combinations of ratings 1 to 4000 that the workflows accept |
| Day19.AcceptedBound | src/bin/day19.rs:276-284 | no more combinations are accepted than the range holds |
| Day19.Part2Bound | src/bin/day19.rs:69-78 | the answer is at most 4000^4 |
| Day19.FollowRanked | src/bin/day19.rs:217-228 | through ranked workflows a part always ends, in accept, reject or no outcome |
| Day19.AcceptPartRanked | src/bin/day19.rs:230-236 | `accept_part` decides every part except one that no condition takes, which is `unreachable!` |
| Day19.AcceptedRatingsSpec | src/bin/day19.rs:254-268 | part one is defined iff every part is decided; it is at most the sum of all ratings, all of it when all are accepted and 0 when all are rejected |
| Day19.PartOf | src/bin/day19.rs:25-43 | the loop over the fields computes the specified part |
| Day19.ReadPartText | src/bin/day19.rs:25-43 | a part with `u64` ratings reads back from its text |
| Day19.FieldText | src/bin/day19.rs:30-38 | a field `n=v` sets the rating it names |
| Day19.BracesOff | src/bin/day19.rs:27 | the braces around a part are trimmed off and nothing else |
| Day19.NewWorkflows | src/bin/day19.rs:202-215 | the loop over the lines builds exactly the specified workflows |
| Day19.InsertAllKeys | src/bin/day19.rs:204-212 | every line names a workflow, and nothing read before is lost |
| Day19.InsertAllFrom | src/bin/day19.rs:204-212 | every workflow read comes from a line |
| Day19.InsertAllAnchored | src/bin/day19.rs:204-212 | every rule read into the workflows is anchored |
| Day20.Send | src/bin/day20.rs:43-47 | a module sends one transmission per destination, in order, each with the same pulse, from itself |
| Day20.BroadcasterForwards | src/bin/day20.rs:42-48 | the broadcaster passes the pulse it receives to every destination and stays as it is |
| Day20.FlipFlopIgnoresHigh | src/bin/day20.rs:70-71 | a flip-flop ignores a high pulse: nothing is sent and its state is unchanged |
| Day20.FlipFlopToggles | src/bin/day20.rs:72-89 | on a low pulse a flip-flop turns over and sends high if it was off, low if it was on |
| Day20.FlipFlopTwice | src/bin/day20.rs:72-89 | two low pulses bring a flip-flop back to its state, the two sending opposite pulses |
| Day20.ConjunctionRemembers | src/bin/day20.rs:102-119 | a conjunction fails on a pulse from an origin it does not know (the `unwrap`); otherwise it remembers the pulse and sends low iff every input was last high |
| Day20.RecvKeepsWiring | src/bin/day20.rs:168-174 | receiving changes only a module's state; what it sends comes from it and goes to its own destinations |
| Day20.DeliverKeepsWiring | src/bin/day20.rs:218-220 | delivering a transmission keeps every module's wiring |
| Day20.DrainCounts | src/bin/day20.rs:212-221 | draining the queue counts at least every pulse in it and keeps the wiring |
| Day20.DrainFirst | src/bin/day20.rs:212-216 | the first transmission is counted with its own pulse |
| Day20.PressesCount | src/bin/day20.rs:209-222 | n presses count at least n low pulses, one per button press, and keep the wiring |
| Day20.PressesFail | src/bin/day20.rs:209-222 | once a press fails, every later count fails the same way |
| Day20.PressButton | src/bin/day20.rs:210-221 | the queue loop computes the specified press |
| Day20.Part1 | src/bin/day20.rs:205-225 | the answer is the low count times the high count after the given presses, or the failure of a press |
| Day20.DestinationsOf | src/bin/day20.rs:132 | one destination per comma-separated piece |
| Day20.ModuleOfFresh | src/bin/day20.rs:130-150 | a module read from a line starts off, with no inputs |
| Day20.ModuleOfLine | src/bin/day20.rs:130-150 | a module written as a line reads back as itself |
| Day20.DestinationsOfJoin | src/bin/day20.rs:132 | destinations joined with commas are read back |
| Day20.LineSplits | src/bin/day20.rs:131 | ` -> ` is found right after a name without spaces |
| Day20.LastIndex | src/bin/day20.rs:192 | the last module of a name, or -1 when there is none |
| Day20.NamedLast | src/bin/day20.rs:183-193 | the configuration holds a module under a name iff some line gives it, and keeps the last one |
| Day20.AddSenderAt | src/bin/day20.rs:186-191 | recording a module adds it, heard low, to the entry of each of its destinations and to no other |
| Day20.InputsAt | src/bin/day20.rs:183-193 | a destination has an entry iff some module sends to it, naming exactly those modules, all low |
| Day20.SendersSnoc | src/bin/day20.rs:186-191 | the senders of a destination after one more line |
| Day20.Wired | src/bin/day20.rs:196-200 | wiring keeps the names of the configuration |
| Day20.Reset | src/bin/day20.rs:130-150 | a module with its state forgotten is as it was read |
| Day20.WiredInputs | src/bin/day20.rs:179-203 | the network read holds the last module of each name, each conjunction wired to exactly the modules that send to it, all low |
| Day20.WiredOne | src/bin/day20.rs:196-200 | the entry of one name after wiring |
| Day20.Record | src/bin/day20.rs:186-191 | the loop over the destinations records the module as specified |
| Day20.Wire | src/bin/day20.rs:196-200 | the loop over the recorded entries wires the conjunctions as specified |
| Day20.ReadStep | src/bin/day20.rs:183-193 | one line read keeps the reading loop's invariant |
| Day20.ParseInput | src/bin/day20.rs:179-203 | the two loops of `parse_input` compute the specified network |
| Day21.ReachablePlots | src/bin/day21.rs:21-35 | the loop replaces the frontier `steps` times by its members' garden neighbours, giving the specified set |
| Day21.StepOnceSpec | src/bin/day21.rs:27-31 | one step lands exactly on the garden plots one orthogonal step from a member of the frontier |
| Day21.ReachGarden | src/bin/day21.rs:26-32 | after at least one step only garden plots of the map remain |
| Day21.ReachAdd | src/bin/day21.rs:92-98 | taking `a` steps and then `b` more is taking `a + b` steps, as `part2`'s three calls rely on |
| Day21.StepMonotone | src/bin/day21.rs:27-31 | a larger frontier steps to a larger frontier |
| Day21.ReachMonotone | src/bin/day21.rs:21-35 | more starting plots reach at least as many plots |
| Day21.ReachDistance | src/bin/day21.rs:21-35 | a plot reached in n steps lies within n steps of a starting plot, at a distance of the parity of n |
| Day21.NeighbourDistance | src/bin/day21.rs:29 | a neighbour one step closer keeps the distance and its parity within bounds |
| Day21.ParseInput | src/bin/day21.rs:38-60 | the loops read the plots row by row, the last `S` being the start; an unknown character or a ragged text panics |
| Day21.ReadOk | src/bin/day21.rs:47-53 | a plot character extends the plots read so far |
| Day21.ReadErr | src/bin/day21.rs:54 | a character that is not a plot is the failure of the whole text |
| Day21.SeeColumn | src/bin/day21.rs:50-52 | an `S` read becomes the start |
| Day21.NextLine | src/bin/day21.rs:45-46 | the start so far is kept across lines |
| Day21.StartIsGarden | src/bin/day21.rs:50-53 | the start of a rectangular text is a garden plot of its grid |
| Day21.CellsOfLines | src/bin/day21.rs:45-59 | the cell at a position is the plot of the text's character there |
| Day21.Tile | src/bin/day21.rs:84-89 | the tiling, when it exists, is a valid grid |
| Day21.TileSpec | src/bin/day21.rs:84-89 | every cell of the 5 by 5 tiling is the map's cell at the same place modulo the size |
| Day21.CentreStart | src/bin/day21.rs:82-83 | the start moved to the centre copy sits on the same plot |
| Day21.Samples | src/bin/day21.rs:80-100 | the three samples are the plots reached on the tiling after half a size and one and two sizes more; a tiling that cannot be built panics |
| Day22.MoveDownTo | src/bin/day22.rs:19-21 | the moved brick starts at `z`, keeps its height and its footprint |
| Day22.MoveDownTwice | src/bin/day22.rs:19-21 | only the last move counts |
| Day22.SupportsIffIsSupported | src/bin/day22.rs:28-40 | one brick supports another iff the other is supported by it |
| Day22.ReadBrickText | src/bin/day22.rs:46-72 | a brick with `usize` coordinates is read back from the text it displays |
| Day22.SpanText | src/bin/day22.rs:52-70 | a range is read back from its first and last values |
| Day22.NumbersJoin | src/bin/day22.rs:47-51 | numbers joined by commas hold no `~` and no number holds a comma, so the splits find them |
| Day22.NoTilde | src/bin/day22.rs:47 | pieces without `~` joined by commas hold no `~` |
| Day22.InColumn | src/bin/day22.rs:25 | the cells of one column of the footprint are those at its `x` within the `y` range |
| Day22.InSurfaceFrom | src/bin/day22.rs:23-26 | the columns from `x` on hold exactly the cells from `x` to the brick's end |
| Day22.InSurface | src/bin/day22.rs:23-26 | the footprint holds exactly the cells under the brick |
| Day22.HighestSpec | src/bin/day22.rs:88-92 | the highest recorded height under a footprint is none iff no cell has one, and otherwise the height of some cell and no less than any |
| Day22.RaiseAt | src/bin/day22.rs:94-96 | after raising, the footprint's cells hold the brick's top and every other cell keeps its height |
| Day22.HeightsFrom | src/bin/day22.rs:87-97 | every recorded height is the top of a settled brick over that cell |
| Day22.SettleAll | src/bin/day22.rs:87-97 | settling n bricks gives n bricks |
| Day22.SettleShape | src/bin/day22.rs:87-97 | settling keeps each brick's footprint and height, and the order of the bricks |
| Day22.KeepsLast | src/bin/day22.rs:93 | the brick settled last keeps its footprint and height |
| Day22.SettlePrefix | src/bin/day22.rs:87-97 | bricks already settled stay where they are |
| Day22.RestsAt | src/bin/day22.rs:88-93 | a settled brick above level 1 rests on the earlier brick that set the height it dropped to |
| Day22.Rests | src/bin/day22.rs:82-98 | no settled brick floats: it is on level 1 or supported by a brick settled before it |
| Day22.ZOrder | src/bin/day22.rs:86 | ordering by lowest level is a total preorder |
| Day22.RaiseSurface | src/bin/day22.rs:94-96 | the loop sets each cell of the footprint to the brick's top |
| Day22.SettleStep | src/bin/day22.rs:87-97 | one brick moved and recorded keeps the settling loop's invariant |
| Day22.Settle | src/bin/day22.rs:82-98 | the array ends as a permutation of itself sorted by lowest level, each brick dropped onto what is under it |
| Day22.CarriedIsSupportedBy | src/bin/day22.rs:100-122 | the `supports` and `supported_by` maps are each other's reverse |
| Day22.DisintegrableMeans | src/bin/day22.rs:125-144 | part one counts a brick iff every brick it holds up has another support too |
| Day22.CountDisintegrable | src/bin/day22.rs:140-143 | the count is at most the number of bricks |
| Day22.FreeBrickCounts | src/bin/day22.rs:140-143 | a brick that holds nothing up is always counted |
| Day22.Shrinks | src/bin/day22.rs:163-179 | each round of the chain reaction leaves fewer bricks that may still fall |
| Day22.SpreadStep | src/bin/day22.rs:163-179 | one round keeps the chain reaction's invariant |
| Day22.SpreadSpec | src/bin/day22.rs:163-179 | the chain reaction ends with the specified fallen bricks |
| Day22.FallenMeans | src/bin/day22.rs:159-179 | taking a brick away, another falls iff it had supports and every one of them fell |
| Day22.FallTotalPick | src/bin/day22.rs:158-183 | the sum over the holders does not depend on the order they are taken in |
| Day22.ChainReaction | src/bin/day22.rs:159-179 | the loop computes the bricks that fall once the initial brick is gone, itself included |
| Day22.Part2 | src/bin/day22.rs:146-186 | the answer sums, over every brick that holds another up, the other bricks that fall |
| Day23.TileOf | src/bin/day23.rs:23-37 | a character is a tile iff it is one of the six map characters, and the tile is the one it shows |
| Day23.TileRoundTrip | src/bin/day23.rs:26-36 | every tile is read back from its character |
| Day23.TrailOf | src/bin/day23.rs:200-213 | an empty text panics; a map read has as many rows as lines, the first line's width, and the tiles of the text in order |
| Day23.FirstPath | src/bin/day23.rs:44-53 | the leftmost path tile of a row, none iff the row has no path tile |
| Day23.Gap | src/bin/day23.rs:44-69 | the leftmost path tile of a row; unwrapping panics iff the row has none |
| Day23.StartingPoint | src/bin/day23.rs:43-55 | the start is the leftmost path tile of the top row, or a panic iff that row has none |
| Day23.EndingPoint | src/bin/day23.rs:57-70 | the end is the leftmost path tile of the bottom row; an empty map underflows and panics |
| Day23.LongestUnique | src/bin/day23.rs:72-197 | the longest hike has one length |
| Day23.WalkBound | src/bin/day23.rs:76-151 | a hike visits each tile once, so it is no longer than the map has tiles |
| Day23.LongestBound | src/bin/day23.rs:72-197 | with an open end, the longest hike steps on fewer tiles than the map has open ones |
| Day23.SlipperyIsHike | src/bin/day23.rs:85-124 | a hike down icy slopes is also a hike over dry ones |
| Day23.SlipperyNoLonger | src/bin/day23.rs:72-197 | the icy map's longest hike is no longer than the dry map's |
| Day23.Possibles | src/bin/day23.rs:126-134 | at most four possible moves |
| Day23.PossiblesSpec | src/bin/day23.rs:126-134 | the possibles are exactly the neighbours not yet visited that are on the map and not forest |
| Day23.Continues | src/bin/day23.rs:76-151 | a hike longer than a walk it begins with goes on by a move to an unvisited tile |
| Day23.StepOn | src/bin/day23.rs:86-90 | one move to an unvisited tile extends a walk |
| Day23.Arrive | src/bin/day23.rs:78-81 | reaching the end records the walk's length; longer hikes begin elsewhere |
| Day23.Stuck | src/bin/day23.rs:84-93 | a walk that cannot move on begins no longer hike |
| Day23.Slide | src/bin/day23.rs:85-124 | a forced slide to a new tile keeps every hike the walk begins |
| Day23.Branches | src/bin/day23.rs:138-142 | one branch per possible |
| Day23.Split | src/bin/day23.rs:136-145 | at a junction every hike the walk begins starts with one of its branches |
| Day23.BranchTracks | src/bin/day23.rs:138-142 | each branch pushed is a walk with its visited tiles |
| Day23.Forks | src/bin/day23.rs:138-142 | each pushed entry is a possible with the visited tiles and itself |
| Day23.ForksSnoc | src/bin/day23.rs:138-142 | one more entry pushed |
| Day23.BranchesSnoc | src/bin/day23.rs:138-142 | one more branch |
| Day23.BranchesLast | src/bin/day23.rs:136-145 | the possible popped and followed completes the branches |
| Day23.FrontierPush | src/bin/day23.rs:141 | pushing a walk's entry keeps the stack accounting for the hikes |
| Day23.ForkStep | src/bin/day23.rs:138-142 | one entry pushed keeps the pushing loop's invariant |
| Day23.Fork | src/bin/day23.rs:138-142 | the loop pushes a branch for each possible but the last |
| Day23.Arrived | src/bin/day23.rs:78-81 | arriving keeps the search's invariant with the longest length updated |
| Day23.Halted | src/bin/day23.rs:84-93 | stopping keeps the search's invariant |
| Day23.SlideOn | src/bin/day23.rs:85-124 | sliding keeps the search's invariant and lowers its weight |
| Day23.Junction | src/bin/day23.rs:125-148 | branching keeps the search's invariant and lowers its weight |
| Day23.Climb | src/bin/day23.rs:77-151 | the inner loop follows one hike to its end, keeps the search's invariant and lowers the weight of the stack |
| Day23.Explore | src/bin/day23.rs:72-197 | the stack search returns the length of the longest hike from start to end |
| Day23.LongestSlipperyHike | src/bin/day23.rs:72-155 | the answer is the longest hike with icy slopes |
| Day23.LongestHike | src/bin/day23.rs:157-197 | the answer is the longest hike with dry slopes |

## Left out

- Day 6, day 24 and day 25 are not part of this model. Day 6 solves a quadratic in floating point. Day 24 uses floating-point intersections and the z3 solver. Day 25 calls a community-detection library.
- grid.rs and position.rs are not part of this model. `Grid` models only the interface the solvers call: construction in row-major order, `get`, rows and columns, moves, rotations and neighbours.
- Every `main`: reading the input file, printing the answers and error boxing. The `Display` of day 14 only prints.
- Integer widths: u8 wraps only in the day 15 hash, where the model wraps it. u32, u64, i64, usize and isize are unbounded integers elsewhere, so an overflow the source would hit in those types is not modelled.
- Day1.Part2: slices the line at every character, while the source slices `&line[idx..]` at every byte index. A multi-byte character therefore panics in the source but not in the model.
- Day8: the `[1..]` and `[..3]` byte slices of the node line are character slices in the model.
- Day17.CityOf: measures the width in characters and reads each character as a block, while the source uses the byte length and `bytes()`. The two agree only for ASCII input.
- Day15.ByteOf: takes a character's code point modulo 256 as its byte. The source hashes the UTF-8 bytes, so this matches only for ASCII input.
- Day4.Score: requires `m < 32`, because `(1_u32 << m) >> 1` overflows from 32 matches on.
- Day4.Part2: requires `InRange`, because the source's slice of the next `m` counters panics past the last card.
- Day5.Part1: requires `WellFormed`. A map line with a negative length parses, then panics when its range is built.
- Day5: `part2` is not modelled. It depends on the coalescing semantics of the `rangemap` crate's `RangeSet`.
- Day8.CountSteps: takes a ghost `arrival` and requires that the walk arrives. The source loops forever or panics on `unwrap` when it does not.
- Day8: `part2` is not modelled. It relies on an unproven assumption about the input's cycles and on `lcm`.
- Day10.GeneratePath: starts from the corrected first step, as does `Day10.PathIsLoop`. On a map such as `FS7 / L-J` the source's first step panics at its `expect`, while the model follows the loop. The Findings table records the discrepancy.
- Day10.Trace: carries a `fuel` bound and returns `Diverges` when the bound runs out. The source's `while` loop is unbounded.
- Day17.MinimizeHeatLoss: requires a non-empty grid, because the source's `width() - 1` and `height() - 1` underflow on an empty one. The priority queue is a sequence scanned for a least entry, so the `BinaryHeap`'s order among equal losses is not modelled.
- Day19.Part2: takes a ghost `rank` under which every workflow points only to lower-ranked ones, so the source's recursion terminates. Inputs whose workflows loop are not modelled by `Part2`; `Follow` reports them as `Diverges`.
- Day20.Drain: the pulse queue is drained with a `fuel` bound and gives `Diverges` when the bound runs out. The `Cell` interior mutability is plain state.
- Day20: `part2` is not modelled. It is an input-shape heuristic with an unbounded counter loop and `lcm`.
- Day21: the Lagrange extrapolation of `part2` is not modelled, because it is in `f64`.
- Day22.Settle: requires every brick's z range to run upwards, and `Day22.MoveDownTo` requires the new top not to underflow. `Day22.BrickOf` accepts a reversed brick such as "0,0,5~0,0,2" (z from 5 to 3). On it the source's `move_down_to` underflows and panics when the brick drops to level 1, and at level 2 or higher it makes a backward brick and goes on. Neither behaviour is modelled.
- Day22: the sum over fallen bricks ranges over a set, so the HashMap iteration order is not modelled. The order does not change a sum.
- Day23.SlipperyNoLonger: requires the end tile to be open.
- HashMap and HashSet iteration order in general: wherever only a sum or a set is taken, the model uses a fixed order or a set.
- Day13.Example1Clean, and the other `Day13.Example` lemmas: they hold for any pattern whose cells are those of the example lines (`Day13.PatternIs`). Reading the text with `Day13.PatternOf` is not part of them.
- Some test examples are not stated. The properties above hold for every input; for each of these the obstacle is named:
  - day 1, part two (281): its indented lines are beyond what the verifier unfolds within its limits. `Day1.EightWoThree` states one of them.
  - day 3 (4361 and 467835): `Day3.SumRows` over `Day3.NearSymbolRows` of the literal 10 by 10 schematic is not unfolded by the verifier; the assertion of 4361 is left unproved.
  - day 10 (4, 8, 4, 8 and 10): `Day10.Part1` on the parsed 5 by 5 first example, with 25 steps of fuel, runs out of resource.
  - day 12, part two (525152): the fivefold rows have up to 99 springs and 20 groups. The proof used for part one, which lists every reachable state of `Day12.Count`, would need about 5400 states, 3388 of them for the last row alone.
  - day 14 (136 and 64): reading the literal 10 by 10 platform with `Day14.PlatformOf` alone runs out of resource.
  - day 16 (46 and 51): the answer is the ghost `Day16.Energized`, the tiles of every beam reachable from the start. Stating 46 means deciding reachability for each of the 400 beams of the 10 by 10 grid.
  - day 17 (102 and 94): the answer is the least heat of all routes. Stating 102 needs a lower bound over every route through the 13 by 13 city, which no unfolding gives.
  - day 19 (19114 and 167409079868000): `Day19.Part1` on the literal example input runs out of resource.
  - day 20 (32000000 and 11687500): each answer is the tally after 1000 presses of the button, so `Day20.Presses` would have to be unfolded 1000 times, each press draining its queue of pulses.
  - day 21 (2, 4, 6 and 16): one step from the start on the literal map, stated as a set of positions, costs between a third and a half of the solver's budget. Combining the steps of the two plots reached after one step already runs out of resource.
  - day 22 (5 and 7): reading the single line `1,0,1~1,2,1` with `Day22.BrickOf` costs about four fifths of the solver's budget, and the example has seven.
  - day 23 (94 and 154): the answer is the longest of all hikes. Stating 94 needs an upper bound over every hike through the 23 by 23 map.

## Findings

| source | as written | input that shows it | evidently intended | confidence | as-written member | corrected member |
|---|---|---|---|---|---|---|
| src/range_extension.rs:12 | `contains_range` asks whether this range contains the other's end, which is exclusive | `0..1` against itself: false | every value of the other range lies in this one | not executed | RangeExtension.ContainsRangeMissesItself | RangeExtension.Covers |
| src/bin/day10.rs:87-92 | for Left and Right the lists of tiles accepted as the first step name tiles that open away from the start | `FS7 / L-J`: the `expect` panics | accept a neighbour that opens back towards the start | not executed | Day10.FirstStepCounterexample | Day10.FirstStepSpec |
| src/bin/day10.rs:158 | `double_area - path.len()` in `usize` | the 2x2 loop `S7 / LJ`: 2 - 4 underflows | 0 enclosed tiles | not executed | Day10.Part2Counterexample | Day10.RectangleInterior |
| src/bin/day11.rs:13-41 | the largest x (lines 13-15) is taken as the row bound and the largest y as the column bound, then the row incrementer is indexed by y (lines 40-41) | one galaxy at (0, 1): index 1 of a one-entry vector | bound the rows by y and the columns by x | not executed | Day11.AsWrittenCounterexample | Day11.ExpandSpec |
