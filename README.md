# Advent of Code 2023, days 1–16: a verified model

This project models the puzzle solutions of an Advent of Code 2023 repository, one Dafny module per source file:

- **Day 1:** the calibration digits. Part 2 also reads digits spelled as words, and overlapping words count.
- **Day 2:** the per-colour maxima of the cube games.
- **Day 3:** the engine-schematic scanner, the adjacency of part numbers to symbols, and the gear ratios.
- **Day 4:** scratch-card scores, and the copy propagation over the `played` array.
- **Day 5:** the seven-stage seed-to-location range mapping.
- **Day 6:** the boat races.
- **Day 7:** Camel Cards hand classification and ordering, the joker substitution and the ranking sum.
- **Day 8:** the cyclic instruction walk through the node network, and gcd/lcm for the ghost walk.
- **Day 9:** difference tables with forward and backward extrapolation.
- **Day 10:** pipe-maze coordinates, the start-pipe inference and the scanline count of enclosed cells.
- **Day 11:** galaxy expansion and Manhattan distances.
- **Day 12:** spring-arrangement counting, both the brute-force enumeration and the recursive count.
- **Day 13:** mirror search with smudges.
- **Day 14:** rock tilting, load counting and the spin-cycle repetition skip.
- **Day 15:** the HASH function and the 256-box lens table.
- **Day 16:** the beam simulator over a grid of mirrors and splitters, which is the most detailed part of the model.

Code that changes state step by step keeps that form, proved against pure specification functions:

- classes with `modifies` clauses: `Game`, `MoveSet`, `Grid`, `FloodGrid`;
- arrays: the day-16 tile grid, the day-15 boxes, the day-4 `played` copies;
- methods with loop invariants for the Rust loops.

Pure iterator pipelines become functions with lemmas. Shared helpers live in `Wrappers` (`Option`, `Result`, where `Failure` stands for a panic, with the panic's message where the code gives one) and in `Text` (splitting and decimal parsing).

Integers are unbounded throughout. The Rust code uses `u32`, `u64`, `usize` and `i32`, widths chosen wide enough for the magnitudes of the puzzle; the model does not bound them. The one reduction the code performs, the day-15 hash's `% 256` at every step, is modelled.

## Model

| member | source | states |
|---|---|---|
| Day01Part1.FindDigit | day-1/src/part1.rs:8-10 | the first digit from `i` on, with no digit before it, and none exactly when no digit follows |
| Day01Part1.RFindDigit | day-1/src/part1.rs:13-15 | the last digit before `i`, with no digit after it, and none exactly when no digit precedes |
| Day01Part1.LineValue | day-1/src/part1.rs:7-19 | fails exactly on a line without a digit; otherwise a two-digit value of at most 99 |
| Day01Part1.LineValueOfDigits | day-1/src/part1.rs:7-19 | the value is ten times the first digit plus the last digit |
| Day01Part1.SingleDigit | day-1/src/part1.rs:7-19 | a line with a single digit `d` is worth `11 * d` |
| Day01Part1.Total | day-1/src/part1.rs:4-22 | fails exactly when some line has no digit; otherwise at most 99 per line |
| Day01Part1.Process | day-1/src/part1.rs:4-22 | the loop's running sum equals the sum of the line values |
| Day01Part1.Example | day-1/src/part1.rs:28-37 | the example sums to 142 |
| Day01Part2.NeedleValue | day-1/src/part2.rs:19-22 | every needle stands for a number from 1 to 9 |
| Day01Part2.NumberWord | day-1/src/part2.rs:4-17 | a success is a number from 1 to 9 |
| Day01Part2.NumberWordMeaning | day-1/src/part2.rs:4-17 | succeeds exactly when a needle starts the input, with that needle's number, consuming it |
| Day01Part2.NeedlesPrefixFree | day-1/src/part2.rs:19-22 | no needle is a prefix of another, so the alternatives never compete |
| Day01Part2.NeedlesKnown | day-1/src/part2.rs:37 | every needle is read by `numberword`, so "All Needles are known" never panics |
| Day01Part2.FirstMatch | day-1/src/part2.rs:27-29 | the first occurrence of a needle, none exactly when it does not occur |
| Day01Part2.LastMatch | day-1/src/part2.rs:43-45 | the last occurrence of a needle, none exactly when it does not occur |
| Day01Part2.FirstMatches | day-1/src/part2.rs:24-33 | exactly the needles that occur, each with its first position |
| Day01Part2.LastMatches | day-1/src/part2.rs:40-49 | exactly the needles that occur, each with its last position |
| Day01Part2.MinByKey | day-1/src/part2.rs:34 | none exactly for no candidates; otherwise a candidate at the smallest position |
| Day01Part2.MaxByKey | day-1/src/part2.rs:50 | none exactly for no candidates; otherwise a candidate at the largest position |
| Day01Part2.MinByKeyFirst | day-1/src/part2.rs:34 | ties go to the first candidate |
| Day01Part2.MaxByKeyLast | day-1/src/part2.rs:50 | ties go to the last candidate |
| Day01Part2.Pick | day-1/src/part2.rs:35-54 | fails exactly when a side found nothing; otherwise ten times the left needle's number plus the right one's, since every needle is known and "All Needles are known" never panics |
| Day01Part2.ParseLine | day-1/src/part2.rs:23-55 | a success is a value from 11 to 99 |
| Day01Part2.FirstNumber | day-1/src/part2.rs:24-36 | the first position where a digit or number word starts |
| Day01Part2.LastNumber | day-1/src/part2.rs:40-52 | the last position where a digit or number word starts: none starts after it, and none at all when nothing is found |
| Day01Part2.NumberAtIffOccurs | day-1/src/part2.rs:19-22 | a number starts at a position exactly when a needle occurs there |
| Day01Part2.LeftmostNeedle | day-1/src/part2.rs:24-36 | the picked needle occurs at the first position where any needle does, and nothing is picked exactly when none occurs |
| Day01Part2.RightmostNeedle | day-1/src/part2.rs:40-52 | the picked needle occurs at the last position where any needle does, and nothing is picked exactly when none occurs |
| Day01Part2.PickedValue | day-1/src/part2.rs:37-53 | a number starts where the picked needle occurs, and it is that needle's number |
| Day01Part2.FirstAndLastNumber | day-1/src/part2.rs:24-52 | a first number exists exactly when a last one does |
| Day01Part2.ParseLineIsCalibration | day-1/src/part2.rs:23-55 | fails exactly on a line where no number starts; otherwise ten times the first number plus the last, overlapping words included |
| Day01Part2.Sum | day-1/src/part2.rs:58 | fails exactly when some line does; otherwise between 11 and 99 per line |
| Day01Part2.ProcessPart2 | day-1/src/part2.rs:57-59 | fails exactly when some line has no number; otherwise between 11 and 99 per line |
| Day01Part2.ExampleOverlap | day-1/src/part2.rs:79 | "eighthree" is worth 83: the words share their "t" |
| Day02Game.MaximaIsMax | day-02/src/my_parser.rs:43-67 | each colour's recorded maximum bounds every move of that colour and is 0 or the count of one of them, so it is 0 when the colour never appears |
| Day02Game.FitsIffMovesFit | day-02/src/my_parser.rs:39-41 | a game is possible under a limit exactly when every single move stays within the limit for its colour |
| Day02Game.Game.constructor | day-02/src/my_parser.rs:89-102 | a parsed game keeps its id and draws, with all maxima at zero |
| Day02Game.Game.InitializeMax | day-02/src/my_parser.rs:43-67 | the nested loops store the per-colour maxima of all moves of all draws |
| Day02Part1.PossibleIdsBounds | day-02/src/part1.rs:116-128 | the sum is at most the sum of all ids, all of it when every game is possible and nothing when none is |
| Day02Part1.GameCountsIffDrawsFit | day-02/src/part1.rs:110-120 | a game counts exactly when no draw shows more than 12 red, 13 green or 14 blue cubes |
| Day02Part1.Process | day-02/src/part1.rs:106-131 | every game's maxima are recorded, and the answer is the sum of the ids of the games possible with the bag |
| Day02Part2.PowerIsFewestCubes | day-02/src/part2.rs:4-8 | the maxima are the smallest bag the game is possible with: they make it possible, and every bag that does has at least their power |
| Day02Part2.MissingColorZeroPower | day-02/src/part2.rs:4-8 | a game in which some colour never appears has power 0 |
| Day02Part2.Process | day-02/src/part2.rs:10-23 | every game's maxima are recorded, and the answer is the sum of their powers |
| Day02Part2.ExampleGameOne | day-02/src/part2.rs:31 | the example's first game has maxima 4 red, 2 green and 6 blue |
| Day02Part2.ExampleGameTwo | day-02/src/part2.rs:32 | the example's second game has maxima 1 red, 3 green and 4 blue |
| Day02Part2.ExampleGameThree | day-02/src/part2.rs:33 | the example's third game has maxima 20 red, 13 green and 6 blue |
| Day02Part2.ExampleGameFour | day-02/src/part2.rs:34 | the example's fourth game has maxima 14 red, 3 green and 15 blue |
| Day02Part2.ExampleGameFive | day-02/src/part2.rs:35 | the example's fifth game has maxima 6 red, 3 green and 2 blue |
| Day02Part2.ExamplePowerSum | day-02/src/part2.rs:29-38 | the draws of the example's five games, as written in the test, have powers 48, 12, 1560, 630 and 36, 2286 in all |
| Day03Parser.ToU32IsDecimal | day-03/src/my_parser.rs:33-42 | summing each digit times the power of ten of its place from the right is the usual decimal reading of the digits |
| Day03Parser.ToU32Append | day-03/src/my_parser.rs:33-42 | appending a digit shifts the value one decimal place |
| Day03Parser.LineParser | day-03/src/my_parser.rs:44-111 | the scanner records every maximal run of digits once, left to right, with its first and last column and its decimal value, and every symbol other than `.` once, with its column |
| Day03Parser.ScanDigit | day-03/src/my_parser.rs:50-54 | a digit opens a token or extends the open one |
| Day03Parser.CloseToken | day-03/src/my_parser.rs:56-72 | a token ends before a non-digit or at the end of the line, and its run is recorded with its value |
| Day03Parser.AddSymbol | day-03/src/my_parser.rs:75-86 | a symbol gets its part at its own column |
| Day03Parser.ParseLines | day-03/src/part1.rs:45-49 | every line is scanned with its index as line number |
| Day03Part1.Below | day-03/src/part1.rs:9-10 | `checked_sub(1).unwrap_or(n)` is one less, but not below zero |
| Day03Part1.NearIsDistanceOne | day-03/src/part1.rs:5-15 | the saturating windows are exactly the cells at most one line away and at most one column left of the start or right of the end |
| Day03Part1.Touches | day-03/src/part1.rs:4-20 | a number touches the symbols exactly when one of them lies in its window |
| Day03Part1.InRangeOf | day-03/src/part1.rs:21-41 | a number is in range exactly when another number on a neighbouring line starts or ends in its window |
| Day03Part1.CountedSumFacts | day-03/src/part1.rs:67-70 | the filtered sum is at most the sum of all numbers, all of it when every number counts and nothing when none does |
| Day03Part1.CountedParts | day-03/src/part1.rs:67-69 | the kept numbers are exactly those of the schematic that touch a symbol or are in range of another number |
| Day03Part1.CountedSumIsSum | day-03/src/part1.rs:67-70 | the filtered sum is the sum of the kept numbers |
| Day03Part1.Process | day-03/src/part1.rs:44-73 | the answer is the sum of exactly the numbers that touch a symbol or are in range of another number, at most the sum of all numbers |
| Day03Part1.NeighbouringNumbersCount | day-03/src/part1.rs:21-41 | two numbers near each other count without any symbol: two lines of one number each add up to both |
| Day03Part1.NeighbouringExample | day-03/src/part1.rs:21-41 | `1` over `2` adds up to 3 |
| Day03Part1.IsolatedNumbersDoNotCount | day-03/src/part1.rs:67-70 | a schematic without symbols whose numbers are far apart adds up to nothing |
| Day03Part2.Gears | day-03/src/part2.rs:10-17 | the gears are exactly the `*` symbols |
| Day03Part2.Candidates | day-03/src/part2.rs:19-28 | the candidates are exactly the numbers that touch some gear |
| Day03Part2.TouchingGear | day-03/src/part2.rs:33-37 | the numbers kept for one gear are exactly those that touch it |
| Day03Part2.CandidatesKeepTouching | day-03/src/part2.rs:19-37 | picking the candidates first loses no number touching a gear, and keeps their order |
| Day03Part2.RatioFromCandidates | day-03/src/part2.rs:38-42 | a gear's ratio is the product of its two numbers when exactly two touch it, and nothing otherwise |
| Day03Part2.RatioSumIsSumOfRatios | day-03/src/part2.rs:30-44 | the sum adds every gear's ratio among all numbers |
| Day03Part2.Process | day-03/src/part2.rs:3-46 | the answer is the sum, over the gears, of the product of the two numbers touching each gear that exactly two numbers touch |
| Day03Part2.NoPairNoRatio | day-03/src/part2.rs:38-42 | when no gear touches exactly two numbers the sum is zero |
| Day04Part1.CountInBounds | day-04/src/part1.rs:9-14 | a card has no match exactly when none of its numbers is a winning number, and all match exactly when all of them are |
| Day04Part1.CountInAppend | day-04/src/part1.rs:9-14 | counting matches splits over the concatenation of number lists |
| Day04Part1.ScoreDoubles | day-04/src/part1.rs:15-19 | a card scores exactly when it has a match; one match is worth one point and every further match doubles the points |
| Day04Part1.TotalAppend | day-04/src/part1.rs:5-21 | the points of two piles of cards add up |
| Day04Part1.TotalZero | day-04/src/part1.rs:5-21 | the pile is worth nothing exactly when no card has a match |
| Day04Part1.ExampleMatches | day-04/src/part1.rs:31-36 | the example cards have 4, 2, 2, 1, 0 and 0 matches |
| Day04Part1.ExampleTotal | day-04/src/part1.rs:29-39 | cards with those matches are worth 13 points |
| Day04Part2.CopiesBelowBounds | day-04/src/part2.rs:3-18 | one ends up with at least one instance of every card, and with just the originals when no card has a match |
| Day04Part2.RoundDone | day-04/src/part2.rs:13-15 | adding the instances of card `idx` to the cards its matches reach completes that card's round |
| Day04Part2.Process | day-04/src/part2.rs:3-18 | with the inner loop stopped at the last card, the answer is the total number of instances of all cards, at least the number of cards |
| Day04Part2.Credit | day-04/src/part2.rs:13-15 | the inner loop adds the instances of the card being played to each card from the next one to `last`, leaving the rest as they are |
| Day04Part2.Sum | day-04/src/part2.rs:17 | summing the instance counts once every card is played gives that total |
| Day04Part2.ProcessAsWritten | day-04/src/part2.rs:13-15 | as written, the inclusive range reaches index `max_cards` and panics exactly when some card's matches reach past the last card; otherwise it gives the total |
| Day04Part2.LastCardWinsPanics | day-04/src/part2.rs:13 | whenever the last card has a match the code as written panics, although every card's instance count is well defined |
| Day04Part2.ExampleTotal | day-04/src/part2.rs:25-35 | the example's cards end up with 1, 2, 4, 8, 14 and 1 instances, 30 in all |
| Day05Part1.LookupFirst | day-05/src/part1.rs:3-13 | a number no line of the map covers stays as it is; otherwise the first covering line sends it to the same offset from its destination start |
| Day05Part1.LookupLandsInRange | day-05/src/part1.rs:3-13 | a covered number lands inside the destination range of the line that covers it |
| Day05Part1.Mapping | day-05/src/part1.rs:3-13 | the loop with its `break` at the first covering line computes that lookup |
| Day05Part1.Minimum | day-05/src/part1.rs:27-28 | `min` finds nothing exactly for no values, and otherwise a value that is at most every value |
| Day05Part1.MinimumOfSameValues | day-05/src/part1.rs:27 | the minimum depends only on which values occur, not on their order or repetition |
| Day05Part1.Process | day-05/src/part1.rs:15-30 | the answer is the location of some seed that is no greater than any seed's location; no seeds panic |
| Day05Part1.ExampleLowest | day-05/src/part1.rs:36-72 | the worked example's seeds end at 82, 43, 86 and 35, so the answer is 35 |
| Day05Part2.Pairs | day-05/src/part2.rs:8 | the seed line is read as consecutive (start, length) pairs, a trailing odd number dropped |
| Day05Part2.ExpandMembers | day-05/src/part2.rs:8-10 | the flattened ranges hold exactly the seeds some range contains |
| Day05Part2.ExpandEmpty | day-05/src/part2.rs:8-10 | there is no seed at all exactly when every range is empty |
| Day05Part2.Process | day-05/src/part2.rs:3-21 | the answer is the lowest location of any seed in one of the ranges; when every range is empty the `expect` panics |
| Day05Part2.UnitRangesAreSeeds | day-05/src/part2.rs:3-21 | on a seed line of ranges of length one, part 2 gives the answer part 1 gives for the starts alone |
| Day06Part1.Alternatives | day-06/src/part1.rs:33-40 | `time - 1` distances (none when `time <= 1`), each at least 1, and the list reads the same backwards |
| Day06Part1.BeatsIffInInterval | day-06/src/part1.rs:37 | a hold beats the record exactly when it lies between the first winning hold `lo` and `time - lo` |
| Day06Part1.CountPrefix | day-06/src/part1.rs:47-52 | among the first `k` holds, the winners are those of `1..=k` inside `lo..=time-lo` |
| Day06Part1.WaysFromInterval | day-06/src/part1.rs:47-52 | the number of ways to win is `time + 1 - 2 * lo` |
| Day06Part1.ProductOfZeroIff | day-06/src/part1.rs:54 | a product of counts is 0 exactly when one of the counts is |
| Day06Part1.ProductZeroIff | day-06/src/part1.rs:44-54 | the product is 0 exactly when some race cannot be won |
| Day06Part1.ExampleProduct | day-06/src/part1.rs:62-68 | the races 7/9, 15/40, 30/200 give 4 · 8 · 9 = 288 |
| Day06Part2.KeepDigits | day-06/src/part2.rs:20 | keeps only ASCII digits, never lengthening the line |
| Day06Part2.KeepDigitsMeaning | day-06/src/part2.rs:20-21 | nothing is kept exactly when the line has no digit, the case where the parse panics |
| Day06Part2.KeepDigitsAppend | day-06/src/part2.rs:20 | filtering distributes over concatenation |
| Day06Part2.LineNumber | day-06/src/part2.rs:19-22 | fails exactly on a line without digits; otherwise the value of its digits read as one decimal number |
| Day06Part2.MyParser | day-06/src/part2.rs:16-29 | fails exactly when a line has no digit or there are not exactly two lines; otherwise time from the first line and distance from the second |
| Day06Part2.Process | day-06/src/part2.rs:31-40 | fails exactly when the parse does; the count of winning holds is at most `time` |
| Day06Part2.ExampleRace | day-06/src/part2.rs:46-53 | the example lines read as time 71530 and distance 940200 |
| Day06Part2.ExampleWays | day-06/src/part2.rs:46-53 | the example race is won in 71503 ways |
| Day07Part1.MaxMultBounds | day-07/src/part1.rs:52-75 | in a non-empty hand the largest card count lies between one and the hand's size, so the `Malformed input` panic cannot be reached |
| Day07Part1.CountCards | day-07/src/part1.rs:44-47 | the first map holds exactly the cards of the hand, each with the number of times it occurs |
| Day07Part1.CountCounts | day-07/src/part1.rs:48-51 | the second map holds, for every count, how many cards occur that often |
| Day07Part1.MaxCount | day-07/src/part1.rs:52 | the maximum bounds every card's count and is reached by one of them |
| Day07Part1.HandTypeOf | day-07/src/part1.rs:43-77 | the two maps and the match on the largest count compute the hand's type |
| Day07Part1.ClassifyPermutation | day-07/src/part1.rs:43-77 | the type depends only on which cards a hand holds, not on their order |
| Day07Part1.FiveOfAKindIff | day-07/src/part1.rs:74 | five of a kind exactly when all five cards are the same |
| Day07Part1.HighCardIff | day-07/src/part1.rs:53 | high card exactly when all five cards differ |
| Day07Part1.LexFlip | day-07/src/part1.rs:95-108 | comparing the cards the other way round flips the outcome |
| Day07Part1.LexTransitive | day-07/src/part1.rs:95-108 | the card-by-card comparison is transitive |
| Day07Part1.Cmp | day-07/src/part1.rs:91-113 | the loop with its early break computes the order: the types decide, then the first differing pair of cards, else equal |
| Day07Part1.CompareEqualIff | day-07/src/part1.rs:121-125 | two hands compare equal exactly when they have the same type and the same cards |
| Day07Part1.TypeDecides | day-07/src/part1.rs:93 | a stronger type wins whatever the cards |
| Day07Part1.SortFacts | day-07/src/part1.rs:166 | the sorted games are a permutation of the games, in order of their hands |
| Day07Part1.SortStable | day-07/src/part1.rs:166 | `sort_by` is stable: the games whose hands compare equal to any given hand come out in the order they were listed |
| Day07Part1.WinningsAtLeastBets | day-07/src/part1.rs:167-170 | the winnings are at least every single bet |
| Day07Part1.TotalWinnings | day-07/src/part1.rs:166-170 | the fold adds up each game's bet times its rank in the sorted list |
| Day07Part1.Process | day-07/src/part1.rs:164-173 | the answer is the total winnings of the games sorted by hand, with the jack between ten and queen |
| Day07Part2.CardRank | day-07/src/part2.rs:24-39 | the joker is the weakest card, below the two |
| Day07Part2.HighestHand | day-07/src/part2.rs:45-51 | the highest hand is one of the list's hands |
| Day07Part2.HighestIsMax | day-07/src/part2.rs:45-51 | no hand of the list is greater than the highest, so none has a stronger type |
| Day07Part2.PermutateHand | day-07/src/part2.rs:89-113 | the list starts with the hand, holds one entry per joker and other card besides, keeps every entry consistent and reachable by replacing jokers, and dominates every way of playing the jokers |
| Day07Part2.ExploreChild | day-07/src/part2.rs:95-107 | one step of the inner loop adds the best hand reachable once that card replaces that joker |
| Day07Part2.ExploredAll | day-07/src/part2.rs:92-111 | once every joker was tried with every other card, every play of the jokers is dominated by some listed hand |
| Day07Part2.BestOfUnique | day-07/src/part2.rs:204 | the best type the jokers allow is unique |
| Day07Part2.BestType | day-07/src/part2.rs:204 | a hand's new type is the best type any play of its jokers gives, never weaker than its own |
| Day07Part2.NoJokerKeepsType | day-07/src/part2.rs:92 | a hand without jokers keeps its type |
| Day07Part2.Process | day-07/src/part2.rs:200-212 | every hand gets the best type its jokers allow, and the answer is the total winnings ranked with the joker as the weakest card |
| Day08Shared.MoveSet.constructor | day-08/src/shared.rs:30-34 | a new move set starts at the first move |
| Day08Shared.MoveSet.Next | day-08/src/shared.rs:36-44 | the k-th call returns the move at k modulo the number of moves, advances the cursor modulo that number, and never ends the iteration |
| Day08Shared.NodeMapFirst | day-08/src/part1.rs:6-9 | the map holds exactly the listed names, each with the first node listed under it (`or_insert` keeps the first) |
| Day08Shared.BuildMap | day-08/src/part1.rs:6-9 | the insertion loop builds exactly that map |
| Day08Part1.LostStaysLost | day-08/src/part1.rs:13 | once the walk reaches a name missing from the map it is lost for good |
| Day08Part1.Walk | day-08/src/part1.rs:10-24 | a count returned is a number of moves after which the walk from AAA first stands on ZZZ; a failure means ZZZ is not reached within the bound |
| Day08Part1.Process | day-08/src/part1.rs:4-26 | the answer is the number of moves from AAA to the first arrival at ZZZ, following the moves cyclically |
| Day08Part1.Example | day-08/src/part1.rs:54-66 | in the second example R then L lead from AAA through CCC to ZZZ: 2 moves |
| Day08Part2.Gcd | day-08/src/part2.rs:56-65 | the `while b > 0` loop computes Euclid's greatest common divisor |
| Day08Part2.EuclidDivides | day-08/src/part2.rs:56-65 | the result divides both numbers |
| Day08Part2.EuclidGreatest | day-08/src/part2.rs:56-65 | every common divisor divides the result, so it is the greatest |
| Day08Part2.LcmIsCommonMultiple | day-08/src/part2.rs:67-69 | for positive numbers `a * b / gcd(a, b)` is a positive common multiple of both, no larger than their product |
| Day08Part2.VecLcmIsCommonMultiple | day-08/src/part2.rs:52-54 | the fold from 1 is a common multiple of every number in the list |
| Day08Part2.EuclidScale | day-08/src/part2.rs:56-65 | scaling both numbers by `c` scales their gcd by `c` |
| Day08Part2.LcmLeast | day-08/src/part2.rs:67-69 | for positive numbers `a * b / gcd(a, b)` divides every common multiple of both: it is the least one |
| Day08Part2.VecLcmLeast | day-08/src/part2.rs:52-54 | the fold divides every common multiple of the list: it is the least common multiple |
| Day08Part2.VecLcmPermutation | day-08/src/part2.rs:48-54 | reordering the numbers does not change the fold, so the order in which the walkers arrive does not change the answer |
| Day08Part2.Starts | day-08/src/part2.rs:16-19 | the walkers start on exactly the nodes whose name ends in `A`, in order |
| Day08Part2.NoArrival | day-08/src/part2.rs:27-47 | a walker still walking after `n` moves arrived at no time up to `n`, and one that hits a missing name never arrives |
| Day08Part2.Visit | day-08/src/part2.rs:31-43 | a walker reaching a `Z` node is recorded with the round number, any other walks on, and a missing name fails; no walker is lost or duplicated |
| Day08Part2.Round | day-08/src/part2.rs:28-46 | one round draws one move, moves every walker, and keeps the walkers split between those still walking and those recorded with their first arrival |
| Day08Part2.WalkAll | day-08/src/part2.rs:27-47 | when the rounds end every walker is recorded once with the move count of its first arrival at a `Z` node |
| Day08Part2.EveryStartArrives | day-08/src/part2.rs:27-47 | once no walker is left, every start is among the recorded ones |
| Day08Part2.Process | day-08/src/part2.rs:4-50 | the answer is the lcm of the first arrival times of all walkers, a multiple of each of them; unequal numbers of `A` and `Z` nodes fail the assertion |
| Day09Shared.Diffs | day-09/src/shared.rs:6 | the differences of neighbours: one fewer than the numbers, entry `i` being `xs[i + 1] - xs[i]` |
| Day09Shared.TableIsTable | day-09/src/shared.rs:1-13 | the stored rows start with the numbers, each further row holds the differences of the one above, only the bottom row has all-zero differences, and there are at most as many rows as numbers |
| Day09Shared.TableUnique | day-09/src/shared.rs:1-13 | only one list of rows has those properties, so the table is determined by the numbers |
| Day09Shared.CreateSequences | day-09/src/shared.rs:1-13 | the loop stores exactly that table |
| Day09Shared.DiffsAppend | day-09/src/shared.rs:6 | appending a number appends one difference |
| Day09Shared.ParseNumbersMeaning | day-09/src/shared.rs:15-25 | the line parses exactly when every space-separated piece is an integer, and yields those integers in order |
| Day09Part1.Extrapolate | day-09/src/part1.rs:11-20 | the bottom-up walk over the rows adds up their last numbers, and panics exactly on an empty table or an empty row |
| Day09Part1.NextExtends | day-09/src/part1.rs:3-20 | the extrapolated value extends the history so that its differences are extended by the value extrapolated for them: the table stays consistent |
| Day09Part1.ArithmeticNext | day-09/src/part1.rs:3-20 | a history with a constant step continues with its last value plus that step |
| Day09Part1.Example | day-09/src/part1.rs:37-44 | the example's first history `0 3 6 9 12 15` continues with 18 |
| Day09Shared.TotalFailsIff | day-09/src/part1.rs:22-30 | the sum over the lines of any extrapolation, the next values of part 1 or the previous values of part 2, fails exactly when some line does not parse |
| Day09Part1.Process | day-09/src/part1.rs:22-30 | the loop over the lines computes the sum of the next values of the histories, stopping at the first line that does not parse |
| Day09Part2.Extrapolate | day-09/src/part2.rs:8-15 | the bottom-up walk subtracts from each row's first number the value found below it, and panics exactly on an empty table or an empty row |
| Day09Part2.PreviousExtends | day-09/src/part2.rs:1-15 | the value extrapolated backwards extends the history at the front so that its differences gain, in front, the value extrapolated for them |
| Day09Part2.ArithmeticPrevious | day-09/src/part2.rs:1-15 | a history with a constant step is preceded by its first value minus that step |
| Day09Part2.Example | day-09/src/part2.rs:58-66 | the example's first history `0 3 6 9 12 15` is preceded by -3 |
| Day09Part2.Process | day-09/src/part2.rs:31-52 | the loop over the lines computes the sum of the previous values of the histories, stopping at the first line that does not parse |
| Day10Grid.Opposite | day-10/src/types/directions.rs:12-19 | turning round never faces the same way |
| Day10Grid.OppositeInvolution | day-10/src/types/directions.rs:12-19 | East↔West and North↔South: turning round twice is the identity |
| Day10Grid.CalculateCoordinates | day-10/src/types/coordinates.rs:17-40 | no neighbour exactly for North from line 0 and West from column 0; otherwise one component moves by one in the named direction and the other stays |
| Day10Grid.StepBack | day-10/src/types/coordinates.rs:17-40 | a defined step followed by the opposite step is defined and returns to the start |
| Day10Grid.SamePipeSameHash | day-10/src/types/pipe.rs:17-22 | pipes equal by position hash alike (hashing uses the position only, lines 41-48) |
| Day10Grid.NeighborCoordinates | day-10/src/types/pipe.rs:59-69 | panics exactly on a pipe without connections; otherwise at most two coordinates, each the defined step along one connection |
| Day10Grid.Connecting | day-10/src/types/grid.rs:69-83 | the probed directions whose neighbour lists the opposite direction, all of them and only them; a neighbour without connections fails the probe |
| Day10Grid.ConnectingIncreasing | day-10/src/types/grid.rs:69-83 | the kept directions stay in North, South, East, West order |
| Day10Grid.ConnectingFails | day-10/src/types/grid.rs:73-76 | a failing probe fails the whole scan with its message |
| Day10Grid.StartConnectionsSound | day-10/src/types/grid.rs:66-88 | the returned pair is two directions in iteration order, and the neighbour along each holds a pipe connecting back to the start |
| Day10Grid.Grid.constructor | day-10/src/types/grid.rs:51-64 | `line_max` rows of `column_max` empty cells and no start |
| Day10Grid.Grid.Contains | day-10/src/types/grid.rs:90-92 | a contained coordinate (column < column_max and line < line_max, coordinates.rs:12-14) indexes a cell |
| Day10Grid.Grid.Set | day-10/src/types/grid.rs:24-28 | writes `grid[line][column]` and changes no other cell and not the start |
| Day10Grid.Grid.GetStartConnections | day-10/src/types/grid.rs:66-88 | equals the specification of the start's connections, failing without a start or with fewer than two connecting neighbours |
| Day10Grid.Successors | day-10/src/types/pipe.rs:72-78 | exactly the pipes at neighbour coordinates inside the grid, each with cost 1, at most two |
| Day10Grid.Reachable | day-10/src/types/pipe.rs:74-77 | the pipes held at the in-grid coordinates, all of them and only them, each with cost 1 |
| Day10Flood.Flip | day-10/src/types/flood.rs:31-37 | Inside and Outside swap; the result is never a pipe and never the input |
| Day10Flood.FlipInvolution | day-10/src/types/flood.rs:16-20 | flipping twice is the identity |
| Day10Flood.FloodGrid.constructor | day-10/src/types/flood.rs:67-74 | `max_line` rows of `max_column` empty cells |
| Day10Parser.PipeOf | day-10/src/my_parser.rs:23-63 | fails exactly on a character outside the seven symbols; keeps the coordinate and the symbol; only 'S' lacks connections |
| Day10Parser.SymbolRoundTrip | day-10/src/my_parser.rs:8-20 | `get_symbol_for_s` recovers the character of each of the six pipe shapes |
| Day10Parser.StartSymbolExists | day-10/src/my_parser.rs:8-20 | any two directions in iteration order name a pipe shape with those very connections |
| Day10Parser.MaxLen | day-10/src/my_parser.rs:66-76 | the width is the length of the longest line: no line is longer, and one line has it (0 for no lines) |
| Day10Parser.RowPipes | day-10/src/my_parser.rs:72-87 | a line's pipes fail exactly on an unknown character; each lies on that line within its length |
| Day10Parser.Pipes | day-10/src/my_parser.rs:68-91 | all pipes fail exactly on an unknown character anywhere; each lies inside the width and height |
| Day10Parser.CellGrid | day-10/src/my_parser.rs:65-99 | the maze as cells: each coordinate holds the pipe its character stands for, '.' and short lines empty |
| Day10Parser.AppendLookups | day-10/src/my_parser.rs:94-99 | a later pipe at a coordinate overwrites an earlier one, and a later 'S' replaces the start |
| Day10Parser.RowFind | day-10/src/my_parser.rs:72-87 | a line's pipes hold, at each coordinate, what the line shows there |
| Day10Parser.RowStart | day-10/src/my_parser.rs:94-97 | the last 'S' among a line's pipes is the line's last 'S' |
| Day10Parser.PipesFind | day-10/src/my_parser.rs:68-99 | the collected pipes hold, at each coordinate, exactly the maze's cell |
| Day10Parser.PipesStart | day-10/src/my_parser.rs:94-100 | the start is an 'S' of the maze, and there is none exactly when the maze has no 'S' |
| Day10Parser.PlacePipes | day-10/src/my_parser.rs:94-99 | after the loop every cell holds the last pipe at its position, and the start is the last 'S' |
| Day10Parser.PlacedIsMaze | day-10/src/my_parser.rs:93-99 | cells agreeing with the collected pipes everywhere are the maze |
| Day10Parser.MyParser | day-10/src/my_parser.rs:65-103 | fails exactly on an unknown character, no 'S', or a start without two connecting neighbours; otherwise width = longest line, height = line count, cells = the maze, start = the last 'S' with its inferred connections |
| Day10Part2.State | day-10/src/part2.rs:32-49 | the scan state is never a pipe |
| Day10Part2.StateParity | day-10/src/part2.rs:32-49 | the state before a cell is Inside exactly when an odd number of '\|', 'F', '7' lie to its left in its row |
| Day10Part2.ScanMeaning | day-10/src/part2.rs:33-50 | after the scan no cell is empty, an empty cell became Inside exactly when an odd number of crossings lie to its left, and other cells are unchanged |
| Day10Part2.RowInsideIsOddEmpty | day-10/src/part2.rs:56-66 | on a loop-only row the Inside count is the number of empty cells with odd crossings to their left |
| Day10Part2.TotalInsideIsOddEmpty | day-10/src/part2.rs:30-66 | over a whole grid of loop pipes and empty cells, the scan leaves no cell empty and the Inside total is the number of empty cells, over all rows, with an odd number of crossings to their left in their row |
| Day10Part2.LoopRows | day-10/src/part2.rs:21-29 | the flood grid after drawing the loop has the grid's dimensions and holds only loop pipes and empty cells |
| Day10Part2.RayTrace | day-10/src/part2.rs:30-50 | the in-place scan leaves the flood grid equal to the row-by-row scan of its old contents |
| Day10Part2.DrawLoop | day-10/src/part2.rs:24-29 | each reached coordinate receives its pipe's symbol and every other cell stays empty |
| Day10Part2.Process | day-10/src/part2.rs:8-68 | fails exactly without a start or when its connections name no shape; otherwise the start cell alone gets its inferred symbol, the scanned grid has no empty cell, and the answer is its Inside count, which is the number of cells off the loop with an odd number of loop crossings to their left |
| Day10Part2.ExampleRow | day-10/src/part2.rs:76-85 | row ".\|..\|.\|..\|." of the first example encloses four cells |
| Day10Part2.AlongTheRow | day-10/src/part2.rs:37-43 | "L-J" keeps the state while "F-J" flips it |
| Day11.DistanceFacts | day-11/src/part1.rs:16-20 | the Manhattan distance is symmetric and zero exactly between equal positions |
| Day11.DistanceExample | day-11/src/part1.rs:104-118 | (6, 1) and (11, 5) are 9 apart, both ways |
| Day11.DistanceTriangle | day-11/src/part1.rs:16-20 | the distance obeys the triangle inequality |
| Day11.ShiftGap | day-11/src/part1.rs:22-31 | expansion moves two coordinates apart by the empty indices between them and so keeps their order strictly |
| Day11.ExpandedDistance | day-11/src/part1.rs:22-31 | the expanded distance of two galaxies is their distance plus the empty lines and empty columns between them |
| Day11.FindEmptyLines | day-11/src/part1.rs:34-43 | the result holds exactly the line indices below `max` that no galaxy is on |
| Day11.FindEmptyColumns | day-11/src/part1.rs:45-54 | the result holds exactly the column indices below `max` that no galaxy is in |
| Day11.MaxLeftOutHarmless | day-11/src/part1.rs:84-85 | the largest index, passed as an exclusive bound, is never counted as empty, and leaving it out moves no galaxy |
| Day11.ParseRow | day-11/src/part1.rs:65-76 | a line parses exactly when it holds only `#` and `.`, and its galaxies are exactly its `#` cells |
| Day11.ParseLines | day-11/src/part1.rs:59-78 | parsing fails exactly on an empty line or a foreign character, and otherwise yields exactly the `#` cells of the image |
| Day11.ColumnMax | day-11/src/part1.rs:64 | the largest column index is the last index of the longest line |
| Day11.Parse | day-11/src/part1.rs:56-80 | the parsed galaxies are exactly the `#` cells, within the largest line and column index |
| Day11.ExpansionOnlyGrows | day-11/src/part1.rs:87-95 | expansion never brings galaxies closer: the sum over all pairs only grows |
| Day11.NoEmptyNoChange | day-11/src/part1.rs:22-31 | with nothing empty, expansion moves no galaxy |
| Day11.Process | day-11/src/part1.rs:82-97 | the answer is the sum of the distances of all pairs of expanded galaxies, and it fails exactly on an empty line or a foreign character |
| Day12Part1.TryFrom | day-12/src/part1.rs:18-29 | exactly `#`, `?` and `.` convert, each to the spring type it stands for; anything else is an error |
| Day12Part1.TryFromSymbol | day-12/src/part1.rs:18-29 | converting a spring type's character gives that type back |
| Day12Part1.ParseRecord | day-12/src/part1.rs:48-60 | parsing succeeds exactly when every character is a spring; the records then spell the input and sit at their own line and column |
| Day12Part1.KeepParsedAll | day-12/src/part1.rs:66-69 | when every size parses, dropping the pieces that do not parse drops nothing |
| Day12Part1.LineParser | day-12/src/part1.rs:62-71 | a parsed line's records sit at consecutive columns from 0 on the same line |
| Day12Part1.Options | day-12/src/part1.rs:73-86 | the cartesian product of `len` copies of damaged/operational has `2^len` entries |
| Day12Part1.AllOverMembership | day-12/src/part1.rs:73-86 | the product lists exactly the assignments of a known type to each of the block's columns |
| Day12Part1.AllOverNoDup | day-12/src/part1.rs:73-86 | the product lists no assignment twice, so `unique` removes nothing |
| Day12Part1.Merge | day-12/src/part1.rs:163-190 | the merge has one entry per pair of an earlier and a new assignment, or the new ones alone when nothing came before |
| Day12Part1.MergeRecAt | day-12/src/part1.rs:171-187 | entry `i * |original| + j` of the merge is earlier assignment `j` followed by new assignment `i` |
| Day12Part1.MergeRecNoDup | day-12/src/part1.rs:163-190 | merging duplicate-free lists of fixed-length assignments yields no duplicate |
| Day12Part1.MergeEnumerates | day-12/src/part1.rs:205-214 | merging the assignments of a new block of unknown springs enumerates every assignment to all unknown columns seen so far, each once |
| Day12Part1.Filter | day-12/src/part1.rs:126-146 | the filter fails exactly when an unknown spring is left; otherwise it accepts exactly when the runs of damaged springs are the listed sizes |
| Day12Part1.FilterOption | day-12/src/part1.rs:126-146 | the scan that closes a run at every operational spring and once at the end computes that filter |
| Day12Part1.NewLine | day-12/src/part1.rs:99-124 | counting the candidates that pass after writing each assignment in; an empty record fails the assertion |
| Day12Part1.UnknownColsFacts | day-12/src/part1.rs:196-198 | the columns collected are exactly those of the unknown springs, in increasing order |
| Day12Part1.FillTypes | day-12/src/part1.rs:108-118 | writing an assignment sets exactly the assigned columns' types and leaves the others alone |
| Day12Part1.MatchingCounts | day-12/src/part1.rs:99-124 | counting the candidates of a duplicate-free enumeration of the unknown springs counts the line's arrangements |
| Day12Part1.FindOptionsAsWritten | day-12/src/part1.rs:193-231 | as written, the collected assignments enumerate the unknown springs, and the count is the arrangements when there is an unknown spring and 0 when there is none |
| Day12Part1.AsWrittenCount | day-12/src/part1.rs:218-227 | a line without `?` gets no assignment at all, so even a matching line counts 0 |
| Day12Part1.NoUnknownCountsZero | day-12/src/part1.rs:193-231 | the line `# 1` has one arrangement, yet the code as written counts none |
| Day12Part1.FindOptions | day-12/src/part1.rs:193-231 | every non-empty line gets the number of its arrangements: assignments of the unknown springs whose damaged runs are the listed sizes |
| Day12Part1.Process | day-12/src/part1.rs:243-251 | with the corrected count of `FindOptions`: fails exactly when a line does not read or has no record; otherwise the answer is the sum over the lines of their arrangement counts |
| Day12Part2.ParseNats | day-12/src/part2.rs:63-65 | each piece is parsed as a number in order, and a failure means some piece is not one |
| Day12Part2.LineParser | day-12/src/part2.rs:56-71 | the line parses exactly when it has a second space-separated piece and every comma-separated size is a number; the record is the first piece |
| Day12Part2.Unfold | day-12/src/part2.rs:73-82 | unfolding fails exactly on a line without a space |
| Day12Part2.SplitRepeated | day-12/src/part2.rs:79 | splitting five copies of a size list joined by commas gives the pieces five times over |
| Day12Part2.UnfoldThenParse | day-12/src/part2.rs:73-96 | an unfolded line reads back as the record five times joined by `?` and the sizes five times over |
| Day12Part2.GroupsConcat | day-12/src/part2.rs:36-51 | texts whose damaged runs do not touch contribute their runs one after the other |
| Day12Part2.RunFitsKnown | day-12/src/part2.rs:36-44 | on a record without `?`, a run of `n` fits at the start exactly when the record starts with exactly `n` damaged springs |
| Day12Part2.CountKnown | day-12/src/part2.rs:10-54 | on a record without `?`, `count` is 1 when its damaged runs are the sizes and 0 otherwise |
| Day12Part2.CountTooShort | day-12/src/part2.rs:36-44 | a record too short to hold the runs and the gaps between them has no arrangement |
| Day12Part2.CountIsArrangements | day-12/src/part2.rs:10-53 | on a record over `#`, `.`, `?` with sizes of at least one, `count` is the number of ways to fill the unknown springs so that the damaged runs are exactly the listed sizes, counted by trying every filling |
| Day12Part2.ZeroSizeCounted | day-12/src/part2.rs:35-53 | a size of 0 is counted as an empty run taken by an unknown spring: `count("?", [0])` is 1 though no filling has a run of size 0 |
| Day12Part2.Process | day-12/src/part2.rs:84-96 | the answer is the sum of `count` over the unfolded lines, each the number of arrangements of its line; a line without a space or with a size that is not a number panics |
| Day13Shared.Rotate | day-13/src/shared.rs:18-30 | `rotate` succeeds exactly when no line is longer than the first, and then yields the transposed pattern |
| Day13Shared.TransposeTwice | day-13/src/shared.rs:18-30 | a rectangular pattern is transposed cell by cell, and transposing it twice gives it back |
| Day13Shared.MismatchesZero | day-13/src/shared.rs:42-45 | two rows zipped together show no mismatch exactly when they agree on their common length |
| Day13Shared.MismatchesSymmetric | day-13/src/shared.rs:42-45 | comparing row `x` with row `y` counts as many mismatches as comparing `y` with `x` |
| Day13Shared.NoSmudgeMeansMirror | day-13/src/shared.rs:33-48 | with no smudge allowed, a line is accepted exactly when every row pair around it, as far as the shorter side reaches, agrees |
| Day13Shared.FirstLineComparesOnePair | day-13/src/shared.rs:34-38 | the line right after the first row compares exactly one pair of rows, whatever the pattern's height |
| Day13Shared.ReflectionIsFirst | day-13/src/shared.rs:32-54 | the line found is the smallest one with exactly the requested smudges, or 0 when none qualifies; it is always below the pattern's height |
| Day13Shared.FindSymmetry | day-13/src/shared.rs:32-54 | the loop with its early return computes that smallest qualifying line |
| Day13Shared.Summarize | day-13/src/shared.rs:18-54 | summing 100 times the row line plus the column line over all patterns succeeds exactly when no pattern has a line longer than its first one |
| Day13Part1.NoSmudgeIffRowsMirror | day-13/src/part1.rs:3-15 | on a rectangular pattern the count of mismatches is 0 exactly when the shorter side equals the reversed other side, the commented-out direct test |
| Day13Part1.NoSmudgeSearchIsMirrorSearch | day-13/src/part1.rs:3-15 | the smudge search with 0 smudges finds the same line as the direct mirror search it replaced |
| Day13Part1.Process | day-13/src/part1.rs:17-31 | the answer is the summary with no smudge; a pattern whose first line is not its longest panics |
| Day13Part2.OneSmudgeIsNotAMirror | day-13/src/part2.rs:9-14 | a line found with one smudge is never a perfect mirror line, and the two sides differ in exactly one cell |
| Day13Part2.Process | day-13/src/part2.rs:3-17 | the answer is the summary with exactly one smudge per mirror line; a pattern whose first line is not its longest panics |
| Day14Part1.RollLeftKeepsObstacles | day-14/src/part1.rs:33-44 | cube-shaped rocks stay where they are, and every other cell ends up a rounded rock or empty ground |
| Day14Part1.RollLeftCount | day-14/src/part1.rs:39-42 | tilting neither creates nor destroys rounded rocks |
| Day14Part1.RollLeftSettles | day-14/src/part1.rs:31-44 | after the tilt no rounded rock has empty ground in front of it |
| Day14Part1.RollLeftIdempotent | day-14/src/part1.rs:28-48 | tilting a tilted line changes nothing |
| Day14Part1.RollLeftRocks | day-14/src/part1.rs:21-26 | a line of the parser's alphabet `#.O` stays one after the tilt |
| Day14Part1.RollLine | day-14/src/part1.rs:31-44 | the write cursor loop produces exactly the line whose rounded rocks have rolled to the start of their run between cube rocks |
| Day14Part1.Rotate | day-14/src/part1.rs:7-19 | line `c` of the result is column `c` of the block; a line longer than the first writes out of bounds and panics |
| Day14Part1.TransposeTwice | day-14/src/part1.rs:7-19 | transposing a rectangular block twice gives it back |
| Day14Part1.Tilt | day-14/src/part1.rs:28-48 | every line is tilted towards its start and then reversed; a character outside `#.O` panics |
| Day14Part1.SumIndexLoadsReversed | day-14/src/part1.rs:53-61 | weighing the reversed tilted columns by `idx + 1` gives each rounded rock its distance from the south edge, the north load |
| Day14Part1.Process | day-14/src/part1.rs:50-63 | the answer is the total load on the north beams once every column has rolled north; a ragged platform panics |
| Day14Part2.ColumnOfRolledNorth | day-14/src/part2.rs:51-76 | a north tilt tilts every column on its own |
| Day14Part2.TiltedPlatform | day-14/src/part2.rs:24-129 | tilting in any direction keeps the platform's size and its alphabet |
| Day14Part2.TiltedKeepsCubes | day-14/src/part2.rs:24-129 | cube-shaped rocks never move, in any of the four tilts |
| Day14Part2.TiltedIdempotent | day-14/src/part2.rs:24-129 | tilting twice in the same direction is tilting once |
| Day14Part2.WestKeepsRowCounts | day-14/src/part2.rs:28-50 | a west tilt keeps the number of rounded rocks in every row |
| Day14Part2.NorthKeepsColumnCounts | day-14/src/part2.rs:51-76 | a north tilt keeps the number of rounded rocks in every column |
| Day14Part2.RollColumns | day-14/src/part2.rs:51-76 | the per-column cursors of the north branch build exactly the north-tilted platform |
| Day14Part2.Roll | day-14/src/part2.rs:24-129 | each branch of `roll` builds exactly the platform tilted towards its direction |
| Day14Part2.CycleKeepsCubes | day-14/src/part2.rs:143-148 | a spin cycle moves no cube-shaped rock |
| Day14Part2.Rotate | day-14/src/part2.rs:143-148 | `rotate` is one spin cycle: north, west, south, east |
| Day14Part2.Periodic | day-14/src/part2.rs:156-161 | once the platform after `s` cycles comes back after `s + p`, it comes back every `p` cycles from then on |
| Day14Part2.RemembersDistinct | day-14/src/part2.rs:153-167 | a table that remembers the first `x` cycles by cycle number proves them pairwise different |
| Day14Part2.FindKey | day-14/src/part2.rs:169 | the search over the table finds the platform stored under a cycle number, or proves there is none |
| Day14Part2.JumpAhead | day-14/src/part2.rs:158-160 | at a repeat of cycle `s`, the cycle `process` jumps to shows the same platform as cycle 1 000 000 000 |
| Day14Part2.JumpTarget | day-14/src/part2.rs:157-161 | the cycle jumped to is one already stored, and the repeated platform is that of the cycle it was stored under |
| Day14Part2.FindRepeat | day-14/src/part2.rs:153-168 | the loop ends at a cycle showing the platform of cycle 1 000 000 000, and stops early exactly when a platform repeated |
| Day14Part2.Process | day-14/src/part2.rs:150-171 | the answer is the north load after 1 000 000 000 spin cycles; it is found whenever some platform repeats within that many cycles |
| Day15Shared.Hash | day-15/src/shared.rs:1-5 | the hash of any text is a box number below 256 |
| Day15Shared.HashIsUnreducedModulo | day-15/src/shared.rs:1-5 | reducing modulo 256 after every character or only once at the end gives the same hash |
| Day15Shared.HashAppend | day-15/src/shared.rs:4 | one more character is one more step of the fold |
| Day15Shared.HashExamples | day-15/src/shared.rs:13-14 | the test vectors `rn=1` and `cm-` hash to 30 and 253 |
| Day15Part1.Process | day-15/src/part1.rs:3-5 | every comma-separated step, empty ones included, adds its hash, so the sum stays below 256 per step |
| Day15Part1.ProcessJoin | day-15/src/part1.rs:3-5 | the sum over two sequences joined by a comma is the sum of their sums |
| Day15Part1.ProcessSingle | day-15/src/part1.rs:3-5 | a step without a comma is hashed as a whole |
| Day15Part2.Position | day-15/src/part2.rs:88-90 | the search finds nothing exactly when the lens is not in the box, and otherwise the first slot holding it |
| Day15Part2.RunPrefix | day-15/src/part2.rs:87-108 | running one more step extends a run, and a failed run stays failed |
| Day15Part2.StepBoxOthers | day-15/src/part2.rs:91-107 | a step on another lens does not change whether a lens is in the box |
| Day15Part2.RemoveIsFilter | day-15/src/part2.rs:102-106 | `-` takes out the lens with that label and keeps the other lenses in their order |
| Day15Part2.StepBoxOk | day-15/src/part2.rs:91-107 | a step keeps each lens at most once in its box; after `=` the lens is in the box, after `-` it is not |
| Day15Part2.RunFacts | day-15/src/part2.rs:84-108 | after the steps every lens sits only in the box its hash names, at most once, exactly when its latest step was `=`, and its focal length is that of its latest `=` step |
| Day15Part2.BoxedHaveFocal | day-15/src/part2.rs:118 | every lens in a box has a focal length, so the lookup while adding up never panics |
| Day15Part2.RunFails | day-15/src/part2.rs:96 | the run aborts exactly when some `=` step has no focal length |
| Day15Part2.EmptyBoxesNoPower | day-15/src/part2.rs:110-120 | empty boxes add nothing to the focusing power |
| Day15Part2.Process | day-15/src/part2.rs:81-122 | the steps are run on 256 boxes in place, and the answer is the focusing power of the final table: box number times slot number times focal length, summed |
| Day16Shared.OrdinalIsIndex | day-16/src/shared.rs:10-15 | the four directions own the four `passed` flags, one each, and different directions never share a flag |
| Day16Shared.ToPoint | day-16/src/shared.rs:39-48 | every direction is a unit step along exactly one axis, with North pointing to smaller rows |
| Day16Shared.TryFrom | day-16/src/shared.rs:24-37 | the conversion fails exactly on vectors that are null or diagonal; otherwise it yields the direction whose unit step has the vector's signs |
| Day16Shared.FromPoints | day-16/src/shared.rs:55-62 | the direction from one point to another exists exactly when they differ along one axis only |
| Day16Shared.FromPointsRoundTrip | day-16/src/shared.rs:17-22 | stepping from a point in direction `d` and asking for the direction back gives `d`: the vector addition and `from_points` are inverse |
| Day16Shared.NewTile | day-16/src/shared.rs:81-88 | a new tile keeps its position and mirror, is dark, and no beam has passed it in any direction |
| Day16Shared.Pass | day-16/src/shared.rs:98-133 | on a tile with a known mirror: a beam that already passed the tile in its direction is swallowed and the tile is unchanged; otherwise the tile is lit, that direction is marked, and the beam leaves by the exits of the mirror, offset from the tile's position |
| Day16Shared.ExitsMatchReflect | day-16/src/shared.rs:109-129 | the direction table of `pass` agrees with the geometric description of each mirror kind |
| Day16Shared.ReflectIsUnit | day-16/src/shared.rs:109-129 | every exit of every mirror is a unit step to a neighbouring tile |
| Day16Shared.SplitterExits | day-16/src/shared.rs:110-113 | a splitter hit on its flat side sends two beams out perpendicularly, and one hit end-on lets the beam through unchanged |
| Day16Shared.MirrorsTurnAndReverse | day-16/src/shared.rs:114-125 | `/` and `\` turn every beam by a right angle, in opposite senses |
| Day16Shared.SplitterTable | day-16/src/shared.rs:203-229 | the horizontal and vertical splitter cases of the tests, direction by direction |
| Day16Shared.MirrorTable | day-16/src/shared.rs:231-257 | the `/` and `\` mirror cases of the tests, direction by direction |
| Day16Shared.PassTwiceBlocks | day-16/src/shared.rs:98-102 | passing the same tile twice in the same direction yields nothing the second time |
| Day16Shared.ClosedSetHoldsReachable | day-16/src/shared.rs:172-191 | a set of beam states that holds the start and is closed under a step holds every reachable state: the induction principle of the search |
| Day16Shared.EnqueueSuccessors | day-16/src/shared.rs:178-187 | at a tile with a known mirror, the queue gains exactly the successors of the current beam that lie inside the grid, in order, behind what it held |
| Day16Shared.CountIlluminated | day-16/src/shared.rs:190 | the count is the number of lit tiles, at most columns × rows |
| Day16Shared.DrainQueue | day-16/src/shared.rs:175-189 | on a grid of known mirrors, when the queue runs dry every expanded beam state is reachable, the start was expanded, and the expanded set is closed under a step |
| Day16Shared.IlluminateGrid | day-16/src/shared.rs:172-191 | on a grid of known mirrors the result is the number of lit tiles, at most columns × rows; on a fresh grid a tile ends up lit exactly when some beam state reachable from the start stands on it, so the result is the number of energized tiles |
| Day16Shared.MaxLen | day-16/src/shared.rs:137-147 | the grid's width is the length of the longest line, and every line is at most that long |
| Day16Shared.CollectTiles | day-16/src/shared.rs:137-162 | one tile per character at its column and row, built from that character, none lit |
| Day16Shared.ParsedIsPristine | day-16/src/shared.rs:136-170 | the parsed grid has one tile per cell, at its own position, and no beam has touched it |
| Day16Shared.ParseIntoGrid | day-16/src/shared.rs:136-170 | parsing succeeds exactly when all lines are equally long, and the grid then holds each character's tile at its position |
| Day16Shared.AsWrittenFillNeedsSquare | day-16/src/shared.rs:163-168 | as written, the fill indexes the row-first container by column, which stays in bounds exactly when the grid is square or empty |
| Day16Shared.WideGridPanicsAsWritten | day-16/src/shared.rs:163-168 | the one-line grid `..` makes the as-written fill index a row that does not exist |
| Day16Part1.Process | day-16/src/part1.rs:4-11 | with the corrected fill of `ParseIntoGrid`: the answer is the number of tiles energized by a beam entering the top-left tile heading East; unequal lines or an empty grid panic |
| Day16Part2.StartingPositionsAreBorderEntries | day-16/src/part2.rs:6-37 | the starting positions are exactly the border tiles paired with a direction pointing into the grid |
| Day16Part2.StartingPositionsLength | day-16/src/part2.rs:12-34 | eight corner entries plus two for every inner row and two for every inner column |
| Day16Part2.GetStartingPositions | day-16/src/part2.rs:6-37 | the method's loops build exactly the list of border entries |
| Day16Part2.IlluminateCopy | day-16/src/part2.rs:43 | a run on a copy of the grid counts the tiles energized from that start and leaves the grid as it was |
| Day16Part2.BestRun | day-16/src/part2.rs:41-45 | the result is at least every start's energized count and equals one of them: the maximum |
| Day16Part2.Process | day-16/src/part2.rs:39-47 | with the corrected fill of `ParseIntoGrid`: the answer is the greatest number of tiles energized over all border entries; unequal lines or an empty grid panic |

## Left out

- The nom combinator parsers are not modelled. They wrap a library that is not part of this model: day-2 `line_parser`, the day-4 and day-5 parsers, the day-6 part-1 parser, the day-7 card/hand/line parsers, the day-8 parser, day-13/day-14 `parse_input` and the day-15 instruction parsers. The parsed records (`Game`, `Card`, `MapData`, `Node`, `Instruction`, the patterns and platforms) are inputs instead. Text splitting (`lines()`, `split`) is modelled as plain functions on `seq<char>`.
- `pathfinding::dijkstra_reach` in day-10 part 2 is a foreign search. The loop it visits is the `reached` input of `Day10Part2.Process`, so the model does not show that `reached` is the loop through the start. Day-10 part 1 is not part of this model.
- The day-16 part-2 `rayon` parallel map is modelled as a sequential maximum. Each run works on its own copy, so the result is the same.
- The `#[memoize]` cache on day-12 `count` is left out; the model is the plain recursion.
- The `itertools`, `TooDee` and `glam` internals are replaced by sequences, arrays and integer pairs.
- `Debug`/`Display` formatting, `pretty_print`, `symbol_map`, the ANSI colours and all `println!` output are left out. They only print.
- Machine integer widths are left out: the model never wraps. `u32`/`usize` sums and products, day-8 `lcm` and the day-9 `i32` arithmetic could overflow on inputs far larger than the puzzle's, and the model does not show where. The day-15 hash is the exception: it reduces modulo 256 at every step, as the code does.
- Day10Flood.Flip: the panic on a `Pipe` cell is a precondition, because the scan only ever flips Inside/Outside.
- Day10Flood.FloodGrid.GetItem and Day10Grid.Grid.Get: plain accessors whose out-of-range panic is a precondition.
- Day16Shared.Pass: requires the tile's mirror to be `|`, `/`, `\`, `-` or none (`KnownMirror`). The `unreachable!` the code reaches for any other stored character (day-16/src/shared.rs:130) is not modelled.
- Day16Shared.EnqueueSuccessors: requires `KnownMirror` at the current tile, so the exits it enqueues never come from the `unreachable!` branch.
- Day16Shared.DrainQueue: requires `KnownMirror` on every tile, through `Tracks`, so no passage reaches the `unreachable!` branch.
- Day16Shared.IlluminateGrid: requires `KnownMirror` on every tile, through `WellFormed`, so no passage reaches the `unreachable!` branch.
- Day16Part1.Process: an unknown mirror character, `unreachable!` in the code, is excluded by the `OnlyKnownChars` precondition. The same holds for Day16Part2.Process.
- Day12Part2.CountIsArrangements: requires a record over `#`, `.`, `?` and sizes of at least one. For a size of 0, `count` counts an unknown spring as an empty run (`ZeroSizeCounted`), and for any other character it reads that character as neither damaged nor operational.
- Day13Part1.Process: requires every pattern to be non-empty, because `rotate` indexes the first line. The same holds for Day13Part2.Process.
- Day14Part2.Process: requires a platform of non-empty, equal-length lines over `.`, `#`, `O`. `unreachable!` on other characters is not modelled. Ragged platforms are excluded: the code pads a row shorter than the first with `.` in the first north tilt and goes on with that rectangle, and panics on a row holding a `#` or `O` beyond the first row's width. The cell kind `N` that `roll` also accepts is never produced by a parse and is left out.
- Day14Part1.Process: requires what the parser guarantees, namely at least one line and non-empty lines over `.`, `#`, `O`. Ragged lines are a failure in the model.
- Day15Part2.Process: requires every instruction's box index to be the hash of its label, as the parser computes it.
- Day07Part2.Process: requires each hand to have five cards and a stored type that is the part-1 type of its cards, as the parser computes it.
- Day08Part1.Walk: the code loops forever when `ZZZ` is never reached. The model gives up after `fuel` moves and proves that no move count up to `fuel` ends at `ZZZ`; the day-8 part-2 walk is bounded the same way.
- Day08Part2.Lcm: requires one non-zero argument, since `lcm(0, 0)` divides by zero.
- Day07Part1.Process: `sort_by` in place is modelled as a stable insertion sort on values. It is proved sorted, a permutation and stable; the in-place moves are not modelled.
- Day11.Process: `expand` mutates a galaxy's position in place. The model computes the expanded position as a value.
- Day03Parser.LineParser: characters are taken as ASCII, and `is_ascii_digit` is the `'0'..'9'` range.
- Day01Part2.ParseLine: the needles are identified by their index in `NEEDLE`. The model keeps `(position, index)` pairs where the code keeps `(position, &str)`, which carries the same information.
- Examples not proved, because unfolding them whole is beyond the verifier's budget here:
  - day-1 part 2 (364; the overlapping line `eighthree` = 83 is proved);
  - day-3 (4361 and 467835); day-5 part 2 (46);
  - day-7 (6440 and 5905); day-8 part 1 first example and part 2 (6);
  - day-9 (114 and 2; single lines are proved); full day-10 grids (4, 4, 8; a row of the first is proved);
  - day-11 (374); day-12 (21 and 525152); day-13 (405 and 400);
  - day-14 (136, 64 and the cycle grids); day-15 (1320 and 145; two hash vectors are proved);
  - day-16 (46 and 51).
- Tests whose expected values come from `input.txt` or `test1.txt` files are left out; those files are not part of this model.
- The `*/src/bin/` binaries (reading the input and printing) and `day-10/src/types/connection.rs`, which nothing uses, are left out.

## Findings

| source | as written | input that shows it | evidently intended | confidence | as-written member | corrected member |
|---|---|---|---|---|---|---|
| day-16/src/shared.rs:163-168 | `TooDee::new(cols, rows)` stores rows first, but the fill writes `grid[x][y]` with x the column | the one-line grid `..` (2 columns, 1 row): the write for column 1 indexes row 1, which does not exist | store tile (x, y) at column x of row y, for any rectangle | not executed | Day16Shared.WideGridPanicsAsWritten | Day16Shared.ParseIntoGrid |
| day-12/src/part1.rs:193-231 | with no `?` in the line, no options are merged and no line is counted | the line `# 1` | a line without unknown springs has exactly one arrangement when it matches its groups | not executed | Day12Part1.NoUnknownCountsZero | Day12Part1.FindOptions |
| day-04/src/part2.rs:13 | `(card_idx + 1)..=max_cards.min(...)` reaches index `max_cards`, one past the last card | one card with one matching number | copies are only won for cards that exist | not executed | Day04Part2.LastCardWinsPanics | Day04Part2.Process |
