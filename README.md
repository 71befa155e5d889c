# Advent of Code 2023 solvers, modelled in Dafny

This project models the puzzle solvers of the 2023 Advent of Code repository, one Dafny module per day, and proves what each solver computes. Each solver reads a puzzle input and answers one or two questions about it. Day 24 is not modelled.

- **Parsers.** Each character map, such as a card label, pipe, tile, rock or mirror, is a total function onto a `Result`. Its error message is the one the source builds, and a round-trip lemma reads the shown character back. Whole-grid parsers are functions over the lines, with the first invalid character reported.
- **Searches.** Four modules model the graph searches that several days share:
  - `Search` is the breadth-first worklist of days 10, 16, 18 and 25, proved to return exactly the reachable states.
  - `Flood` is the eight-neighbour flood fill of days 10 and 18.
  - `Dijkstra` is the uniform-cost search of days 17 and 21, proved to return cheapest costs.
  - `Longest` is the maximising relaxation of day 23 part 1, proved to return costliest costs on graphs whose routes have bounded cost.
- **Imperative code.** Loops that change state in the source are methods with loop invariants. Each is proved equal to a specification function, and the puzzle's properties are lemmas about that function. For instance:
  - the card-copy deck of day 4;
  - the tilt of day 14;
  - the pulse machine of day 20, a class with the module map, queue and counters as fields;
  - the brick settling of day 22;
  - the corridor contraction and the backtracking depth-first search of day 23, the latter a class whose path is pushed and popped;
  - the component count of day 25.
- **Pure code.** Pipelines become functions with lemmas: hand classification, mirror detection, difference tables, galaxy expansion, race counting, HASH, spring arrangements, and others.
- **Worked examples.** Where the verifier can evaluate them, the examples from the solvers' tests are proved as lemmas.

Shared modules: `Wrappers` (`Option`, `Result`), `Text` (splitting, trimming, words, decimal numerals), `Grid` (positions, rectangles, the eight neighbours, row-major order) and `Sorting` (the stable sort by key).

## Model

| member | source | states |
|---|---|---|
| Day01.DigitsFrom | src/day01.rs:7-12 | `parse` of one line keeps at most one value per character, and every value it keeps is a decimal digit (below 10) |
| Day01.DigitsExact | src/day01.rs:8-11 | only ASCII digits are kept: a line made of digits keeps every one of them in order with its value, a line without digits yields nothing |
| Day01.Calibration | src/day01.rs:20 | a line's calibration value never exceeds 99; a line without digits is outside the domain (`unwrap` panics) |
| Day01.CalibrationDigits | src/day01.rs:20 | the value's tens digit is the line's first digit and its units digit the last; a single digit d gives 11·d |
| Day01.Part1 | src/day01.rs:17-22 | `part1` is at most 99 per line and at least every single line's calibration value |
| Day01.Part1Append | src/day01.rs:17-22 | `part1` of two blocks of lines is the sum of `part1` of each block |
| Day01.SkipLetters | src/day01.rs:8 | characters that are not ASCII digits add nothing to a line's parse |
| Day01.SampleParseFirst | src/day01.rs:4-14 | `parse` of the example line 1abc2 gives the digits 1, 2 |
| Day01.SampleParseSecond | src/day01.rs:4-14 | `parse` of the example line pqr3stu8vwx gives the digits 3, 8 |
| Day01.SampleParseThird | src/day01.rs:4-14 | `parse` of the example line a1b2c3d4e5f gives the digits 1 to 5 |
| Day01.SampleParseFourth | src/day01.rs:4-14 | `parse` of the example line treb7uchet gives the single digit 7 |
| Day01.Sample | src/day01.rs:28-33 | the example's parsed lines give 142 |
| Day02.ItemTriple | src/day02.rs:25-30 | an item is accepted exactly when its colour is red, green or blue, and its count then lands in the one component of that colour with the other two 0; any other colour is the error "Unknown color: " followed by the colour |
| Day02.Reveal | src/day02.rs:19-33 | a reveal parses exactly when every colour is known, and then holds the per-colour sums of its items |
| Day02.Part1 | src/day02.rs:43-49 | `part1` is at most the sum of all game ids, equals it when every game is possible (no reveal above 12 red, 13 green, 14 blue), and is 0 when none is |
| Day02.Minimal | src/day02.rs:56-58 | every reveal of the game fits within the folded per-colour maxima |
| Day02.MinimalIsLeast | src/day02.rs:56-59 | the maxima are the least bag that every reveal fits in, so their power is the least power of any such bag |
| Day02.Part2 | src/day02.rs:52-62 | `part2` is at least the power of every game's minimal bag |
| Day02.Part2Append | src/day02.rs:60-61 | the sum over games splits over any split of the list of games |
| Day02.Part2Least | src/day02.rs:55-61 | `part2` is at most the summed powers of any choice of one bag per game that every reveal of that game fits in |
| Day02.Part2Attained | src/day02.rs:55-61 | the folded maxima are such a choice of bags, and their summed powers are exactly `part2`, so `part2` is the least such sum |
| Day02.SampleReveal | src/day02.rs:19-33 | "3 blue, 4 red" gives (4, 0, 3); an unknown colour is an error |
| Day02.SamplePart1 | src/day02.rs:68-71 | the example games give 8 |
| Day02.SamplePart2 | src/day02.rs:78-81 | the example games give 2286 |
| Day03.ParseTile | src/day03.rs:14-20 | '.' and only '.' is the error "No such tile: ."; a decimal digit becomes a Digit tile and any other character a Symbol tile, each reading back as the character |
| Day03.TileRoundTrip | src/day03.rs:14-20 | every tile parses back from the character it is written as |
| Day03.Parse | src/day03.rs:26-38 | the schematic holds exactly the positions (row, column) of the input whose character is not '.', each mapped to the tile that character reads as |
| Day03.LeftInKeys | src/day03.rs:42-50 | in row-major order the previous position is the left neighbour exactly when that neighbour is in the schematic, so the scan's runs are the horizontal runs of digits |
| Day03.RunStart | src/day03.rs:49-61 | the run of digits ending at a position starts no later than it |
| Day03.RunSpan | src/day03.rs:49-61 | every position of a run is a digit on the same row, one column per step |
| Day03.RunMaximal | src/day03.rs:49-61 | a run cannot be extended: the cell left of its first digit and, at a run's end, the cell right of its last digit hold no digit |
| Day03.RunTouchesSome | src/day03.rs:60-67 | a run counts exactly when one of its digits has a symbol among its eight neighbours |
| Day03.NoSymbols | src/day03.rs:41-86 | a schematic without symbols has part-number sum 0 |
| Day03.NoTouch | src/day03.rs:60-67 | without symbols no run touches one |
| Day03.Part1 | src/day03.rs:41-86 | `part1` is the sum, over the runs of digits taken in row-major order, of the numbers of the runs that touch a symbol |
| Day03.Scan | src/day03.rs:44-85 | the scanning loop over positions in a given order returns the sum of the touching runs of that order, the last run included (lines 81-83) |
| Day03.RunEnds | src/day03.rs:50-58 | when the position does not continue the pending run, the run is closed and its number added if it touches a symbol |
| Day03.RunGoesOn | src/day03.rs:60-67 | a digit continuing the run makes the pending number ten times larger plus the digit, and the run touches a symbol if it did or the new digit does |
| Day03.RunStarts | src/day03.rs:56-61 | a digit starting a run makes the pending number that digit, touching a symbol exactly when that digit does |
| Day03.NoRun | src/day03.rs:68-76 | after a symbol nothing is pending |
| Day03.Neighbours | src/day03.rs:63-67 | the neighbour loop sets the flag exactly when it was set or one of the eight neighbours holds a symbol |
| Day04.ParseCard | src/day04.rs:16-45 | a line without ": " is the "header not found" error; a header of fewer than two words, or whose second word is not a number, is the matching header error; a body without " \| " is the "separator not found" error; otherwise the card parses exactly when every word of both halves is a number, the first word that is not being named in the error; a parsed card's number is the header's second word read as a number, an optional '+' and digits, and its winning numbers and numbers are exactly the values of the words of each half, split at Unicode White_Space |
| Day04.FirstBad | src/day04.rs:32-36 | the index of the first word that is not a number: every word before it parses and the word at it does not |
| Day04.ParseNumbers | src/day04.rs:32-42 | a list of words parses exactly when every word is a number, giving their values in order; otherwise the error names the first word that is not |
| Day04.ParsedCons | src/day04.rs:32-42 | a first word that is a number, followed by words each matching its value, gives the values in order |
| Day04.ToSet | src/day04.rs:32-42 | collecting a list into a set keeps exactly its members |
| Day04.Score | src/day04.rs:57-58 | a card scores 0 exactly when it has no match, and 2 to the power (matches - 1) otherwise |
| Day04.ScoreDoubles | src/day04.rs:58 | every match after the first doubles the card's points |
| Day04.Points | src/day04.rs:54-59 | the points are 0 exactly when no card has a match, and at least every single card's score |
| Day04.PointsAppend | src/day04.rs:59 | the points of two blocks of cards are the sum of the points of each |
| Day04.Part1 | src/day04.rs:53-60 | `part1` is 0 exactly when no card's winning numbers meet its numbers |
| Day04.Wins | src/day04.rs:57 | one match count per card, in order, each the size of the intersection of winning numbers and numbers |
| Day04.Copies | src/day04.rs:67-76 | one instance of a card ends up as at least one card |
| Day04.CopiesSum | src/day04.rs:67-76 | the cards a..b-1 end up as at least b - a cards |
| Day04.Total | src/day04.rs:63-79 | the final number of cards is at least the number of original cards |
| Day04.CopiesSumSnoc | src/day04.rs:67-76 | the copies of a block of cards grow by the copies of each card added to it |
| Day04.CopyOf | src/day04.rs:72 | in a deck numbered 1..n a card sits at the index its number names, which is what `cards[card_number - 1 + j]` relies on |
| Day04.PendingHead | src/day04.rs:67-76 | the cards still to come from a deck are those of its first card plus those of the rest |
| Day04.PendingSnoc | src/day04.rs:72 | pushing a card adds what that card amounts to |
| Day04.PendingPrefix | src/day04.rs:64 | the first n original cards amount to the copies of cards 0..n-1 |
| Day04.AmountOf | src/day04.rs:64 | an original card amounts to the copies of its own index |
| Day04.PendingExtend | src/day04.rs:71-73 | pushing the original cards numbered n + 1 .. n + m adds their copies |
| Day04.PushCopies | src/day04.rs:71-73 | the inner loop appends exactly the original cards at indices n .. n + m - 1, in order |
| Day04.CopiedExtend | src/day04.rs:72 | every pushed card is a clone of an original card |
| Day04.LoopStep | src/day04.rs:67-76 | processing the card at index i moves it from pending to done and appends the copies it wins, which amount to the rest of what it is worth |
| Day04.Ready | src/day04.rs:68-72 | the card being processed is an original card whose copies stay within the original cards, so `cards[card_number - 1 + j]` is in range |
| Day04.Advance | src/day04.rs:67-76 | one pass of the outer loop keeps the loop invariant and leaves fewer cards pending, so the loop ends |
| Day04.Part2 | src/day04.rs:63-79 | `part2` returns the total number of cards in the reference definition (every card with every copy it wins, transitively), which is at least the number of original cards |
| Day04.SamplePoints | src/day04.rs:85-88 | the example's match counts 4, 2, 2, 1, 0, 0 score 13 |
| Day04.SampleTotal | src/day04.rs:95-98 | the example's match counts give 30 cards |
| Day05.FromLine | src/day05.rs:29-34 | a map line covers exactly the sources from its source start for its length, and sends each to the same offset from the destination start |
| Day05.StagesStep | src/day05.rs:52-64 | walking one category further, the next category exists in the almanac and its ranges are the next stage of the chain |
| Day05.ConvertFirst | src/day05.rs:56-61 | a number is moved by the shift of the first range that contains it |
| Day05.ConvertNone | src/day05.rs:54-61 | a number that no range contains is unchanged |
| Day05.NextNumber | src/day05.rs:54-61 | the loop over one stage's ranges returns the number converted by that stage |
| Day05.Locate | src/day05.rs:50-67 | the `while` loop for one seed returns the seed's location, its conversion through every stage from "seed" to "location" |
| Day05.Part1 | src/day05.rs:44-71 | `part1` returns a location of one of the seeds, and none is smaller |
| Day05.SeedRanges | src/day05.rs:77-81 | consecutive (start, length) pairs become unshifted pieces from start to start + length; an unpaired last number is dropped |
| Day05.CutAsWrittenParts | src/day05.rs:94-110 | the cut as written replaces a non-empty piece by one or two contiguous parts that keep its shift and cover it exactly |
| Day05.CutAsWrittenMisses | src/day05.rs:96-108 | seeds 1..9 against the map line "0 5 5": the piece is not cut and is not aligned with the range, so it keeps shift 0 although seed 5 converts to 0 |
| Day05.PartAligned | src/day05.rs:93-110 | a part of a piece that lies wholly inside or wholly outside a range does so too |
| Day05.CutAtParts | src/day05.rs:94-110 | cutting a piece at one bound gives parts that cover it, each wholly on one side of the bound |
| Day05.CutParts | src/day05.rs:94-110 | the intended cut splits a piece into non-empty parts that cover it, each wholly inside or wholly outside the range |
| Day05.CutAllParts | src/day05.rs:93-113 | cutting every piece by one more range keeps them parts of the seed piece, keeps every seed covered and aligns them with the new range as well as the old ones |
| Day05.SplitParts | src/day05.rs:91-113 | after the fold over a stage's ranges the pieces cover the original piece and each is aligned with every range of the stage |
| Day05.Shift | src/day05.rs:115-121 | the `find` changes only the shift of a piece, never its extent |
| Day05.ShiftConverts | src/day05.rs:115-121 | on a piece aligned with every range, the new shift moves each of its numbers exactly as `part1` converts it |
| Day05.ShiftAll | src/day05.rs:114-122 | one shifted piece per cut piece, in order |
| Day05.StageOneTracks | src/day05.rs:90-123 | one stage turns a piece into parts of it that cover it and shift every number as `part1` converts it |
| Day05.StageFrom | src/day05.rs:88-124 | a piece of the stage's result comes from one of the previous pieces, and all pieces' results are kept |
| Day05.LocationStep | src/day05.rs:52-64 | the location through one more stage is that stage's conversion of the location so far |
| Day05.StageTracks | src/day05.rs:85-127 | one stage keeps every piece tracking the seeds: its numbers are seeds, shifted to their locations so far, and every seed is in some piece |
| Day05.StageNonEmpty | src/day05.rs:88-124 | pieces stay non-empty |
| Day05.StageSound | src/day05.rs:88-124 | every number of every piece is a seed whose location so far is the number plus the piece's shift |
| Day05.StagePointSound | src/day05.rs:88-124 | one number of one piece stays a seed shifted to its location so far |
| Day05.StageComplete | src/day05.rs:88-124 | every seed stays in some piece |
| Day05.Part2 | src/day05.rs:74-134 | `part2`, with the cut of lines 96-108 corrected, returns the location of some seed of the seed ranges, and no seed of them has a smaller location |
| Day05.Least | src/day05.rs:129-133 | the `min_by_key` returns the shifted start of some piece, and no piece has a smaller one |
| Day06.CountFrom | src/day06.rs:30-33 | counting the winning hold times from c on finds at most time - c of them |
| Day06.Ways | src/day06.rs:29-34 | a race of positive time has fewer winning hold times than its time (holding 0 never wins) |
| Day06.Symmetric | src/day06.rs:31 | holding for c wins exactly when holding for time - c does |
| Day06.CountIsCardinality | src/day06.rs:30-33 | the filtered count from c on is the number of winning hold times in [c, time) |
| Day06.WaysIsCardinality | src/day06.rs:30-33 | a race's count is exactly the number of its winning hold times |
| Day06.TravelMonotone | src/day06.rs:31 | the distance grows towards the middle hold time |
| Day06.AllWin | src/day06.rs:30-33 | a stretch of winning hold times adds its length to the count |
| Day06.NoneWin | src/day06.rs:30-33 | a stretch of losing hold times adds nothing |
| Day06.WinnersInterval | src/day06.rs:30-33 | the winners are the interval [lo, time - lo] around the middle, so there are time - 2·lo + 1 of them |
| Day06.LoseOutside | src/day06.rs:31 | when lo - 1 loses, every hold time below lo and every one above time - lo loses |
| Day06.WinInside | src/day06.rs:31 | when lo wins, every hold time from lo to time - lo wins |
| Day06.Part1 | src/day06.rs:26-36 | `part1` is 0 when some race cannot be won |
| Day06.Part2 | src/day06.rs:38-51 | `part2` on the concatenated time and record is fewer than that time when it is positive; an empty list is outside the domain, since `"".parse::<u64>().unwrap()` panics |
| Day06.Part2Single | src/day06.rs:38-51 | for a single race `part2` and `part1` agree, both being that race's number of winning hold times |
| Day06.Digits | src/day06.rs:40-43 | the concatenated numerals are digits only, and non-empty for a non-empty list |
| Day06.DecimalValueAppend | src/day06.rs:43-45 | reading two numerals written one after the other gives the first shifted left by the second's width plus the second |
| Day06.Concatenated | src/day06.rs:40-45 | the kerning fix makes each number's digits follow the previous ones: the value so far shifted left by the numeral's width, plus the number |
| Day06.Times | src/day06.rs:42 | one time per race |
| Day06.Records | src/day06.rs:42 | one record per race |
| Day06.SamplePart1 | src/day06.rs:57-60 | races (7, 9), (15, 40), (30, 200) give 4 · 8 · 9 = 288 |
| Day06.SamplePart2 | src/day06.rs:66-69 | the same races read as time 71530 and record 940200 give 71503 |
| Day06.SampleTime | src/day06.rs:40-45 | the example's times 7, 15 and 30 concatenate to 71530 |
| Day06.SampleRecord | src/day06.rs:40-45 | the example's records 9, 40 and 200 concatenate to 940200 |
| Day06.ConcatenatedOne | src/day06.rs:40-45 | a single number written and read back is itself |
| Day07.Strength | src/day07.rs:7-22 | a card's strength is its position among the thirteen cards |
| Day07.OfStrength | src/day07.rs:7-22 | every strength below 13 belongs to a card |
| Day07.StrengthInjective | src/day07.rs:7-22 | two cards have the same strength exactly when they are the same card |
| Day07.ParseCard | src/day07.rs:27-44 | exactly the thirteen labels are cards, in the order 2 < 3 < ... < 9 < T < J < Q < K < A; any other character is the error "Invalid card: " followed by it |
| Day07.ParseLabel | src/day07.rs:27-44 | every card is read back from its label |
| Day07.FirstNonCard | src/day07.rs:62-65 | the index of the first character that is no card label: every character before it is a label and the one at it is not |
| Day07.ParseCards | src/day07.rs:62-65 | a string's cards parse exactly when every character is a label, and then one card per character with that label; otherwise the error is "Invalid card: " followed by the first character that is no label |
| Day07.Count | src/day07.rs:69-75 | a card occurs at most as often as there are cards |
| Day07.GroupCountsBelow | src/day07.rs:69-75 | every group of equal cards holds at least one card |
| Day07.GroupSumBelow | src/day07.rs:69-75 | the groups of the strengths looked at hold exactly the hand's cards of those strengths |
| Day07.CountBelowCons | src/day07.rs:69-75 | counting the cards below a strength goes card by card |
| Day07.CountBelowAll | src/day07.rs:69-75 | every card is below strength 13 |
| Day07.CountBelowEmpty | src/day07.rs:69-75 | no card of an empty hand is counted |
| Day07.GroupCountsSum | src/day07.rs:69-75 | the groups account for every card of the hand |
| Day07.InsertDesc | src/day07.rs:76-77 | inserting a size into a non-increasing list keeps it non-increasing and adds exactly that size |
| Day07.InsertDescSum | src/day07.rs:76-77 | insertion adds the size to the sum and keeps every size positive |
| Day07.SortDesc | src/day07.rs:76-77 | `.sorted().rev()` gives the same sizes, largest first, with the same sum |
| Day07.TypeOfCounts | src/day07.rs:80-89 | the `match` gives a type (at most 6) exactly for the seven shapes of five cards; five of a kind is 6 and all distinct is 0 |
| Day07.Peel | src/day07.rs:80-89 | a non-increasing list of positive sizes splits into its largest part and the rest |
| Day07.PartitionsOfOne | src/day07.rs:80-89 | the only shape of one card is [1] |
| Day07.PartitionsOfTwo | src/day07.rs:80-89 | the shapes of two cards are [2] and [1, 1] |
| Day07.PartitionsOfThree | src/day07.rs:80-89 | the shapes of three cards are [3], [2, 1] and [1, 1, 1] |
| Day07.PartitionsOfFour | src/day07.rs:80-89 | the shapes of four cards are the five partitions of 4 |
| Day07.PartitionsOfFive | src/day07.rs:80-89 | a non-increasing list of positive sizes adding up to 5 is one of the seven matched shapes |
| Day07.FiveCardsClassified | src/day07.rs:88 | five cards always group into one of the seven shapes, so the `unreachable!()` arm is never taken |
| Day07.HandType | src/day07.rs:69-89 | a hand's type is at most 6 |
| Day07.ParseHand | src/day07.rs:57-94 | a hand parses exactly when it is five card labels, with its type at most 6, five cards matching the labels and its text kept; a text whose UTF-8 length is not five bytes is the error "Invalid hand: " followed by the text, and one of five bytes that is not five labels is the error naming its first non-label character |
| Day07.NonAsciiShort | src/day07.rs:58-65 | four characters taking five bytes pass the byte-length test and fail on the non-ASCII character as an invalid card |
| Day07.NonAsciiLong | src/day07.rs:58-59 | five characters taking six bytes fail the byte-length test as an invalid hand |
| Day07.Labelled | src/day07.rs:91 | a hand's text has one label per card |
| Day07.TextFollowsCards | src/day07.rs:91-93 | a parsed hand's text is the labels of its cards, so the third field of the derived order never decides |
| Day07.CardsBelowStrict | src/day07.rs:47 | the lexicographic order on card lists of equal length is a strict total order |
| Day07.CardsBelowTransitive | src/day07.rs:47 | the lexicographic order on card lists is transitive |
| Day07.BelowTotal | src/day07.rs:47-52 | the derived order on hands (type, then cards) is irreflexive and asymmetric, and hands equivalent under it agree on type and cards |
| Day07.BelowTransitive | src/day07.rs:47-52 | the derived order on hands is transitive |
| Day07.AtMostTransitive | src/day07.rs:47-52 | "at most" on hands is transitive |
| Day07.Insert | src/day07.rs:121 | inserting a hand and bid into a sorted list keeps it sorted by hand and adds exactly that entry |
| Day07.InsertTied | src/day07.rs:121 | inserting an entry puts it in front of the entries already tied with its hand, and leaves every other tie group as it was |
| Day07.SameKeyNotBelow | src/day07.rs:47-52 | a hand is never below a hand of the same type and cards |
| Day07.Sort | src/day07.rs:121 | `sorted_by_key` by hand returns a permutation of the entries sorted by hand, and it is stable: the entries of equal hands keep their input order |
| Day07.TiedAll | src/day07.rs:121 | when every entry has the same hand, they form one tie group, kept whole |
| Day07.EqualHands | src/day07.rs:118-124 | two entries with equal hands are ranked in input order, so bids 1 and 2 win 1 · 1 + 2 · 2 = 5 |
| Day07.Part1 | src/day07.rs:117-125 | `part1` is at least the sum of all bids, since every hand's rank is at least 1 |
| Day07.BidsInsert | src/day07.rs:121 | inserting an entry adds its bid to the sum of bids |
| Day07.BidsSort | src/day07.rs:121-124 | sorting keeps the sum of bids |
| Day07.WinningsAtLeastBids | src/day07.rs:122-124 | every bid is paid at least once: the winnings are at least the sum of the bids |
| Day07.SampleTypes | src/day07.rs:80-89 | the example's shapes [2, 1, 1, 1], [2, 2, 1] and [3, 1, 1] give one pair, two pair and three of a kind |
| Day07.SampleWinnings | src/day07.rs:131-134 | the example's hands in rank order are sorted and win 6440 |
| Day08.ParseInstruction | src/day08.rs:14-20 | exactly 'L' and 'R' are instructions, each reading back as its letter; anything else is the error "Invalid instruction: " followed by the character |
| Day08.ParseShow | src/day08.rs:14-20 | every instruction is read back from its letter |
| Day08.Step | src/day08.rs:52-55 | a step is defined exactly at a node of the network (elsewhere the lookup's `unwrap` panics) and goes to the node's left or right neighbour as the instruction says |
| Day08.Cycle | src/day08.rs:47 | `cycle` always yields a position inside the list |
| Day08.CycleIsModulo | src/day08.rs:47 | the instruction used at step k is the one at k modulo the list length |
| Day08.WalkDefinedBefore | src/day08.rs:47-58 | a walk that gets somewhere after k steps got somewhere at every earlier step |
| Day08.Part1 | src/day08.rs:41-61 | `part1` returns the first step count at which the walk from "AAA" is at "ZZZ"; with no instructions `cycle` yields nothing and the answer is 0 |
| Day08.Sample1Steps | src/day08.rs:67-70 | the first example reaches "ZZZ" first after 2 steps |
| Day08.Sample2Steps | src/day08.rs:72-75 | the second example reaches "ZZZ" first after 6 steps |
| Day09.Diffs | src/day09.rs:22-25 | a history of n ≥ 1 numbers has n - 1 consecutive differences |
| Day09.Previous | src/day09.rs:43-54 | `get_previous` is None exactly when the history has fewer than two numbers |
| Day09.NextFullConstant | src/day09.rs:27-28 | a constant history extrapolates to its constant in both directions |
| Day09.NextIsFull | src/day09.rs:17-32 | `get_next`, which stops once the differences are all equal, gives the value of the full difference table, built down to a single row |
| Day09.PreviousIsFull | src/day09.rs:43-54 | `get_previous` gives the full difference table's value extrapolated backwards |
| Day09.NextFullNegate | src/day09.rs:17-32 | negating a history negates its extrapolation |
| Day09.ReverseDuality | src/day09.rs:17-54 | extrapolating backwards is extrapolating the reversed history forwards |
| Day09.NextReversed | src/day09.rs:17-54 | `get_previous` of a history is `get_next` of the reversed history |
| Day09.Progression | src/day09.rs:27-29 | an arithmetic progression continues with its common difference in both directions |
| Day09.ReverseAll | src/day09.rs:56-63 | each history reversed, in order, each of its original length |
| Day09.Part1Append | src/day09.rs:34-41 | `part1`, the sum of the next values, splits over any split of the histories, which all stay long enough |
| Day09.Part2IsReversedPart1 | src/day09.rs:34-63 | when every history has at least two numbers, `part2` is `part1` of the reversed histories, both sums being defined |
| Day09.Part2 | src/day09.rs:57-63 | the `Option` sum is defined exactly when every history has at least two numbers |
| Day09.SampleFirst | src/day09.rs:69-82 | 0 3 6 9 12 15 extrapolates to 18 and back to -3 |
| Day09.SampleSecond | src/day09.rs:69-82 | 1 3 6 10 15 21 extrapolates to 28 and back to 0 |
| Day09.SampleThird | src/day09.rs:69-82 | 10 13 16 21 30 45 extrapolates to 68 and back to 5 |
| Day09.SamplePart1 | src/day09.rs:69-72 | the example's three histories extrapolate forwards to 18 + 28 + 68 = 114 |
| Day09.SamplePart2 | src/day09.rs:79-82 | the example's three histories extrapolate backwards to -3 + 0 + 5 = 2 |
| Day09.SampleLastTwo | src/day09.rs:79-82 | the example's last two histories extrapolate backwards to 0 + 5 |
| Day09.SampleLast | src/day09.rs:79-82 | the example's last history extrapolates backwards to 5 |
| Day10.EndsDetermine | src/day10.rs:9-17 | a pipe is determined by the two sides it opens to |
| Day10.ParsePipe | src/day10.rs:35-47 | exactly the six characters of "|-LJF7" are pipes, each reading back as its character; anything else is the error "Invalid pipe: " followed by it |
| Day10.SymbolRoundTrip | src/day10.rs:35-47 | every pipe is read back from its character |
| Day10.StartingPipe | src/day10.rs:52-67 | the only error is "No starting position found" |
| Day10.Sides | src/day10.rs:59-64 | the pipes each arm lists for a neighbour are exactly those that open back towards the start |
| Day10.StartingPipeFits | src/day10.rs:52-67 | the pipe chosen for S is one whose both sides connect back, the first such in arm order; the error comes exactly when no pipe fits |
| Day10.Drawn | src/day10.rs:74-83 | the map holds exactly the positions of pipe characters, each with the pipe it reads as |
| Day10.ScanStep | src/day10.rs:76-81 | reading one allowed character records its pipe or, for 'S', the start |
| Day10.ScanRow | src/day10.rs:74-83 | reading past the end of a line moves to the next line |
| Day10.ScanDone | src/day10.rs:74-85 | after the scan the map is the text's pipes and the start is the last 'S', absent exactly when there is none |
| Day10.Parse | src/day10.rs:70-90 | an invalid character gives "Invalid pipe: " for the first one; no 'S' gives "No starting position found"; otherwise the start is the last 'S' and the map gains the starting pipe, or its error is returned |
| Day10.FirstMoveAsWrittenStrays | src/day10.rs:94-96 | as written, the first move leaves 'J' eastwards and 'L' westwards, through sides those pipes do not open |
| Day10.FirstMove | src/day10.rs:94-96 | the intended first move goes through a side the pipe opens |
| Day10.Onward | src/day10.rs:97-100 | a guarded arm of `step` only moves through a side the pipe opens |
| Day10.OnwardFollows | src/day10.rs:97-100 | entering a pipe through one of its sides, the walk leaves through the other |
| Day10.Step | src/day10.rs:92-103 | `step` with the intended first move goes to an orthogonal neighbour through a side the pipe opens, the old position becoming the previous one; it fails (panics) only off the map |
| Day10.StepTotal | src/day10.rs:92-103 | a step never fails on a pipe entered through one of its sides, nor at the start |
| Day10.WalkLoop | src/day10.rs:105-115 | the successors from a position follow the pipes step by step until the start comes back |
| Day10.FindPathLoop | src/day10.rs:105-115 | the path found begins at the start, each step follows a pipe to an orthogonal neighbour, the last step returns to the start, and the start is not visited twice |
| Day10.Part1 | src/day10.rs:165-170 | `part1` is the largest distance around the loop from the start, i.e. the farthest tile going either way |
| Day10.TransformTile | src/day10.rs:117-128 | a tile at three times the scale: the centre carries the pipe and the two cells on the sides it opens carry straight pieces |
| Day10.TransformPathCentres | src/day10.rs:130-136 | the drawn loop holds the centre of each of its tiles |
| Day10.TransformPathNear | src/day10.rs:130-136 | every drawn cell is a tile's centre or one step from it through a side its pipe opens |
| Day10.Fill | src/day10.rs:138-155 | the breadth-first search from (-1, -1) over the eight neighbours returns exactly the cells reachable without entering the drawn loop or leaving rows -1..height and columns -1..width |
| Day10.OutsideShape | src/day10.rs:138-155 | the outside holds (-1, -1); every other cell of it is off the loop and within the bounds |
| Day10.CountInsideBound | src/day10.rs:157-162 | at most one tile per centre cell of the drawing is counted |
| Day10.LoopNotEnclosed | src/day10.rs:157-162 | no tile of the loop is counted as enclosed |
| Day10.ExtentUnique | src/day10.rs:177-179 | the fold's extent does not depend on the order of the keys |
| Day10.FindExtent | src/day10.rs:177-179 | the fold returns the extent of the map's keys at three times the scale |
| Day10.Part2 | src/day10.rs:173-184 | `part2` counts the tile centres that are neither reached from outside nor on the drawn loop |
| Day10.FindPathLoopOf | src/day10.rs:130-133 | every tile on the loop has a pipe, so the `unwrap` of line 133 never panics |
| Day10.SquareStrays | src/day10.rs:92-103 | with the start a 'J', the first step as written goes east onto an empty cell and the next step panics |
| Day10.SquareTail | src/day10.rs:105-115 | the walk over the last three tiles of the square loop |
| Day10.SquareMiddle | src/day10.rs:105-115 | the walk over the last five tiles of the square loop |
| Day10.SquareLoop | src/day10.rs:105-115 | with the intended first move, the walk closes the loop of the eight tiles around the middle, and `part1` is 4 |
| Day11.GalaxiesFrom | src/day11.rs:7-13 | from a given row on, every position listed holds '#' and every '#' is listed |
| Day11.RowGalaxies | src/day11.rs:10-12 | from a given column on, a line's listed positions are exactly its '#' positions |
| Day11.Galaxies | src/day11.rs:6-14 | `parse` lists exactly the positions of '#' |
| Day11.Range | src/day11.rs:24-25 | the lines x .. y - 1, y - x of them |
| Day11.BelowBound | src/day11.rs:24-25 | at most x occupied lines lie below x, so `j - count` never underflows |
| Day11.BelowGrowth | src/day11.rs:24-25 | between x and y there are at most y - x occupied lines |
| Day11.Expand | src/day11.rs:24-25 | an expanded coordinate never shrinks |
| Day11.ExpandCountsEmpty | src/day11.rs:24-25 | the growth is factor - 1 per empty line below the coordinate (factor 2 in `part1`, a million in `part2`, lines 41-42) |
| Day11.ExpandByOne | src/day11.rs:24-25 | with factor 1 nothing moves |
| Day11.ExpandGap | src/day11.rs:24-25 | expansion keeps the order of coordinates, and two coordinates move apart by factor - 1 per empty line between them |
| Day11.DistMetric | src/day11.rs:28 | the Manhattan distance is symmetric and zero only between equal positions |
| Day11.PairSumHalf | src/day11.rs:27-29 | `tuple_combinations` counts each unordered pair once: its sum is half the sum over ordered pairs |
| Day11.DistSumSym | src/day11.rs:28 | the distances from one galaxy to a list are those from the list to it |
| Day11.OrderedSumCons | src/day11.rs:27-29 | the ordered sum splits over the second list |
| Day11.OrderedSumSplit | src/day11.rs:27-29 | splitting off the first galaxy: twice its distances to the rest plus the rest's ordered sum |
| Day11.ExpandAll | src/day11.rs:21-26 | each galaxy expanded in both coordinates, in order |
| Day11.ExpandApart | src/day11.rs:24-28 | two coordinates expanded by the same factor move apart by factor - 1 for every empty line between them |
| Day11.DistExpanded | src/day11.rs:23-28 | the distance between two expanded galaxies is their plain distance plus factor - 1 per empty row and per empty column between them |
| Day11.DistSumExpanded | src/day11.rs:23-29 | the distances from one expanded galaxy to a list of expanded galaxies grow by factor - 1 per empty line between it and each of them |
| Day11.PairSumExpanded | src/day11.rs:21-29 | the pair sum of the expanded galaxies is the plain pair sum plus factor - 1 per empty line between the galaxies of each pair |
| Day11.Solve | src/day11.rs:17-30 | the answer is the plain pair sum plus factor - 1 for every empty row and column between the galaxies of every pair |
| Day11.Part1 | src/day11.rs:16-30 | `part1` counts every empty row or column between the galaxies of a pair twice |
| Day11.Part2 | src/day11.rs:32-47 | `part2` counts every empty row or column between the galaxies of a pair a million times |
| Day11.Part2FromPart1 | src/day11.rs:16-47 | `part1` is at least the plain pair sum, and what `part2` adds to it is 999999 times what `part1` adds |
| Day11.SolveFactorOne | src/day11.rs:17-30 | without expansion the answer is the plain sum of distances over pairs |
| Day12.UnknownsFrom | src/day12.rs:29-31 | `positions` lists exactly the '?' positions, in increasing order |
| Day12.Combinations | src/day12.rs:32 | `combinations(k)` of n positions yields binomial(n, k) choices |
| Day12.CombinationsSound | src/day12.rs:32 | every combination has k positions, all taken from the list, in its order |
| Day12.Prepend | src/day12.rs:32 | the combinations holding the first item are that item followed by a combination of the rest |
| Day12.Fill | src/day12.rs:33-36 | the candidate row is the row with exactly the chosen positions marked '#' |
| Day12.Lead | src/day12.rs:37 | the length of the leading run of '#' |
| Day12.Runs | src/day12.rs:37-39 | every group that `dedup_with_count` reports for '#' has at least one spring |
| Day12.CountDamagedAppend | src/day12.rs:27 | counting '#' splits over concatenation |
| Day12.LeadCount | src/day12.rs:27 | the leading run is all '#' |
| Day12.RunsSum | src/day12.rs:37-39 | the groups account for every '#' of the row |
| Day12.FillCount | src/day12.rs:33-36 | marking k distinct '?' positions adds exactly k damaged springs to the known ones |
| Day12.CountFromIsCount | src/day12.rs:27 | counting from an index is counting in the suffix |
| Day12.AboveStep | src/day12.rs:36 | the chosen positions from i on are those from i + 1 on, plus i if chosen |
| Day12.AboveEnd | src/day12.rs:36 | no chosen position lies at or past the row's end |
| Day12.AboveAll | src/day12.rs:36 | all chosen positions lie at or past 0 |
| Day12.FillCountFrom | src/day12.rs:33-36 | from any index on, the candidate has the row's '#' plus the chosen positions there |
| Day12.CountValid | src/day12.rs:33-41 | the filter keeps at most all combinations |
| Day12.Arrangements | src/day12.rs:25-42 | a row's arrangements are at most binomial(number of '?', missing '#'), the missing count being an unsigned subtraction that must not underflow |
| Day12.CandidateCount | src/day12.rs:26-36 | every candidate has exactly as many '#' as the groups add up to |
| Day12.Part1 | src/day12.rs:22-44 | `part1` is at least every single row's number of arrangements |
| Day12.Part1Append | src/day12.rs:22-44 | `part1` of two blocks of rows is the sum of `part1` of each block |
| Day13.ParseTile | src/day13.rs:16-24 | exactly '.' and '#' are tiles, '.' being ash and '#' rock; any other character is the error "Invalid tile: " and the character |
| Day13.VerticalIndicesInRange | src/day13.rs:58-62 | the compared columns k - l - 1 and k + l never leave 0..width, so the subtraction never underflows |
| Day13.FindVertical | src/day13.rs:57-66 | the first loop returns the first vertical mirror line from k on, and nothing exactly when there is none |
| Day13.FindHorizontal | src/day13.rs:68-77 | the second loop returns the first horizontal mirror line from k on, and nothing exactly when there is none |
| Day13.FindMirror | src/day13.rs:56-80 | `find_mirror` returns the first vertical line if there is one, else the first horizontal line, and None exactly when there is neither |
| Day13.Score | src/day13.rs:87-91 | a pattern's summary is k for a vertical line left of column k, or 100·k for a horizontal line above row k; with no line the source panics, which is the precondition |
| Day13.Transpose | src/day13.rs:68-77 | a height × width pattern read column-wise is width × height |
| Day13.HorizontalIsTransposedVertical | src/day13.rs:68-77 | a horizontal line is a vertical line of the transposed pattern, so the second loop is the first one on the transpose |
| Day13.ParsePattern | src/day13.rs:38-51 | no lines is the error "Unexpected empty line"; otherwise the pattern parses exactly when every character is a tile, else the error names a character that is not; a parsed pattern has one row per line, height the number of lines, width the length of the first, and row j column i holds the tile of line j's character i |
| Day13.ParseRows | src/day13.rs:41-49 | the lines parse exactly when every character of every line is a tile, and then character by character into tiles; otherwise the error is "Invalid tile: " with a character that is not a tile |
| Day13.ParseRow | src/day13.rs:45-47 | a line parses exactly when every character is a tile, and then one tile per character; otherwise the error is "Invalid tile: " with a character of the line that is not a tile |
| Day13.Part1 | src/day13.rs:83-94 | every pattern has a mirror line at column or row 1 or beyond, so `part1` is at least the number of patterns |
| Day13.Part1Append | src/day13.rs:83-94 | `part1` of two blocks of patterns is the sum of `part1` of each block |
| Day14.ParseRock | src/day14.rs:15-23 | exactly '#' and 'O' are rocks, each reading back as its character; anything else is the error "Invalid rock: " followed by it |
| Day14.RockRoundTrip | src/day14.rs:15-23 | every rock is read back from its character |
| Day14.Parse | src/day14.rs:29-44 | no lines is the error "Unexpected empty line"; otherwise the input parses exactly when every character is '.', '#' or 'O', with height the number of lines, width the length of the first, and a rock at exactly the other-than-'.' positions; else the error names an invalid character |
| Day14.ParseRows | src/day14.rs:32-41 | the rows from j on parse exactly when all their characters are valid, into the rocks at their non-'.' positions |
| Day14.ParseRow | src/day14.rs:36-39 | one line from column i on parses exactly when its characters are valid, into the rocks at its non-'.' positions |
| Day14.Stop | src/day14.rs:52 | a round rock rests at the smallest row from which every cell up to its own row is empty; the cell above the resting row is the edge or a rock |
| Day14.Rounds | src/day14.rs:49 | the round rocks among the sorted keys, in the same order |
| Day14.KeepCubes | src/day14.rs:51-56 | moving a round rock keeps every cube-shaped rock and only fills cells above it |
| Day14.KeepLater | src/day14.rs:51-56 | the round rocks still to move stay in place |
| Day14.KeepSettled | src/day14.rs:51-56 | every rock already moved rests on the edge or on another rock, the one just moved too |
| Day14.KeepRows | src/day14.rs:49-56 | the rocks already moved lie no lower than the next rock to move |
| Day14.KeepCounts | src/day14.rs:51-56 | moving a round rock keeps each column's number of round rocks |
| Day14.Tilt | src/day14.rs:51-56 | the tilt moves every round rock as far north as it goes, keeps the cube-shaped rocks and each column's count of round rocks, leaves every round rock resting on the edge or a rock, and never lowers the load |
| Day14.TiltStep | src/day14.rs:51-56 | one pass of the tilt loop keeps the moved rocks resting on the edge or a rock, and no lower than the next rock to move |
| Day14.Slide | src/day14.rs:52-55 | the loop body removes the rock and inserts a round rock at its resting row when the cell above is free |
| Day14.RollLater | src/day14.rs:51-56 | while the tilt runs, the rocks still to move stay in place |
| Day14.RollRows | src/day14.rs:51-56 | no rock leaves the rows from 0 down |
| Day14.RollKeeps | src/day14.rs:51-56 | the tilt so far keeps the cube-shaped rocks and the column counts, and never lowers the load |
| Day14.LoadRemove | src/day14.rs:58-61 | the load does not depend on the order the rocks are summed in |
| Day14.MoveLoad | src/day14.rs:52-55 | moving a round rock north never lowers the load |
| Day14.TotalLoad | src/day14.rs:58-61 | the final sum is the load: height - row over the round rocks |
| Day14.Part1 | src/day14.rs:47-62 | `part1` is the load after moving the round rocks north in row-major order, and is at least the load before |
| Day15.HashPrefix | src/day15.rs:12-14 | the fold over any prefix stays below 256 |
| Day15.Hash | src/day15.rs:12-14 | a hash is below 256, and the empty string hashes to 0 |
| Day15.HashPrefixAppend | src/day15.rs:12-14 | the fold over a prefix does not look past it |
| Day15.HashSnoc | src/day15.rs:13 | one more character c turns hash h into ((h + c) · 17) mod 256 |
| Day15.Steps | src/day15.rs:4-10 | `parse` gives at least one step, no step holds a comma, and gluing the steps back with commas gives the trimmed input (trimmed of Unicode White_Space, as `str::trim`) |
| Day15.NoBreakSpaceTrimmed | src/day15.rs:4-10 | a trailing no-break space is trimmed: "rn=1" followed by U+00A0 is the single step "rn=1", and part 1 gives 30 |
| Day15.Part1 | src/day15.rs:17-23 | no steps sum to 0 |
| Day15.Part1Bound | src/day15.rs:17-23 | every step adds less than 256 |
| Day15.SampleHash | src/day15.rs:12-14 | "HASH" hashes to 52 |
| Day15.SampleHashes1 | src/day15.rs:29-32 | the example's first four steps hash to 30, 253, 97 and 47 |
| Day15.SampleHashes2 | src/day15.rs:29-32 | the next four hash to 14, 180, 9 and 197 |
| Day15.SampleHashes3 | src/day15.rs:29-32 | the last three hash to 48, 214 and 231 |
| Day15.Sample | src/day15.rs:29-32 | the example's hashes sum to 1320 |
| Day16.ParseElement | src/day16.rs:17-27 | exactly '/', '\', '|' and '-' are elements, each reading back as its character; anything else is the error "Invalid element: " followed by it |
| Day16.Parse | src/day16.rs:34-49 | the grid parses exactly when it has a line and every character is '.' or an element; height is the number of lines, width the length of the first, and the elements sit at exactly the non-'.' positions, counted from (1, 1) |
| Day16.ParseRows | src/day16.rs:37-46 | the rows from j on parse exactly when every character is '.' or an element |
| Day16.ParseRowsMap | src/day16.rs:37-46 | the parsed rows hold exactly the non-'.' positions from row j + 1 on, each element shown back as its character |
| Day16.ParseRow | src/day16.rs:41-44 | one line from column i on parses exactly when its characters are valid, into the elements at its non-'.' positions |
| Day16.Step | src/day16.rs:60-67 | a step moves to an orthogonal neighbour |
| Day16.Outgoing | src/day16.rs:73-97 | a beam leaves a tile in one or two directions |
| Day16.PassOrSplit | src/day16.rs:73-97 | an empty tile, or a splitter met along its axis, lets the beam through; a splitter met across its axis sends out the two perpendicular beams |
| Day16.MirrorTurns | src/day16.rs:76-84 | a mirror sends each incoming beam out in one direction, always turning, with no two incoming directions sent the same way, and a beam sent back retraces its path |
| Day16.Neighbors | src/day16.rs:72-103 | `neighbors` gives exactly the beams leaving the tile one step on that are still inside the grid |
| Day16.Beams | src/day16.rs:73-97 | each outgoing direction one step on |
| Day16.Keep | src/day16.rs:99-102 | the filter keeps exactly the beams inside rows 1..=height and columns 1..=width |
| Day16.Bound | src/day16.rs:105-118 | the states the search can see: the start and the states inside the grid |
| Day16.BoundClosed | src/day16.rs:109-118 | no neighbour leaves those states, so the search ends |
| Day16.Positions | src/day16.rs:120-123 | the tiles of the states seen, each once |
| Day16.EnergizedBounds | src/day16.rs:105-124 | an entry inside the grid energizes its own tile and at most every tile of the grid |
| Day16.CountEnergized | src/day16.rs:105-124 | `count_energized_tiles` returns the number of distinct tiles among the beam states reachable from the start |
| Day16.Part1 | src/day16.rs:127-129 | `part1` counts the tiles energized by the beam entering at (1, 1) heading right |
| Day16.Entries | src/day16.rs:133-136 | 2·(height + width) entries, all on the grid's edges |
| Day16.RowEntries | src/day16.rs:134 | for each row the left edge heading right and the right edge heading left |
| Day16.ColumnEntries | src/day16.rs:135 | for each column the top edge heading down and the bottom edge heading up |
| Day16.FirstEntry | src/day16.rs:134 | the first entry tried is (1, 1) heading right |
| Day16.FirstRowEntry | src/day16.rs:134 | the first row entry is (1, 1) heading right |
| Day16.Part2 | src/day16.rs:132-139 | `part2` is the count of one entry and no entry energizes more; None exactly when there are no entries |
| Day16.Max | src/day16.rs:138 | `max` is None exactly on no items, and otherwise one of them, no smaller than any |
| Day16.Scores | src/day16.rs:137 | one count per entry |
| Day16.Part2AtLeastPart1 | src/day16.rs:127-139 | `part2` is at least `part1`, since (1, 1) heading right is among the entries |
| Day17.Parse | src/day17.rs:11-26 | no lines is the error "Unexpected empty line"; otherwise the city parses exactly when every character is '.' or a digit, with height the number of lines, width the length of the first, and each digit's heat loss at its position counted from (1, 1) |
| Day17.ParseRows | src/day17.rs:14-23 | the rows from j on parse exactly when their characters are '.' or digits, into the heat losses at their digit positions |
| Day17.ParseRow | src/day17.rs:18-21 | one line parses exactly when its characters are '.' or digits; otherwise the error is "Invalid heat loss number: " followed by an offending character |
| Day17.Step | src/day17.rs:37-44 | a step moves one block along one axis |
| Day17.ReverseInvolution | src/day17.rs:46-53 | reversing twice is the identity, never fixes a direction, and stepping forth and back returns to the start |
| Day17.Neighbors | src/day17.rs:59-73 | the next states turn or go straight but never reverse, go straight only after a run under 3, stay in the grid, and count the run (straight: run + 1, turn: 1); every such move is offered |
| Day17.Turns | src/day17.rs:60-72 | the filters over a list of directions keep exactly the allowed moves |
| Day17.Weighed | src/day17.rs:88-91 | the neighbours are weighted by the heat loss of the block entered, and the `?` gives None exactly when one of those blocks has no heat loss |
| Day17.BoundClosed | src/day17.rs:59-73 | the states the search can reach form a finite closed set, so it ends |
| Day17.InBound | src/day17.rs:59-73 | every in-grid state with run 1..3 is among them |
| Day17.Distance | src/day17.rs:56-101 | `distance` returns the least heat loss of a route from the source, first heading right with no run, to any state on the target; None only when a reachable state's neighbour block has no heat loss or no route reaches the target |
| Day17.Part1 | src/day17.rs:104-107 | `part1` is that least heat loss from (1, 1) to (height, width) |
| Day17.StateOrder | src/day17.rs:28-57 | the derived order on states (row, column, direction in declaration order, run) is total, transitive and antisymmetric, so the heap's pop is determined |
| Day18.ParseDirection | src/day18.rs:29-39 | exactly "U", "D", "L" and "R" parse, each to the direction that is written as that letter; anything else is the error "Invalid direction: " followed by the text |
| Day18.Step | src/day18.rs:16-23 | a step moves exactly one unit along one axis |
| Day18.Dig | src/day18.rs:82-90 | the trench holds the origin and the digger's final position |
| Day18.DigTrench | src/day18.rs:82-90 | the digging loops produce the trench and end position of the plan |
| Day18.FindBounds | src/day18.rs:92-99 | the fold yields the tight bounds: the least and greatest row and column of the trench widened by one, taken together with (0, 0, 0, 0) |
| Day18.TightUnique | src/day18.rs:92-99 | the bounds depend only on the set of trench cells, not on the hash set's iteration order |
| Day18.CornerOffTrench | src/day18.rs:61 | the corner the fill starts from is never on the trench |
| Day18.AddInside | src/day18.rs:103-109 | after the scan a cell is in the grid exactly when it was before or it lies inside the bounds and is not outside |
| Day18.ScanCoversBox | src/day18.rs:103-111 | the scanned grid is the trench together with every in-bounds cell not outside |
| Day18.Part1 | src/day18.rs:81-112 | the answer is the size of the lagoon (trench plus every in-bounds cell not reachable from the corner) for the tight bounds, and is at least the trench's size |
| Day19.ParseCategory | src/day19.rs:7-14 | exactly the four letters x, m, a, s in either case parse, each to its category; anything else is an error |
| Day19.ParseTarget | src/day19.rs:26-38 | the text parses exactly when it is "A", "R" or all lower-case letters, to a target written back as that same text; otherwise the error is "Invalid target: " followed by the text |
| Day19.ParseShowTarget | src/day19.rs:26-38 | reading back the text of a valid target gives that target |
| Day19.U32Scan | src/day19.rs:59 | the digit loop of `u32::from_str` reads left to right while the value stays below 2^32: every prefix it passes is digits that fit, and the character it stops at, if any, either is no digit or takes the value to 2^32 or beyond |
| Day19.ParseU32 | src/day19.rs:59 | a number parses exactly when it is an optional '+' followed by a non-empty run of digits whose value is below 2^32, to that value; the empty text is "cannot parse integer from empty string"; otherwise the character the scan stops at decides: a digit gives "number too large to fit in target type" and anything else "invalid digit found in string" |
| Day19.OverflowFirst | src/day19.rs:59 | a run of digits worth 2^32 or more is too large whatever follows it, even a non-digit |
| Day19.InvalidFirst | src/day19.rs:59 | a non-digit right after a run of digits that fits is an invalid digit whatever follows it, even digits that would overflow |
| Day19.ParseRule | src/day19.rs:51-70 | a text that is a target is the unconditional rule to it; otherwise the result is an error or a conditional rule; a parsed rule is valid, and its operator is the text's second character |
| Day19.NoColon | src/day19.rs:58 | a rule text without a colon is an unconditional rule or an error |
| Day19.ParseShowCondition | src/day19.rs:56-67 | the text of a valid conditional rule, letter, operator, digits, colon and target, reads back as that rule |
| Day19.ParseLetter | src/day19.rs:7-14 | a category's lower-case letter parses back to that category |
| Day19.NotTarget | src/day19.rs:26-38 | a text whose second character is an operator is not a target |
| Day19.ConditionParts | src/day19.rs:56-67 | in a conditional rule's text the first colon follows the digits, the part before it is a letter, an operator and the value, and the part after it is the target |
| Day19.ParseShowRule | src/day19.rs:51-70 | reading back the text of any valid rule gives that rule, without a panic |
| Day19.RatingsDetermine | src/day19.rs:111-120 | two parts with the same rating in every category are the same part |
| Day19.Record | src/day19.rs:93-98 | one assignment sets the named category's slot to the value and leaves the other slots alone |
| Day19.ReadableNoPanic | src/day19.rs:89-92 | rating pieces that each have a category letter, a separator and a value do not make the loop panic |
| Day19.ReadRatingsFill | src/day19.rs:89-99 | after the loop a category has a value exactly when it had one before or some piece named it |
| Day19.ReadStep | src/day19.rs:89-99 | one turn of the loop on a piece naming a category with a value records that value and continues with the rest |
| Day19.ParsePart | src/day19.rs:86-108 | a parsed part holds, in each category, the value the loop over the rating pieces recorded for it |
| Day19.PartComplete | src/day19.rs:101-106 | a part text whose ratings read parses exactly when every category is named; a missing x rating gives the error "Invalid part; x rating missing: " followed by the text |
| Day19.ShowRatingReads | src/day19.rs:89-91 | the text of one rating has no comma, starts with its category letter, and its value after the '=' reads back |
| Day19.ParseShowPart | src/day19.rs:86-108 | reading back the text of a part gives that part, without a panic |
| Day19.DecideFirst | src/day19.rs:154-171 | a workflow decides by its first passing rule: the decision is that rule's target, with no passing rule before it, and there is none exactly when no rule passes |
| Day19.OutcomeMonotone | src/day19.rs:153-182 | once an evaluation has reached a verdict, more steps do not change it |
| Day19.VerdictIs | src/day19.rs:150-183 | any number of steps that reaches a verdict from "in" gives the part's verdict |
| Day19.Evaluate | src/day19.rs:150-183 | the evaluation loop returns the part's verdict |
| Day19.AcceptedOnly | src/day19.rs:186-192 | the accepted total never exceeds the grand total of ratings, and equals it exactly when every part with a positive total is accepted |
| Day19.Part1 | src/day19.rs:186-192 | the answer is the sum of x + m + a + s over the accepted parts |
| Day19.AcceptedStep | src/day19.rs:186-192 | the accepted total grows one part at a time, by that part's total when it is accepted |
| Day19.SampleFirst | src/day19.rs:199-201 | the first sample part is accepted |
| Day19.SampleSecond | src/day19.rs:199-201 | the second sample part is rejected |
| Day19.SampleThird | src/day19.rs:199-201 | the third sample part is accepted |
| Day19.SampleFourth | src/day19.rs:199-201 | the fourth sample part is rejected |
| Day19.SampleFifth | src/day19.rs:199-201 | the fifth sample part is accepted |
| Day19.SampleTotal | src/day19.rs:199-201 | on the sample workflows and parts the accepted ratings add up to 19114 |
| Day20.Mentions | src/day20.rs:47-50 | the name is pushed once for each occurrence of the target, and at all exactly when the line names the target |
| Day20.SourcesOfNames | src/day20.rs:44-53 | a module is among the sources of a target exactly when some line of that module sends to it |
| Day20.CollectSources | src/day20.rs:44-53 | after the fold a target has a list exactly when some line sends to it, and the list is every sending line's name, once per mention, in line order |
| Day20.PushTracks | src/day20.rs:47-50 | pushing the line's name onto one more target's list keeps every list equal to the names sending to it so far |
| Day20.MentionsPush | src/day20.rs:47-50 | one more target adds one more mention exactly when it is the target asked about |
| Day20.LowMemory | src/day20.rs:65 | a new conjunction remembers exactly its sources, each as low |
| Day20.BuildKeys | src/day20.rs:55-73 | the map holds exactly the declared names |
| Day20.BuildLast | src/day20.rs:55-73 | each name in the map holds the module of the last line declaring it |
| Day20.BuildWired | src/day20.rs:55-73 | the built network is wired: every conjunction remembers every module that sends to it |
| Day20.Parse | src/day20.rs:44-73 | the result is wired, holds exactly the declared names, and a name's last line gives a broadcaster with its targets (no prefix), an off flip-flop with its targets ('%'), or a conjunction remembering each of its sources as low with its targets ('&') |
| Day20.Emit | src/day20.rs:106-108 | one message from the module to each target in order, all carrying the pulse |
| Day20.NextCounts | src/day20.rs:86-90 | handling a pulse removes it from the front of the queue, keeps the rest in order, and raises exactly the counter of its kind by one |
| Day20.RunCountsQueue | src/day20.rs:86-131 | a run that finishes empties the queue and counts at least every pulse that was queued |
| Day20.PressesBefore | src/day20.rs:83-132 | if a number of presses all finish, so does any smaller number |
| Day20.NextWiring | src/day20.rs:92-130 | handling a pulse keeps the wiring, records the target (a missing one as a sink) and queues only pulses from the target to its own targets |
| Day20.RespondWiring | src/day20.rs:92-128 | handling a pulse keeps the module's targets, kind and remembered inputs, and it sends only from itself to its own targets |
| Day20.NextValid | src/day20.rs:86-131 | in a wired network every queued pulse can be handled without the conjunction lookup panicking, and the network stays wired |
| Day20.FlipFlopToggles | src/day20.rs:93-110 | a flip-flop ignores a high pulse; a low pulse toggles it, sending high when it was off and low when it was on, so two low pulses restore it |
| Day20.InverterInverts | src/day20.rs:111-123 | a conjunction with a single input sends the opposite of the pulse it receives |
| Day20.ConjunctionSends | src/day20.rs:111-123 | a conjunction records the pulse for its sender, keeps its inputs, and sends to each target in order a low pulse exactly when every remembered input is high |
| Day20.Machine.constructor | src/day20.rs:78-81 | the machine starts with the given modules, an empty queue and both counters at zero |
| Day20.Machine.Send | src/day20.rs:106-108 | the pulses to the targets are appended to the queue in order; nothing else changes |
| Day20.Machine.Deliver | src/day20.rs:86-130 | one pass of the loop takes the machine to the next state of the model |
| Day20.Machine.Settle | src/day20.rs:86-131 | the loop takes the machine to the state after the model's run empties the queue |
| Day20.Part1 | src/day20.rs:77-135 | the answer is the product of the high and low counts after 1000 presses of the model |
| Day20.PressesAdd | src/day20.rs:83-132 | a presses followed by b presses are a + b presses |
| Day20.Periodic | src/day20.rs:83-132 | when a run of presses restores the modules and adds fixed counts, k such runs add k times those counts |
| Day20.RunStep | src/day20.rs:86 | a pass that succeeds leaves one pass fewer to run |
| Day20.Sample1Press1 | src/day20.rs:142-144 | one press of the first example, from its starting state, handles twelve pulses: four high and eight low |
| Day20.Sample1Cycle | src/day20.rs:142-144 | one press of the first example sends four high and eight low pulses and leaves every module as it was |
| Day20.Sample1Answer | src/day20.rs:142-144 | a thousand presses of the first example send 4000 high and 8000 low pulses, product 32000000 |
| Day20.Sample2Press1 | src/day20.rs:147-149 | the first press of the second example sends four high and four low pulses and records "output" as a sink |
| Day20.Sample2Press2 | src/day20.rs:147-149 | the second press of the second example sends two high and four low pulses |
| Day20.Sample2Press3 | src/day20.rs:147-149 | the third press of the second example sends three high and five low pulses |
| Day20.Sample2Press4 | src/day20.rs:147-149 | the fourth press of the second example sends two high and four low pulses |
| Day20.Sample2Cycle | src/day20.rs:147-149 | four presses of the second example send eleven high and seventeen low pulses and restore every module, with "output" added as a sink |
| Day20.Sample2Answer | src/day20.rs:147-149 | a thousand presses of the second example send 2750 high and 4250 low pulses, product 11687500 |
| Day21.RocksAre | src/day21.rs:16-26 | a position is a rock exactly when some '#' or 'S' character lands on it |
| Day21.StartIsRock | src/day21.rs:19-25 | the start is the position of an 'S' and is itself recorded as a rock |
| Day21.NoStart | src/day21.rs:28 | there is no start exactly when no character is 'S' |
| Day21.PositionsInGrid | src/day21.rs:17 | every position is 1-based with its column within the width, and the first height × width characters land on rows within the height |
| Day21.Parse | src/day21.rs:10-29 | no lines is the error "Unexpected empty line"; otherwise the garden has the line count as height, the first line's UTF-8 length in bytes as width, cells placed row by row at that width, the rocks and the last 'S' as start, or the error "Starting position not found" when there is no 'S' |
| Day21.Neighbors | src/day21.rs:58-64 | the neighbours are exactly the orthogonal positions that are not rocks and lie within the grid, each one step away |
| Day21.Solve | src/day21.rs:57-70 | the answer is the number of plots whose shortest distance from the start is within the budget and of the budget's parity |
| Day21.Counted | src/day21.rs:66-69 | filtering the table of shortest distances by budget and parity gives exactly those plots |
| Day21.ShortestUnique | src/day21.rs:33-55 | a plot has only one shortest distance |
| Day21.CostIsLength | src/day21.rs:63 | every step costs 1, so a route costs its number of steps |
| Day21.ZeroSteps | src/day21.rs:68 | with no steps only the start is counted |
| Day21.StartCounted | src/day21.rs:68 | the start is counted for every even budget |
| Day21.TwoMore | src/day21.rs:68 | every plot counted for a budget is counted for the budget two larger |
| Day21.Part1 | src/day21.rs:73-75 | the answer counts the plots for a budget of 64 steps |
| Day21.PosOrder | src/day21.rs:31-38 | the derived order on (row, column) states is total, transitive and antisymmetric, so the heap's pop is determined |
| Day21.WidthInBytes | src/day21.rs:12-25 | "\u{e9}S" is three bytes wide, so over the cells "\u{e9}S##" the rocks are (1,2), (1,3) and (2,1) and the start is (1,2) |
| Day22.Lower | src/day22.rs:40-45 | lowering keeps the number of cubes, moves every cube one step down in z only, and lowers the level by one |
| Day22.Raise | src/day22.rs:47-52 | raising keeps the number of cubes, moves every cube one step up in z only, and raises the level by one |
| Day22.RaiseLower | src/day22.rs:16-52 | raising a lowered brick gives the brick back |
| Day22.LowerRaise | src/day22.rs:16-52 | a raised brick can be lowered, and lowering it gives the brick back |
| Day22.CubeOrder | src/day22.rs:78 | the (z, y, x) order of cubes is total and transitive |
| Day22.ParseBrick | src/day22.rs:58-81 | a line parses exactly when splitting it at every ',' and every '~', in any mix, gives six numbers; any error is "Invalid brick: " followed by the line; a parsed brick holds each cube of the box between the corners exactly once, sorted by (z, y, x), at the lower corner's level |
| Day22.FillBox | src/day22.rs:68-76 | the triple loop lists every cube of the box between the corners, each once, and nothing outside the box |
| Day22.SortedBox | src/day22.rs:78-80 | sorting the listed cubes by (z, y, x) gives the brick of that box at the lower corner's level |
| Day22.UnifyTilde | src/day22.rs:60 | splitting on ',' and '~' reads the one '~' as a comma |
| Day22.DecimalPiece | src/day22.rs:60-61 | a number as written holds neither separator and parses back as itself |
| Day22.UnifyShow | src/day22.rs:60 | a line written from six numbers splits at its separators into their six numerals |
| Day22.CornersShow | src/day22.rs:58-66 | every line written from six numbers reads back as those numbers |
| Day22.SettleOrder | src/day22.rs:99 | bricks are settled in increasing level order, each brick of the input once |
| Day22.Drop | src/day22.rs:100-108 | the dropped brick stays above the ground and never rises; if it is above level 1, one more step down would hit an occupied cube, and if it moved, its final cubes are free |
| Day22.DropShifts | src/day22.rs:100-108 | dropping moves every cube straight down by the levels lost |
| Day22.OccupiedHolds | src/day22.rs:110-112 | a cube is occupied exactly when some settled brick holds it |
| Day22.Settle | src/day22.rs:96-115 | the loop settles the bricks in the given order, each dropped onto those before it, and the occupied cubes are exactly those of the settled bricks |
| Day22.Descend | src/day22.rs:100-108 | the inner loop lowers the brick exactly as far as `Drop` does: until level 1 or until the step below hits an occupied cube |
| Day22.Occupy | src/day22.rs:110-112 | the occupied set gains exactly the brick's cubes |
| Day22.FallAt | src/day22.rs:99-115 | each brick settles onto exactly the cubes of the bricks settled before it |
| Day22.FallRests | src/day22.rs:99-115 | settled bricks stay above the ground and never rise |
| Day22.OccupiedPrefix | src/day22.rs:110-112 | occupied cubes only accumulate |
| Day22.FallBlocked | src/day22.rs:100-115 | a settled brick above level 1 would run into an occupied cube if lowered once more |
| Day22.Owner | src/day22.rs:117-120 | the map gives a settled brick holding the cube, and none exactly when no settled brick holds it |
| Day22.OwnerLast | src/day22.rs:117-120 | the brick the map gives is the last settled brick holding the cube |
| Day22.Holders | src/day22.rs:125-130 | the bricks found at the cubes are all settled bricks |
| Day22.Above | src/day22.rs:125-130 | the bricks directly on top are settled bricks other than the brick itself |
| Day22.Below | src/day22.rs:135-139 | the bricks directly under are settled bricks other than the brick itself |
| Day22.SafeCount | src/day22.rs:122-143 | the count of bricks passing the filter never exceeds the bricks looked at |
| Day22.UnderAbove | src/day22.rs:125-139 | where a brick owns its cubes, it is under every brick directly on top of it |
| Day22.SafeMeans | src/day22.rs:124-142 | where a brick owns its cubes, it passes the filter exactly when every brick directly on top of it also rests on some brick other than it |
| Day22.OrderRests | src/day22.rs:99 | sorting keeps every brick above the ground |
| Day22.Answer | src/day22.rs:95-144 | the answer never exceeds the number of bricks |
| Day22.Part1 | src/day22.rs:95-144 | the loop's answer is the count of safe bricks after sorting by level and settling |
| Day23.Step | src/day23.rs:20-29 | a step fails exactly when it would go north from row 0 or west from column 0; otherwise it reaches an adjacent cell |
| Day23.StepBack | src/day23.rs:31-38 | reversing twice gives the direction back and never gives the same direction, and a step can always be taken back |
| Day23.ParseDirection | src/day23.rs:44-54 | exactly '^', 'v', '<' and '>' parse; anything else is the error "Invalid direction: " followed by the character |
| Day23.ShowDirection | src/day23.rs:44-54 | the character written for a direction parses back to it |
| Day23.ParseTile | src/day23.rs:67-75 | exactly '.', '#' and the four slopes parse; anything else is the error "Invalid tile: " followed by the character |
| Day23.ShowTile | src/day23.rs:67-75 | the character written for a tile parses back to it |
| Day23.TileRoundTrip | src/day23.rs:67-75 | every character that parses is written back as itself |
| Day23.AtInjective | src/day23.rs:89 | distinct character indices land on distinct cells |
| Day23.ParseTiles | src/day23.rs:85-90 | the characters parse exactly when each is a tile, the error being that of the first invalid character |
| Day23.ParseTilesMap | src/day23.rs:85-90 | the map holds exactly the cells the characters land on, each with its character's tile |
| Day23.Parse | src/day23.rs:81-93 | no lines is the error "Unexpected empty line"; otherwise the height is the line count, the width the first line's length, the parse succeeds exactly when every non-whitespace character is a tile, and the map holds exactly the cells those characters land on, each with its tile |
| Day23.Moves | src/day23.rs:130-151 | every move weighs 1, goes in one of the directions tried and is allowed, and every allowed direction gives its move |
| Day23.MoveRules | src/day23.rs:130-151 | every move starts on a tile, enters a path or slope, never reverses, leaves a slope only along it, reaches an adjacent cell and weighs 1 |
| Day23.BoundClosed | src/day23.rs:131 | the search never reaches a position without a tile, so the closure never panics, and every move weighs at least 1 |
| Day23.Part1 | src/day23.rs:124-156 | an answer is the length of a costliest hike from some top-row path cell, heading east, to some bottom-row path cell; no answer means there is no such pair of cells or, for some pair, no hike |
| Day23Junctions.ExitsAre | src/day23.rs:218-225 | the exits are exactly the non-reverse steps onto path or slope cells |
| Day23Junctions.Corridor | src/day23.rs:217-245 | a walk that ends stops at a cell with other than one exit, those being its exits, having followed fewer cells than the step bound |
| Day23Junctions.Walk | src/day23.rs:213-231 | the inner loop follows the only exit while there is exactly one, and ends at the corridor's end, length and exits |
| Day23Junctions.Pushed | src/day23.rs:233-234 | a push adds its entry under its key, creating the key if new, and keeps every other entry |
| Day23Junctions.Link | src/day23.rs:233-234 | recording a corridor at both ends keeps the graph symmetric |
| Day23Junctions.OnwardAre | src/day23.rs:236-240 | the queued corridors are exactly the unvisited exits, leaving from the corridor's end |
| Day23Junctions.Enqueue | src/day23.rs:236-240 | the loop appends, in order, one pending corridor per unvisited exit |
| Day23Junctions.ContractKeeps | src/day23.rs:211-246 | the contraction keeps the graph symmetric, only adds nodes, and records the node each queued corridor leaves |
| Day23Junctions.ContractMaze | src/day23.rs:207-246 | the loop computes the contraction, which is symmetric and holds the source |
| Day23Junctions.ContractLoop | src/day23.rs:211-246 | the while loop, run until the queue is empty, leaves exactly the connections the contraction specifies |
| Day23Junctions.ContractRound | src/day23.rs:211-245 | one pass pops the first queued corridor, walks it, links both ends and queues the unvisited exits, leaving a state from which the contraction reaches the same graph |
| Day23Junctions.Round | src/day23.rs:211-245 | one round pops a corridor, walks it, links both ends and queues the unvisited exits |
| Day23Junctions.Unvisited | src/day23.rs:180-185 | the neighbours kept are exactly those not already on the path |
| Day23Junctions.Explorer.Dfs | src/day23.rs:161-197 | the search returns the specified best continuation and leaves the path as it was, each push matched by a pop |
| Day23Junctions.Explorer.Explore | src/day23.rs:187-193 | the loop over the unvisited neighbours returns the best of their searches and leaves the path as it was, each push matched by a pop |
| Day23Junctions.DepthFirst | src/day23.rs:159-200 | the search from a path holding only the source, at distance 0 |
| Day23Junctions.BranchesPick | src/day23.rs:187-196 | the best over the branches is 0 or the value of one of them |
| Day23Junctions.BranchesAbove | src/day23.rs:187-196 | the best over the branches is at least the value of each |
| Day23Junctions.SearchSound | src/day23.rs:161-197 | the search returns 0 or the distance so far plus the length of a simple continuation reaching the target |
| Day23Junctions.SearchComplete | src/day23.rs:173-178 | when the target is a dead end of a symmetric graph, no simple continuation reaching the target is longer than what the search returns, so the pruning at the target's neighbour loses nothing |
| Day23Junctions.EntersViaLinked | src/day23.rs:173-178 | a continuation reaching a dead-end target enters it from the target's one neighbour |
| Day23Junctions.SearchLongest | src/day23.rs:159-200 | on a symmetric graph whose target is a dead end, the search from the source is the length of a longest simple path to the target |
| Day23Junctions.Part2 | src/day23.rs:203-249 | the answer is the longest simple hike, over the contracted maze, from some top-row path cell to some bottom-row path cell |
| Day25.Push | src/day25.rs:21-22 | the value is appended to the key's list, which is created empty if new; every other list is unchanged |
| Day25.AdjacencyStep | src/day25.rs:20-23 | one more edge (x, y) appends y to x's list and then x to y's, and adds x and y as nodes |
| Day25.AdjacencyEdges | src/day25.rs:18-23 | the nodes are exactly the endpoints of the edges, and b is on a's list exactly when an edge joins a and b in either orientation |
| Day25.AdjacencySymmetric | src/day25.rs:18-23 | whenever b is on a's list, b is a node and a is on b's list |
| Day25.Connect | src/day25.rs:18-23 | the loop builds the adjacency lists of the edges |
| Day25.TwoComponentLens | src/day25.rs:17-42 | the first size is that of the component of some node, exactly the nodes reachable from it, and the second is the number of the other nodes |
| Day25.Prune | src/day25.rs:46-54 | an edge is kept exactly when it is not one of the three cut wires in either orientation, and no edges are added |
| Day25.Part1 | src/day25.rs:45-59 | the answer is the product of the two sizes computed on the pruned edges |
| Dijkstra.Run | src/day17.rs:75-101 | a popped target ends the search with the cost of a cheapest route from the source to any target; a popped state whose edge weights cannot be looked up ends it with no answer; an empty queue means no target is reachable, and the table then holds exactly the reachable states, each with the cost of a cheapest route to it |
| Dijkstra.MinIndex | src/day17.rs:76-81 | the entry popped has a cost no greater than any other queued entry, and among the entries of that cost its state is the greatest under the derived order, as `BinaryHeap<(Reverse<u32>, State)>` pops |
| Dijkstra.Relax | src/day21.rs:44-51 | each edge lowers its end's recorded cost to the popped cost plus the weight when that is cheaper or the end is new, queueing exactly those improvements; the recorded states only grow and the total of the recorded costs falls by at least one per queued entry when no state is new |
| Dijkstra.Frontier | src/day21.rs:43-53 | while the search runs, for every route from the source some queued entry costs no more than it, or its end is already recorded at no more than its cost |
| Dijkstra.Arrive | src/day17.rs:81-86 | a target popped as a least entry carries the cost of a cheapest route to any target |
| Dijkstra.Exhaust | src/day21.rs:33-56 | with the queue empty no target is reachable, the recorded states are exactly the reachable ones and each recorded cost is that of a cheapest route |
| Search.Explore | src/day16.rs:105-118 | the worklist search from the start ends with the set of nodes reachable from it (both directions), which is closed under the neighbour function and the least closed set holding the start; every seen node is queued exactly once |
| Search.Enqueue | src/day16.rs:110-117 | after the neighbour loop the seen set is the old one plus every neighbour, and the queue gains, in order and once each, exactly the neighbours that were not seen before |
| Search.ReachableInClosed | src/day25.rs:27-41 | any closed set holding the start holds every node reachable from it |
| Search.LeastReachable | src/day25.rs:27-41 | a set contained in every closed set holding the start holds only reachable nodes |
| Longest.Distance | src/day23.rs:95-122 | on a graph whose routes from the source have bounded cost, the answer, if any, is the cost of a costliest route to some arrived state; no answer means no reachable state has arrived |
| Longest.Costliest | src/day23.rs:100-116 | with the queue empty the table holds exactly the reachable states, each with the cost of a costliest route to it |
| Longest.MaxIndex | src/day23.rs:106 | the entry popped from the max-heap has a cost no smaller than any other queued entry |
| Longest.Raise | src/day23.rs:107-114 | each edge raises its end's recorded cost (absent counting as 0) to the popped cost plus the weight when that is larger, queueing exactly those raises; the shortfall of the recorded costs below the route bound falls by at least one per queued entry |
| Longest.Above | src/day23.rs:106-116 | once every recorded state is relaxed, the end of any route from the source is recorded at no less than the route's cost |
| Longest.Exhaust | src/day23.rs:106-116 | with the queue empty the recorded states are exactly the reachable ones and each recorded cost is that of a costliest route |
| Flood.Open | src/day18.rs:65-74 | a neighbour is entered exactly when it is off the path and inside the bounds |
| Flood.Fill | src/day18.rs:60-79 | the result is exactly the set of cells reachable from the corner (top, left) through the eight neighbours without entering the path or leaving the bounds; it holds the corner, every cell lies within the bounds and every cell other than the corner is off the path; each cell is queued once |
| Flood.FillResult | src/day18.rs:60-79 | a set within the bounds holding exactly the cells reachable from the corner is the outside region, and lies within the bounds off the path |
| Grid.Box | src/day18.rs:71 | a position is in the rectangle exactly when its row and column lie within the inclusive bounds |
| Grid.BoxSize | src/day10.rs:157-163 | a rectangle holds (number of rows) × (number of columns) positions |
| Grid.WithinBox | src/day10.rs:157-163 | a set of positions inside a rectangle has at most that many elements |
| Grid.Around | src/day18.rs:65-69 | the eight positions listed are all adjacent to the centre |
| Grid.AroundComplete | src/day18.rs:65-69 | every position adjacent to the centre is among the eight listed |
| Grid.RowMajorUnique | src/day03.rs:42 | a set of positions has only one row-major listing |
| Grid.SortedKeys | src/day14.rs:49 | sorting a set of positions yields its row-major listing |
| Text.DigitValue | src/day01.rs:10 | an ASCII digit's value is below 10 |
| Text.DigitChar | src/day06.rs:42 | the character written for a digit is an ASCII digit that reads back as that digit |
| Text.FindFrom | src/day02.rs:15 | the result is the first index at or after the start where the separator occurs, or none when it occurs nowhere after it |
| Text.SplitOnce | src/day04.rs:18 | the text splits around the first occurrence of the separator, so that before + separator + after is the input; no split exactly when the separator does not occur |
| Text.Split | src/day12.rs:15 | there is at least one piece and no piece holds the separator |
| Text.JoinSplit | src/day15.rs:7 | joining the pieces back with the separator gives the input |
| Text.SplitJoin | src/day19.rs:134 | splitting a join of separator-free pieces gives the pieces back |
| Text.SplitAfter | src/day19.rs:134 | splitting text that starts with a separator-free piece and a separator gives that piece, then the split of the rest |
| Text.Trim | src/day15.rs:6 | the trimmed text neither starts nor ends with whitespace (Unicode White_Space, as `char::is_whitespace`) and keeps every non-whitespace character |
| Text.TrimStart | src/day15.rs:6 | the result is the input with a leading run of Unicode White_Space removed, and does not start with such a character |
| Text.TrimEnd | src/day15.rs:6 | the result is the input with a trailing run of Unicode White_Space removed, and does not end with such a character |
| Text.Decimal | src/day06.rs:42 | the numeral is non-empty, all digits, and reads back as the number |
| Text.ParseNat | src/day09.rs:10-11 | the parse succeeds exactly on an optional '+' followed by a non-empty run of ASCII digits, with the decimal value of those digits; the empty text is "cannot parse integer from empty string" and any other failure "invalid digit found in string" |
| Text.ParsePlus | src/day09.rs:10-11 | a '+' before a numeral is accepted and skipped, while a '+' alone is an error |
| Text.Utf8Width | src/day07.rs:58 | a character takes one to four bytes in UTF-8, exactly one when it is ASCII |
| Text.ByteLen | src/day07.rs:58 | `str::len` counts UTF-8 bytes: never fewer than the characters, and exactly as many when every character is ASCII |
| Text.ParseDecimal | src/day06.rs:42-45 | parsing the decimal numeral of a number gives that number |
| Text.Words | src/day04.rs:22 | `split_whitespace`: every word is non-empty and free of Unicode White_Space |
| Text.WordLenOf | src/day04.rs:22 | a word followed by the end of the text or by a White_Space character is read whole |
| Text.WordsOf | src/day04.rs:22 | a word, one White_Space character and more text split into that word and the words of the rest |
| Text.NoBreakSpaceWords | src/day04.rs:22 | a no-break space separates words: "41", U+00A0, "48" gives the words "41" and "48" |
| Text.WordsKeepText | src/day04.rs:22 | the words, concatenated, are exactly the characters of the input that are not Unicode White_Space, in order |
| Text.ParseNats | src/day05.rs:15-16 | the list parses exactly when every word parses, into one number per word, in order |
| Sorting.Insert | src/day22.rs:99 | inserting adds one element and keeps every other one |
| Sorting.SortBy | src/day22.rs:99 | the sort is a permutation of its input |
| Sorting.InsertSorted | src/day22.rs:99 | inserting into a sequence sorted by a total preorder keeps it sorted |
| Sorting.SortBySorted | src/day22.rs:99 | under a total preorder the sort's result is sorted |
| Sorting.TiesAppend | src/day22.rs:99 | the elements tied with a given one, in order, split over a concatenation |
| Sorting.InsertTies | src/day22.rs:99 | inserting into a sorted sequence places the new element after every element tied with it |
| Sorting.SortByStable | src/day22.rs:99 | the sort is stable: the elements tied under the preorder with any given element come out in their input order |

## Left out

- Day 24 is not modelled: it solves floating-point linear systems through a foreign linear-algebra library.
- Machine integers (`u32`, `u64`, `usize`, `isize`, `i32`, `i64`) are modelled as unbounded integers. Overflow, `usize` underflow and wrap-around are not modelled; the one exception is the `u32` rating parse of day 19, whose overflow error is modelled. This includes the `u32` rating sum of day 19, the `usize` product of day 20, the `u64` concatenation of day 6, the `u32` heat costs of day 17 and the coordinate arithmetic of days 10, 11, 18, 22 and 23.
- Parsing that goes through a library is not modelled; those solvers take the parsed structures as inputs:
  - the `scan_fmt!` line formats of days 2, 5 and 8;
  - the regular expression of day 20, so `Day20.Parse` starts from the matched (prefix, name, targets) triples;
  - the number parses of days 6, 9 and 12;
  - the whole-input splits into sections of days 5, 13 and 19;
  - the line splits (`str::lines`) of days 1, 3, 4, 7, 10, 11, 13, 14, 16, 17, 18, 19, 21, 22, 23 and 25, whose models take the lines as a sequence of strings or parse one line at a time.
- The aoc_runner macros, the reading of input files and the tests over the real puzzle inputs are not modelled. Only the example answers are kept, as lemmas.
- The worked examples of days 3, 5, 10, 11, 12, 13, 14, 16, 17, 18, 21, 22 and 23 are not proved. They are grids or graphs whose evaluation is beyond what the verifier evaluates in reasonable time. Day 25's example is commented out in the source.
- Hash-map iteration order is not modelled. Where the source takes "the first" element of a hash map, the model states the result for some qualifying element:
  - the source and target cells of day 23;
  - the `find` over the distance table of day 23;
  - the start node of day 25.
- The memo cache of `dfs_impl` (src/day23.rs:160-167) is left out. `Day23Junctions.Explorer.Dfs` models the recursion without the cache, and `Day23Junctions.SearchLongest` is proved for it.
- `Longest.MaxIndex` pops the first entry of greatest cost in queue order. The source's `BinaryHeap<(usize, State)>` (src/day23.rs:101-106) pops, among entries of equal cost, the one with the greatest state. The search always runs until the queue is empty, and the final table does not depend on the order (`Longest.Exhaust`).
- `Day19.ParseRule` and `Day19.ParsePart` treat every character as one byte. On non-ASCII text the source's byte-offset slices may panic, and its colon position, counted in characters, is used as a byte offset; neither is modelled.
- Debug printing in days 3 and 11 is left out.
- The `Display` of day 10's pipes is left out.
- Loops whose termination depends on the input carry a bound, stated as a precondition:
  - `Day08.Part1` requires that "ZZZ" is reached, or that the instructions are empty;
  - `Day19.Evaluate` and `Day19.Part1` require that every evaluation ends;
  - `Day20.Part1` and `Day20.Machine.Settle` require that every press settles within a number of passes;
  - `Day23.Part1` requires that route costs are bounded, which holds on acyclic mazes;
  - the corridor walks of `Day23Junctions.Part2` and the loop walk of `Day10.Part1` are bounded by a step count.
- `Day10.Part1` and `Day10.Part2` require that the walk from the start closes the loop within the step bound. An input on which `step` panics falls outside that precondition.
- `Day19.ParseRule` and `Day19.ParsePart` require that the input is not one on which the source panics on a byte slice:
  - a rule text that is no target, starts with a category letter, and is one character long or has its colon second;
  - a part text shorter than two characters, or one with a rating piece too short to slice.
- `Day20.Parse` requires that every prefix is "", "%" or "&", as the regular expression guarantees. It also requires that every conjunction has a source, since `sources.get(name).unwrap()` panics otherwise.
- `Day21.Parse` and `Day23.Parse` exclude an input whose first line is empty but which has other characters. There the source divides by a zero width and panics.
- `Day22.Part1` and `Day22.Answer` require every brick to rest at level 1 or above, as the puzzle's inputs do. `Brick::lower` at level 0 would underflow.
- `Day22.SafeMeans` takes as a hypothesis that a brick owns its cubes in the cube map. That settled bricks never overlap is not proved.
- `Day22.ParseBrick` reads numbers as unbounded naturals: the `usize` overflow error of `str::parse::<usize>` is not modelled.
- `Day04.ParseCard` reads numbers as unbounded naturals: the `u32` and `usize` overflow errors of `str::parse` are not modelled.
- `Day25.Part1` requires at least one edge to remain after the cut, since `keys().next().unwrap()` panics on an empty map.
- `Day05.Part1` and `Day05.Part2` require a complete almanac, in which every category's stage exists up to "location"; the source unwraps the lookup. `Day05.Part2` also requires positive seed-range lengths: an empty range would contribute no seed, yet the source would still report its start.
- `Day14.Part1` requires every row index to be non-negative, which every parsed grid satisfies.
- `Day04.Part2` requires the cards to be numbered 1, 2, … in order, and every card's copies to stay among the original cards. The source indexes the growing deck by card number, so outside that precondition it does one of three things, none of which the model covers:
  - it may still answer: card 1 with two matches and card 2 with none gives 4, the second copy being taken from the copy just pushed;
  - it may never end: cards 1 and 2 with one match each keep pushing copies of card 2;
  - it may panic: a lone card 1 with one match reads past the deck.

## Findings

| source | as written | input that shows it | evidently intended | confidence | as-written member | corrected member |
|---|---|---|---|---|---|---|
| src/day05.rs:96-108 | a seed piece that starts below a map range and ends at or beyond the range's end is neither cut nor shifted | seeds "1 9" with the one map line "0 5 5": part 2 answers 1 | the piece is cut at the range's start, seeds 5..9 convert to 0..4, and the answer is 0 | not executed | Day05.CutAsWrittenMisses | Day05.CutParts |
| src/day10.rs:94-96 | the first move from the start, with no previous position, goes east from a 'J' and west from an 'L', through sides those pipes do not open | the grid "F-7", "\|.\|", "L-S", whose start is a 'J': the first step leaves the loop and the next one panics | the first move goes out through a side the start's pipe opens, and part 1 answers 4 | not executed | Day10.SquareStrays | Day10.SquareLoop |
