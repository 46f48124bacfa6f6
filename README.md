# Advent of Code 2022, days 1 to 9, in Dafny

This project models the solutions to the first nine puzzles of Advent of Code 2022 in the
`aoc2022` Rust crate, one Dafny module per `src/dayN/mod.rs`, and proves what each solution
computes:

- `common.dfy` holds three helper modules. `Wrappers` has `Option` and `Result`. `Text` has
  decimal digits, unsigned parsing as `str::parse::<u32>` does it, splitting and joining on a
  separator character. `Seqs` has sums, reversal and a sort specified by its result.
- `Day1`: calorie counts in groups separated by blank lines, the largest group total and the
  sum of the three largest totals.
- `Day2`: rock, paper, scissors scoring under both readings of the strategy guide.
- `Day3`: rucksack compartments, the item common to both halves, the badge common to each group
  of three rucksacks, and the priorities of those items.
- `Day4`: pairs of section ranges, counting pairs where one range contains the other and
  pairs that overlap.
- `Day5`: crate stacks held in a mutable object, rearranged by the CrateMover 9000 (one crate at
  a time) and 9001 (several crates at once).
- `Day6`: the index of the last character of the first window of 4 (packet) or 14 (message)
  distinct characters.
- `Day7`: a terminal transcript parsed into a directory tree, directory sizes, the sum of the
  small ones and the smallest directory whose deletion frees enough space.
- `Day8`: a grid of tree heights, the trees visible from outside and the best scenic score.
- `Day9`: a rope whose knots follow the head, and the places its tail visits.

Input text is taken as a sequence of lines (`str::lines` is not modelled), and every puzzle
input file is left out. The published puzzle examples are modelled, because the example files
themselves are not part of this model. Where the Rust code panics (an `unwrap` of `None`, a
window size of zero), the model has a precondition. Where it returns an `Err`, the model
returns `Result.Err` with the same message.

## Model

| member | source | states |
|---|---|---|
| Text.NatToStringParses | src/day1/mod.rs:11 | round trip: the decimal text of a number up to the maximum parses back to that number, as `str::parse` for an unsigned type does |
| Text.JoinSplit | src/day2/mod.rs:44-45 | splitting on a separator and joining the pieces with it gives the text back |
| Text.SplitJoin | src/day2/mod.rs:44-45 | joining pieces free of the separator and splitting gives the pieces back |
| Seqs.Sort | src/day1/mod.rs:46 | the library sort returns an ascending permutation of its input (Day 7 sorts with it too, at `src/day7/mod.rs` line 136) |
| Seqs.ReverseMultiset | src/day1/mod.rs:46 | reversing a sequence keeps its elements with their multiplicities |
| Day1.LineValue | src/day1/mod.rs:6-12 | a line yields a calorie count exactly when it parses as an unsigned 32-bit number, and the count is at most `u32::MAX`; blank or unreadable lines yield none and close a group |
| Day1.ParseCalories | src/day1/mod.rs:3-30 | the loop that pushes the open set at each break and pushes the last non-empty set at the end returns exactly `CalorieGroups(lines)` |
| Day1.FoldKeepsValues | src/day1/mod.rs:13-24 | after the fold, a count is in a closed group or in the open set exactly when some line parses to it |
| Day1.CalorieGroupsKeepValues | src/day1/mod.rs:3-30 | a count is in some elf's set if and only if some input line parses to it: no value is lost or invented |
| Day1.FoldCountsBreaks | src/day1/mod.rs:13-24 | the fold closes one group per break line |
| Day1.GroupCount | src/day1/mod.rs:13-27 | the number of elves is the number of break lines, plus one when the last line is a count |
| Day1.RepeatedCountCountsOnce | src/day1/mod.rs:15-17 | since each elf holds a set, repeating a count line changes no group |
| Day1.FoldRender | src/day1/mod.rs:13-24 | folding the rendering of some groups (one count per line, a blank line between groups) closes each group but the last as a set of its counts |
| Day1.RenderParses | src/day1/mod.rs:3-30 | round trip: parsing the rendering of groups of 32-bit counts gives back their sets, where a trailing empty group is dropped |
| Day1.Max | src/day1/mod.rs:36 | the maximum of a non-empty sequence is one of its elements and is at least every element |
| Day1.MostCalories | src/day1/mod.rs:32-38 | the answer is the total of some elf and at least the total of every elf |
| Day1.SortDescending | src/day1/mod.rs:46 | the sorted totals are a permutation of the totals, in descending order |
| Day1.BestBoundsEveryChoice | src/day1/mod.rs:40-49 | the reference `Best(s, k)` is at least the sum of every choice of at most `k` elements |
| Day1.BestIsSomeChoice | src/day1/mod.rs:40-49 | `Best(s, k)` is the sum of some choice of at most `k` elements |
| Day1.TopOfSort | src/day1/mod.rs:46-48 | the sum of the last `k` elements of the ascending sort of `s` equals `Best(s, k)` |
| Day1.TopThreeIsBest | src/day1/mod.rs:40-49 | the sum of the first three descending totals equals `Best(totals, 3)` |
| Day1.TopThreeIsLargestChoice | src/day1/mod.rs:40-49 | the answer is at least the calories of every choice of at most three elves and equals the calories of some such choice |
| Day1.TopThreeAtLeastMost | src/day1/mod.rs:32-49 | the top-three sum is at least the single largest total |
| Day1.TopThreeOfFew | src/day1/mod.rs:48 | with three elves or fewer, the top-three sum is the sum of all totals |
| Day1.ExampleParses | src/day1/mod.rs:56-85 | the published example parses into the five elves `{1000,2000,3000}`, `{4000}`, `{5000,6000}`, `{7000,8000,9000}` and `{10000}` |
| Day1.ExampleMostCalories | src/day1/mod.rs:87-96 | the largest total of the example is 24000 |
| Day1.ExampleTopThree | src/day1/mod.rs:109-118 | the top-three sum of the example is 45000 |
| Day2.ParseShape | src/day2/mod.rs:10-25 | a token is a shape exactly when it is one of `A`, `B`, `C`, `X`, `Y`, `Z` (`A`/`X` rock, `B`/`Y` paper, `C`/`Z` scissors); any other token is `Err("Oh no")` |
| Day2.ParseShapeLetters | src/day2/mod.rs:10-25 | both letters of each shape parse back to that shape |
| Day2.ShapeScore | src/day2/mod.rs:27-35 | a shape scores between 1 and 3 |
| Day2.ShapeScoreInjective | src/day2/mod.rs:27-35 | different shapes score differently |
| Day2.OutcomeOf | src/day2/mod.rs:77-91 | the round is a draw exactly when the shapes agree, and a win exactly when the own shape beats the opponent's |
| Day2.OutcomeSwap | src/day2/mod.rs:77-91 | swapping the players turns a win into a loss and a loss into a win, and keeps a draw |
| Day2.Score | src/day2/mod.rs:67-99 | a round scores between 1 and 9 (the own shape's 1 to 3 plus 0, 3 or 6 for the outcome) |
| Day2.ScoreDetermines | src/day2/mod.rs:93-99 | the score of a round determines its own shape and its outcome |
| Day2.ParseGameResult | src/day2/mod.rs:39-59 | a line parses exactly when its first two space-separated tokens are shapes; an error is `"No next value"` exactly when the first token is a shape and there is no second token |
| Day2.ParseGameResultLine | src/day2/mod.rs:39-55 | round trip: a line written from two shapes parses back to them |
| Day2.ParseScores | src/day2/mod.rs:102-106 | parsing keeps at most one round per line |
| Day2.ParseScoresConcat | src/day2/mod.rs:102-106 | parsing distributes over concatenation of the lines |
| Day2.ParseScoresOne | src/day2/mod.rs:102-106 | a single line gives its round when it parses and nothing otherwise |
| Day2.SumScoresBounds | src/day2/mod.rs:108-112 | the total score lies between the number of rounds and nine times that |
| Day2.SumScoresConcat | src/day2/mod.rs:108-112 | the total of two runs of rounds is the sum of their totals |
| Day2.ParseOutcome | src/day2/mod.rs:116-128 | a token is an outcome exactly when it is `X`, `Y` or `Z`; any other token is `Err("Oh no")` |
| Day2.ParseOutcomeLetter | src/day2/mod.rs:116-128 | round trip: each outcome's letter parses back to it |
| Day2.ParseStrategy | src/day2/mod.rs:133-149 | a line parses exactly when its first token is a shape and its second an outcome |
| Day2.ParseStrategyLine | src/day2/mod.rs:133-149 | round trip: a line written from a shape and an outcome parses back to them |
| Day2.StrategyToResult | src/day2/mod.rs:151-167 | the chosen own shape keeps the opponent's shape and gives exactly the required outcome |
| Day2.StrategyAnswerUnique | src/day2/mod.rs:151-167 | the chosen shape is the only shape that gives the required outcome |
| Day2.ParseStrategies | src/day2/mod.rs:169-173 | parsing keeps at most one strategy per line |
| Day2.ParseStrategiesConcat | src/day2/mod.rs:169-173 | parsing distributes over concatenation of the lines |
| Day2.ParseStrategiesOne | src/day2/mod.rs:169-173 | a single line gives its strategy when it parses and nothing otherwise |
| Day2.StrategyRounds | src/day2/mod.rs:151-173 | the rounds played under the strategies have the required outcomes against the same opponents |
| Day2.ExamplePartOne | src/day2/mod.rs:180-189 | the example's total score under the first reading is 15 |
| Day2.ExamplePartTwo | src/day2/mod.rs:203-215 | the example's total score under the second reading is 12 |
| Day3.Priority | src/day3/mod.rs:33-39 | lower-case letters have priorities 1 to 26, upper-case letters 27 to 52 |
| Day3.PriorityRoundTrip | src/day3/mod.rs:33-39 | the item of a letter's priority is that letter |
| Day3.ItemOfPriorityRoundTrip | src/day3/mod.rs:33-39 | every priority from 1 to 52 is the priority of exactly the item built from it |
| Day3.PriorityInjective | src/day3/mod.rs:33-39 | different letters have different priorities |
| Day3.Least | src/day3/mod.rs:14 | the item taken from a non-empty set is a member of it (the least one) |
| Day3.ParseRucksackHalves | src/day3/mod.rs:25-30 | a line made of two equal halves gives the left compartment the first half's items and the right compartment the second half's |
| Day3.ItemsFromLine | src/day3/mod.rs:17-30 | every item of a rucksack occurs in its line |
| Day3.AllItemsOfLine | src/day3/mod.rs:17-30 | for a line of even length, the rucksack's items are exactly the line's characters |
| Day3.CommonItemInCompartments | src/day3/mod.rs:11-15 | the item returned is in both compartments |
| Day3.SoleCommonItem | src/day3/mod.rs:11-15 | when the compartments share one item, that item is returned |
| Day3.LinePriority | src/day3/mod.rs:44-45 | a packed line's priority lies between 1 and 52 |
| Day3.SumPriorities | src/day3/mod.rs:41-47 | the sum of the line priorities lies between the number of lines and 52 times that |
| Day3.SumPrioritiesConcat | src/day3/mod.rs:41-47 | the sum over two runs of lines is the sum of their sums |
| Day3.CommonInThree | src/day3/mod.rs:51-54 | the badge is an item of all three rucksacks |
| Day3.SoleBadge | src/day3/mod.rs:51-54 | when the three rucksacks share one item, that item is the badge |
| Day3.CommonInThreeOrderFree | src/day3/mod.rs:51-54 | the badge does not depend on the order of the three rucksacks |
| Day3.GroupPriority | src/day3/mod.rs:65-69 | a group's badge priority lies between 1 and 52 |
| Day3.GroupSum | src/day3/mod.rs:56-73 | the lines come in whole groups of three, and the sum lies between the number of groups and 52 times that |
| Day3.SumGroupPriorities | src/day3/mod.rs:56-73 | the loop that takes three rucksacks per step returns `GroupSum(lines)` |
| Day3.Example | src/day3/mod.rs:79-107 | the example's priority sum is 157 and its badge sum is 70 |
| Day3.ExampleGroup0 | src/day3/mod.rs:99-107 | the first group's badge is `r`, priority 18 |
| Day3.ExampleGroup1 | src/day3/mod.rs:99-107 | the second group's badge is `Z`, priority 52 |
| Day4.Span | src/day4/mod.rs:18 | the inclusive range `start..=end` holds exactly the numbers from `start` to `end`, and is empty when `start > end` |
| Day4.SpanSize | src/day4/mod.rs:18 | the range holds `end - start + 1` numbers, or none when it is reversed |
| Day4.Numbers | src/day4/mod.rs:12-14 | the pieces that parse as `u32` give numbers no larger than `u32::MAX`, at most one per piece |
| Day4.RangeOf | src/day4/mod.rs:11-19 | a range is read exactly when at least two of its `-`-separated pieces parse as numbers |
| Day4.Ranges | src/day4/mod.rs:10-19 | at most one range per `,`-separated piece, all of 32-bit numbers |
| Day4.ParseElfPair | src/day4/mod.rs:9-25 | a line with two readable ranges gives a pair of sets of 32-bit section numbers |
| Day4.ParseElfs | src/day4/mod.rs:38-42 | every line gives a pair, in order: `from_str` never returns `Err`, so nothing is filtered out |
| Day4.RangeTextParses | src/day4/mod.rs:11-19 | round trip: the text `lo-hi` of two 32-bit numbers reads back as the range from `lo` to `hi` |
| Day4.PairLineParses | src/day4/mod.rs:9-25 | round trip: the line `a-b,c-d` parses to the pair of ranges `a..=b` and `c..=d` |
| Day4.ParseElfsLines | src/day4/mod.rs:38-42 | round trip: the lines written from a list of range ends parse to the pairs of those ranges |
| Day4.TestsSymmetric | src/day4/mod.rs:28-35 | both tests give the same answer when the two elves are swapped |
| Day4.ContainsIffEnds | src/day4/mod.rs:29-31 | for proper ranges, one contains the other exactly when one pair of ends lies within the other |
| Day4.OverlapIffEnds | src/day4/mod.rs:33-35 | for proper ranges, they overlap exactly when each starts no later than the other ends |
| Day4.ContainedOverlaps | src/day4/mod.rs:28-35 | two non-empty ranges where one contains the other also overlap |
| Day4.ReversedRangeContainedNotOverlapping | src/day4/mod.rs:18 | a reversed range such as `5-3` is empty, so it counts as contained but never as overlapping |
| Day4.Filter | src/day4/mod.rs:44-52 | the filtered pairs are no more than the pairs, and a pair is kept exactly when it passes the test |
| Day4.FilterConcat | src/day4/mod.rs:44-52 | filtering distributes over concatenation |
| Day4.ContainedAtMostOverlapping | src/day4/mod.rs:44-52 | when no range is empty, the pairs where one contains the other are no more than the overlapping pairs |
| Day4.Example | src/day4/mod.rs:58-86 | in the example, 2 pairs have one range containing the other and 4 pairs overlap |
| Day5.LastVisible | src/day5/mod.rs:20 | the last non-whitespace character of the legend exists exactly when the legend has one, and it is a character of the legend |
| Day5.StackCount | src/day5/mod.rs:19-20 | the number of stacks is the value of the legend's last visible digit |
| Day5.FirstEmpty | src/day5/mod.rs:17 | the drawing ends at the first empty line, or at the end of the input: every line before it is non-empty |
| Day5.CrateAt | src/day5/mod.rs:26-30 | a drawing row holds at most one crate per four-character chunk, and never a blank |
| Day5.Column | src/day5/mod.rs:21-32 | a stack gets at most one crate per row, and no blanks |
| Day5.ColumnStep | src/day5/mod.rs:21-32 | rows are read bottom-up: a row above the others puts its crate on top of the stack they build |
| Day5.Stacks.constructor | src/day5/mod.rs:15-35 | the new stacks are those the drawing shows, bottom crate first |
| Day5.Stacks.PopCrates | src/day5/mod.rs:47-51 | the loop pops `amount` crates off `from` one at a time, so it returns the lifted crates top first and leaves every other stack unchanged; with no crate to move it never looks at `from` |
| Day5.Stacks.MoveCrates | src/day5/mod.rs:45-56 | after one instruction the stacks are `Moved(old stacks, instruction, crane)` |
| Day5.Stacks.Arrange | src/day5/mod.rs:39-43 | after the loop over the instructions the stacks are `Arranged(old stacks, instructions, crane)` |
| Day5.Stacks.Tops | src/day5/mod.rs:58-64 | one character per stack: the top crate of each, in stack order |
| Day5.ParseInstruction | src/day5/mod.rs:78-93 | an instruction line `move a from f to t` gives `a` crates from stack `f - 1` to stack `t - 1`, all within `usize` |
| Day5.InstructionTextParses | src/day5/mod.rs:78-93 | round trip: the text of an instruction parses back to that instruction |
| Day5.ParseInstructionTexts | src/day5/mod.rs:95-101 | round trip: after a drawing and a blank line, the texts of some instructions parse back to exactly those instructions |
| Day5.FirstEmptyAt | src/day5/mod.rs:98 | the instructions start right after the first empty line |
| Day5.MovedStacks | src/day5/mod.rs:45-56 | between different stacks, the lifted crates leave the top of `from` and land on `to`, reversed by the 9000 and in order by the 9001; no other stack changes |
| Day5.MovedNothing | src/day5/mod.rs:45-56 | a move of zero crates can be carried out exactly when `to` names a stack, whether or not `from` does, and leaves the stacks as they were |
| Day5.MovedOntoItself | src/day5/mod.rs:45-56 | moving onto the same stack changes nothing with the 9001 and reverses the top `amount` crates with the 9000 |
| Day5.MovedTop | src/day5/mod.rs:45-56 | after a move of at least one crate, the top of `to` is the deepest lifted crate for the 9000 and the old top of `from` for the 9001 |
| Day5.MoveBack | src/day5/mod.rs:45-56 | the move back from `to` to `from` can be carried out exactly when `from` names a stack, and then the same crane moving the same amount back restores the stacks |
| Day5.MovedTotal | src/day5/mod.rs:45-56 | a move keeps the total number of crates |
| Day5.ArrangedTotal | src/day5/mod.rs:39-43 | arranging keeps the number of stacks and the total number of crates |
| Day5.ArrangedConcat | src/day5/mod.rs:39-43 | arranging by two runs of instructions is arranging by the first, then by the second |
| Day5.Solve | src/day5/mod.rs:110-147 | building the stacks, reading the instructions, arranging and reading the tops gives the top crate of each final stack |
| Day5.Example | src/day5/mod.rs:110-147 | on the published example the tops are `CMZ` for the CrateMover 9000 and `MCD` for the 9001 |
| Day5.ExampleMoves9000 | src/day5/mod.rs:110-121 | the example's four instructions turn the stacks `ZN`, `MCD`, `P` into `C`, `M`, `PDNZ` with the 9000 |
| Day5.ExampleMoves9001 | src/day5/mod.rs:136-147 | the example's four instructions turn the stacks `ZN`, `MCD`, `P` into `M`, `C`, `PZND` with the 9001 |
| Day6.Window | src/day6/mod.rs:15 | the window at `idx` is the `size` characters of the signal starting at `idx` |
| Day6.SetTestIffDistinct | src/day6/mod.rs:18 | a window's character set has as many elements as the window exactly when its characters are pairwise distinct |
| Day6.FindMarker | src/day6/mod.rs:14-23 | the search from `idx` returns the end of the first window from `idx` on whose characters are distinct, and none when no window from `idx` on is |
| Day6.FirstWindowWithAllDifferentCharacters | src/day6/mod.rs:13-24 | the result is the index of the last character of a window of distinct characters, and no window starting earlier has distinct characters |
| Day6.MarkerUnique | src/day6/mod.rs:13-24 | any index with those two properties is the result: the specification determines the answer |
| Day6.PacketBeforeMessage | src/day6/mod.rs:3-11 | a signal with a start-of-message marker also has a start-of-packet marker, and it comes no later |
| Day6.RepeatInWindow | src/day6/mod.rs:18 | a window holding a repeated character is not a marker |
| Day6.DistinctWindow | src/day6/mod.rs:18 | a window whose characters are pairwise distinct is a marker |
| Day6.ExamplePacket | src/day6/mod.rs:31-39 | in the example, the start-of-packet index plus one is 7 |
| Day6.ExampleMessage | src/day6/mod.rs:51-59 | in the example, the start-of-message index plus one is 19 |
| Day7.SizeIsSumOfFiles | src/day7/mod.rs:61-69 | the size of an entry is the sum of the sizes of all files below it |
| Day7.EntriesSizeIsSumOfFiles | src/day7/mod.rs:64-67 | the size of a list of entries is the sum of the sizes of all files below them |
| Day7.EntriesSizeConcat | src/day7/mod.rs:64-67 | the size of two lists of entries is the sum of their sizes |
| Day7.DirectorySizesCount | src/day7/mod.rs:40-59 | there is one size per directory of the tree, the directory itself included |
| Day7.NestedDirectorySizesCount | src/day7/mod.rs:44-53 | the fold over the entries gives one size per directory below them |
| Day7.DirectorySizesBounded | src/day7/mod.rs:40-59 | no directory is larger than the whole entry, and a directory's own size comes last |
| Day7.NestedDirectorySizesBounded | src/day7/mod.rs:44-53 | no directory below some entries is larger than their total size |
| Day7.SortedDirectorySizesEndWithRoot | src/day7/mod.rs:134-138 | after sorting, the last directory size is the root's size, which is the used space |
| Day7.AtMost | src/day7/mod.rs:128 | every size kept by the filter is at most the limit, and each size up to the limit is kept as many times as it occurs |
| Day7.AtMostConcat | src/day7/mod.rs:128 | filtering a concatenation filters each part |
| Day7.SumOfSizesSmallerThanIsSmallTotal | src/day7/mod.rs:124-130 | the star-one answer equals the tree-wise total in which every directory of at most `limit` bytes, at any depth, adds its size once |
| Day7.SmallDirectoryCounted | src/day7/mod.rs:124-130 | a directory of at most `limit` bytes counts its own size in the answer |
| Day7.SumOfSizesSmallerThanAll | src/day7/mod.rs:124-130 | when the whole tree fits under the limit, the answer is the sum of all directory sizes |
| Day7.AtMostSumMonotone | src/day7/mod.rs:124-130 | raising the limit never lowers the sum of the kept sizes |
| Day7.SumOfSizesSmallerThanMonotone | src/day7/mod.rs:124-130 | the star-one answer never decreases as the limit grows |
| Day7.FindAtLeast | src/day7/mod.rs:141-144 | the search returns the first size at or above the threshold, and none exactly when every size is below it |
| Day7.FindAtLeastInAscending | src/day7/mod.rs:136-144 | in an ascending list, the first size at or above the threshold is the smallest such size |
| Day7.SmallestSizeToDelete | src/day7/mod.rs:133-145 | the answer is the size of some directory, frees enough space (at least the used space minus 40000000), and is the smallest such size |
| Day7.FileEntry | src/day7/mod.rs:99-105 | a listing line that is not a directory gives a file |
| Day7.FileEntries | src/day7/mod.rs:97-106 | the listing gives files only, skipping the `dir` lines |
| Day7.ReadListing | src/day7/mod.rs:97-106 | the loop over the listing returns `FileEntries(listing)` |
| Day7.ParseUp | src/day7/mod.rs:72-88 | an empty stack is returned as `Ok`; a stack whose last block is `cd ..` loses that block and is `Ok`; any other stack comes back unchanged as `Err` |
| Day7.ParseDir | src/day7/mod.rs:90-121 | a successful parse gives a directory and leaves a strict prefix of the stack |
| Day7.ParseChildren | src/day7/mod.rs:109-120 | the loop over the children gives a directory and leaves a prefix of the stack |
| Day7.ParseDirOutcome | src/day7/mod.rs:90-121 | the parse fails exactly on an empty stack, with `"end of input"`; otherwise it gives the block's directory, with the block's files first and then directories only |
| Day7.ParseChildrenOutcome | src/day7/mod.rs:109-120 | inside a directory the loop never fails, and it only appends directories to the files already read |
| Day7.ParseDirectory | src/day7/mod.rs:90-121 | the recursive procedure, with its loop over the files and its loop over the children, returns exactly `ParseDir(stack)` |
| Day7.Stack | src/day7/mod.rs:15-28 | the stack has one block per `$ cd ` piece after the first, last piece first, each block's lines reversed |
| Day7.ParseTranscript | src/day7/mod.rs:14-35 | the transcript parses to a directory, and fails with `"end of input"` exactly when it has no `$ cd ` piece |
| Day7.FromStr | src/day7/mod.rs:14-35 | building the stack and parsing it returns exactly `ParseTranscript(pieces)` |
| Day7.ListingLines | src/day7/mod.rs:97-106 | one listing line per entry, in order |
| Day7.FileLineParses | src/day7/mod.rs:99-105 | round trip: the line `size name` reads back as that file |
| Day7.ListingParses | src/day7/mod.rs:97-106 | round trip: the listing written from some entries reads back as their files |
| Day7.ParseOpenStack | src/day7/mod.rs:90-121 | the stack written from a tree, with no `cd ..` after the last directory, parses back to that tree with nothing left over |
| Day7.ParseClosedStack | src/day7/mod.rs:90-121 | the stack written from a tree and closed by `cd ..` parses back to that tree and consumes the `cd ..` |
| Day7.TranscriptRoundTrip | src/day7/mod.rs:14-35 | round trip: the transcript written from a tree the parser can produce parses back to that tree |
| Day7.ExampleParses | src/day7/mod.rs:152-184 | the published example transcript parses to the published tree |
| Day7.ExampleAnswers | src/day7/mod.rs:152-184 | the example's directory sizes are 584, 94853, 24933642 and 48381165; the star-one answer is 95437 and the star-two answer 24933642 |
| Day8.ParseForest | src/day8/mod.rs:8-15 | one row per line and one height per character, each a decimal digit |
| Day8.ParseRender | src/day8/mod.rs:8-15 | round trip: writing a grid of digits and parsing it gives the grid back |
| Day8.RenderParse | src/day8/mod.rs:8-15 | round trip: parsing lines of digits and writing the grid gives the lines back |
| Day8.Row | src/day8/mod.rs:172-174 | the row holds the grid's cells of that row, in order |
| Day8.Column | src/day8/mod.rs:176-180 | the column has one cell per row |
| Day8.Flipped | src/day8/mod.rs:19-30 | each row is reversed, and the grid keeps its shape |
| Day8.FlippedTwice | src/day8/mod.rs:19-30 | flipping twice gives the grid back |
| Day8.Transpose | src/day8/mod.rs:32-46 | the transpose has a row per column of the grid and holds cell `(r, c)` at `(c, r)` |
| Day8.TransposeTwice | src/day8/mod.rs:32-46 | transposing a rectangular grid twice gives it back |
| Day8.TransposeRowIsColumn | src/day8/mod.rs:32-46 | row `c` of the transpose is column `c` of the grid |
| Day8.Transposed | src/day8/mod.rs:32-46 | the nested loop that copies cell `(r, c)` to `(c, r)` returns `Transpose(grid)` |
| Day8.SeqMax | src/day8/mod.rs:56-63 | the running maximum, started at 0, is at least every height and is 0 or one of them |
| Day8.SeqMaxUnique | src/day8/mod.rs:56-63 | that characterisation determines the maximum |
| Day8.RunningMax | src/day8/mod.rs:56-63 | the scan yields at each position the maximum of the state and all heights before it |
| Day8.LeftMax | src/day8/mod.rs:53-68 | each cell holds the tallest height strictly to its left, or 0 at the left edge |
| Day8.RightMax | src/day8/mod.rs:70-75 | flipping, taking left maxima and flipping back gives at each cell the tallest height strictly to its right |
| Day8.UpMax | src/day8/mod.rs:77-82 | transposing, taking left maxima and transposing back keeps the grid's shape |
| Day8.UpMaxCell | src/day8/mod.rs:77-82 | each cell of `up_max` holds the tallest height strictly above it |
| Day8.DownMax | src/day8/mod.rs:84-89 | `down_max` keeps the grid's shape |
| Day8.DownMaxCell | src/day8/mod.rs:84-89 | each cell of `down_max` holds the tallest height strictly below it |
| Day8.SeqMaxReverse | src/day8/mod.rs:70-75 | reversing a sequence keeps its maximum |
| Day8.AllShorterMax | src/day8/mod.rs:109 | a tree is taller than every tree of a non-empty line exactly when it is taller than their maximum |
| Day8.LeftClear | src/day8/mod.rs:105-109 | off the left edge, a tree is taller than its `left_max` exactly when every tree to its left is shorter |
| Day8.RightClear | src/day8/mod.rs:106-109 | off the right edge, a tree is taller than its `right_max` exactly when every tree to its right is shorter |
| Day8.UpClear | src/day8/mod.rs:107-109 | off the top edge, a tree is taller than its `up_max` exactly when every tree above it is shorter |
| Day8.DownClear | src/day8/mod.rs:108-109 | off the bottom edge, a tree is taller than its `down_max` exactly when every tree below it is shorter |
| Day8.VisibleIffSeen | src/day8/mod.rs:91-116 | a tree is marked visible exactly when every tree between it and some edge, in one of the four directions, is shorter |
| Day8.BorderSeen | src/day8/mod.rs:100 | every tree on the border is seen from outside |
| Day8.BorderVisible | src/day8/mod.rs:100-103 | every tree on the border is marked visible |
| Day8.VisibleFromLeft | src/day8/mod.rs:91-116 | a tree taller than all trees to its left is marked visible |
| Day8.VisibleFromRight | src/day8/mod.rs:91-116 | a tree taller than all trees to its right is marked visible |
| Day8.VisibleFromAbove | src/day8/mod.rs:91-116 | a tree taller than all trees above it is marked visible |
| Day8.VisibleFromBelow | src/day8/mod.rs:91-116 | a tree taller than all trees below it is marked visible |
| Day8.HiddenBehind | src/day8/mod.rs:102-111 | an interior tree with a tree at least as tall in each of the four directions is not visible |
| Day8.VisibleGrid | src/day8/mod.rs:91-116 | the visibility grid has the forest's shape |
| Day8.VisibleTrees | src/day8/mod.rs:91-116 | the procedure that builds the four maximum grids and fills the interior returns `VisibleGrid(grid)` |
| Day8.FillVisible | src/day8/mod.rs:100-115 | the nested loop over the interior fills every cell with whether its height beats one of the four maxima, and keeps the border `true` |
| Day8.CountTrue | src/day8/mod.rs:122 | a row counts at most its length |
| Day8.NumberOfVisibleTrees | src/day8/mod.rs:118-124 | the count is `VisibleCount(grid)`, at least the number of border trees and at most the number of trees |
| Day8.CountTrueConcat | src/day8/mod.rs:122 | the count over two runs of a row is the sum of their counts |
| Day8.CountGridConcat | src/day8/mod.rs:119-123 | the count over two runs of rows is the sum of their counts |
| Day8.VisibleCountBounds | src/day8/mod.rs:118-124 | the number of visible trees lies between the number of border trees and the number of trees |
| Day8.EdgeTreesThin | src/day8/mod.rs:100-103 | in a forest at most two rows or two columns wide, every tree is on the border |
| Day8.ThinForestAllVisible | src/day8/mod.rs:91-124 | in such a forest every tree is visible |
| Day8.LeadingShorter | src/day8/mod.rs:155-158 | `take_while` counts the leading trees shorter than the tree and stops at the first that is not |
| Day8.NumTreesVisible | src/day8/mod.rs:149-161 | the viewing distance is 1 for an empty line; otherwise it counts the shorter trees and the first tree that blocks the view, or the whole line when none does |
| Day8.ViewingDistanceUnique | src/day8/mod.rs:149-161 | any distance with those properties is the viewing distance |
| Day8.ClearView | src/day8/mod.rs:159 | when every tree in the line is shorter, the tree sees the whole line |
| Day8.ViewUpIs | src/day8/mod.rs:137 | the upward distance is the number of trees up to and including the first one at least as tall, looking up from the tree |
| Day8.ViewDownIs | src/day8/mod.rs:138 | the same looking down |
| Day8.ViewLeftIs | src/day8/mod.rs:139 | the same looking left |
| Day8.ViewRightIs | src/day8/mod.rs:140 | the same looking right |
| Day8.ScenicScorePositive | src/day8/mod.rs:137-142 | every scenic score is at least 1, since each viewing distance is at least 1 |
| Day8.ScenicGrid | src/day8/mod.rs:126-147 | the score grid has the forest's shape |
| Day8.ScenicScores | src/day8/mod.rs:126-147 | the nested loop returns `ScenicGrid(grid)` |
| Day8.CellScore | src/day8/mod.rs:134-142 | one step of that loop computes the cell's scenic score, the product of the four viewing distances |
| Day8.GridMax | src/day8/mod.rs:163-170 | the maximum of a grid with non-empty rows is one of its cells and at least every cell |
| Day8.BestScoreUnique | src/day8/mod.rs:163-170 | there is only one best score |
| Day8.MaxScenicScore | src/day8/mod.rs:163-170 | the result is the scenic score of some tree and at least the scenic score of every tree |
| Day8.ExampleVisibleCount | src/day8/mod.rs:188-197 | in the published example forest, exactly the trees at (1,3), (2,2), (3,1) and (3,3) are hidden, so 21 are visible |
| Day8.ExampleBestScore | src/day8/mod.rs:210-219 | in the example the best scenic score is 16, reached by the edge tree at row 2, column 0 |
| Day8.Example | src/day8/mod.rs:188-219 | the example text parses to a forest with 21 visible trees and best scenic score 16 |
| Day9.ParseDirection | src/day9/mod.rs:26-32 | a word is a direction exactly when it is `L`, `R`, `U` or `D`, and that direction's word is the word read; any other word is the error, carrying the word itself |
| Day9.ParseInstruction | src/day9/mod.rs:22-36 | a line fails exactly when its first word is not a direction, with that word as the error; otherwise the amount fits in `usize` |
| Day9.InstructionTextParses | src/day9/mod.rs:22-36 | round trip: the text of an instruction reads back as that instruction |
| Day9.ParseInstructions | src/day9/mod.rs:129-132 | at most one instruction per line |
| Day9.ParseInstructionsConcat | src/day9/mod.rs:129-132 | reading distributes over concatenation of the lines |
| Day9.NoDirectionDropped | src/day9/mod.rs:129-132 | a line whose first word is not a direction is skipped |
| Day9.InstructionTextsParse | src/day9/mod.rs:129-132 | round trip: the texts of some instructions read back as exactly those instructions |
| Day9.AddSub | src/day9/mod.rs:41-48 | subtraction undoes addition of vectors |
| Day9.Step | src/day9/mod.rs:49-58 | each direction is a unit step along one axis |
| Day9.StepInjective | src/day9/mod.rs:49-58 | different directions give different steps |
| Day9.LInfNorm | src/day9/mod.rs:61-64 | the distance is the larger of the two coordinate differences |
| Day9.LInfNormZero | src/day9/mod.rs:61-64 | the distance is 0 exactly between equal points |
| Day9.LInfNormSymmetric | src/day9/mod.rs:61-64 | the distance is symmetric |
| Day9.LInfNormTriangle | src/day9/mod.rs:61-64 | the distance obeys the triangle inequality |
| Day9.StepLength | src/day9/mod.rs:49-64 | a step moves a point by distance 1 |
| Day9.NegatedOverAbs | src/day9/mod.rs:74 | for non-zero `x`, Rust's truncating `-x / x.abs()` is minus the sign of `x` |
| Day9.MoveNextTo | src/day9/mod.rs:66-76 | moving next to a different point lands at distance 1 from it |
| Day9.MoveNextToFromTwo | src/day9/mod.rs:66-76 | from distance 2, that move is a single king step |
| Day9.PullTail | src/day9/mod.rs:120-126 | the pulled tail ends within distance 1 of the new head; it stays put when already touching and otherwise ends exactly next to the head |
| Day9.PullTailStep | src/day9/mod.rs:120-126 | when the head was at most 2 away, the tail moves at most one king step |
| Day9.NewRope | src/day9/mod.rs:85 | a new rope has `N` knots, all at the origin |
| Day9.Follow | src/day9/mod.rs:109-116 | the fold keeps the knots already placed and pulls each further knot after the knot placed before it |
| Day9.MoveKnots | src/day9/mod.rs:107-118 | the head moves one step in the direction and every other knot is pulled after the new position of the knot ahead of it |
| Day9.MoveKnotsTaut | src/day9/mod.rs:107-126 | after a move, neighbouring knots touch |
| Day9.MoveKnotsSmallSteps | src/day9/mod.rs:107-126 | in a rope whose neighbouring knots touch, a move shifts every knot by at most one king step |
| Day9.NewRopeTaut | src/day9/mod.rs:85 | the knots of a new rope touch |
| Day9.StepsTaut | src/day9/mod.rs:98-105 | repeated moves keep neighbouring knots touching |
| Day9.MoveByInstructionsTaut | src/day9/mod.rs:89-96 | after any instructions, neighbouring knots of a taut rope still touch |
| Day9.TailsAfterMembers | src/day9/mod.rs:98-105 | a place is recorded during `k` steps exactly when the tail stands there after one of them |
| Day9.StepFold | src/day9/mod.rs:99-104 | the fold over the steps keeps the number of knots and every place already recorded |
| Day9.StepFoldIs | src/day9/mod.rs:99-104 | the fold ends at the rope after `k` steps and adds the places the tail reaches in those steps |
| Day9.MoveByInstruction | src/day9/mod.rs:98-105 | an instruction keeps the number of knots and records the tail's starting place |
| Day9.MoveByInstructionIs | src/day9/mod.rs:98-105 | an instruction moves the rope `amount` steps and records the tail's start and every place it reaches |
| Day9.TailEndVisited | src/day9/mod.rs:98-105 | the tail's final place is recorded |
| Day9.MoveByInstructions | src/day9/mod.rs:89-96 | following instructions keeps the number of knots and records the tail's starting place |
| Day9.FoldTailVisited | src/day9/mod.rs:89-96 | the tail's final place after any instructions is recorded |
| Day9.InstructionFoldVisited | src/day9/mod.rs:89-96 | the places recorded before the fold only add to the places it records |
| Day9.MoveByInstructionsConcat | src/day9/mod.rs:89-96 | following two runs of instructions is following the first, then the second from where it left the rope, recording the union of the places |
| Day9.MoveByInstructionsOne | src/day9/mod.rs:89-96 | following one instruction is moving by it |
| Day9.ExampleFold | src/day9/mod.rs:139-151 | from any start `o`, the example's instructions take a two-knot rope's tail through the 13 published places relative to `o` |
| Day9.Example | src/day9/mod.rs:139-151 | the example text read and followed by a new two-knot rope records 13 places |

## Left out

- Reading the input: `include_str!`, `str::lines` and the tests on the personal `input.txt` files are not modelled; every operation takes its input as a sequence of lines, or for Day 6 as a sequence of characters.
- The example files are not part of this model. The published puzzle examples stand in for them. The Day 1 example input is the rendering of the published counts (one per line, a blank line between elves). The Day 8 example grid is stated cell by cell over a symbolic grid. The Day 5 crate labels are first proved for arbitrary labels and then for `Z`, `N`, `M`, `C`, `D`, `P`.
- Integer widths: `u32` and `usize` sums, products and subtractions are unbounded integers, so overflow and wrap-around are not modelled. The Day 9 `i32` coordinates are unbounded too. Numbers are read as `str::parse::<u32>` or `::<usize>` reads them, including the bound and a leading `+`.
- Strings are sequences of characters. UTF-8 byte lengths are not modelled: Day 3 halves the line by character count, which agrees with `s.len() / 2` on ASCII input only.
- Panics are preconditions and not modelled paths: `unwrap` of a missing value, out-of-bounds indexing, `windows(0)`, the Day 7 `assert!` that nothing is left over, and `used_space - 40000000` underflowing.
- Day3.Priority: only ASCII letters are items, because `priority` gives meaningless values for other characters.
- Day3.Least: `take(1).next()` on a `HashSet` intersection returns an element in hash order; the model returns the least element, and every contract about it only states membership (or uniqueness when the intersection has one element).
- Day4.ParseElfs: `ElfPair::from_str` panics rather than returning `Err`, so the `filter_map(... .ok())` never drops a line; the model requires every line to be readable.
- Day5.ParseInstruction: `Instruction::from_str` also panics rather than returning `Err`, so `parse_instructions` keeps every line after the blank line; the model requires them to be readable.
- Day5.Stacks.constructor: the legend's last visible character is turned into the stack count with `as usize - 48`, which means the count only for a single digit; the model computes the same value and requires the character to be at least `'0'` (below it the subtraction underflows and panics).
- Library sorts (`sort_by` in Day 1, `sort` in Day 7) are modelled by their results: `Seqs.Sort`, and its reverse for the descending sort. The in-place sorting algorithm is not modelled.
- Day7.SumOfSizesSmallerThan: despite its name, `sum_of_sizes_smaller_than` keeps sizes equal to the limit (`<=`), and the model does the same.
- Day7: files come out of `parse_directory` in reverse transcript order, because each `$ cd ` piece's lines are reversed before parsing; the model keeps that order.
- Day8: `num_of_trees_visible` returns 1 for an empty line of sight, so trees on the edge have a positive scenic score. The model keeps this, and the example's best score of 16 is reached by the edge tree at row 2, column 0.
- Day9: `Rope<N>` with its fixed-size array is a sequence of at least one knot; `try_into().unwrap()` cannot fail because the fold produces exactly `N` knots.
- Day9.MoveNextTo: the last match arm's `-x / x.abs()` is modelled as the sign of `x`, which `Day9.NegatedOverAbs` proves equal to Rust's truncating division for non-zero `x`. When a coordinate difference is zero, Rust's division by zero panics; the model requires the two points to differ and only reaches that arm when both differences are non-zero.
- Day9: the tests with ten knots (`test_example2`, expecting 1, and `test_new_example2` on `example2.txt`, expecting 36) are not proved; the ten-knot rope is covered by the general lemmas only.
- `HashSet` sizes in Day 9 are the cardinalities of the modelled sets; hashing is not modelled.
