// Day 3: rucksack reorganization.  Each line lists the items of a rucksack,
// one letter per item; its first half is one compartment and its second
// half the other.  Part one sums the priorities of the item found in both
// compartments of each rucksack; part two takes the rucksacks three at a
// time and sums the priorities of the item the three have in common.

module Day3 {
  import opened Text

  predicate IsLower(c: char) { 'a' <= c <= 'z' }
  predicate IsUpper(c: char) { 'A' <= c <= 'Z' }

  /** An item is an ASCII letter. */
  predicate IsItem(c: char) { IsLower(c) || IsUpper(c) }

  /** Every character of the line is an item. */
  predicate ItemLine(line: string)
  {
    forall i | 0 <= i < |line| :: IsItem(line[i])
  }

  // ---------------------------------------------------------------------
  // Priorities

  /** `priority`: 'a'..'z' have priorities 1..26, 'A'..'Z' have 27..52. */
  function Priority(c: char): (p: nat)
    requires IsItem(c)
    ensures IsLower(c) ==> 1 <= p <= 26
    ensures IsUpper(c) ==> 27 <= p <= 52
  {
    if IsUpper(c) then c as int - 'A' as int + 27 else c as int - 'a' as int + 1
  }

  /** The item of each priority. */
  function ItemOfPriority(p: nat): (c: char)
    requires 1 <= p <= 52
    ensures IsItem(c)
  {
    if p <= 26 then (p - 1 + 'a' as int) as char else (p - 27 + 'A' as int) as char
  }

  /** `ItemOfPriority` undoes `Priority`... */
  lemma PriorityRoundTrip(c: char)
    requires IsItem(c)
    ensures ItemOfPriority(Priority(c)) == c
  {
  }

  /** ...and `Priority` undoes `ItemOfPriority`, so the two are a bijection
      between the 52 items and 1..52. */
  lemma ItemOfPriorityRoundTrip(p: nat)
    requires 1 <= p <= 52
    ensures Priority(ItemOfPriority(p)) == p
  {
  }

  /** Different items have different priorities. */
  lemma PriorityInjective(c: char, d: char)
    requires IsItem(c) && IsItem(d) && Priority(c) == Priority(d)
    ensures c == d
  {
    PriorityRoundTrip(c);
    PriorityRoundTrip(d);
  }

  // ---------------------------------------------------------------------
  // Picking an element of a set

  /** Every non-empty set of characters has a least element. */
  lemma {:induction false} LeastOf(s: set<char>) returns (m: char)
    requires s != {}
    ensures m in s && forall d | d in s :: m <= d
    decreases |s|
  {
    var x :| x in s;
    if s == {x} {
      m := x;
    } else {
      var rest := s - {x};
      var below := LeastOf(rest);
      m := if x < below then x else below;
      forall d | d in s
        ensures m <= d
      {
        if d != x {
          assert d in rest;
        }
      }
    }
  }

  lemma HasLeast(s: set<char>)
    requires s != {}
    ensures exists c :: c in s && forall d | d in s :: c <= d
  {
    var m := LeastOf(s);
  }

  /** The element `take(1).next()` yields from a set.  A `HashSet`'s
      iteration order is unspecified; the model takes the least element. */
  function Least(s: set<char>): (c: char)
    requires s != {}
    ensures c in s && forall d | d in s :: c <= d
  {
    HasLeast(s);
    var c :| c in s && forall d | d in s :: c <= d;
    c
  }

  // ---------------------------------------------------------------------
  // Rucksacks

  datatype Rucksack = Rucksack(left: set<char>, right: set<char>)

  /** `Rucksack::from_str`: `left` holds the items of the first half of the
      line and `right` those of the last half (the middle item of an odd
      line is in neither).  Parsing never fails. */
  function ParseRucksack(line: string): Rucksack
  {
    var half := |line| / 2;
    Rucksack(Chars(line[..half]), Chars(line[|line| - half..]))
  }

  /** A line made of two halves of equal length parses into the items of
      each half. */
  lemma ParseRucksackHalves(a: string, b: string)
    requires |a| == |b|
    ensures ParseRucksack(a + b) == Rucksack(Chars(a), Chars(b))
  {
    var line := a + b;
    assert line[..|a|] == a && line[|a|..] == b;
  }

  /** `all_items`. */
  function AllItems(r: Rucksack): set<char>
  {
    r.left + r.right
  }

  /** The items of a parsed rucksack come from its line. */
  lemma ItemsFromLine(line: string)
    ensures forall c | c in AllItems(ParseRucksack(line)) :: c in line
  {
    var half := |line| / 2;
    forall c | c in AllItems(ParseRucksack(line))
      ensures c in line
    {
      if c in line[..half] {
        var i :| 0 <= i < half && line[..half][i] == c;
        assert line[i] == c;
      } else {
        var i :| 0 <= i < half && line[|line| - half..][i] == c;
        assert line[|line| - half + i] == c;
      }
    }
  }

  /** For a line of even length, `all_items` is every item of the line. */
  lemma AllItemsOfLine(line: string)
    requires |line| % 2 == 0
    ensures AllItems(ParseRucksack(line)) == Chars(line)
  {
    var half := |line| / 2;
    var a, b := line[..half], line[half..];
    assert line == a + b;
    ParseRucksackHalves(a, b);
    CharsConcat(a, b);
  }

  /** `common_item_in_compartments`: an item found in both compartments.
      The source unwraps, so one must exist. */
  function CommonItemInCompartments(r: Rucksack): (c: char)
    requires r.left * r.right != {}
    ensures c in r.left && c in r.right
  {
    Least(r.left * r.right)
  }

  /** When exactly one item is in both compartments, that item is the
      answer, whatever the set's iteration order. */
  lemma SoleCommonItem(r: Rucksack, c: char)
    requires r.left * r.right == {c}
    ensures CommonItemInCompartments(r) == c
  {
  }

  /** The line is made of items and its compartments share one. */
  predicate Packed(line: string)
  {
    ItemLine(line) && ParseRucksack(line).left * ParseRucksack(line).right != {}
  }

  /** The priority of the item in both compartments of one line. */
  function LinePriority(line: string): (p: nat)
    requires Packed(line)
    ensures 1 <= p <= 52
  {
    var c := CommonItemInCompartments(ParseRucksack(line));
    ItemsFromLine(line);
    Priority(c)
  }

  /** `sum_priorities`: the priorities of every line's common item, added
      up. */
  function SumPriorities(lines: seq<string>): (total: nat)
    requires forall i | 0 <= i < |lines| :: Packed(lines[i])
    ensures |lines| <= total <= 52 * |lines|
  {
    if lines == [] then 0 else LinePriority(lines[0]) + SumPriorities(lines[1..])
  }

  /** The total of a concatenation is the sum of the totals. */
  lemma {:induction false} SumPrioritiesConcat(a: seq<string>, b: seq<string>)
    requires forall i | 0 <= i < |a| :: Packed(a[i])
    requires forall i | 0 <= i < |b| :: Packed(b[i])
    ensures forall i | 0 <= i < |a + b| :: Packed((a + b)[i])
    ensures SumPriorities(a + b) == SumPriorities(a) + SumPriorities(b)
  {
    if a == [] {
      assert a + b == b;
    } else {
      assert (a + b)[1..] == a[1..] + b;
      SumPrioritiesConcat(a[1..], b);
    }
  }

  // ---------------------------------------------------------------------
  // Part two: groups of three

  /** `common_in_three`: an item all three rucksacks hold.  The source
      unwraps, so one must exist. */
  function CommonInThree(a: Rucksack, b: Rucksack, c: Rucksack): (item: char)
    requires AllItems(a) * AllItems(b) * AllItems(c) != {}
    ensures item in AllItems(a) && item in AllItems(b) && item in AllItems(c)
  {
    Least(AllItems(a) * AllItems(b) * AllItems(c))
  }

  /** When the three share exactly one item, that item is the answer. */
  lemma SoleBadge(a: Rucksack, b: Rucksack, c: Rucksack, item: char)
    requires AllItems(a) * AllItems(b) * AllItems(c) == {item}
    ensures CommonInThree(a, b, c) == item
  {
  }

  /** The order of the three rucksacks does not matter. */
  lemma CommonInThreeOrderFree(a: Rucksack, b: Rucksack, c: Rucksack)
    requires AllItems(a) * AllItems(b) * AllItems(c) != {}
    ensures AllItems(b) * AllItems(a) * AllItems(c) != {} && CommonInThree(b, a, c) == CommonInThree(a, b, c)
    ensures AllItems(b) * AllItems(c) * AllItems(a) != {} && CommonInThree(b, c, a) == CommonInThree(a, b, c)
  {
    var x, y, z := AllItems(a), AllItems(b), AllItems(c);
    assert y * x * z == x * y * z;
    assert y * z * x == x * y * z;
  }

  /** Three lines of items whose rucksacks share an item. */
  predicate HasBadge(a: string, b: string, c: string)
  {
    ItemLine(a) && ItemLine(b) && ItemLine(c) &&
    AllItems(ParseRucksack(a)) * AllItems(ParseRucksack(b)) * AllItems(ParseRucksack(c)) != {}
  }

  /** The priority of a group's common item. */
  function GroupPriority(a: string, b: string, c: string): (p: nat)
    requires HasBadge(a, b, c)
    ensures 1 <= p <= 52
  {
    var item := CommonInThree(ParseRucksack(a), ParseRucksack(b), ParseRucksack(c));
    ItemsFromLine(a);
    Priority(item)
  }

  /** The lines fall into consecutive groups of three that each share an
      item.  `sum_group_priorities` unwraps three rucksacks per round, so a
      count that is not a multiple of three panics. */
  predicate Grouped(lines: seq<string>)
    decreases |lines|
  {
    lines == [] || (|lines| >= 3 && HasBadge(lines[0], lines[1], lines[2]) && Grouped(lines[3..]))
  }

  /** The sum of the groups' priorities, group by group. */
  function GroupSum(lines: seq<string>): (total: nat)
    requires Grouped(lines)
    ensures |lines| % 3 == 0
    ensures |lines| / 3 <= total <= 52 * (|lines| / 3)
    decreases |lines|
  {
    if lines == [] then 0
    else GroupPriority(lines[0], lines[1], lines[2]) + GroupSum(lines[3..])
  }

  /** `sum_group_priorities`: while rucksacks remain, take the next three
      and add the priority of their common item. */
  method SumGroupPriorities(lines: seq<string>) returns (sum: nat)
    requires Grouped(lines)
    ensures sum == GroupSum(lines)
  {
    sum := 0;
    var i := 0;
    while i < |lines|
      invariant i <= |lines| && Grouped(lines[i..])
      invariant sum + GroupSum(lines[i..]) == GroupSum(lines)
      decreases |lines| - i
    {
      var rest := lines[i..];
      assert rest[0] == lines[i] && rest[1] == lines[i + 1] && rest[2] == lines[i + 2];
      assert rest[3..] == lines[i + 3..];
      var a, b, c := ParseRucksack(lines[i]), ParseRucksack(lines[i + 1]), ParseRucksack(lines[i + 2]);
      ItemsFromLine(lines[i]);
      sum := sum + Priority(CommonInThree(a, b, c));
      i := i + 3;
    }
  }

  // ---------------------------------------------------------------------
  // The published example

  const ExampleLine0: string := "vJrwpWtwJgWrhcsFMMfFFhFp"
  const ExampleLine1: string := "jqHRNqRjqzjGDLGLrsFMfFZSrLrFZsSL"
  const ExampleLine2: string := "PmmdzqPrVvPwwTWBwg"
  const ExampleLine3: string := "wMqvLMZHhHMvwLHjbvcjnjSBnvTQFn"
  const ExampleLine4: string := "ttgJtRGJQctTZtZT"
  const ExampleLine5: string := "CrZsJsPPZsGzwwsLwLmpwMDw"

  const ExampleLines: seq<string> := [
    ExampleLine0, ExampleLine1, ExampleLine2, ExampleLine3, ExampleLine4, ExampleLine5]

  /** Line 0 of the example, item by item. */
  predicate IsExampleLine0(s: string)
  {
    |s| == 24 &&
    s[0] == 'v' && s[1] == 'J' && s[2] == 'r' && s[3] == 'w' && s[4] == 'p' && s[5] == 'W' && s[6] == 't' && s[7] == 'w' &&
    s[8] == 'J' && s[9] == 'g' && s[10] == 'W' && s[11] == 'r' && s[12] == 'h' && s[13] == 'c' && s[14] == 's' && s[15] == 'F' &&
    s[16] == 'M' && s[17] == 'M' && s[18] == 'f' && s[19] == 'F' && s[20] == 'F' && s[21] == 'h' && s[22] == 'F' && s[23] == 'p'
  }

  lemma ExampleLine0Spelled()
    ensures IsExampleLine0(ExampleLine0)
  {
    assert |ExampleLine0| == 24;
    assert ExampleLine0[0] == 'v' && ExampleLine0[1] == 'J' && ExampleLine0[2] == 'r' && ExampleLine0[3] == 'w' && ExampleLine0[4] == 'p' && ExampleLine0[5] == 'W';
    assert ExampleLine0[6] == 't' && ExampleLine0[7] == 'w' && ExampleLine0[8] == 'J' && ExampleLine0[9] == 'g' && ExampleLine0[10] == 'W' && ExampleLine0[11] == 'r';
    assert ExampleLine0[12] == 'h' && ExampleLine0[13] == 'c' && ExampleLine0[14] == 's' && ExampleLine0[15] == 'F' && ExampleLine0[16] == 'M' && ExampleLine0[17] == 'M';
    assert ExampleLine0[18] == 'f' && ExampleLine0[19] == 'F' && ExampleLine0[20] == 'F' && ExampleLine0[21] == 'h' && ExampleLine0[22] == 'F' && ExampleLine0[23] == 'p';
  }

  /** Line 1 of the example, item by item. */
  predicate IsExampleLine1(s: string)
  {
    |s| == 32 &&
    s[0] == 'j' && s[1] == 'q' && s[2] == 'H' && s[3] == 'R' && s[4] == 'N' && s[5] == 'q' && s[6] == 'R' && s[7] == 'j' &&
    s[8] == 'q' && s[9] == 'z' && s[10] == 'j' && s[11] == 'G' && s[12] == 'D' && s[13] == 'L' && s[14] == 'G' && s[15] == 'L' &&
    s[16] == 'r' && s[17] == 's' && s[18] == 'F' && s[19] == 'M' && s[20] == 'f' && s[21] == 'F' && s[22] == 'Z' && s[23] == 'S' &&
    s[24] == 'r' && s[25] == 'L' && s[26] == 'r' && s[27] == 'F' && s[28] == 'Z' && s[29] == 's' && s[30] == 'S' && s[31] == 'L'
  }

  lemma ExampleLine1Spelled()
    ensures IsExampleLine1(ExampleLine1)
  {
    ExampleLine1Front();
    ExampleLine1Back();
  }

  lemma ExampleLine1Front()
    ensures |ExampleLine1| == 32
    ensures ExampleLine1[0] == 'j' && ExampleLine1[1] == 'q' && ExampleLine1[2] == 'H' && ExampleLine1[3] == 'R' &&
      ExampleLine1[4] == 'N' && ExampleLine1[5] == 'q' && ExampleLine1[6] == 'R' && ExampleLine1[7] == 'j' &&
      ExampleLine1[8] == 'q' && ExampleLine1[9] == 'z' && ExampleLine1[10] == 'j' && ExampleLine1[11] == 'G' &&
      ExampleLine1[12] == 'D' && ExampleLine1[13] == 'L' && ExampleLine1[14] == 'G' && ExampleLine1[15] == 'L'
  {
    assert |ExampleLine1| == 32;
    assert ExampleLine1[0] == 'j' && ExampleLine1[1] == 'q' && ExampleLine1[2] == 'H' && ExampleLine1[3] == 'R';
    assert ExampleLine1[4] == 'N' && ExampleLine1[5] == 'q' && ExampleLine1[6] == 'R' && ExampleLine1[7] == 'j';
    assert ExampleLine1[8] == 'q' && ExampleLine1[9] == 'z' && ExampleLine1[10] == 'j' && ExampleLine1[11] == 'G';
    assert ExampleLine1[12] == 'D' && ExampleLine1[13] == 'L' && ExampleLine1[14] == 'G' && ExampleLine1[15] == 'L';
  }

  lemma ExampleLine1Back()
    ensures |ExampleLine1| == 32
    ensures ExampleLine1[16] == 'r' && ExampleLine1[17] == 's' && ExampleLine1[18] == 'F' && ExampleLine1[19] == 'M' &&
      ExampleLine1[20] == 'f' && ExampleLine1[21] == 'F' && ExampleLine1[22] == 'Z' && ExampleLine1[23] == 'S' &&
      ExampleLine1[24] == 'r' && ExampleLine1[25] == 'L' && ExampleLine1[26] == 'r' && ExampleLine1[27] == 'F' &&
      ExampleLine1[28] == 'Z' && ExampleLine1[29] == 's' && ExampleLine1[30] == 'S' && ExampleLine1[31] == 'L'
  {
    assert |ExampleLine1| == 32;
    assert ExampleLine1[16] == 'r' && ExampleLine1[17] == 's' && ExampleLine1[18] == 'F' && ExampleLine1[19] == 'M';
    assert ExampleLine1[20] == 'f' && ExampleLine1[21] == 'F' && ExampleLine1[22] == 'Z' && ExampleLine1[23] == 'S';
    assert ExampleLine1[24] == 'r' && ExampleLine1[25] == 'L' && ExampleLine1[26] == 'r' && ExampleLine1[27] == 'F';
    assert ExampleLine1[28] == 'Z' && ExampleLine1[29] == 's' && ExampleLine1[30] == 'S' && ExampleLine1[31] == 'L';
  }

  /** Line 2 of the example, item by item. */
  predicate IsExampleLine2(s: string)
  {
    |s| == 18 &&
    s[0] == 'P' && s[1] == 'm' && s[2] == 'm' && s[3] == 'd' && s[4] == 'z' && s[5] == 'q' && s[6] == 'P' && s[7] == 'r' &&
    s[8] == 'V' && s[9] == 'v' && s[10] == 'P' && s[11] == 'w' && s[12] == 'w' && s[13] == 'T' && s[14] == 'W' && s[15] == 'B' &&
    s[16] == 'w' && s[17] == 'g'
  }

  lemma ExampleLine2Spelled()
    ensures IsExampleLine2(ExampleLine2)
  {
    assert |ExampleLine2| == 18;
    assert ExampleLine2[0] == 'P' && ExampleLine2[1] == 'm' && ExampleLine2[2] == 'm' && ExampleLine2[3] == 'd' && ExampleLine2[4] == 'z' && ExampleLine2[5] == 'q';
    assert ExampleLine2[6] == 'P' && ExampleLine2[7] == 'r' && ExampleLine2[8] == 'V' && ExampleLine2[9] == 'v' && ExampleLine2[10] == 'P' && ExampleLine2[11] == 'w';
    assert ExampleLine2[12] == 'w' && ExampleLine2[13] == 'T' && ExampleLine2[14] == 'W' && ExampleLine2[15] == 'B' && ExampleLine2[16] == 'w' && ExampleLine2[17] == 'g';
  }

  /** Line 3 of the example, item by item. */
  predicate IsExampleLine3(s: string)
  {
    |s| == 30 &&
    s[0] == 'w' && s[1] == 'M' && s[2] == 'q' && s[3] == 'v' && s[4] == 'L' && s[5] == 'M' && s[6] == 'Z' && s[7] == 'H' &&
    s[8] == 'h' && s[9] == 'H' && s[10] == 'M' && s[11] == 'v' && s[12] == 'w' && s[13] == 'L' && s[14] == 'H' && s[15] == 'j' &&
    s[16] == 'b' && s[17] == 'v' && s[18] == 'c' && s[19] == 'j' && s[20] == 'n' && s[21] == 'j' && s[22] == 'S' && s[23] == 'B' &&
    s[24] == 'n' && s[25] == 'v' && s[26] == 'T' && s[27] == 'Q' && s[28] == 'F' && s[29] == 'n'
  }

  lemma ExampleLine3Spelled()
    ensures IsExampleLine3(ExampleLine3)
  {
    ExampleLine3Front();
    ExampleLine3Back();
  }

  lemma ExampleLine3Front()
    ensures |ExampleLine3| == 30
    ensures ExampleLine3[0] == 'w' && ExampleLine3[1] == 'M' && ExampleLine3[2] == 'q' && ExampleLine3[3] == 'v' &&
      ExampleLine3[4] == 'L' && ExampleLine3[5] == 'M' && ExampleLine3[6] == 'Z' && ExampleLine3[7] == 'H' &&
      ExampleLine3[8] == 'h' && ExampleLine3[9] == 'H' && ExampleLine3[10] == 'M' && ExampleLine3[11] == 'v' &&
      ExampleLine3[12] == 'w' && ExampleLine3[13] == 'L' && ExampleLine3[14] == 'H'
  {
    assert |ExampleLine3| == 30;
    assert ExampleLine3[0] == 'w' && ExampleLine3[1] == 'M' && ExampleLine3[2] == 'q' && ExampleLine3[3] == 'v';
    assert ExampleLine3[4] == 'L' && ExampleLine3[5] == 'M' && ExampleLine3[6] == 'Z' && ExampleLine3[7] == 'H';
    assert ExampleLine3[8] == 'h' && ExampleLine3[9] == 'H' && ExampleLine3[10] == 'M' && ExampleLine3[11] == 'v';
    assert ExampleLine3[12] == 'w' && ExampleLine3[13] == 'L' && ExampleLine3[14] == 'H';
  }

  lemma ExampleLine3Back()
    ensures |ExampleLine3| == 30
    ensures ExampleLine3[15] == 'j' && ExampleLine3[16] == 'b' && ExampleLine3[17] == 'v' && ExampleLine3[18] == 'c' &&
      ExampleLine3[19] == 'j' && ExampleLine3[20] == 'n' && ExampleLine3[21] == 'j' && ExampleLine3[22] == 'S' &&
      ExampleLine3[23] == 'B' && ExampleLine3[24] == 'n' && ExampleLine3[25] == 'v' && ExampleLine3[26] == 'T' &&
      ExampleLine3[27] == 'Q' && ExampleLine3[28] == 'F' && ExampleLine3[29] == 'n'
  {
    assert |ExampleLine3| == 30;
    assert ExampleLine3[15] == 'j' && ExampleLine3[16] == 'b' && ExampleLine3[17] == 'v' && ExampleLine3[18] == 'c';
    assert ExampleLine3[19] == 'j' && ExampleLine3[20] == 'n' && ExampleLine3[21] == 'j' && ExampleLine3[22] == 'S';
    assert ExampleLine3[23] == 'B' && ExampleLine3[24] == 'n' && ExampleLine3[25] == 'v' && ExampleLine3[26] == 'T';
    assert ExampleLine3[27] == 'Q' && ExampleLine3[28] == 'F' && ExampleLine3[29] == 'n';
  }

  /** Line 4 of the example, item by item. */
  predicate IsExampleLine4(s: string)
  {
    |s| == 16 &&
    s[0] == 't' && s[1] == 't' && s[2] == 'g' && s[3] == 'J' && s[4] == 't' && s[5] == 'R' && s[6] == 'G' && s[7] == 'J' &&
    s[8] == 'Q' && s[9] == 'c' && s[10] == 't' && s[11] == 'T' && s[12] == 'Z' && s[13] == 't' && s[14] == 'Z' && s[15] == 'T'
  }

  lemma ExampleLine4Spelled()
    ensures IsExampleLine4(ExampleLine4)
  {
    assert |ExampleLine4| == 16;
    assert ExampleLine4[0] == 't' && ExampleLine4[1] == 't' && ExampleLine4[2] == 'g' && ExampleLine4[3] == 'J' && ExampleLine4[4] == 't' && ExampleLine4[5] == 'R';
    assert ExampleLine4[6] == 'G' && ExampleLine4[7] == 'J' && ExampleLine4[8] == 'Q' && ExampleLine4[9] == 'c' && ExampleLine4[10] == 't' && ExampleLine4[11] == 'T';
    assert ExampleLine4[12] == 'Z' && ExampleLine4[13] == 't' && ExampleLine4[14] == 'Z' && ExampleLine4[15] == 'T';
  }

  /** Line 5 of the example, item by item. */
  predicate IsExampleLine5(s: string)
  {
    |s| == 24 &&
    s[0] == 'C' && s[1] == 'r' && s[2] == 'Z' && s[3] == 's' && s[4] == 'J' && s[5] == 's' && s[6] == 'P' && s[7] == 'P' &&
    s[8] == 'Z' && s[9] == 's' && s[10] == 'G' && s[11] == 'z' && s[12] == 'w' && s[13] == 'w' && s[14] == 's' && s[15] == 'L' &&
    s[16] == 'w' && s[17] == 'L' && s[18] == 'm' && s[19] == 'p' && s[20] == 'w' && s[21] == 'M' && s[22] == 'D' && s[23] == 'w'
  }

  lemma ExampleLine5Spelled()
    ensures IsExampleLine5(ExampleLine5)
  {
    assert |ExampleLine5| == 24;
    assert ExampleLine5[0] == 'C' && ExampleLine5[1] == 'r' && ExampleLine5[2] == 'Z' && ExampleLine5[3] == 's' && ExampleLine5[4] == 'J' && ExampleLine5[5] == 's';
    assert ExampleLine5[6] == 'P' && ExampleLine5[7] == 'P' && ExampleLine5[8] == 'Z' && ExampleLine5[9] == 's' && ExampleLine5[10] == 'G' && ExampleLine5[11] == 'z';
    assert ExampleLine5[12] == 'w' && ExampleLine5[13] == 'w' && ExampleLine5[14] == 's' && ExampleLine5[15] == 'L' && ExampleLine5[16] == 'w' && ExampleLine5[17] == 'L';
    assert ExampleLine5[18] == 'm' && ExampleLine5[19] == 'p' && ExampleLine5[20] == 'w' && ExampleLine5[21] == 'M' && ExampleLine5[22] == 'D' && ExampleLine5[23] == 'w';
  }

  /** Both compartments of line 0 hold 'p', and only it. */
  lemma ExampleRucksack0(s: string)
    requires IsExampleLine0(s)
    ensures Packed(s) && LinePriority(s) == 16
  {
    var left, right := s[..12], s[12..];
    assert s == left + right;
    ParseRucksackHalves(left, right);
    assert forall y | y in left :: y in {'J', 'W', 'g', 'p', 'r', 't', 'v', 'w'};
    assert 'J' !in right && 'W' !in right && 'g' !in right && 'r' !in right && 't' !in right && 'v' !in right && 'w' !in right;
    assert 'p' in left && 'p' in right;
    SoleCommonItem(ParseRucksack(s), 'p');
  }

  /** Both compartments of line 1 hold 'L', and only it. */
  lemma ExampleRucksack1(s: string)
    requires IsExampleLine1(s)
    ensures Packed(s) && LinePriority(s) == 38
  {
    var left, right := s[..16], s[16..];
    assert s == left + right;
    ParseRucksackHalves(left, right);
    assert forall y | y in left :: y in {'D', 'G', 'H', 'L', 'N', 'R', 'j', 'q', 'z'};
    assert 'D' !in right && 'G' !in right && 'H' !in right && 'N' !in right && 'R' !in right && 'j' !in right && 'q' !in right && 'z' !in right;
    assert 'L' in left && 'L' in right;
    SoleCommonItem(ParseRucksack(s), 'L');
  }

  /** Both compartments of line 2 hold 'P', and only it. */
  lemma ExampleRucksack2(s: string)
    requires IsExampleLine2(s)
    ensures Packed(s) && LinePriority(s) == 42
  {
    var left, right := s[..9], s[9..];
    assert s == left + right;
    ParseRucksackHalves(left, right);
    assert forall y | y in left :: y in {'P', 'V', 'd', 'm', 'q', 'r', 'z'};
    assert 'V' !in right && 'd' !in right && 'm' !in right && 'q' !in right && 'r' !in right && 'z' !in right;
    assert 'P' in left && 'P' in right;
    SoleCommonItem(ParseRucksack(s), 'P');
  }

  /** Both compartments of line 3 hold 'v', and only it. */
  lemma ExampleRucksack3(s: string)
    requires IsExampleLine3(s)
    ensures Packed(s) && LinePriority(s) == 22
  {
    var left, right := s[..15], s[15..];
    assert s == left + right;
    ParseRucksackHalves(left, right);
    assert forall y | y in left :: y in {'H', 'L', 'M', 'Z', 'h', 'q', 'v', 'w'};
    assert 'H' !in right && 'L' !in right && 'M' !in right && 'Z' !in right && 'h' !in right && 'q' !in right && 'w' !in right;
    assert 'v' in left && 'v' in right;
    SoleCommonItem(ParseRucksack(s), 'v');
  }

  /** Both compartments of line 4 hold 't', and only it. */
  lemma ExampleRucksack4(s: string)
    requires IsExampleLine4(s)
    ensures Packed(s) && LinePriority(s) == 20
  {
    var left, right := s[..8], s[8..];
    assert s == left + right;
    ParseRucksackHalves(left, right);
    assert forall y | y in left :: y in {'G', 'J', 'R', 'g', 't'};
    assert 'G' !in right && 'J' !in right && 'R' !in right && 'g' !in right;
    assert 't' in left && 't' in right;
    SoleCommonItem(ParseRucksack(s), 't');
  }

  /** Both compartments of line 5 hold 's', and only it. */
  lemma ExampleRucksack5(s: string)
    requires IsExampleLine5(s)
    ensures Packed(s) && LinePriority(s) == 19
  {
    var left, right := s[..12], s[12..];
    assert s == left + right;
    ParseRucksackHalves(left, right);
    assert forall y | y in left :: y in {'C', 'G', 'J', 'P', 'Z', 'r', 's', 'z'};
    assert 'C' !in right && 'G' !in right && 'J' !in right && 'P' !in right && 'Z' !in right && 'r' !in right && 'z' !in right;
    assert 's' in left && 's' in right;
    SoleCommonItem(ParseRucksack(s), 's');
  }

  /** Six lines whose priorities are known add up to their sum. */
  lemma SumOfSix(ls: seq<string>, p0: nat, p1: nat, p2: nat, p3: nat, p4: nat, p5: nat)
    requires |ls| == 6
    requires Packed(ls[0]) && LinePriority(ls[0]) == p0 &&
    Packed(ls[1]) && LinePriority(ls[1]) == p1 &&
    Packed(ls[2]) && LinePriority(ls[2]) == p2 &&
    Packed(ls[3]) && LinePriority(ls[3]) == p3 &&
    Packed(ls[4]) && LinePriority(ls[4]) == p4 &&
    Packed(ls[5]) && LinePriority(ls[5]) == p5
    ensures forall i | 0 <= i < |ls| :: Packed(ls[i])
    ensures SumPriorities(ls) == p0 + p1 + p2 + p3 + p4 + p5
  {
    assert SumPriorities(ls[6..]) == 0 by { assert ls[6..] == []; }
    SumPrioritiesFrom(ls, 5);
    SumPrioritiesFrom(ls, 4);
    SumPrioritiesFrom(ls, 3);
    SumPrioritiesFrom(ls, 2);
    SumPrioritiesFrom(ls, 1);
    SumPrioritiesFrom(ls, 0);
    assert ls[0..] == ls;
  }

  lemma SumPrioritiesFrom(ls: seq<string>, i: nat)
    requires i < |ls| && forall j | 0 <= j < |ls| :: Packed(ls[j])
    ensures SumPriorities(ls[i..]) == LinePriority(ls[i]) + SumPriorities(ls[i + 1..])
  {
    assert ls[i..][0] == ls[i] && ls[i..][1..] == ls[i + 1..];
  }

  /** The example input, line by line. */
  predicate IsExampleInput(ls: seq<string>)
  {
    |ls| == 6 &&
    IsExampleLine0(ls[0]) && IsExampleLine1(ls[1]) && IsExampleLine2(ls[2]) &&
    IsExampleLine3(ls[3]) && IsExampleLine4(ls[4]) && IsExampleLine5(ls[5])
  }

  lemma ExampleInputSpelled()
    ensures IsExampleInput(ExampleLines)
  {
    ExampleLine0Spelled();
    ExampleLine1Spelled();
    ExampleLine2Spelled();
    ExampleLine3Spelled();
    ExampleLine4Spelled();
    ExampleLine5Spelled();
  }

  /** The common item of each example rucksack. */
  lemma ExampleRucksacks(ls: seq<string>)
    requires IsExampleInput(ls)
    ensures Packed(ls[0]) && LinePriority(ls[0]) == 16 &&
    Packed(ls[1]) && LinePriority(ls[1]) == 38 &&
    Packed(ls[2]) && LinePriority(ls[2]) == 42 &&
    Packed(ls[3]) && LinePriority(ls[3]) == 22 &&
    Packed(ls[4]) && LinePriority(ls[4]) == 20 &&
    Packed(ls[5]) && LinePriority(ls[5]) == 19
  {
    ExampleRucksack0(ls[0]);
    ExampleRucksack1(ls[1]);
    ExampleRucksack2(ls[2]);
    ExampleRucksack3(ls[3]);
    ExampleRucksack4(ls[4]);
    ExampleRucksack5(ls[5]);
  }

  /** `test_example1`: the common items of the example sum to 157. */
  lemma ExamplePartOneFor(ls: seq<string>)
    requires IsExampleInput(ls)
    ensures (forall i | 0 <= i < |ls| :: Packed(ls[i])) && SumPriorities(ls) == 157
  {
    ExampleRucksacks(ls);
    SumOfSix(ls, 16, 38, 42, 22, 20, 19);
  }

  /** The lines of group 0 share only 'r'. */
  lemma ExampleBadge0(a: string, b: string, c: string)
    requires IsExampleLine0(a) && IsExampleLine1(b) && IsExampleLine2(c)
    ensures Chars(a) * Chars(b) * Chars(c) == {'r'}
  {
    assert forall y | y in c :: y in {'B', 'P', 'T', 'V', 'W', 'd', 'g', 'm', 'q', 'r', 'v', 'w', 'z'};
    ExampleBadge0Excluded(a, b);
    assert 'r' in a && 'r' in b && 'r' in c;
  }

  /** The items of line 2 other than `r` miss from line 0 or line 1. */
  lemma ExampleBadge0Excluded(a: string, b: string)
    requires IsExampleLine0(a) && IsExampleLine1(b)
    ensures 'B' !in a && 'P' !in a && 'T' !in a && 'V' !in a && 'W' !in b && 'd' !in a
    ensures 'g' !in b && 'm' !in a && 'q' !in a && 'v' !in b && 'w' !in b && 'z' !in a
  {
    assert 'B' !in a && 'P' !in a && 'T' !in a && 'V' !in a && 'W' !in b && 'd' !in a;
  }

  lemma ExampleGroup0(a: string, b: string, c: string)
    requires IsExampleLine0(a) && IsExampleLine1(b) && IsExampleLine2(c)
    ensures HasBadge(a, b, c) && GroupPriority(a, b, c) == 18
  {
    ExampleRucksack0(a);
    ExampleRucksack1(b);
    ExampleRucksack2(c);
    AllItemsOfLine(a);
    AllItemsOfLine(b);
    AllItemsOfLine(c);
    ExampleBadge0(a, b, c);
    SoleBadge(ParseRucksack(a), ParseRucksack(b), ParseRucksack(c), 'r');
  }

  /** The lines of group 1 share only 'Z'. */
  lemma ExampleBadge1(a: string, b: string, c: string)
    requires IsExampleLine3(a) && IsExampleLine4(b) && IsExampleLine5(c)
    ensures Chars(a) * Chars(b) * Chars(c) == {'Z'}
  {
    assert forall y | y in b :: y in {'G', 'J', 'Q', 'R', 'T', 'Z', 'c', 'g', 't'};
    assert 'G' !in a && 'J' !in a && 'Q' !in c && 'R' !in a && 'T' !in c && 'c' !in c && 'g' !in a && 't' !in a;
    assert 'Z' in a && 'Z' in b && 'Z' in c;
  }

  lemma ExampleGroup1(a: string, b: string, c: string)
    requires IsExampleLine3(a) && IsExampleLine4(b) && IsExampleLine5(c)
    ensures HasBadge(a, b, c) && GroupPriority(a, b, c) == 52
  {
    ExampleRucksack3(a);
    ExampleRucksack4(b);
    ExampleRucksack5(c);
    AllItemsOfLine(a);
    AllItemsOfLine(b);
    AllItemsOfLine(c);
    ExampleBadge1(a, b, c);
    SoleBadge(ParseRucksack(a), ParseRucksack(b), ParseRucksack(c), 'Z');
  }

  /** `test_example2`: the badges of the example sum to 70. */
  lemma ExamplePartTwoFor(ls: seq<string>)
    requires IsExampleInput(ls)
    ensures Grouped(ls) && GroupSum(ls) == 70
  {
    ExampleGroup0(ls[0], ls[1], ls[2]);
    ExampleGroup1(ls[3], ls[4], ls[5]);
    var rest := ls[3..];
    assert rest[0] == ls[3] && rest[1] == ls[4] && rest[2] == ls[5];
    assert rest[3..] == [];
  }

  /** Both parts on the example input. */
  lemma Example()
    ensures (forall i | 0 <= i < |ExampleLines| :: Packed(ExampleLines[i])) && SumPriorities(ExampleLines) == 157
    ensures Grouped(ExampleLines) && GroupSum(ExampleLines) == 70
  {
    ExampleInputSpelled();
    ExamplePartOneFor(ExampleLines);
    ExamplePartTwoFor(ExampleLines);
  }
}
