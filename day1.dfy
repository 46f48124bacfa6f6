/** Day 1: calorie counting. The input lists, elf by elf, the calories of
    each food item an elf carries, one count per line; a blank line ends an
    elf's list. The elves are gathered into sets of counts, and the two
    queries ask for the largest total and for the sum of the three largest
    totals. */
module Day1 {
  import opened Wrappers
  import opened Text
  import opened Seqs

  // ---------------------------------------------------------------------
  // Parsing

  /** One line of the input: a calorie count when it parses as a `u32`,
      nothing when it is empty or does not parse. */
  function LineValue(line: string): (v: Option<nat>)
    ensures v.Some? <==> IsUnsigned(line, U32_MAX)
    ensures v.Some? ==> v.value <= U32_MAX
  {
    if line == [] then None
    else if IsUnsigned(line, U32_MAX) then Some(ParseUnsigned(line, U32_MAX))
    else None
  }

  /** The accumulator the fold threads: the groups closed so far and the
      group being filled. */
  datatype Tally = Tally(closed: seq<set<nat>>, current: set<nat>)

  const Start := Tally([], {})

  /** One step of the fold: a count joins the current group; any other line
      closes the current group, even an empty one, and opens a new one. */
  function Step(t: Tally, line: string): Tally
  {
    match LineValue(line)
    case Some(calories) => Tally(t.closed, t.current + {calories})
    case None => Tally(t.closed + [t.current], {})
  }

  function Fold(t: Tally, lines: seq<string>): Tally
    decreases |lines|
  {
    if lines == [] then t
    else Step(Fold(t, lines[..|lines| - 1]), lines[|lines| - 1])
  }

  /** The groups `parse_calories` returns: the closed groups, then the group
      still open at the end if it holds anything. */
  function CalorieGroups(lines: seq<string>): seq<set<nat>>
  {
    var t := Fold(Start, lines);
    if t.current != {} then t.closed + [t.current] else t.closed
  }

  method ParseCalories(lines: seq<string>) returns (elves: seq<set<nat>>)
    ensures elves == CalorieGroups(lines)
  {
    var closed: seq<set<nat>> := [];
    var current: set<nat> := {};
    var i := 0;
    while i < |lines|
      invariant 0 <= i <= |lines|
      invariant Tally(closed, current) == Fold(Start, lines[..i])
    {
      assert lines[..i + 1][..i] == lines[..i];
      match LineValue(lines[i]) {
        case Some(calories) =>
          current := current + {calories};
        case None =>
          closed := closed + [current];
          current := {};
      }
      i := i + 1;
    }
    assert lines[..i] == lines;
    elves := closed;
    if current != {} {
      elves := elves + [current];
    }
  }

  // ---------------------------------------------------------------------
  // What the grouping keeps

  lemma {:induction false} FoldConcat(t: Tally, a: seq<string>, b: seq<string>)
    ensures Fold(t, a + b) == Fold(Fold(t, a), b)
    decreases |b|
  {
    if b == [] {
      assert a + b == a;
    } else {
      assert (a + b)[..|a + b| - 1] == a + b[..|b| - 1];
      FoldConcat(t, a, b[..|b| - 1]);
    }
  }

  predicate InSomeGroup(groups: seq<set<nat>>, x: nat)
  {
    exists k :: 0 <= k < |groups| && x in groups[k]
  }

  /** What each line contributes, in order. */
  function Values(lines: seq<string>): seq<Option<nat>>
  {
    seq(|lines|, i requires 0 <= i < |lines| => LineValue(lines[i]))
  }

  predicate ListedIn(lines: seq<string>, x: nat)
  {
    Some(x) in Values(lines)
  }

  lemma ListedInSnoc(lines: seq<string>, x: nat)
    requires |lines| > 0
    ensures ListedIn(lines, x) <==>
              ListedIn(lines[..|lines| - 1], x) || LineValue(lines[|lines| - 1]) == Some(x)
  {
    var init := lines[..|lines| - 1];
    assert Values(lines) == Values(init) + [LineValue(lines[|lines| - 1])];
  }

  lemma InSomeGroupSnoc(groups: seq<set<nat>>, g: set<nat>, x: nat)
    ensures InSomeGroup(groups + [g], x) <==> InSomeGroup(groups, x) || x in g
  {
    var more := groups + [g];
    if x in g { assert x in more[|groups|]; }
    if InSomeGroup(groups, x) {
      var k :| 0 <= k < |groups| && x in groups[k];
      assert x in more[k];
    }
    if InSomeGroup(more, x) {
      var k :| 0 <= k < |more| && x in more[k];
      if k < |groups| { assert x in groups[k]; }
    }
  }

  lemma {:induction false} FoldKeepsValues(lines: seq<string>, x: nat)
    ensures var t := Fold(Start, lines);
            InSomeGroup(t.closed, x) || x in t.current <==> ListedIn(lines, x)
    decreases |lines|
  {
    if lines != [] {
      var init := lines[..|lines| - 1];
      FoldKeepsValues(init, x);
      ListedInSnoc(lines, x);
      var t := Fold(Start, init);
      InSomeGroupSnoc(t.closed, t.current, x);
    }
  }

  /** A count ends up in some group exactly when some line lists it:
      nothing is lost, in particular not the counts after the last blank
      line, and nothing is invented. */
  lemma CalorieGroupsKeepValues(lines: seq<string>, x: nat)
    ensures InSomeGroup(CalorieGroups(lines), x) <==> ListedIn(lines, x)
  {
    FoldKeepsValues(lines, x);
    var t := Fold(Start, lines);
    InSomeGroupSnoc(t.closed, t.current, x);
  }

  /** Number of lines that are not counts: blank or unparsable lines. */
  function Breaks(lines: seq<string>): nat
    decreases |lines|
  {
    if lines == [] then 0
    else Breaks(lines[..|lines| - 1]) + (if LineValue(lines[|lines| - 1]).None? then 1 else 0)
  }

  lemma {:induction false} FoldCountsBreaks(lines: seq<string>)
    ensures |Fold(Start, lines).closed| == Breaks(lines)
    decreases |lines|
  {
    if lines != [] {
      FoldCountsBreaks(lines[..|lines| - 1]);
    }
  }

  /** Every blank or unparsable line closes a group, even an empty one; the
      group open at the end is added only when the last line is a count. */
  lemma GroupCount(lines: seq<string>)
    ensures |lines| == 0 || LineValue(lines[|lines| - 1]).None? ==>
              |CalorieGroups(lines)| == Breaks(lines)
    ensures |lines| > 0 && LineValue(lines[|lines| - 1]).Some? ==>
              |CalorieGroups(lines)| == Breaks(lines) + 1
  {
    FoldCountsBreaks(lines);
  }

  /** Groups are sets: repeating a count line inside a group changes
      nothing. */
  lemma RepeatedCountCountsOnce(lines: seq<string>)
    requires |lines| > 0 && LineValue(lines[|lines| - 1]).Some?
    ensures CalorieGroups(lines + [lines[|lines| - 1]]) == CalorieGroups(lines)
  {
    var more := lines + [lines[|lines| - 1]];
    assert more[..|more| - 1] == lines;
    assert Fold(Start, more) == Fold(Start, lines);
  }

  // ---------------------------------------------------------------------
  // Writing groups out and reading them back

  /** The lines listing one elf's counts. */
  function CountLines(g: seq<nat>): seq<string>
  {
    seq(|g|, i requires 0 <= i < |g| => NatToString(g[i]))
  }

  /** The input text for the given elves: each elf's counts, one per line,
      and a blank line between two elves. */
  function Render(groups: seq<seq<nat>>): seq<string>
    decreases |groups|
  {
    if groups == [] then []
    else if |groups| == 1 then CountLines(groups[0])
    else Render(groups[..|groups| - 1]) + [""] + CountLines(groups[|groups| - 1])
  }

  function Elements(g: seq<nat>): set<nat>
  {
    set x | x in g
  }

  function Sets(groups: seq<seq<nat>>): seq<set<nat>>
  {
    seq(|groups|, i requires 0 <= i < |groups| => Elements(groups[i]))
  }

  predicate FitsU32(groups: seq<seq<nat>>)
  {
    forall i, j | 0 <= i < |groups| && 0 <= j < |groups[i]| :: groups[i][j] <= U32_MAX
  }

  lemma {:induction false} FoldCountLines(t: Tally, g: seq<nat>)
    requires forall j | 0 <= j < |g| :: g[j] <= U32_MAX
    ensures Fold(t, CountLines(g)) == Tally(t.closed, t.current + Elements(g))
    decreases |g|
  {
    if g == [] {
      assert Elements(g) == {};
    } else {
      var init := g[..|g| - 1];
      var x := g[|g| - 1];
      FoldCountLines(t, init);
      var lines := CountLines(g);
      assert lines[..|lines| - 1] == CountLines(init);
      NatToStringParses(x, U32_MAX);
      assert LineValue(lines[|lines| - 1]) == Some(x);
      assert Elements(g) == Elements(init) + {x} by {
        assert g == init + [x];
      }
    }
  }

  lemma SetsSnoc(groups: seq<seq<nat>>)
    requires |groups| > 0
    ensures Sets(groups) == Sets(groups[..|groups| - 1]) + [Elements(groups[|groups| - 1])]
  {
    var n := |groups|;
    var a := Sets(groups);
    var b := Sets(groups[..n - 1]) + [Elements(groups[n - 1])];
    forall i | 0 <= i < n
      ensures a[i] == b[i]
    {
      if i < n - 1 {
        assert groups[..n - 1][i] == groups[i];
      }
    }
  }

  lemma {:induction false} FoldRender(groups: seq<seq<nat>>)
    requires |groups| > 0 && FitsU32(groups)
    ensures Fold(Start, Render(groups))
              == Tally(Sets(groups[..|groups| - 1]), Elements(groups[|groups| - 1]))
    decreases |groups|
  {
    var n := |groups|;
    if n == 1 {
      FoldCountLines(Start, groups[0]);
      assert Sets(groups[..0]) == [];
    } else {
      var init := groups[..n - 1];
      FoldRender(init);
      var r := Render(init);
      var last := CountLines(groups[n - 1]);
      FoldConcat(Start, r + [""], last);
      FoldConcat(Start, r, [""]);
      var t := Fold(Start, r);
      assert [""][..0] == [];
      assert Fold(t, [""]) == Tally(t.closed + [t.current], {});
      SetsSnoc(init);
      FoldCountLines(Tally(Sets(init), {}), groups[n - 1]);
    }
  }

  /** Reading back the rendered input gives each elf's set of counts; an
      elf with no counts at the very end leaves no group behind. */
  lemma RenderParses(groups: seq<seq<nat>>)
    requires FitsU32(groups)
    ensures |groups| > 0 && groups[|groups| - 1] == [] ==>
              CalorieGroups(Render(groups)) == Sets(groups[..|groups| - 1])
    ensures |groups| == 0 || groups[|groups| - 1] != [] ==>
              CalorieGroups(Render(groups)) == Sets(groups)
  {
    if groups != [] {
      var n := |groups|;
      FoldRender(groups);
      if groups[n - 1] != [] {
        assert groups[n - 1][0] in Elements(groups[n - 1]);
        SetsSnoc(groups);
      } else {
        assert Elements(groups[n - 1]) == {};
      }
    }
  }

  // ---------------------------------------------------------------------
  // Star 1: the largest total

  lemma {:induction false} SetSumNonNegative(s: set<nat>)
    ensures SetSum(s) >= 0
    decreases |s|
  {
    if s != {} {
      var m := SetMin(s);
      SetSumNonNegative(s - {m});
    }
  }

  /** Calories one elf carries; a count listed twice counts once. */
  function Total(elf: set<nat>): nat
  {
    SetSumNonNegative(elf);
    SetSum(elf)
  }

  function Totals(elves: seq<set<nat>>): (totals: seq<nat>)
    ensures |totals| == |elves|
  {
    seq(|elves|, i requires 0 <= i < |elves| => Total(elves[i]))
  }

  /** `Iterator::max` over a non-empty sequence. */
  function Max(s: seq<int>): (m: int)
    requires |s| > 0
    ensures m in s && forall i | 0 <= i < |s| :: s[i] <= m
    decreases |s|
  {
    if |s| == 1 then s[0]
    else
      var rest := Max(s[..|s| - 1]);
      if s[|s| - 1] > rest then s[|s| - 1] else rest
  }

  /** The largest total carried by one elf; the source unwraps the maximum,
      so there must be at least one elf. */
  function MostCalories(elves: seq<set<nat>>): (most: nat)
    requires |elves| > 0
    ensures exists i :: 0 <= i < |elves| && most == Total(elves[i])
    ensures forall i | 0 <= i < |elves| :: Total(elves[i]) <= most
  {
    var totals := Totals(elves);
    var m := Max(totals);
    assert forall i | 0 <= i < |elves| :: totals[i] == Total(elves[i]);
    m
  }

  // ---------------------------------------------------------------------
  // Star 2: the three largest totals

  /** `sort_by(|a, b| b.cmp(a))`: the totals in descending order. */
  function SortDescending(s: seq<int>): (r: seq<int>)
    ensures |r| == |s| && multiset(r) == multiset(s)
    ensures forall i, j | 0 <= i < j < |r| :: r[i] >= r[j]
  {
    var ascending := Sort(s);
    SortLength(s);
    ReverseMultiset(ascending);
    Reverse(ascending)
  }

  function TopThree(elves: seq<set<nat>>): int
  {
    var sorted := SortDescending(Totals(elves));
    Sum(sorted[..if |sorted| < 3 then |sorted| else 3])
  }

  function Larger(a: int, b: int): int
  {
    if b > a then b else a
  }

  /** Reference definition: the largest sum of at most k of the values, each
      position taken at most once (each value is either skipped or taken). */
  function Best(s: seq<int>, k: nat): int
    decreases |s|
  {
    if k == 0 || s == [] then 0
    else Larger(Best(s[1..], k), s[0] + Best(s[1..], k - 1))
  }

  /** Number of positions a choice takes. */
  function Count(pick: seq<bool>): nat
    decreases |pick|
  {
    if pick == [] then 0 else (if pick[0] then 1 else 0) + Count(pick[1..])
  }

  /** Sum of the values at the positions a choice takes. */
  function Picked(s: seq<int>, pick: seq<bool>): int
    requires |pick| == |s|
    decreases |s|
  {
    if s == [] then 0 else (if pick[0] then s[0] else 0) + Picked(s[1..], pick[1..])
  }

  lemma {:induction false} BestNonNegative(s: seq<nat>, k: nat)
    ensures Best(s, k) >= 0
    decreases |s|
  {
    if k != 0 && s != [] {
      BestNonNegative(s[1..], k);
    }
  }

  /** No choice of at most k positions sums to more than `Best`. */
  lemma {:induction false} BestBoundsEveryChoice(s: seq<nat>, k: nat, pick: seq<bool>)
    requires |pick| == |s| && Count(pick) <= k
    ensures Picked(s, pick) <= Best(s, k)
    decreases |s|
  {
    if s != [] {
      if pick[0] {
        BestBoundsEveryChoice(s[1..], k - 1, pick[1..]);
      } else {
        BestBoundsEveryChoice(s[1..], k, pick[1..]);
        if k > 0 { BestNonNegative(s[1..], k - 1); }
      }
    }
  }

  /** Some choice of at most k positions sums to exactly `Best`. */
  lemma {:induction false} BestIsSomeChoice(s: seq<int>, k: nat) returns (pick: seq<bool>)
    ensures |pick| == |s| && Count(pick) <= k && Picked(s, pick) == Best(s, k)
    decreases |s|
  {
    if s == [] {
      pick := [];
    } else if k == 0 {
      var rest := BestIsSomeChoice(s[1..], 0);
      pick := [false] + rest;
      assert pick[1..] == rest;
    } else {
      var skip := BestIsSomeChoice(s[1..], k);
      var take := BestIsSomeChoice(s[1..], k - 1);
      if s[0] + Best(s[1..], k - 1) > Best(s[1..], k) {
        pick := [true] + take;
        assert pick[1..] == take;
      } else {
        pick := [false] + skip;
        assert pick[1..] == skip;
      }
    }
  }

  /** The sum of the last k values of an ascending sequence (all of them if
      there are fewer). */
  function Top(ascending: seq<int>, k: nat): int
  {
    Sum(ascending[|ascending| - (if k < |ascending| then k else |ascending|)..])
  }

  lemma TopStep(s: seq<int>, k: nat)
    requires 1 <= k <= |s|
    ensures Top(s, k) == s[|s| - k] + Top(s, k - 1)
  {
    SumCons(s[|s| - k], s[|s| - k + 1..]);
    assert s[|s| - k..] == [s[|s| - k]] + s[|s| - k + 1..];
  }

  lemma TopCons(x: int, s: seq<int>, k: nat)
    ensures k <= |s| ==> Top([x] + s, k) == Top(s, k)
    ensures k > |s| ==> Top([x] + s, k) == x + Sum(s)
  {
    if k <= |s| {
      TopConsWithin(x, s, k);
    } else {
      TopConsBeyond(x, s, k);
    }
  }

  lemma TopConsWithin(x: int, s: seq<int>, k: nat)
    requires k <= |s|
    ensures Top([x] + s, k) == Top(s, k)
  {
    var xs := [x] + s;
    assert xs[|xs| - k..] == s[|s| - k..];
  }

  lemma TopConsBeyond(x: int, s: seq<int>, k: nat)
    requires k > |s|
    ensures Top([x] + s, k) == x + Sum(s)
  {
    var xs := [x] + s;
    assert Top(xs, k) == Sum(xs) by { assert xs[0..] == xs; }
    SumCons(x, s);
  }

  lemma {:induction false} SumInsert(x: int, s: seq<int>)
    requires Ascending(s)
    ensures Sum(Insert(x, s)) == x + Sum(s)
    decreases |s|
  {
    if s == [] || x <= s[0] {
      SumCons(x, s);
    } else {
      var t := s[1..];
      assert Sum(Insert(x, t)) == x + Sum(t) by { SumInsert(x, t); }
      assert Sum(Insert(x, s)) == s[0] + Sum(Insert(x, t)) by { SumCons(s[0], Insert(x, t)); }
      assert Sum(s) == s[0] + Sum(t) by {
        SumCons(s[0], t);
        assert s == [s[0]] + t;
      }
    }
  }

  /** x goes in front: it is no larger than anything after it. */
  lemma TopInsertFront(x: int, s: seq<int>, k: nat)
    requires Ascending(s) && x >= 0 && k >= 1 && (s == [] || x <= s[0])
    ensures Top([x] + s, k) == Larger(Top(s, k), x + Top(s, k - 1))
  {
    TopCons(x, s, k);
    if k <= |s| {
      TopStep(s, k);
      assert s[|s| - k] >= x;
    } else {
      assert s[0..] == s;
    }
  }

  /** Dropping the first element of s leaves its top k unchanged unless k
      reaches the whole of s. */
  lemma TopUncons(s: seq<int>, k: nat)
    requires s != []
    ensures k < |s| ==> Top(s, k) == Top(s[1..], k)
    ensures k >= |s| ==> Top(s, k) == s[0] + Sum(s[1..])
  {
    if k < |s| {
      assert s[1..][|s| - 1 - k..] == s[|s| - k..];
    } else {
      assert s[0..] == s == [s[0]] + s[1..];
      SumCons(s[0], s[1..]);
    }
  }

  /** x goes after the first element of s, which it exceeds; ins is x
      inserted into the rest of s. */
  lemma TopInsertAfter(x: int, s: seq<int>, ins: seq<int>, k: nat)
    requires s != [] && x > s[0] && x >= 0 && k >= 1
    requires |ins| == |s| && Sum(ins) == x + Sum(s[1..])
    requires k < |s| ==> Top(ins, k) == Larger(Top(s[1..], k), x + Top(s[1..], k - 1))
    ensures Top([s[0]] + ins, k) == Larger(Top(s, k), x + Top(s, k - 1))
  {
    TopCons(s[0], ins, k);
    TopUncons(s, k);
    TopUncons(s, k - 1);
    if k >= |s| {
      assert ins[0..] == ins;
      assert s[1..][0..] == s[1..];
    }
  }

  lemma InsertLength(x: int, s: seq<int>)
    requires Ascending(s)
    ensures |Insert(x, s)| == |s| + 1
  {
  }

  /** Inserting x into an ascending sequence: its top k either leave x out
      or take it with the top k - 1 of the rest. */
  lemma {:induction false} TopInsert(x: int, s: seq<int>)
    requires Ascending(s) && x >= 0
    ensures forall k: nat | k >= 1 :: Top(Insert(x, s), k) == Larger(Top(s, k), x + Top(s, k - 1))
    decreases |s|
  {
    if s == [] || x <= s[0] {
      forall k: nat | k >= 1
        ensures Top(Insert(x, s), k) == Larger(Top(s, k), x + Top(s, k - 1))
      {
        TopInsertFront(x, s, k);
      }
    } else {
      TopInsert(x, s[1..]);
      forall k: nat | k >= 1
        ensures Top(Insert(x, s), k) == Larger(Top(s, k), x + Top(s, k - 1))
      {
        TopInsertStep(x, s, k);
      }
    }
  }

  lemma TopInsertAt(x: int, s: seq<int>, k: nat)
    requires Ascending(s) && x >= 0 && k >= 1
    ensures Top(Insert(x, s), k) == Larger(Top(s, k), x + Top(s, k - 1))
  {
    TopInsert(x, s);
  }

  /** The step of `TopInsert` for one k when x goes after the first element. */
  lemma TopInsertStep(x: int, s: seq<int>, k: nat)
    requires Ascending(s) && x >= 0 && s != [] && x > s[0] && k >= 1
    requires Top(Insert(x, s[1..]), k) == Larger(Top(s[1..], k), x + Top(s[1..], k - 1))
    ensures Top(Insert(x, s), k) == Larger(Top(s, k), x + Top(s, k - 1))
  {
    var t := s[1..];
    var ins := Insert(x, t);
    assert Insert(x, s) == [s[0]] + ins;
    InsertLength(x, t);
    SumInsert(x, t);
    TopInsertAfter(x, s, ins, k);
  }

  lemma BestUnfold(s: seq<int>, k: nat)
    requires k > 0 && s != []
    ensures Best(s, k) == Larger(Best(s[1..], k), s[0] + Best(s[1..], k - 1))
  {
  }

  lemma TopNone(s: seq<int>, k: nat)
    requires s == [] || k == 0
    ensures Top(s, k) == 0
  {
    assert s[|s|..] == [];
  }

  lemma SortUnfold(s: seq<int>)
    requires s != []
    ensures Sort(s) == Insert(s[0], Sort(s[1..])) && Ascending(Sort(s[1..]))
  {
  }

  /** The step: sorting inserts the first value into the sorted rest. */
  lemma TopOfSortStep(s: seq<nat>, k: nat)
    requires s != [] && k >= 1
    requires Top(Sort(s[1..]), k) == Best(s[1..], k)
    requires Top(Sort(s[1..]), k - 1) == Best(s[1..], k - 1)
    ensures Top(Sort(s), k) == Best(s, k)
  {
    SortUnfold(s);
    BestUnfold(s, k);
    TopInsertAt(s[0], Sort(s[1..]), k);
  }

  lemma TopOfSortBase(s: seq<nat>, k: nat)
    requires s == [] || k == 0
    ensures Top(Sort(s), k) == Best(s, k)
  {
    assert s == [] ==> Sort(s) == [];
    TopNone(Sort(s), k);
  }

  lemma {:induction false} TopOfSort(s: seq<nat>)
    ensures forall k: nat :: Top(Sort(s), k) == Best(s, k)
    decreases |s|
  {
    if s == [] {
      forall k: nat
        ensures Top(Sort(s), k) == Best(s, k)
      {
        TopOfSortBase(s, k);
      }
    } else {
      TopOfSort(s[1..]);
      forall k: nat
        ensures Top(Sort(s), k) == Best(s, k)
      {
        if k == 0 {
          TopOfSortBase(s, k);
        } else {
          TopOfSortStep(s, k);
        }
      }
    }
  }

  lemma ReverseFront(s: seq<int>, m: nat)
    requires m <= |s|
    ensures Reverse(s)[..m] == Reverse(s[|s| - m..])
  {
    var head, tail := s[..|s| - m], s[|s| - m..];
    assert s == head + tail;
    ReverseConcat(head, tail);
    var r := Reverse(tail);
    assert (r + Reverse(head))[..m] == r;
  }

  /** The first k values of the reversed sequence are its last k values. */
  lemma TopOfReverse(s: seq<int>, k: nat)
    ensures Sum(Reverse(s)[..if |s| < k then |s| else k]) == Top(s, k)
  {
    var m := if |s| < k then |s| else k;
    var back := s[|s| - m..];
    assert Reverse(s)[..m] == Reverse(back) by { ReverseFront(s, m); }
    assert Sum(Reverse(back)) == Sum(back) by { SumReverse(back); }
  }

  /** `top_three` is the largest total any choice of at most three elves
      carries: the three largest totals, or all of them when there are
      fewer than three elves. */
  lemma TopThreeIsBest(elves: seq<set<nat>>)
    ensures TopThree(elves) == Best(Totals(elves), 3)
  {
    var totals := Totals(elves);
    TopOfReverse(Sort(totals), 3);
    TopOfSort(totals);
  }

  /** Both directions: no choice of at most three elves carries more than
      `top_three`, and some choice carries exactly that much. */
  lemma TopThreeIsLargestChoice(elves: seq<set<nat>>, pick: seq<bool>)
    requires |pick| == |elves| && Count(pick) <= 3
    ensures Picked(Totals(elves), pick) <= TopThree(elves)
    ensures exists best: seq<bool> :: |best| == |elves| && Count(best) <= 3 &&
              Picked(Totals(elves), best) == TopThree(elves)
  {
    TopThreeIsBest(elves);
    BestBoundsEveryChoice(Totals(elves), 3, pick);
    var best := BestIsSomeChoice(Totals(elves), 3);
  }

  lemma {:induction false} BestAtLeastEach(s: seq<nat>, k: nat, i: nat)
    requires k >= 1 && i < |s|
    ensures s[i] <= Best(s, k)
    decreases |s|
  {
    if i == 0 {
      BestNonNegative(s[1..], k - 1);
    } else {
      BestAtLeastEach(s[1..], k, i - 1);
    }
  }

  lemma {:induction false} BestOfFew(s: seq<nat>, k: nat)
    requires |s| <= k
    ensures Best(s, k) == Sum(s)
    decreases |s|
  {
    if s != [] {
      BestOfFew(s[1..], k);
      BestOfFew(s[1..], k - 1);
      SumCons(s[0], s[1..]);
      assert s == [s[0]] + s[1..];
    }
  }

  /** The three largest totals include the largest one. */
  lemma TopThreeAtLeastMost(elves: seq<set<nat>>)
    requires |elves| > 0
    ensures MostCalories(elves) <= TopThree(elves)
  {
    TopThreeIsBest(elves);
    var i :| 0 <= i < |elves| && MostCalories(elves) == Total(elves[i]);
    BestAtLeastEach(Totals(elves), 3, i);
  }

  /** With three elves or fewer, `top_three` adds up every total. */
  lemma TopThreeOfFew(elves: seq<set<nat>>)
    requires |elves| <= 3
    ensures TopThree(elves) == Sum(Totals(elves))
  {
    TopThreeIsBest(elves);
    BestOfFew(Totals(elves), 3);
  }

  // ---------------------------------------------------------------------
  // The puzzle's example

  const ExampleGroups: seq<seq<nat>> :=
    [[1000, 2000, 3000], [4000], [5000, 6000], [7000, 8000, 9000], [10000]]

  const ExampleElves: seq<set<nat>> :=
    [{1000, 2000, 3000}, {4000}, {5000, 6000}, {7000, 8000, 9000}, {10000}]

  lemma ExampleSets(groups: seq<seq<nat>>)
    requires groups == ExampleGroups
    ensures FitsU32(groups) && Sets(groups) == ExampleElves
  {
    assert Elements(groups[0]) == {1000, 2000, 3000};
    assert Elements(groups[1]) == {4000};
    assert Elements(groups[2]) == {5000, 6000};
    assert Elements(groups[3]) == {7000, 8000, 9000};
    assert Elements(groups[4]) == {10000};
  }

  /** The example input lists the five elves' counts; it parses to their
      five sets. */
  lemma ExampleParses(groups: seq<seq<nat>>)
    requires groups == ExampleGroups
    ensures CalorieGroups(Render(groups)) == ExampleElves
  {
    ExampleSets(groups);
    RenderParses(groups);
  }

  lemma TotalOfTwo(a: nat, b: nat)
    requires a != b
    ensures Total({a, b}) == a + b
  {
    SetSumInsert({}, a);
    assert {} + {a} == {a};
    SetSumInsert({a}, b);
    assert {a} + {b} == {a, b};
  }

  lemma TotalOfThree(a: nat, b: nat, c: nat)
    requires a != b && a != c && b != c
    ensures Total({a, b, c}) == a + b + c
  {
    TotalOfTwo(a, b);
    SetSumInsert({a, b}, c);
    assert {a, b} + {c} == {a, b, c};
  }

  lemma TotalOfOne(a: nat)
    ensures Total({a}) == a
  {
    SetSumInsert({}, a);
    assert {} + {a} == {a};
  }

  lemma ExampleTotals(elves: seq<set<nat>>)
    requires elves == ExampleElves
    ensures Totals(elves) == [6000, 4000, 11000, 24000, 10000]
  {
    TotalOfThree(1000, 2000, 3000);
    TotalOfOne(4000);
    TotalOfTwo(5000, 6000);
    TotalOfThree(7000, 8000, 9000);
    TotalOfOne(10000);
  }

  /** The elf carrying the most carries 24000 calories. */
  lemma ExampleMostCalories(elves: seq<set<nat>>)
    requires elves == ExampleElves
    ensures MostCalories(elves) == 24000
  {
    ExampleTotals(elves);
    var totals := Totals(elves);
    assert Total(elves[3]) == totals[3];
  }

  lemma ExampleBest()
    ensures Best([6000, 4000, 11000, 24000, 10000], 3) == 45000
  {
  }

  /** The three elves carrying the most carry 45000 calories together. */
  lemma ExampleTopThree(elves: seq<set<nat>>)
    requires elves == ExampleElves
    ensures TopThree(elves) == 45000
  {
    TopThreeIsBest(elves);
    ExampleTotals(elves);
    ExampleBest();
  }
}
