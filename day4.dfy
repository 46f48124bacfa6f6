// Day 4: camp cleanup.  Each line names two inclusive ranges of section
// ids, "a-b,c-d"; each range becomes the set of its ids.  Part one counts
// the pairs where one set contains the other, part two the pairs whose sets
// share an id.

module Day4 {
  import opened Wrappers
  import opened Text

  /** `(start..=end).collect()`: the ids from `lo` to `hi`, empty when `lo`
      exceeds `hi`. */
  function Span(lo: nat, hi: nat): (s: set<nat>)
    ensures forall x :: x in s <==> lo <= x <= hi
    decreases hi
  {
    if lo > hi then {} else if lo == hi then {lo} else Span(lo, hi - 1) + {hi}
  }

  /** A range holds `hi - lo + 1` ids, or none when it is reversed. */
  lemma {:induction false} SpanSize(lo: nat, hi: nat)
    ensures |Span(lo, hi)| == if lo <= hi then hi - lo + 1 else 0
    decreases hi
  {
    if lo < hi {
      var below := Span(lo, hi - 1);
      SpanSize(lo, hi - 1);
      assert hi !in below;
      assert |below + {hi}| == |below| + 1;
    }
  }

  // ---------------------------------------------------------------------
  // Parsing

  /** `filter_map(|n| n.parse::<u32>().ok())`: the pieces that read as a
      `u32`, as numbers, in order; the others are skipped. */
  function Numbers(pieces: seq<string>): (ns: seq<nat>)
    ensures |ns| <= |pieces|
    ensures forall i | 0 <= i < |ns| :: ns[i] <= U32_MAX
  {
    if pieces == [] then []
    else
      var rest := Numbers(pieces[1..]);
      if IsUnsigned(pieces[0], U32_MAX) then [ParseUnsigned(pieces[0], U32_MAX)] + rest else rest
  }

  /** One comma-separated piece: the range from its first number to its
      second, or nothing when it holds fewer than two numbers. */
  function RangeOf(piece: string): (r: Option<set<nat>>)
    ensures r.Some? <==> |Numbers(Split(piece, '-'))| >= 2
    ensures r.Some? ==> forall x | x in r.value :: x <= U32_MAX
  {
    var ns := Numbers(Split(piece, '-'));
    if |ns| >= 2 then Some(Span(ns[0], ns[1])) else None
  }

  /** The ranges of the pieces that hold one, in order. */
  function Ranges(pieces: seq<string>): (rs: seq<set<nat>>)
    ensures |rs| <= |pieces|
    ensures forall i, x | 0 <= i < |rs| && x in rs[i] :: x <= U32_MAX
  {
    if pieces == [] then []
    else
      var rest := Ranges(pieces[1..]);
      match RangeOf(pieces[0])
      case Some(r) => [r] + rest
      case None => rest
  }

  /** The line holds two ranges; `from_str` unwraps both, so any other line
      makes it panic. */
  predicate Parsable(line: string)
  {
    |Ranges(Split(line, ','))| >= 2
  }

  datatype ElfPair = ElfPair(first: set<nat>, second: set<nat>)

  /** `ElfPair::from_str`: the first two ranges of the line. */
  function ParseElfPair(line: string): (p: ElfPair)
    requires Parsable(line)
    ensures forall x | x in p.first + p.second :: x <= U32_MAX
  {
    var rs := Ranges(Split(line, ','));
    ElfPair(rs[0], rs[1])
  }

  /** `parse_elfs`: every line as a pair.  `from_str` never returns an
      error, so the `filter_map(.. .ok())` keeps every line. */
  function ParseElfs(lines: seq<string>): (pairs: seq<ElfPair>)
    requires forall i | 0 <= i < |lines| :: Parsable(lines[i])
    ensures |pairs| == |lines|
    ensures forall i | 0 <= i < |lines| :: pairs[i] == ParseElfPair(lines[i])
  {
    seq(|lines|, i requires 0 <= i < |lines| => ParseElfPair(lines[i]))
  }

  /** How a range is written. */
  function RangeText(lo: nat, hi: nat): string
  {
    NatToString(lo) + "-" + NatToString(hi)
  }

  /** How a pair of ranges is written. */
  function PairLine(a: nat, b: nat, c: nat, d: nat): string
  {
    RangeText(a, b) + "," + RangeText(c, d)
  }

  lemma DigitsExclude(s: string, c: char)
    requires AllDigits(s) && !IsDigit(c)
    ensures c !in s
  {
  }

  /** A written range reads back as its span. */
  lemma RangeTextParses(lo: nat, hi: nat)
    requires lo <= U32_MAX && hi <= U32_MAX
    ensures ',' !in RangeText(lo, hi)
    ensures RangeOf(RangeText(lo, hi)) == Some(Span(lo, hi))
  {
    var l, h := NatToString(lo), NatToString(hi);
    DigitsExclude(l, '-');
    DigitsExclude(h, '-');
    DigitsExclude(l, ',');
    DigitsExclude(h, ',');
    SplitAfterPiece(l, '-', h);
    SplitNoSeparator(h, '-');
    assert Split(RangeText(lo, hi), '-') == [l, h];
    NatToStringParses(lo, U32_MAX);
    NatToStringParses(hi, U32_MAX);
    assert [l, h][1..] == [h] && [h][1..] == [];
    assert Numbers([l, h]) == [lo, hi];
  }

  /** A written pair reads back as its two spans. */
  lemma PairLineParses(a: nat, b: nat, c: nat, d: nat)
    requires a <= U32_MAX && b <= U32_MAX && c <= U32_MAX && d <= U32_MAX
    ensures Parsable(PairLine(a, b, c, d))
    ensures ParseElfPair(PairLine(a, b, c, d)) == ElfPair(Span(a, b), Span(c, d))
  {
    var x, y := RangeText(a, b), RangeText(c, d);
    RangeTextParses(a, b);
    RangeTextParses(c, d);
    SplitAfterPiece(x, ',', y);
    SplitNoSeparator(y, ',');
    assert Split(PairLine(a, b, c, d), ',') == [x, y];
    assert [x, y][1..] == [y] && [y][1..] == [];
    assert Ranges([x, y]) == [Span(a, b), Span(c, d)];
  }

  /** The four ends of a line: the first range `a..=b`, the second
      `c..=d`. */
  datatype Ends = Ends(a: nat, b: nat, c: nat, d: nat)

  predicate FitsU32(e: Ends)
  {
    e.a <= U32_MAX && e.b <= U32_MAX && e.c <= U32_MAX && e.d <= U32_MAX
  }

  /** The lines that write the given ends. */
  function Lines(es: seq<Ends>): (lines: seq<string>)
    ensures |lines| == |es|
  {
    seq(|es|, i requires 0 <= i < |es| => PairLine(es[i].a, es[i].b, es[i].c, es[i].d))
  }

  /** The pairs of spans of the given ends. */
  function Pairs(es: seq<Ends>): (pairs: seq<ElfPair>)
    ensures |pairs| == |es|
  {
    seq(|es|, i requires 0 <= i < |es| => ElfPair(Span(es[i].a, es[i].b), Span(es[i].c, es[i].d)))
  }

  /** Written lines read back, line by line, as the pairs of their spans. */
  lemma ParseElfsLines(es: seq<Ends>)
    requires forall i | 0 <= i < |es| :: FitsU32(es[i])
    ensures forall i | 0 <= i < |es| :: Parsable(Lines(es)[i])
    ensures ParseElfs(Lines(es)) == Pairs(es)
  {
    var lines := Lines(es);
    forall i | 0 <= i < |es|
      ensures Parsable(lines[i]) && ParseElfPair(lines[i]) == Pairs(es)[i]
    {
      PairLineParses(es[i].a, es[i].b, es[i].c, es[i].d);
    }
  }

  // ---------------------------------------------------------------------
  // The two tests

  /** `one_contains_other`. */
  predicate OneContainsOther(p: ElfPair)
  {
    p.first <= p.second || p.second <= p.first
  }

  /** `is_overlapping`: the intersection yields an element. */
  predicate IsOverlapping(p: ElfPair)
  {
    p.first * p.second != {}
  }

  function Swapped(p: ElfPair): ElfPair
  {
    ElfPair(p.second, p.first)
  }

  /** Neither test depends on which elf is named first. */
  lemma TestsSymmetric(p: ElfPair)
    ensures OneContainsOther(Swapped(p)) == OneContainsOther(p)
    ensures IsOverlapping(Swapped(p)) == IsOverlapping(p)
  {
    assert p.first * p.second == p.second * p.first;
  }

  /** For proper ranges, containment is the interval test on the ends. */
  lemma ContainsIffEnds(a: nat, b: nat, c: nat, d: nat)
    requires a <= b && c <= d
    ensures OneContainsOther(ElfPair(Span(a, b), Span(c, d))) <==>
      (a <= c && d <= b) || (c <= a && b <= d)
  {
    var s, t := Span(a, b), Span(c, d);
    if s <= t {
      assert a in t && b in t;
    }
    if t <= s {
      assert c in s && d in s;
    }
  }

  /** For proper ranges, overlap is the interval test on the ends. */
  lemma OverlapIffEnds(a: nat, b: nat, c: nat, d: nat)
    requires a <= b && c <= d
    ensures IsOverlapping(ElfPair(Span(a, b), Span(c, d))) <==> a <= d && c <= b
  {
    var s, t := Span(a, b), Span(c, d);
    if s * t != {} {
      var x :| x in s * t;
    }
    if a <= d && c <= b {
      var x := if a <= c then c else a;
      assert x in s * t;
    }
  }

  /** When both ranges hold an id, containment implies overlap. */
  lemma ContainedOverlaps(p: ElfPair)
    requires p.first != {} && p.second != {}
    ensures OneContainsOther(p) ==> IsOverlapping(p)
  {
    if p.first <= p.second {
      var x :| x in p.first;
      assert x in p.first * p.second;
    } else if p.second <= p.first {
      var x :| x in p.second;
      assert x in p.first * p.second;
    }
  }

  /** A reversed range such as "5-3" is empty, so it is contained in any
      other range without overlapping it. */
  lemma ReversedRangeContainedNotOverlapping()
    ensures OneContainsOther(ElfPair(Span(5, 3), Span(1, 2)))
    ensures !IsOverlapping(ElfPair(Span(5, 3), Span(1, 2)))
  {
    assert Span(5, 3) == {};
  }

  // ---------------------------------------------------------------------
  // Filtering

  /** `Iterator::filter`: the elements that pass, in order. */
  function Filter<T(!new)>(keep: T -> bool, s: seq<T>): (r: seq<T>)
    ensures |r| <= |s|
    ensures forall x :: x in r <==> x in s && keep(x)
  {
    if s == [] then []
    else (if keep(s[0]) then [s[0]] else []) + Filter(keep, s[1..])
  }

  /** Filtering a concatenation filters each part. */
  lemma {:induction false} FilterConcat<T(!new)>(keep: T -> bool, a: seq<T>, b: seq<T>)
    ensures Filter(keep, a + b) == Filter(keep, a) + Filter(keep, b)
  {
    if a == [] {
      assert a + b == b;
    } else {
      assert (a + b)[1..] == a[1..] + b;
      FilterConcat(keep, a[1..], b);
    }
  }

  /** `pairs_with_fully_contained_assignments`. */
  function PairsWithFullyContainedAssignments(pairs: seq<ElfPair>): seq<ElfPair>
  {
    Filter(OneContainsOther, pairs)
  }

  /** `pairs_with_overlap`. */
  function PairsWithOverlap(pairs: seq<ElfPair>): seq<ElfPair>
  {
    Filter(IsOverlapping, pairs)
  }

  /** With no empty range among them, no more pairs are contained than
      overlap. */
  lemma {:induction false} ContainedAtMostOverlapping(pairs: seq<ElfPair>)
    requires forall i | 0 <= i < |pairs| :: pairs[i].first != {} && pairs[i].second != {}
    ensures |PairsWithFullyContainedAssignments(pairs)| <= |PairsWithOverlap(pairs)|
  {
    if pairs != [] {
      ContainedOverlaps(pairs[0]);
      ContainedAtMostOverlapping(pairs[1..]);
    }
  }

  // ---------------------------------------------------------------------
  // The published example

  const ExampleLines: seq<string> :=
    ["2-4,6-8", "2-3,4-5", "5-7,7-9", "2-8,3-7", "6-6,4-6", "2-6,4-8"]

  const ExampleEnds: seq<Ends> := [
    Ends(2, 4, 6, 8), Ends(2, 3, 4, 5), Ends(5, 7, 7, 9),
    Ends(2, 8, 3, 7), Ends(6, 6, 4, 6), Ends(2, 6, 4, 8)]

  /** The example lines are the written example ends. */
  lemma ExampleLinesWritten()
    ensures ExampleLines == Lines(ExampleEnds)
  {
    forall i | 0 <= i < 6
      ensures ExampleLines[i] == Lines(ExampleEnds)[i]
    {
      if i < 3 {
        ExampleFirstLinesWritten(i);
      } else {
        ExampleLastLinesWritten(i);
      }
    }
  }

  lemma ExampleFirstLinesWritten(i: nat)
    requires i < 3
    ensures ExampleLines[i] == PairLine(ExampleEnds[i].a, ExampleEnds[i].b, ExampleEnds[i].c, ExampleEnds[i].d)
  {
    if i == 0 {
      assert ExampleLines[0] == PairLine(2, 4, 6, 8);
    } else if i == 1 {
      assert ExampleLines[1] == PairLine(2, 3, 4, 5);
    } else {
      assert ExampleLines[2] == PairLine(5, 7, 7, 9);
    }
  }

  lemma ExampleLastLinesWritten(i: nat)
    requires 3 <= i < 6
    ensures ExampleLines[i] == PairLine(ExampleEnds[i].a, ExampleEnds[i].b, ExampleEnds[i].c, ExampleEnds[i].d)
  {
    if i == 3 {
      assert ExampleLines[3] == PairLine(2, 8, 3, 7);
    } else if i == 4 {
      assert ExampleLines[4] == PairLine(6, 6, 4, 6);
    } else {
      assert ExampleLines[5] == PairLine(2, 6, 4, 8);
    }
  }

  /** The example ends, one by one. */
  predicate IsExampleEnds(es: seq<Ends>)
  {
    |es| == 6 &&
    es[0] == Ends(2, 4, 6, 8) && es[1] == Ends(2, 3, 4, 5) && es[2] == Ends(5, 7, 7, 9) &&
    es[3] == Ends(2, 8, 3, 7) && es[4] == Ends(6, 6, 4, 6) && es[5] == Ends(2, 6, 4, 8)
  }

  /** The number of `true`s. */
  function TrueCount(marks: seq<bool>): nat
  {
    if marks == [] then 0 else (if marks[0] then 1 else 0) + TrueCount(marks[1..])
  }

  /** When `marks` records which elements pass, the filter keeps as many
      elements as there are marks set. */
  lemma {:induction false} FilterCount(keep: ElfPair -> bool, ps: seq<ElfPair>, marks: seq<bool>)
    requires |ps| == |marks|
    requires forall i | 0 <= i < |ps| :: keep(ps[i]) == marks[i]
    ensures |Filter(keep, ps)| == TrueCount(marks)
  {
    if ps != [] {
      FilterCount(keep, ps[1..], marks[1..]);
    }
  }

  /** `test_example1`: two pairs of the example have one range inside the
      other. */
  lemma ExampleContained(es: seq<Ends>)
    requires IsExampleEnds(es)
    ensures |PairsWithFullyContainedAssignments(Pairs(es))| == 2
  {
    var marks := [false, false, false, true, true, false];
    forall i | 0 <= i < |es|
      ensures OneContainsOther(Pairs(es)[i]) == marks[i]
    {
      ContainsIffEnds(es[i].a, es[i].b, es[i].c, es[i].d);
    }
    FilterCount(OneContainsOther, Pairs(es), marks);
  }

  /** `test_example2`: four pairs of the example overlap. */
  lemma ExampleOverlapping(es: seq<Ends>)
    requires IsExampleEnds(es)
    ensures |PairsWithOverlap(Pairs(es))| == 4
  {
    var marks := [false, false, true, true, true, true];
    forall i | 0 <= i < |es|
      ensures IsOverlapping(Pairs(es)[i]) == marks[i]
    {
      OverlapIffEnds(es[i].a, es[i].b, es[i].c, es[i].d);
    }
    FilterCount(IsOverlapping, Pairs(es), marks);
  }

  /** Both tests on the example input. */
  lemma Example()
    ensures forall i | 0 <= i < |ExampleLines| :: Parsable(ExampleLines[i])
    ensures |PairsWithFullyContainedAssignments(ParseElfs(ExampleLines))| == 2
    ensures |PairsWithOverlap(ParseElfs(ExampleLines))| == 4
  {
    ExampleLinesWritten();
    assert IsExampleEnds(ExampleEnds);
    ParseElfsLines(ExampleEnds);
    ExampleContained(ExampleEnds);
    ExampleOverlapping(ExampleEnds);
  }
}
