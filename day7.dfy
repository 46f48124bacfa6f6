// Day 7: a terminal transcript of `cd` and `ls` commands is rebuilt into a
// directory tree, and two questions about directory sizes are answered.
//
// The transcript arrives as the pieces between successive "$ cd " markers,
// each already cut into lines. Each piece is reversed and the list of
// pieces is reversed too, so the list is used as a stack whose top (the
// LAST element) is the earliest unread `cd`. Inside a piece, reversed, the
// last line is the directory name, the one before it the `$ ls` line, and
// the lines before those the listing, last listed first.

module Day7 {
  import opened Wrappers
  import opened Text
  import opened Seqs

  datatype DirEntry =
    | File(size: nat, name: string)
    | Directory(entries: seq<DirEntry>, name: string)

  /** The lines after one "$ cd ", in reverse order. */
  type Block = seq<string>

  /** The stack of blocks still to be parsed; its top is the last element. */
  type Tokens = seq<Block>

  /** Used space may be at most 70000000 - 30000000 bytes. */
  const MAX_USED: nat := 40_000_000

  // ---------------------------------------------------------------------
  // Sizes

  function Size(e: DirEntry): nat
    decreases e, 1
  {
    match e
    case File(size, _) => size
    case Directory(entries, _) => EntriesSize(entries)
  }

  /** The sum of the sizes of a list of entries. */
  function EntriesSize(es: seq<DirEntry>): nat
    decreases es, 0
  {
    if es == [] then 0 else EntriesSize(es[..|es| - 1]) + Size(es[|es| - 1])
  }

  /** Sizes of all directories of the tree, children's before their parent's. */
  function DirectorySizes(e: DirEntry): seq<nat>
    decreases e, 1
  {
    match e
    case File(_, _) => []
    case Directory(entries, _) => NestedDirectorySizes(entries) + [Size(e)]
  }

  function NestedDirectorySizes(es: seq<DirEntry>): seq<nat>
    decreases es, 0
  {
    if es == [] then []
    else
      var last := es[|es| - 1];
      NestedDirectorySizes(es[..|es| - 1]) + (if last.Directory? then DirectorySizes(last) else [])
  }

  // Independent descriptions of the tree, used as reference definitions.

  /** Sizes of all files of the tree, in tree order. */
  function FileSizes(e: DirEntry): seq<int>
    decreases e, 1
  {
    match e
    case File(size, _) => [size]
    case Directory(entries, _) => EntriesFileSizes(entries)
  }

  function EntriesFileSizes(es: seq<DirEntry>): seq<int>
    decreases es, 0
  {
    if es == [] then [] else EntriesFileSizes(es[..|es| - 1]) + FileSizes(es[|es| - 1])
  }

  /** Number of Directory nodes of the tree. */
  function CountDirectories(e: DirEntry): nat
    decreases e, 1
  {
    match e
    case File(_, _) => 0
    case Directory(entries, _) => 1 + EntriesCountDirectories(entries)
  }

  function EntriesCountDirectories(es: seq<DirEntry>): nat
    decreases es, 0
  {
    if es == [] then 0 else EntriesCountDirectories(es[..|es| - 1]) + CountDirectories(es[|es| - 1])
  }

  /** A directory's size is the sum of its entries' sizes, in any grouping. */
  lemma {:induction false} EntriesSizeConcat(a: seq<DirEntry>, b: seq<DirEntry>)
    ensures EntriesSize(a + b) == EntriesSize(a) + EntriesSize(b)
    decreases |b|
  {
    if b == [] {
      assert a + b == a;
    } else {
      assert (a + b)[..|a + b| - 1] == a + b[..|b| - 1];
      EntriesSizeConcat(a, b[..|b| - 1]);
    }
  }

  /** The size of an entry is the total of the sizes of all files below it. */
  lemma {:induction false} SizeIsSumOfFiles(e: DirEntry)
    ensures Size(e) == Sum(FileSizes(e))
    decreases e, 1
  {
    match e
    case File(size, _) =>
      assert Sum([size as int]) == Sum([]) + size by { assert [size as int][..0] == []; }
    case Directory(entries, _) => EntriesSizeIsSumOfFiles(entries);
  }

  lemma {:induction false} EntriesSizeIsSumOfFiles(es: seq<DirEntry>)
    ensures EntriesSize(es) == Sum(EntriesFileSizes(es))
    decreases es, 0
  {
    if es != [] {
      EntriesSizeIsSumOfFiles(es[..|es| - 1]);
      SizeIsSumOfFiles(es[|es| - 1]);
      SumConcat(EntriesFileSizes(es[..|es| - 1]), FileSizes(es[|es| - 1]));
    }
  }

  /** `directory_sizes` has one entry per directory of the tree. */
  lemma {:induction false} DirectorySizesCount(e: DirEntry)
    ensures |DirectorySizes(e)| == CountDirectories(e)
    decreases e, 1
  {
    match e
    case File(_, _) =>
    case Directory(entries, _) => NestedDirectorySizesCount(entries);
  }

  lemma {:induction false} NestedDirectorySizesCount(es: seq<DirEntry>)
    ensures |NestedDirectorySizes(es)| == EntriesCountDirectories(es)
    decreases es, 0
  {
    if es != [] {
      NestedDirectorySizesCount(es[..|es| - 1]);
      DirectorySizesCount(es[|es| - 1]);
    }
  }

  /** No directory is larger than the tree that holds it; the whole tree's
      size comes last. */
  lemma {:induction false} DirectorySizesBounded(e: DirEntry)
    ensures forall i | 0 <= i < |DirectorySizes(e)| :: DirectorySizes(e)[i] <= Size(e)
    ensures e.Directory? ==> |DirectorySizes(e)| > 0 && DirectorySizes(e)[|DirectorySizes(e)| - 1] == Size(e)
    decreases e, 1
  {
    match e
    case File(_, _) =>
    case Directory(entries, _) => NestedDirectorySizesBounded(entries);
  }

  lemma {:induction false} NestedDirectorySizesBounded(es: seq<DirEntry>)
    ensures forall i | 0 <= i < |NestedDirectorySizes(es)| :: NestedDirectorySizes(es)[i] <= EntriesSize(es)
    decreases es, 0
  {
    if es != [] {
      var init, last := es[..|es| - 1], es[|es| - 1];
      NestedDirectorySizesBounded(init);
      if last.Directory? {
        DirectorySizesBounded(last);
      }
      var tail := if last.Directory? then DirectorySizes(last) else [];
      assert NestedDirectorySizes(es) == NestedDirectorySizes(init) + tail;
      forall i | 0 <= i < |NestedDirectorySizes(es)|
        ensures NestedDirectorySizes(es)[i] <= EntriesSize(es)
      {
        if i >= |NestedDirectorySizes(init)| {
          assert NestedDirectorySizes(es)[i] == tail[i - |NestedDirectorySizes(init)|];
        }
      }
    }
  }

  /** Sorting the directory sizes puts the whole tree's size last: this is the
      used space the second query starts from. */
  lemma SortedDirectorySizesEndWithRoot(e: DirEntry)
    requires e.Directory?
    ensures var sorted := Sort(DirectorySizes(e));
            |sorted| > 0 && sorted[|sorted| - 1] == Size(e)
  {
    var sizes := DirectorySizes(e);
    var sorted := Sort(sizes);
    DirectorySizesBounded(e);
    SortLength(sizes);
    var top := sorted[|sorted| - 1];
    assert Size(e) in multiset(sizes) by { assert sizes[|sizes| - 1] == Size(e); }
    assert Size(e) in multiset(sorted);
    var k :| 0 <= k < |sorted| && sorted[k] == Size(e);
    assert top in multiset(sizes) by { assert top in multiset(sorted); }
    var j :| 0 <= j < |sizes| && sizes[j] == top;
    assert Size(e) <= top;
  }

  // ---------------------------------------------------------------------
  // The two queries

  /** Sizes no larger than the limit, in the order given: every such size
      is kept as often as it occurs, and no other size is. */
  function AtMost(sizes: seq<nat>, limit: nat): (r: seq<nat>)
    ensures forall i | 0 <= i < |r| :: r[i] <= limit
    ensures forall x :: multiset(r)[x] == if x <= limit then multiset(sizes)[x] else 0
    decreases |sizes|
  {
    if sizes == [] then []
    else
      var init, last := sizes[..|sizes| - 1], sizes[|sizes| - 1];
      assert sizes == init + [last];
      AtMost(init, limit) + (if last <= limit then [last] else [])
  }

  /** Filtering distributes over concatenation. */
  lemma {:induction false} AtMostConcat(a: seq<nat>, b: seq<nat>, limit: nat)
    ensures AtMost(a + b, limit) == AtMost(a, limit) + AtMost(b, limit)
    decreases |b|
  {
    if b == [] {
      assert a + b == a;
    } else {
      var init, last := b[..|b| - 1], b[|b| - 1];
      assert (a + b)[..|a + b| - 1] == a + init && (a + b)[|a + b| - 1] == last;
      AtMostConcat(a, init, limit);
    }
  }

  /** A filter that every size passes keeps them all. */
  lemma {:induction false} AtMostAll(sizes: seq<nat>, limit: nat)
    requires forall i | 0 <= i < |sizes| :: sizes[i] <= limit
    ensures AtMost(sizes, limit) == sizes
    decreases |sizes|
  {
    if sizes != [] {
      AtMostAll(sizes[..|sizes| - 1], limit);
      assert sizes == sizes[..|sizes| - 1] + [sizes[|sizes| - 1]];
    }
  }

  /** Reference definition of star 1 on the tree itself: every directory of
      at most `limit` bytes adds its size once. */
  function SmallTotal(e: DirEntry, limit: nat): nat
    decreases e, 1
  {
    match e
    case File(_, _) => 0
    case Directory(entries, _) => EntriesSmallTotal(entries, limit) + (if Size(e) <= limit then Size(e) else 0)
  }

  function EntriesSmallTotal(es: seq<DirEntry>, limit: nat): nat
    decreases es, 0
  {
    if es == [] then 0 else EntriesSmallTotal(es[..|es| - 1], limit) + SmallTotal(es[|es| - 1], limit)
  }

  /** Star 1: the total of all directory sizes of at most `limit` (the source
      calls it "smaller than", but keeps sizes equal to the limit). */
  function SumOfSizesSmallerThan(dir: DirEntry, limit: nat): nat
  {
    var s := Sum(AtMost(DirectorySizes(dir), limit));
    SumNonNegative(AtMost(DirectorySizes(dir), limit));
    s
  }

  lemma {:induction false} AtMostSumMonotone(sizes: seq<nat>, low: nat, high: nat)
    requires low <= high
    ensures Sum(AtMost(sizes, low)) <= Sum(AtMost(sizes, high))
    decreases |sizes|
  {
    if sizes != [] {
      var init, last := sizes[..|sizes| - 1], sizes[|sizes| - 1];
      AtMostSumMonotone(init, low, high);
      SumConcat(AtMost(init, low), if last <= low then [last] else []);
      SumConcat(AtMost(init, high), if last <= high then [last] else []);
      assert Sum([last as int]) == last by { assert [last as int][..0] == []; }
    }
  }

  /** Summing the kept sizes of the flattened list is the tree-wise total. */
  lemma {:induction false} SmallSizesSum(e: DirEntry, limit: nat)
    ensures Sum(AtMost(DirectorySizes(e), limit)) == SmallTotal(e, limit)
    decreases e, 1
  {
    match e
    case File(_, _) =>
    case Directory(entries, _) =>
      var nested := NestedDirectorySizes(entries);
      assert DirectorySizes(e) == nested + [Size(e)];
      AtMostSumAppend(nested, Size(e), limit);
      NestedSmallSizesSum(entries, limit);
  }

  /** One more size adds itself to the filtered sum when it passes. */
  lemma AtMostSumAppend(sizes: seq<nat>, x: nat, limit: nat)
    ensures Sum(AtMost(sizes + [x], limit)) == Sum(AtMost(sizes, limit)) + (if x <= limit then x else 0)
  {
    var s := sizes + [x];
    assert s[..|s| - 1] == sizes && s[|s| - 1] == x;
    SumConcat(AtMost(sizes, limit), if x <= limit then [x] else []);
    assert Sum([x as int]) == x by { assert [x as int][..0] == []; }
  }

  lemma {:induction false} NestedSmallSizesSum(es: seq<DirEntry>, limit: nat)
    ensures Sum(AtMost(NestedDirectorySizes(es), limit)) == EntriesSmallTotal(es, limit)
    decreases es, 0
  {
    if es != [] {
      var init, last := es[..|es| - 1], es[|es| - 1];
      var tail := if last.Directory? then DirectorySizes(last) else [];
      assert tail == DirectorySizes(last);
      AtMostConcat(NestedDirectorySizes(init), tail, limit);
      SumConcat(AtMost(NestedDirectorySizes(init), limit), AtMost(tail, limit));
      NestedSmallSizesSum(init, limit);
      SmallSizesSum(last, limit);
    }
  }

  /** Star 1 is the tree-wise total: each directory of at most `limit`
      bytes, whatever its depth, adds its size exactly once. */
  lemma SumOfSizesSmallerThanIsSmallTotal(dir: DirEntry, limit: nat)
    ensures SumOfSizesSmallerThan(dir, limit) == SmallTotal(dir, limit)
  {
    SmallSizesSum(dir, limit);
  }

  /** A directory that fits under the limit is counted in full. */
  lemma SmallDirectoryCounted(dir: DirEntry, limit: nat)
    requires dir.Directory? && Size(dir) <= limit
    ensures SumOfSizesSmallerThan(dir, limit) >= Size(dir)
  {
    SmallSizesSum(dir, limit);
  }

  /** When the whole tree fits under the limit, every directory size is
      counted. */
  lemma SumOfSizesSmallerThanAll(dir: DirEntry, limit: nat)
    requires Size(dir) <= limit
    ensures SumOfSizesSmallerThan(dir, limit) == Sum(DirectorySizes(dir))
  {
    DirectorySizesBounded(dir);
    AtMostAll(DirectorySizes(dir), limit);
  }

  /** Raising the limit never lowers the answer to star 1. */
  lemma SumOfSizesSmallerThanMonotone(dir: DirEntry, low: nat, high: nat)
    requires low <= high
    ensures SumOfSizesSmallerThan(dir, low) <= SumOfSizesSmallerThan(dir, high)
  {
    AtMostSumMonotone(DirectorySizes(dir), low, high);
  }

  /** `iter().find(|&&size| size >= threshold)`: the first size that is large enough. */
  function FindAtLeast(sizes: seq<int>, threshold: int): (r: Option<int>)
    ensures r.Some? ==> r.value in sizes && r.value >= threshold
    ensures r.Some? ==> exists i | 0 <= i < |sizes| :: sizes[i] == r.value &&
                          forall j | 0 <= j < i :: sizes[j] < threshold
    ensures r.None? <==> forall i | 0 <= i < |sizes| :: sizes[i] < threshold
    decreases |sizes|
  {
    if sizes == [] then None
    else if sizes[0] >= threshold then Some(sizes[0])
    else
      var r := FindAtLeast(sizes[1..], threshold);
      if r.Some? then
        var i :| 0 <= i < |sizes[1..]| && sizes[1..][i] == r.value &&
                 forall j | 0 <= j < i :: sizes[1..][j] < threshold;
        assert sizes[i + 1] == r.value;
        Some(r.value)
      else
        None
  }

  /** In an ascending sequence the first size that is large enough is the
      least of them. */
  lemma FindAtLeastInAscending(sorted: seq<int>, threshold: int)
    requires Ascending(sorted)
    requires FindAtLeast(sorted, threshold).Some?
    ensures forall k | 0 <= k < |sorted| && sorted[k] >= threshold :: FindAtLeast(sorted, threshold).value <= sorted[k]
  {
    var r := FindAtLeast(sorted, threshold).value;
    var i :| 0 <= i < |sorted| && sorted[i] == r && forall j | 0 <= j < i :: sorted[j] < threshold;
    forall k | 0 <= k < |sorted| && sorted[k] >= threshold
      ensures r <= sorted[k]
    {
      if k >= i { assert sorted[i] <= sorted[k]; }
    }
  }

  lemma SameElements(a: seq<int>, b: seq<int>, x: int)
    requires multiset(a) == multiset(b)
    ensures x in a <==> x in b
  {
    assert x in a <==> x in multiset(a);
    assert x in b <==> x in multiset(b);
  }

  /** Star 2: the smallest directory whose removal brings the used space down
      to at most MAX_USED. The source computes `used - 40000000` on `usize`,
      so it needs at least that much space in use. */
  function SmallestSizeToDelete(dir: DirEntry): (r: nat)
    requires dir.Directory?
    requires Size(dir) >= MAX_USED
    ensures r in DirectorySizes(dir) && r >= Size(dir) - MAX_USED
    ensures forall s | s in DirectorySizes(dir) && s >= Size(dir) - MAX_USED :: r <= s
  {
    var sizes := DirectorySizes(dir);
    var sorted := Sort(sizes);
    SortedDirectorySizesEndWithRoot(dir);
    var usedSpace := sorted[|sorted| - 1];
    var spaceToFree := usedSpace - MAX_USED;
    var found := FindAtLeast(sorted, spaceToFree);
    assert found.Some? by { assert sorted[|sorted| - 1] >= spaceToFree; }
    var r := found.value;
    SameElements(sizes, sorted, r);
    FindAtLeastInAscending(sorted, spaceToFree);
    forall s | s in sizes && s >= spaceToFree
      ensures r <= s
    {
      SameElements(sizes, sorted, s);
      var k :| 0 <= k < |sorted| && sorted[k] == s;
    }
    r
  }

  // ---------------------------------------------------------------------
  // Parsing

  predicate IsUpBlock(b: Block)
  {
    |b| > 0 && b[|b| - 1] == ".."
  }

  /** A listing line `<size> <name>`: Rust's `split(" ")` gives at least two
      pieces and the first parses as a `usize`. */
  predicate IsFileLine(line: string)
  {
    var parts := Split(line, ' ');
    |parts| >= 2 && IsUnsigned(parts[0], USIZE_MAX)
  }

  function FileEntry(line: string): (e: DirEntry)
    requires IsFileLine(line)
    ensures e.File?
  {
    var parts := Split(line, ' ');
    File(ParseUnsigned(parts[0], USIZE_MAX), parts[1])
  }

  /** The listing lines of a block: everything below the `$ ls` line and the name. */
  function Listing(b: Block): seq<string>
    requires |b| >= 2
  {
    b[..|b| - 2]
  }

  /** A block `parse_directory` can consume without panicking: it has a name
      and an `$ ls` line, and every listing line not starting with "dir"
      is a file line. */
  predicate IsDirectoryBlock(b: Block)
  {
    |b| >= 2 && forall i | 0 <= i < |b| - 2 :: !StartsWith(b[i], "dir") ==> IsFileLine(b[i])
  }

  predicate WellFormed(cds: Tokens)
  {
    forall i | 0 <= i < |cds| :: IsUpBlock(cds[i]) || IsDirectoryBlock(cds[i])
  }

  /** What `parse_directory` needs of its stack so that it cannot panic. */
  predicate Parsable(cds: Tokens)
  {
    WellFormed(cds) && (cds != [] ==> IsDirectoryBlock(cds[|cds| - 1]))
  }

  /** The File entries of a listing, one per line not starting with "dir", in
      the order of the (reversed) lines. */
  function FileEntries(lines: seq<string>): (es: seq<DirEntry>)
    requires forall i | 0 <= i < |lines| :: !StartsWith(lines[i], "dir") ==> IsFileLine(lines[i])
    ensures forall i | 0 <= i < |es| :: es[i].File?
    decreases |lines|
  {
    if lines == [] then []
    else
      var last := lines[|lines| - 1];
      FileEntries(lines[..|lines| - 1]) + (if StartsWith(last, "dir") then [] else [FileEntry(last)])
  }

  /** `parse_up`: pops the top block when it is a `cd ..`. */
  function ParseUp(cds: Tokens): (r: Result<Tokens, Tokens>)
    ensures cds == [] ==> r == Ok(cds)
    ensures cds != [] && IsUpBlock(cds[|cds| - 1]) ==> r == Ok(cds[..|cds| - 1])
    ensures cds != [] && !IsUpBlock(cds[|cds| - 1]) ==> r == Err(cds)
  {
    if cds == [] then Ok(cds)
    else
      var entry := cds[|cds| - 1];
      if entry == [] then Err(cds)
      else if entry[|entry| - 1] == ".." then Ok(cds[..|cds| - 1])
      else Err(cds)
  }

  /** `parse_directory`, as a function: one block for the directory itself,
      then child directories until a `cd ..` or the end of the stack. */
  function ParseDir(cds: Tokens): (r: Result<(DirEntry, Tokens), string>)
    requires Parsable(cds)
    ensures r.Ok? ==> r.value.0.Directory? && |r.value.1| < |cds| && r.value.1 == cds[..|r.value.1|]
    decreases |cds|, 0
  {
    if cds == [] then Err("end of input")
    else
      var block := cds[|cds| - 1];
      var dirName := block[|block| - 1];
      ParseChildren(cds[..|cds| - 1], FileEntries(Listing(block)), dirName)
  }

  /** The loop of `parse_directory`: `entries` so far, and the remaining stack. */
  function ParseChildren(cds: Tokens, entries: seq<DirEntry>, dirName: string): (r: Result<(DirEntry, Tokens), string>)
    requires WellFormed(cds)
    ensures r.Ok? ==> r.value.0.Directory? && |r.value.1| <= |cds| && r.value.1 == cds[..|r.value.1|]
    decreases |cds|, 1
  {
    match ParseUp(cds)
    case Ok(rest) => Ok((Directory(entries, dirName), rest))
    case Err(_) =>
      match ParseDir(cds)
      case Err(e) => Err(e)
      case Ok((entry, rest)) => ParseChildren(rest, entries + [entry], dirName)
  }

  /** `parse_directory` fails only on an empty stack; otherwise it yields a
      directory named by the top block and a strictly shorter stack. */
  lemma {:induction false} ParseDirOutcome(cds: Tokens)
    requires Parsable(cds)
    ensures ParseDir(cds).Err? <==> cds == []
    ensures cds == [] ==> ParseDir(cds) == Err("end of input")
    ensures cds != [] ==>
      var block := cds[|cds| - 1];
      ExtendsWithDirectories(ParseDir(cds).value.0, FileEntries(Listing(block)), block[|block| - 1])
    decreases |cds|, 0
  {
    if cds != [] {
      var block := cds[|cds| - 1];
      ParseChildrenOutcome(cds[..|cds| - 1], FileEntries(Listing(block)), block[|block| - 1]);
    }
  }

  /** `d` is the directory `dirName` whose entries start with `entries` and
      continue with directories only. */
  predicate ExtendsWithDirectories(d: DirEntry, entries: seq<DirEntry>, dirName: string)
  {
    && d.Directory? && d.name == dirName
    && |entries| <= |d.entries| && d.entries[..|entries|] == entries
    && (forall i | |entries| <= i < |d.entries| :: d.entries[i].Directory?)
  }

  lemma {:induction false} ParseChildrenOutcome(cds: Tokens, entries: seq<DirEntry>, dirName: string)
    requires WellFormed(cds)
    ensures ParseChildren(cds, entries, dirName).Ok?
    ensures ExtendsWithDirectories(ParseChildren(cds, entries, dirName).value.0, entries, dirName)
    decreases |cds|, 1
  {
    if ParseUp(cds).Err? {
      ParseDirOutcome(cds);
      var (entry, rest) := ParseDir(cds).value;
      var more := entries + [entry];
      ParseChildrenOutcome(rest, more, dirName);
      var d := ParseChildren(rest, more, dirName).value.0;
      assert ParseChildren(cds, entries, dirName).value.0 == d;
      assert d.entries[..|more|][..|entries|] == entries;
      assert d.entries[..|entries|] == d.entries[..|more|][..|entries|];
      assert d.entries[|entries|] == entry by { assert d.entries[..|more|][|entries|] == entry; }
    }
  }

  /** The pieces of the transcript between "$ cd " markers, each cut into
      lines, turned into the stack `from_str` parses: every piece reversed,
      the list reversed, and the text before the first marker dropped. */
  function Stack(pieces: seq<seq<string>>): (cds: Tokens)
    requires |pieces| >= 1
    ensures |cds| == |pieces| - 1
    ensures forall i | 0 <= i < |cds| :: cds[i] == Reverse(pieces[|pieces| - 1 - i])
  {
    var reversed := seq(|pieces|, i requires 0 <= i < |pieces| => Reverse(pieces[i]));
    var cds := Reverse(reversed);
    cds[..|cds| - 1]
  }

  /** What `from_str` needs to return instead of panicking: a parsable stack,
      and nothing left over (its `assert!`). */
  predicate TranscriptParsable(pieces: seq<seq<string>>)
  {
    && |pieces| >= 1
    && Parsable(Stack(pieces))
    && (ParseDir(Stack(pieces)).Ok? ==> ParseDir(Stack(pieces)).value.1 == [])
  }

  /** `from_str`, as a function. */
  function ParseTranscript(pieces: seq<seq<string>>): (r: Result<DirEntry, string>)
    requires TranscriptParsable(pieces)
    ensures r.Err? <==> |pieces| == 1
    ensures r.Err? ==> r.error == "end of input"
    ensures r.Ok? ==> r.value.Directory?
  {
    ParseDirOutcome(Stack(pieces));
    match ParseDir(Stack(pieces))
    case Err(e) => Err(e)
    case Ok((dir, _)) => Ok(dir)
  }

  // ---------------------------------------------------------------------
  // The parser as the source runs it: a loop over a stack it pops

  /** The first loop of `parse_directory`: a File entry for every listing
      line that does not start with "dir". */
  method ReadListing(entryList: seq<string>) returns (entries: seq<DirEntry>)
    requires forall i | 0 <= i < |entryList| :: !StartsWith(entryList[i], "dir") ==> IsFileLine(entryList[i])
    ensures entries == FileEntries(entryList)
  {
    entries := [];
    var i := 0;
    while i < |entryList|
      invariant 0 <= i <= |entryList|
      invariant entries == FileEntries(entryList[..i])
    {
      var entry := entryList[i];
      if !StartsWith(entry, "dir") {
        var file := Split(entry, ' ');
        entries := entries + [File(ParseUnsigned(file[0], USIZE_MAX), file[1])];
      }
      assert entryList[..i + 1][..i] == entryList[..i];
      i := i + 1;
    }
    assert entryList[..i] == entryList;
  }

  method ParseDirectory(cds: Tokens) returns (r: Result<(DirEntry, Tokens), string>)
    requires Parsable(cds)
    ensures r == ParseDir(cds)
    decreases |cds|
  {
    if cds == [] {
      return Err("end of input");
    }
    var entryList := cds[|cds| - 1];
    var stack := cds[..|cds| - 1];
    var dirName := entryList[|entryList| - 1];
    entryList := entryList[..|entryList| - 1];
    entryList := entryList[..|entryList| - 1]; // drop the ls line
    assert entryList == Listing(cds[|cds| - 1]);

    var entries := ReadListing(entryList);

    while true
      invariant WellFormed(stack) && |stack| < |cds| && stack == cds[..|stack|]
      invariant ParseChildren(stack, entries, dirName) == ParseDir(cds)
      decreases |stack|
    {
      var up := ParseUp(stack);
      var isUp := up.Ok?;
      stack := if up.Ok? then up.value else up.error;
      if isUp {
        break;
      }
      var sub := ParseDirectory(stack);
      if sub.Err? {
        return Err(sub.error);
      }
      var (entry, newStack) := sub.value;
      stack := newStack;
      entries := entries + [entry];
    }
    return Ok((Directory(entries, dirName), stack));
  }

  /** `from_str`: builds the stack and parses it; the leftover must be empty. */
  method FromStr(pieces: seq<seq<string>>) returns (r: Result<DirEntry, string>)
    requires TranscriptParsable(pieces)
    ensures r == ParseTranscript(pieces)
  {
    var cds := Stack(pieces);
    var parsed := ParseDirectory(cds);
    if parsed.Err? {
      return Err(parsed.error);
    }
    var (dir, rest) := parsed.value;
    assert rest == [];
    return Ok(dir);
  }

  // ---------------------------------------------------------------------
  // Round trip: the transcript of a tree parses back to that tree

  /** Trees the parser can produce: in every directory the files come first,
      then the subdirectories; file names contain no space and sizes fit a
      `usize`; no directory is called "..". */
  predicate Canonical(e: DirEntry)
    decreases e
  {
    match e
    case File(size, name) => size <= USIZE_MAX && ' ' !in name
    case Directory(entries, name) =>
      && name != ".."
      && (forall i, j | 0 <= i < j < |entries| :: entries[i].Directory? ==> entries[j].Directory?)
      && (forall i | 0 <= i < |entries| :: Canonical(entries[i]))
  }

  /** The line `ls` prints for a file. */
  function FileLine(size: nat, name: string): string
  {
    NatToString(size) + " " + name
  }

  /** The line `ls` prints for an entry. */
  function ListingLine(e: DirEntry): string
  {
    match e
    case File(size, name) => FileLine(size, name)
    case Directory(_, name) => "dir " + name
  }

  function ListingLines(es: seq<DirEntry>): (lines: seq<string>)
    ensures |lines| == |es| && forall i | 0 <= i < |es| :: lines[i] == ListingLine(es[i])
    decreases |es|
  {
    if es == [] then [] else ListingLines(es[..|es| - 1]) + [ListingLine(es[|es| - 1])]
  }

  /** The block of `cd <name>` followed by `ls`, as the stack holds it. */
  function BlockOf(d: DirEntry): Block
    requires d.Directory?
  {
    ListingLines(d.entries) + ["$ ls", d.name]
  }

  function Files(es: seq<DirEntry>): seq<DirEntry>
    decreases |es|
  {
    if es == [] then []
    else Files(es[..|es| - 1]) + (if es[|es| - 1].File? then [es[|es| - 1]] else [])
  }

  function Directories(es: seq<DirEntry>): seq<DirEntry>
    decreases |es|
  {
    if es == [] then []
    else Directories(es[..|es| - 1]) + (if es[|es| - 1].Directory? then [es[|es| - 1]] else [])
  }

  /** The stack for a directory visited and left again with `cd ..`, without
      that `cd ..`: its own block on top, then each child's stack followed by
      a `cd ..` block. */
  function ClosedStack(d: DirEntry): Tokens
    requires d.Directory?
    decreases d, 1
  {
    ClosedChildren(d.entries) + [BlockOf(d)]
  }

  function ClosedChildren(es: seq<DirEntry>): Tokens
    decreases es, 0
  {
    if es == [] then []
    else
      var last := es[|es| - 1];
      (if last.Directory? then [[".."]] + ClosedStack(last) else []) + ClosedChildren(es[..|es| - 1])
  }

  /** The stack when the transcript simply ends inside the last directory
      visited, as the puzzle's transcripts do: the last child at every level
      is left without `cd ..`. */
  function OpenStack(d: DirEntry): Tokens
    requires d.Directory?
    decreases d, 1
  {
    OpenChildren(d.entries) + [BlockOf(d)]
  }

  function OpenChildren(es: seq<DirEntry>): Tokens
    decreases es, 0
  {
    if es == [] then []
    else
      var last := es[|es| - 1];
      if last.Directory? then OpenStack(last) + ClosedChildren(es[..|es| - 1])
      else ClosedChildren(es)
  }

  lemma FileLineParses(size: nat, name: string)
    requires size <= USIZE_MAX && ' ' !in name
    ensures IsFileLine(FileLine(size, name)) && !StartsWith(FileLine(size, name), "dir")
    ensures FileEntry(FileLine(size, name)) == File(size, name)
  {
    var digits := NatToString(size);
    assert FileLine(size, name) == digits + [' '] + name;
    SplitAfterPiece(digits, ' ', name);
    SplitNoSeparator(name, ' ');
    NatToStringParses(size, USIZE_MAX);
    assert ' ' !in digits by { assert forall i | 0 <= i < |digits| :: IsDigit(digits[i]); }
    assert IsDigit(FileLine(size, name)[0]);
  }

  lemma {:induction false} ListingParses(es: seq<DirEntry>)
    requires forall i | 0 <= i < |es| :: Canonical(es[i])
    ensures forall i | 0 <= i < |es| :: !StartsWith(ListingLines(es)[i], "dir") ==> IsFileLine(ListingLines(es)[i])
    ensures FileEntries(ListingLines(es)) == Files(es)
    decreases |es|
  {
    if es != [] {
      var init, last := es[..|es| - 1], es[|es| - 1];
      ListingParses(init);
      assert ListingLines(es)[..|es| - 1] == ListingLines(init);
      match last
      case File(size, name) => FileLineParses(size, name);
      case Directory(_, name) => assert StartsWith("dir " + name, "dir");
    }
  }

  /** With files before directories, the entries are the files, then the
      directories. */
  lemma {:induction false} FilesThenDirectories(es: seq<DirEntry>)
    requires forall i, j | 0 <= i < j < |es| :: es[i].Directory? ==> es[j].Directory?
    ensures Files(es) + Directories(es) == es
    decreases |es|
  {
    if es != [] {
      var init, last := es[..|es| - 1], es[|es| - 1];
      FilesThenDirectories(init);
      if last.File? {
        NoDirectories(init);
      }
      assert init + [last] == es;
    }
  }

  lemma {:induction false} NoDirectories(es: seq<DirEntry>)
    requires forall i | 0 <= i < |es| :: es[i].File?
    ensures Directories(es) == [] && Files(es) == es
    decreases |es|
  {
    if es != [] {
      NoDirectories(es[..|es| - 1]);
      assert es[..|es| - 1] + [es[|es| - 1]] == es;
    }
  }

  lemma BlockOfIsDirectoryBlock(d: DirEntry)
    requires d.Directory? && Canonical(d)
    ensures IsDirectoryBlock(BlockOf(d)) && !IsUpBlock(BlockOf(d))
    ensures Listing(BlockOf(d)) == ListingLines(d.entries)
  {
    ListingParses(d.entries);
    assert Listing(BlockOf(d)) == ListingLines(d.entries);
  }

  lemma {:induction false} ClosedStackWellFormed(d: DirEntry)
    requires d.Directory? && Canonical(d)
    ensures WellFormed(ClosedStack(d))
    decreases d, 1
  {
    ClosedChildrenWellFormed(d.entries);
    BlockOfIsDirectoryBlock(d);
  }

  lemma {:induction false} ClosedChildrenWellFormed(es: seq<DirEntry>)
    requires forall i | 0 <= i < |es| :: Canonical(es[i])
    ensures WellFormed(ClosedChildren(es))
    decreases es, 0
  {
    if es != [] {
      var last := es[|es| - 1];
      ClosedChildrenWellFormed(es[..|es| - 1]);
      if last.Directory? {
        ClosedStackWellFormed(last);
        assert IsUpBlock([".."]);
      }
    }
  }

  lemma {:induction false} OpenStackWellFormed(d: DirEntry)
    requires d.Directory? && Canonical(d)
    ensures WellFormed(OpenStack(d))
    decreases d, 1
  {
    OpenChildrenWellFormed(d.entries);
    BlockOfIsDirectoryBlock(d);
  }

  lemma {:induction false} OpenChildrenWellFormed(es: seq<DirEntry>)
    requires forall i | 0 <= i < |es| :: Canonical(es[i])
    ensures WellFormed(OpenChildren(es))
    decreases es, 0
  {
    if es != [] {
      var last := es[|es| - 1];
      ClosedChildrenWellFormed(es[..|es| - 1]);
      if last.Directory? {
        OpenStackWellFormed(last);
      } else {
        ClosedChildrenWellFormed(es);
      }
    }
  }

  /** A closed directory's stack, above a `cd ..` or nothing, parses back to
      the directory and leaves what `parse_up` leaves of the stack below. */
  lemma {:induction false} ParseClosedStack(below: Tokens, d: DirEntry)
    requires d.Directory? && Canonical(d)
    requires WellFormed(below) && (below == [] || IsUpBlock(below[|below| - 1]))
    ensures Parsable(below + ClosedStack(d))
    ensures ParseDir(below + ClosedStack(d)) == Ok((d, ParseUp(below).value))
    decreases d, 1
  {
    var es, block := d.entries, BlockOf(d);
    var rest := below + ClosedChildren(es);
    assert below + ClosedStack(d) == rest + [block];
    assert IsDirectoryBlock(block) && FileEntries(Listing(block)) == Files(es) by {
      BlockOfIsDirectoryBlock(d);
      ListingParses(es);
    }
    assert WellFormed(rest) &&
      ParseChildren(rest, Files(es), d.name) == ParseChildren(below, Files(es) + Directories(es), d.name) by {
      ParseClosedChildren(below, es, Files(es), d.name);
    }
    assert Files(es) + Directories(es) == es by { FilesThenDirectories(es); }
    ParseDirUnfold(rest, block);
  }

  /** One step of `parse_directory`: the top block names the directory and
      gives its files; the rest of the stack is parsed for its children. */
  lemma ParseDirUnfold(rest: Tokens, block: Block)
    requires WellFormed(rest) && IsDirectoryBlock(block)
    ensures Parsable(rest + [block])
    ensures ParseDir(rest + [block]) == ParseChildren(rest, FileEntries(Listing(block)), block[|block| - 1])
  {
    var cds := rest + [block];
    assert cds[|cds| - 1] == block && cds[..|cds| - 1] == rest;
  }

  /** Each closed child on the stack is parsed and appended, in order. */
  lemma {:induction false} ParseClosedChildren(below: Tokens, es: seq<DirEntry>, entries: seq<DirEntry>, dirName: string)
    requires forall i | 0 <= i < |es| :: Canonical(es[i])
    requires WellFormed(below)
    ensures WellFormed(below + ClosedChildren(es))
    ensures ParseChildren(below + ClosedChildren(es), entries, dirName)
         == ParseChildren(below, entries + Directories(es), dirName)
    decreases es, 0
  {
    ClosedChildrenWellFormed(es);
    if es == [] {
      assert below + ClosedChildren(es) == below;
      assert entries + Directories(es) == entries;
    } else {
      var init, last := es[..|es| - 1], es[|es| - 1];
      if last.Directory? {
        var segment := [[".."]] + ClosedStack(last);
        assert below + ClosedChildren(es) == (below + segment) + ClosedChildren(init);
        ParseClosedChild(below, last, entries + Directories(init), dirName);
        ParseClosedChildren(below + segment, init, entries, dirName);
        assert entries + Directories(init) + [last] == entries + Directories(es);
      } else {
        assert ClosedChildren(es) == ClosedChildren(init);
        assert Directories(es) == Directories(init);
        ParseClosedChildren(below, init, entries, dirName);
      }
    }
  }

  /** A closed child directory above `cd ..` is parsed and appended. */
  lemma {:induction false} ParseClosedChild(below: Tokens, child: DirEntry, entries: seq<DirEntry>, dirName: string)
    requires child.Directory? && Canonical(child) && WellFormed(below)
    ensures WellFormed(below + ([[".."]] + ClosedStack(child)))
    ensures ParseChildren(below + ([[".."]] + ClosedStack(child)), entries, dirName)
         == ParseChildren(below, entries + [child], dirName)
    decreases child, 2
  {
    var upper := below + [[".."]];
    var cds := below + ([[".."]] + ClosedStack(child));
    assert cds == upper + ClosedStack(child);
    assert IsUpBlock([".."]);
    assert WellFormed(upper);
    assert ParseUp(upper) == Ok(below) by {
      assert upper[..|upper| - 1] == below;
    }
    ParseClosedStack(upper, child);
    assert ParseUp(cds).Err? by {
      BlockOfIsDirectoryBlock(child);
      assert cds[|cds| - 1] == BlockOf(child);
    }
  }


  /** A transcript that ends inside its last directory parses back to the tree. */
  lemma {:induction false} ParseOpenStack(d: DirEntry)
    requires d.Directory? && Canonical(d)
    ensures Parsable(OpenStack(d))
    ensures ParseDir(OpenStack(d)) == Ok((d, []))
    decreases d, 1
  {
    var es := d.entries;
    OpenChildrenWellFormed(es);
    BlockOfIsDirectoryBlock(d);
    ListingParses(es);
    FilesThenDirectories(es);
    ParseDirUnfold(OpenChildren(es), BlockOf(d));
    ParseOpenChildren(es, Files(es), d.name);
  }

  lemma {:induction false} ParseOpenChildren(es: seq<DirEntry>, entries: seq<DirEntry>, dirName: string)
    requires forall i | 0 <= i < |es| :: Canonical(es[i])
    requires forall i, j | 0 <= i < j < |es| :: es[i].Directory? ==> es[j].Directory?
    ensures WellFormed(OpenChildren(es))
    ensures ParseChildren(OpenChildren(es), entries, dirName) == Ok((Directory(entries + Directories(es), dirName), []))
    decreases es, 0
  {
    OpenChildrenWellFormed(es);
    if es == [] {
      assert entries + Directories(es) == entries;
    } else {
      var init, last := es[..|es| - 1], es[|es| - 1];
      if last.Directory? {
        var upper := OpenStack(last);
        OpenStackWellFormed(last);
        ParseClosedChildren(upper, init, entries, dirName);
        ParseOpenStack(last);
        BlockOfIsDirectoryBlock(last);
        assert ParseUp(upper).Err?;
        assert entries + Directories(init) + [last] == entries + Directories(es);
      } else {
        NoDirectories(es);
        ParseClosedChildren([], es, entries, dirName);
        assert [] + ClosedChildren(es) == ClosedChildren(es);
      }
    }
  }

  /** The transcript of a tree, cut at the "$ cd " markers, with nothing before
      the first marker. */
  function Transcript(d: DirEntry): (pieces: seq<seq<string>>)
    requires d.Directory?
  {
    var cds := OpenStack(d);
    [[]] + seq(|cds|, i requires 0 <= i < |cds| => Reverse(cds[|cds| - 1 - i]))
  }

  /** `from_str` reads back every tree the parser can produce from its own
      transcript. */
  lemma TranscriptRoundTrip(d: DirEntry)
    requires d.Directory? && Canonical(d)
    ensures TranscriptParsable(Transcript(d))
    ensures ParseTranscript(Transcript(d)) == Ok(d)
  {
    var cds := OpenStack(d);
    var pieces := Transcript(d);
    forall i | 0 <= i < |cds|
      ensures Stack(pieces)[i] == cds[i]
    {
      ReverseReverse(cds[i]);
    }
    assert Stack(pieces) == cds;
    ParseOpenStack(d);
  }

  // ---------------------------------------------------------------------
  // The puzzle's example session

  /** The file sizes of the example, in transcript order. */
  const ExampleFileSizes: seq<nat> :=
    [14848514, 8504156, 29116, 2557, 62596, 584, 4060174, 8033020, 5626152, 7214296]

  predicate SizesFit(s: seq<nat>)
  {
    |s| == 10 && forall i | 0 <= i < 10 :: s[i] <= USIZE_MAX
  }

  /** The lines after `$ cd <name>`: the `$ ls` command and what it lists. */
  function Piece(name: string, listed: seq<DirEntry>): seq<string>
  {
    [name, "$ ls"] + ListingLines(listed)
  }

  /** A piece made by Piece is a directory block giving the listed files, in
      reverse order. */
  lemma PieceBlock(name: string, listed: seq<DirEntry>)
    requires name != ".." && forall i | 0 <= i < |listed| :: Canonical(listed[i])
    ensures var b := Reverse(Piece(name, listed));
      && IsDirectoryBlock(b) && !IsUpBlock(b) && b[|b| - 1] == name
      && FileEntries(Listing(b)) == Files(Reverse(listed))
  {
    var lines := ListingLines(Reverse(listed));
    assert Reverse(Piece(name, listed)) == lines + ["$ ls", name] by {
      ReverseConcat([name, "$ ls"], ListingLines(listed));
      ReverseListingLines(listed);
      assert Reverse([name, "$ ls"]) == ["$ ls", name];
    }
    ListingParses(Reverse(listed));
    BlockOfLines(lines, name);
  }

  /** Listing lines under `$ ls` and a name make a directory block. */
  lemma BlockOfLines(lines: seq<string>, name: string)
    requires name != ".."
    requires forall i | 0 <= i < |lines| :: !StartsWith(lines[i], "dir") ==> IsFileLine(lines[i])
    ensures var b := lines + ["$ ls", name];
      && IsDirectoryBlock(b) && !IsUpBlock(b) && b[|b| - 1] == name && Listing(b) == lines
  {
    var b := lines + ["$ ls", name];
    assert Listing(b) == lines;
  }

  lemma ReverseListingLines(es: seq<DirEntry>)
    ensures Reverse(ListingLines(es)) == ListingLines(Reverse(es))
  {
    var a, b := Reverse(ListingLines(es)), ListingLines(Reverse(es));
    forall i | 0 <= i < |es|
      ensures a[i] == b[i]
    {
      assert a[i] == ListingLine(es[|es| - 1 - i]);
      assert b[i] == ListingLine(Reverse(es)[i]);
    }
    assert |a| == |b|;
  }

  /** The example transcript cut at the "$ cd " markers, each piece as lines,
      for any file sizes. */
  function ExampleSession(s: seq<nat>): seq<seq<string>>
    requires |s| == 10
  {
    [[], RootPiece(s), APiece(s), EPiece(s), [".."], [".."], DPiece(s)]
  }

  function RootPiece(s: seq<nat>): seq<string>
    requires |s| == 10
  {
    Piece("/", [Directory([], "a"), File(s[0], "b.txt"), File(s[1], "c.dat"), Directory([], "d")])
  }

  function APiece(s: seq<nat>): seq<string>
    requires |s| == 10
  {
    Piece("a", [Directory([], "e"), File(s[2], "f"), File(s[3], "g"), File(s[4], "h.lst")])
  }

  function EPiece(s: seq<nat>): seq<string>
    requires |s| == 10
  {
    Piece("e", [File(s[5], "i")])
  }

  function DPiece(s: seq<nat>): seq<string>
    requires |s| == 10
  {
    Piece("d", [File(s[6], "j"), File(s[7], "d.log"), File(s[8], "d.ext"), File(s[9], "k")])
  }

  /** The tree the parser builds from it: within a directory the files come
      in the reverse of their listing order, then the subdirectories in
      visiting order. */
  function ExampleTreeOf(s: seq<nat>): DirEntry
    requires |s| == 10
  {
    var e := Directory([File(s[5], "i")], "e");
    var a := Directory([File(s[4], "h.lst"), File(s[3], "g"), File(s[2], "f"), e], "a");
    var d := Directory([File(s[9], "k"), File(s[8], "d.ext"), File(s[7], "d.log"), File(s[6], "j")], "d");
    Directory([File(s[1], "c.dat"), File(s[0], "b.txt"), a, d], "/")
  }

  const ExampleTranscript: seq<seq<string>> := ExampleSession(ExampleFileSizes)

  const ExampleTree: DirEntry :=
    Directory([File(8504156, "c.dat"), File(14848514, "b.txt"),
               Directory([File(62596, "h.lst"), File(2557, "g"), File(29116, "f"),
                          Directory([File(584, "i")], "e")], "a"),
               Directory([File(7214296, "k"), File(5626152, "d.ext"), File(8033020, "d.log"), File(4060174, "j")], "d")],
              "/")

  /** Files of four entries, when the first and the last may be directories. */
  lemma FilesOfFour(w: DirEntry, x: DirEntry, y: DirEntry, z: DirEntry)
    requires x.File? && y.File? && z.Directory?
    ensures w.File? ==> Files([w, x, y, z]) == [w, x, y]
    ensures w.Directory? ==> Files([w, x, y, z]) == [x, y]
  {
    assert [w][..0] == [];
    assert [w, x][..1] == [w];
    assert [w, x, y][..2] == [w, x];
    assert [w, x, y, z][..3] == [w, x, y];
    if w.File? {
      assert Files([w]) == [w];
      assert Files([w, x]) == [w, x];
      assert Files([w, x, y]) == [w, x, y];
    } else {
      assert Files([w]) == [];
      assert Files([w, x]) == [x];
      assert Files([w, x, y]) == [x, y];
    }
  }

  /** A piece listing four entries. */
  lemma PieceOfFour(name: string, w: DirEntry, x: DirEntry, y: DirEntry, z: DirEntry)
    requires name != ".." && Canonical(w) && Canonical(x) && Canonical(y) && Canonical(z)
    ensures var b := Reverse(Piece(name, [w, x, y, z]));
      && IsDirectoryBlock(b) && !IsUpBlock(b) && b[|b| - 1] == name
      && FileEntries(Listing(b)) == Files([z, y, x, w])
  {
    ReverseFour(w, x, y, z);
    PieceBlock(name, [w, x, y, z]);
  }

  lemma ExampleRootBlock(b0: nat, c0: nat)
    requires b0 <= USIZE_MAX && c0 <= USIZE_MAX
    ensures var b := Reverse(Piece("/", [Directory([], "a"), File(b0, "b.txt"), File(c0, "c.dat"), Directory([], "d")]));
      && IsDirectoryBlock(b) && !IsUpBlock(b) && b[|b| - 1] == "/"
      && FileEntries(Listing(b)) == [File(c0, "c.dat"), File(b0, "b.txt")]
  {
    var w, x, y, z := Directory([], "a"), File(b0, "b.txt"), File(c0, "c.dat"), Directory([], "d");
    PieceOfFour("/", w, x, y, z);
    FilesOfFour(z, y, x, w);
  }

  lemma ExampleABlock(f0: nat, g0: nat, h0: nat)
    requires f0 <= USIZE_MAX && g0 <= USIZE_MAX && h0 <= USIZE_MAX
    ensures var b := Reverse(Piece("a", [Directory([], "e"), File(f0, "f"), File(g0, "g"), File(h0, "h.lst")]));
      && IsDirectoryBlock(b) && !IsUpBlock(b) && b[|b| - 1] == "a"
      && FileEntries(Listing(b)) == [File(h0, "h.lst"), File(g0, "g"), File(f0, "f")]
  {
    var w, x, y, z := Directory([], "e"), File(f0, "f"), File(g0, "g"), File(h0, "h.lst");
    PieceOfFour("a", w, x, y, z);
    FilesOfFour(z, y, x, w);
  }

  lemma ExampleEBlock(i0: nat)
    requires i0 <= USIZE_MAX
    ensures var b := Reverse(Piece("e", [File(i0, "i")]));
      && IsDirectoryBlock(b) && !IsUpBlock(b) && b[|b| - 1] == "e"
      && FileEntries(Listing(b)) == [File(i0, "i")]
  {
    var e := [File(i0, "i")];
    PieceBlock("e", e);
    NoDirectories(Reverse(e));
  }

  /** A piece listing four files. */
  lemma PieceOfFourFiles(name: string, w: DirEntry, x: DirEntry, y: DirEntry, z: DirEntry)
    requires name != ".." && Canonical(w) && Canonical(x) && Canonical(y) && Canonical(z)
    requires w.File? && x.File? && y.File? && z.File?
    ensures var b := Reverse(Piece(name, [w, x, y, z]));
      && IsDirectoryBlock(b) && !IsUpBlock(b) && b[|b| - 1] == name
      && FileEntries(Listing(b)) == [z, y, x, w]
  {
    PieceOfFour(name, w, x, y, z);
    FilesOfFourFiles(z, y, x, w);
  }

  lemma FilesOfFourFiles(w: DirEntry, x: DirEntry, y: DirEntry, z: DirEntry)
    requires w.File? && x.File? && y.File? && z.File?
    ensures Files([w, x, y, z]) == [w, x, y, z]
  {
    NoDirectories([w, x, y, z]);
  }

  lemma ExampleDBlock(j0: nat, log0: nat, ext0: nat, k0: nat)
    requires j0 <= USIZE_MAX && log0 <= USIZE_MAX && ext0 <= USIZE_MAX && k0 <= USIZE_MAX
    ensures var b := Reverse(Piece("d", [File(j0, "j"), File(log0, "d.log"), File(ext0, "d.ext"), File(k0, "k")]));
      && IsDirectoryBlock(b) && !IsUpBlock(b) && b[|b| - 1] == "d"
      && FileEntries(Listing(b)) == [File(k0, "k"), File(ext0, "d.ext"), File(log0, "d.log"), File(j0, "j")]
  {
    PieceOfFourFiles("d", File(j0, "j"), File(log0, "d.log"), File(ext0, "d.ext"), File(k0, "k"));
  }

  /** `parse_directory`'s loop meets a `cd ..`: the directory is complete. */
  lemma ChildrenAtUp(below: Tokens, up: Block, entries: seq<DirEntry>, dirName: string)
    requires WellFormed(below) && IsUpBlock(up)
    ensures WellFormed(below + [up])
    ensures ParseChildren(below + [up], entries, dirName) == Ok((Directory(entries, dirName), below))
  {
    var cds := below + [up];
    assert cds[..|cds| - 1] == below;
  }

  /** `parse_directory`'s loop meets a directory block: it parses that
      subdirectory and carries on below it. */
  lemma ChildrenAtDirectory(cds: Tokens, entries: seq<DirEntry>, dirName: string)
    requires WellFormed(cds) && cds != [] && !IsUpBlock(cds[|cds| - 1])
    requires ParseDir(cds).Ok?
    ensures ParseChildren(cds, entries, dirName)
         == ParseChildren(ParseDir(cds).value.1, entries + [ParseDir(cds).value.0], dirName)
  {
  }

  /** Directory "a", with its child "e", closed twice by `cd ..`, above the
      block of "d". */
  lemma ExampleParsesA(rd: Block, re: Block, ra: Block)
    requires IsDirectoryBlock(rd) && !IsUpBlock(rd)
    requires IsDirectoryBlock(re) && IsDirectoryBlock(ra) && !IsUpBlock(re) && !IsUpBlock(ra)
    ensures WellFormed([rd, [".."], [".."], re, ra])
    ensures ParseDir([rd, [".."], [".."], re, ra])
         == Ok((Directory(FileEntries(Listing(ra)) + [Directory(FileEntries(Listing(re)), re[|re| - 1])], ra[|ra| - 1]), [rd]))
  {
    var ru: Block := [".."];
    var fa := FileEntries(Listing(ra));
    var e := Directory(FileEntries(Listing(re)), re[|re| - 1]);
    var a := Directory(fa + [e], ra[|ra| - 1]);
    assert IsUpBlock(ru);
    assert WellFormed([rd, ru, ru, re, ra]);
    assert ParseChildren([rd, ru], fa + [e], ra[|ra| - 1]) == Ok((a, [rd])) by {
      ChildrenAtUp([rd], ru, fa + [e], ra[|ra| - 1]);
      assert [rd] + [ru] == [rd, ru];
    }
    assert ParseDir([rd, ru, ru, re]) == Ok((e, [rd, ru])) by {
      ChildrenAtUp([rd, ru], ru, FileEntries(Listing(re)), re[|re| - 1]);
      assert [rd, ru] + [ru] == [rd, ru, ru];
      ParseDirUnfold([rd, ru, ru], re);
      assert [rd, ru, ru] + [re] == [rd, ru, ru, re];
    }
    assert ParseChildren([rd, ru, ru, re], fa, ra[|ra| - 1]) == Ok((a, [rd])) by {
      ChildrenAtDirectory([rd, ru, ru, re], fa, ra[|ra| - 1]);
    }
    ParseDirUnfold([rd, ru, ru, re], ra);
    assert [rd, ru, ru, re] + [ra] == [rd, ru, ru, re, ra];
  }

  /** The stack of a transcript cut into seven pieces. */
  lemma StackOfSeven(t: seq<seq<string>>)
    requires |t| == 7
    ensures Stack(t) == [Reverse(t[6]), Reverse(t[5]), Reverse(t[4]), Reverse(t[3]), Reverse(t[2]), Reverse(t[1])]
  {
  }

  /** The directory a block describes, before its subdirectories are added. */
  function BlockDirectory(b: Block, children: seq<DirEntry>): DirEntry
    requires IsDirectoryBlock(b)
  {
    Directory(FileEntries(Listing(b)) + children, b[|b| - 1])
  }

  /** The shape of the example's stack parses to the shape of its tree. */
  lemma ExampleStackParses(rd: Block, re: Block, ra: Block, rr: Block)
    requires IsDirectoryBlock(rd) && !IsUpBlock(rd)
    requires IsDirectoryBlock(re) && IsDirectoryBlock(ra) && !IsUpBlock(re) && !IsUpBlock(ra)
    requires IsDirectoryBlock(rr)
    ensures Parsable([rd, [".."], [".."], re, ra, rr])
    ensures ParseDir([rd, [".."], [".."], re, ra, rr])
         == Ok((BlockDirectory(rr, [BlockDirectory(ra, [BlockDirectory(re, [])]), BlockDirectory(rd, [])]), []))
  {
    var ru: Block := [".."];
    var fr := FileEntries(Listing(rr));
    var a := BlockDirectory(ra, [BlockDirectory(re, [])]);
    var d := BlockDirectory(rd, []);
    assert FileEntries(Listing(re)) + [] == FileEntries(Listing(re));
    assert FileEntries(Listing(rd)) + [] == FileEntries(Listing(rd));
    ExampleParsesA(rd, re, ra);
    assert ParseDir([rd]) == Ok((d, [])) by {
      ParseDirUnfold([], rd);
      assert [] + [rd] == [rd];
    }
    assert ParseChildren([rd], fr + [a], rr[|rr| - 1]) == Ok((BlockDirectory(rr, [a, d]), [])) by {
      ChildrenAtDirectory([rd], fr + [a], rr[|rr| - 1]);
      assert fr + [a] + [d] == fr + [a, d];
    }
    assert ParseChildren([rd, ru, ru, re, ra], fr, rr[|rr| - 1]) == Ok((BlockDirectory(rr, [a, d]), [])) by {
      ChildrenAtDirectory([rd, ru, ru, re, ra], fr, rr[|rr| - 1]);
    }
    ParseDirUnfold([rd, ru, ru, re, ra], rr);
    assert [rd, ru, ru, re, ra] + [rr] == [rd, ru, ru, re, ra, rr];
  }

  /** A transcript whose stack parses completely is read as that tree. */
  lemma TranscriptOfStack(t: seq<seq<string>>, tree: DirEntry)
    requires |t| >= 1 && Parsable(Stack(t)) && ParseDir(Stack(t)) == Ok((tree, []))
    ensures TranscriptParsable(t) && ParseTranscript(t) == Ok(tree)
  {
  }

  lemma BlockDirectoryIs(b: Block, children: seq<DirEntry>, files: seq<DirEntry>, name: string)
    requires IsDirectoryBlock(b) && FileEntries(Listing(b)) == files && b[|b| - 1] == name
    ensures BlockDirectory(b, children) == Directory(files + children, name)
  {
  }

  /** The blocks of the example, read back, give the example tree. */
  lemma ExampleTreeFromBlocks(s: seq<nat>, rd: Block, re: Block, ra: Block, rr: Block)
    requires SizesFit(s)
    requires IsDirectoryBlock(rd) && rd[|rd| - 1] == "d"
    requires FileEntries(Listing(rd)) == [File(s[9], "k"), File(s[8], "d.ext"), File(s[7], "d.log"), File(s[6], "j")]
    requires IsDirectoryBlock(re) && re[|re| - 1] == "e" && FileEntries(Listing(re)) == [File(s[5], "i")]
    requires IsDirectoryBlock(ra) && ra[|ra| - 1] == "a"
    requires FileEntries(Listing(ra)) == [File(s[4], "h.lst"), File(s[3], "g"), File(s[2], "f")]
    requires IsDirectoryBlock(rr) && rr[|rr| - 1] == "/"
    requires FileEntries(Listing(rr)) == [File(s[1], "c.dat"), File(s[0], "b.txt")]
    ensures BlockDirectory(rr, [BlockDirectory(ra, [BlockDirectory(re, [])]), BlockDirectory(rd, [])]) == ExampleTreeOf(s)
  {
    var e := Directory([File(s[5], "i")], "e");
    var a := Directory([File(s[4], "h.lst"), File(s[3], "g"), File(s[2], "f"), e], "a");
    var d := Directory([File(s[9], "k"), File(s[8], "d.ext"), File(s[7], "d.log"), File(s[6], "j")], "d");
    assert BlockDirectory(re, []) == e by {
      BlockDirectoryIs(re, [], [File(s[5], "i")], "e");
      assert [File(s[5], "i")] + [] == [File(s[5], "i")];
    }
    assert BlockDirectory(rd, []) == d by {
      var de := [File(s[9], "k"), File(s[8], "d.ext"), File(s[7], "d.log"), File(s[6], "j")];
      BlockDirectoryIs(rd, [], de, "d");
      assert de + [] == de;
    }
    assert BlockDirectory(ra, [e]) == a by {
      var fa := [File(s[4], "h.lst"), File(s[3], "g"), File(s[2], "f")];
      BlockDirectoryIs(ra, [e], fa, "a");
      assert fa + [e] == a.entries;
    }
    assert BlockDirectory(rr, [a, d]) == ExampleTreeOf(s) by {
      var fr := [File(s[1], "c.dat"), File(s[0], "b.txt")];
      BlockDirectoryIs(rr, [a, d], fr, "/");
      assert fr + [a, d] == ExampleTreeOf(s).entries;
    }
  }

  /** The example session parses to the example tree, whatever the sizes. */
  lemma ExampleSessionParses(s: seq<nat>)
    requires SizesFit(s)
    ensures TranscriptParsable(ExampleSession(s))
    ensures ParseTranscript(ExampleSession(s)) == Ok(ExampleTreeOf(s))
  {
    var t := ExampleSession(s);
    var rd, re, ra, rr := Reverse(DPiece(s)), Reverse(EPiece(s)), Reverse(APiece(s)), Reverse(RootPiece(s));
    ExampleRootBlock(s[0], s[1]);
    ExampleABlock(s[2], s[3], s[4]);
    ExampleEBlock(s[5]);
    ExampleDBlock(s[6], s[7], s[8], s[9]);
    ExampleTreeFromBlocks(s, rd, re, ra, rr);
    assert Stack(t) == [rd, [".."], [".."], re, ra, rr] by {
      assert Reverse(t[4]) == [".."] && Reverse(t[5]) == [".."];
      StackOfSeven(t);
    }
    ExampleStackParses(rd, re, ra, rr);
    TranscriptOfStack(t, ExampleTreeOf(s));
  }

  lemma ExampleParses()
    ensures TranscriptParsable(ExampleTranscript)
    ensures ParseTranscript(ExampleTranscript) == Ok(ExampleTree)
  {
    ExampleSizesFit();
    ExampleSessionParses(ExampleFileSizes);
    ExampleTreeIs();
  }

  lemma ExampleSizesFit()
    ensures SizesFit(ExampleFileSizes)
  {
  }

  /** The example tree is the tree of the example sizes. */
  lemma ExampleTreeIs()
    ensures ExampleTreeOf(ExampleFileSizes) == ExampleTree
  {
  }

  /** Appending an entry adds its size and its directories' sizes. */
  lemma EntriesAppend(es: seq<DirEntry>, e: DirEntry)
    ensures EntriesSize(es + [e]) == EntriesSize(es) + Size(e)
    ensures NestedDirectorySizes(es + [e]) == NestedDirectorySizes(es) + DirectorySizes(e)
  {
    assert (es + [e])[..|es|] == es;
    if e.File? {
      assert NestedDirectorySizes(es) + DirectorySizes(e) == NestedDirectorySizes(es);
    }
  }

  lemma EntriesOfFour(w: DirEntry, x: DirEntry, y: DirEntry, z: DirEntry)
    ensures EntriesSize([w, x, y, z]) == Size(w) + Size(x) + Size(y) + Size(z)
    ensures NestedDirectorySizes([w, x, y, z])
         == DirectorySizes(w) + DirectorySizes(x) + DirectorySizes(y) + DirectorySizes(z)
  {
    EntriesAppend([], w);
    assert [] + [w] == [w];
    EntriesAppend([w], x);
    assert [w] + [x] == [w, x];
    EntriesAppend([w, x], y);
    assert [w, x] + [y] == [w, x, y];
    EntriesAppend([w, x, y], z);
    assert [w, x, y] + [z] == [w, x, y, z];
    assert NestedDirectorySizes([]) + DirectorySizes(w) == DirectorySizes(w);
  }

  /** The example's total size and both answers. */
  lemma ExampleAnswers()
    ensures Size(ExampleTree) == 48381165
    ensures DirectorySizes(ExampleTree) == [584, 94853, 24933642, 48381165]
    ensures SumOfSizesSmallerThan(ExampleTree, 100000) == 95437
    ensures SmallestSizeToDelete(ExampleTree) == 24933642
  {
    ExampleSizes(ExampleTree);
    ExampleStarOne(ExampleTree);
    ExampleStarTwo(ExampleTree);
  }

  lemma ExampleSizes(tree: DirEntry)
    requires tree == ExampleTree
    ensures Size(tree) == 48381165
    ensures DirectorySizes(tree) == [584, 94853, 24933642, 48381165]
  {
    var es := tree.entries;
    var a, d := es[2], es[3];
    var e := a.entries[3];
    assert Size(e) == 584 && DirectorySizes(e) == [584] by {
      assert e.entries[..0] == [];
    }
    EntriesOfFour(a.entries[0], a.entries[1], a.entries[2], a.entries[3]);
    EntriesOfFour(d.entries[0], d.entries[1], d.entries[2], d.entries[3]);
    EntriesOfFour(es[0], es[1], es[2], es[3]);
  }

  lemma ExampleStarOne(tree: DirEntry)
    requires DirectorySizes(tree) == [584, 94853, 24933642, 48381165]
    ensures SumOfSizesSmallerThan(tree, 100000) == 95437
  {
    var sizes := [584, 94853, 24933642, 48381165];
    assert sizes[..3] == [584, 94853, 24933642];
    assert sizes[..3][..2] == [584, 94853];
    assert sizes[..3][..2][..1] == [584];
    assert [584][..0] == [];
    assert AtMost([584], 100000) == [584];
    assert AtMost([584, 94853], 100000) == [584, 94853];
    assert AtMost([584, 94853, 24933642], 100000) == [584, 94853];
    assert AtMost(sizes, 100000) == [584, 94853];
    assert Sum([584, 94853]) == 95437 by { assert [584, 94853][..1] == [584]; }
  }

  lemma ExampleStarTwo(tree: DirEntry)
    requires tree.Directory? && Size(tree) == 48381165
    requires DirectorySizes(tree) == [584, 94853, 24933642, 48381165]
    ensures SmallestSizeToDelete(tree) == 24933642
  {
    LeastCandidate(DirectorySizes(tree), Size(tree) - MAX_USED, SmallestSizeToDelete(tree));
  }

  lemma LeastCandidate(sizes: seq<nat>, needed: int, r: nat)
    requires sizes == [584, 94853, 24933642, 48381165] && needed == 8381165
    requires r in sizes && r >= needed
    requires forall s | s in sizes && s >= needed :: r <= s
    ensures r == 24933642
  {
    assert 24933642 in sizes;
  }
}
