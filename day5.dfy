// Day 5: stacks of crates drawn as text are rebuilt, rearranged by a crane
// following "move N from A to B" instructions, and the top crate of every
// stack is read off.
//
// The input arrives as its lines. The drawing is every line before the
// first empty one; its last line labels the stacks, and each line above
// it holds one 4-character cell per stack ("[X] " or four blanks). The
// instructions are the lines after the empty one.

module Day5 {
  import opened Wrappers
  import opened Text
  import opened Seqs

  datatype CraneModel = CrateMover9000 | CrateMover9001

  /** Move `amount` crates from stack `from` to stack `to`; both 0-based. */
  datatype Instruction = Instruction(amount: nat, from: nat, to: nat)

  // ---------------------------------------------------------------------
  // Reading the drawing

  /** Rust's `char::is_whitespace`: the Unicode White_Space characters. */
  predicate IsWhitespace(c: char)
  {
    ('\t' <= c <= '\r') || c == ' ' || c == '\U{85}' || c == '\U{A0}' ||
    c == '\U{1680}' || ('\U{2000}' <= c <= '\U{200A}') || c == '\U{2028}' ||
    c == '\U{2029}' || c == '\U{202F}' || c == '\U{205F}' || c == '\U{3000}'
  }

  /** The last character of `line.trim()`, if the trimmed line is not empty. */
  function LastVisible(line: string): (r: Option<char>)
    ensures r.Some? <==> exists i | 0 <= i < |line| :: !IsWhitespace(line[i])
    ensures r.Some? ==> !IsWhitespace(r.value) && r.value in line
    decreases |line|
  {
    if line == [] then None
    else if IsWhitespace(line[|line| - 1]) then
      var r := LastVisible(line[..|line| - 1]);
      assert forall i | 0 <= i < |line| - 1 :: line[..|line| - 1][i] == line[i];
      r
    else Some(line[|line| - 1])
  }

  /** The number of stacks named by the legend line: the code of its last
      visible character minus 48, which for a digit is the digit's value. */
  predicate HasStackCount(legend: string)
  {
    var c := LastVisible(legend);
    c.Some? && c.value as int >= 48
  }

  function StackCount(legend: string): (n: nat)
    requires HasStackCount(legend)
    ensures forall d | IsDigit(d) :: LastVisible(legend) == Some(d) ==> n == DigitValue(d)
  {
    LastVisible(legend).value as int - 48
  }

  /** The index of the first empty line, or the number of lines if none is. */
  function FirstEmpty(lines: seq<string>): (k: nat)
    ensures k <= |lines|
    ensures forall i | 0 <= i < k :: lines[i] != ""
    ensures k < |lines| ==> lines[k] == ""
  {
    if lines == [] || lines[0] == "" then 0 else 1 + FirstEmpty(lines[1..])
  }

  /** `s.lines().take_while(|line| !line.is_empty())`. */
  function Drawing(lines: seq<string>): seq<string>
  {
    lines[..FirstEmpty(lines)]
  }

  /** The crate drawn for stack `idx` in `row`: the second character of the
      row's `idx`-th 4-character chunk, unless that is a blank. */
  function CrateAt(row: string, idx: nat): (r: seq<char>)
    ensures |r| <= 1 && (r != [] ==> r[0] != ' ')
  {
    if 4 * idx + 1 < |row| && row[4 * idx + 1] != ' ' then [row[4 * idx + 1]] else []
  }

  /** Stack `idx` as drawn in `rows` (top row first): its crates from the
      bottom row upwards. */
  function Column(rows: seq<string>, idx: nat): (r: seq<char>)
    ensures |r| <= |rows|
    ensures forall i | 0 <= i < |r| :: r[i] != ' '
  {
    if rows == [] then [] else Column(rows[1..], idx) + CrateAt(rows[0], idx)
  }

  /** Reading one more row on top of the rows already read. */
  lemma ColumnStep(row: string, rows: seq<string>, idx: nat)
    ensures Column([row] + rows, idx) == Column(rows, idx) + CrateAt(row, idx)
  {
    assert ([row] + rows)[1..] == rows;
  }

  /** Pushing the crates of the next row up, counted from the bottom, onto
      the columns of the rows below it gives the columns of both. */
  lemma ColumnsAfterRow(above: seq<string>, i: nat, s: seq<seq<char>>, pushed: seq<seq<char>>)
    requires i < |above| && |pushed| == |s|
    requires forall j | 0 <= j < |s| :: s[j] == Column(above[|above| - i..], j)
    requires forall j | 0 <= j < |s| :: pushed[j] == s[j] + CrateAt(above[|above| - 1 - i], j)
    ensures forall j | 0 <= j < |s| :: pushed[j] == Column(above[|above| - (i + 1)..], j)
  {
    var row, done := above[|above| - 1 - i], above[|above| - i..];
    assert above[|above| - (i + 1)..] == [row] + done;
    forall j | 0 <= j < |s|
      ensures pushed[j] == Column(above[|above| - (i + 1)..], j)
    {
      ColumnStep(row, done, j);
    }
  }

  /** A row of the drawing the parser can read for `n` stacks: no chunk is a
      single character, and no crate stands beyond the last stack. */
  predicate ReadableRow(row: string, n: nat)
  {
    |row| % 4 != 1 &&
    forall k | 0 <= k < |row| && k % 4 == 1 && row[k] != ' ' :: k / 4 < n
  }

  /** What `Stacks::from_str` needs to run without panicking: a drawing with
      a legend line naming the stack count, and readable rows above it. */
  predicate ReadableDrawing(lines: seq<string>)
  {
    var d := Drawing(lines);
    |d| > 0 && HasStackCount(d[|d| - 1]) &&
    forall i | 0 <= i < |d| - 1 :: ReadableRow(d[i], StackCount(d[|d| - 1]))
  }

  /** The stacks the drawing shows, bottom crate first. */
  function DrawnStacks(lines: seq<string>): seq<seq<char>>
    requires ReadableDrawing(lines)
  {
    var d := Drawing(lines);
    seq(StackCount(d[|d| - 1]), idx requires 0 <= idx => Column(d[..|d| - 1], idx))
  }

  // ---------------------------------------------------------------------
  // Moving crates

  function Top(stack: seq<char>): char
    requires stack != []
  {
    stack[|stack| - 1]
  }

  /** `move_crates` does not panic: the target stack exists and, unless
      no crate is lifted (the pop loop then never runs and never looks at
      `from`), the source stack exists and holds at least `amount` crates. */
  predicate CanMove(stacks: seq<seq<char>>, ins: Instruction)
  {
    ins.to < |stacks| &&
    (ins.amount == 0 || (ins.from < |stacks| && ins.amount <= |stacks[ins.from]|))
  }

  /** The crates a move lifts: the top `amount` of the source stack. */
  function Lifted(stacks: seq<seq<char>>, ins: Instruction): seq<char>
    requires CanMove(stacks, ins)
  {
    if ins.amount == 0 then []
    else
      var src := stacks[ins.from];
      src[|src| - ins.amount..]
  }

  /** The stacks once the lifted crates are off the source stack. */
  function Emptied(stacks: seq<seq<char>>, ins: Instruction): seq<seq<char>>
    requires CanMove(stacks, ins)
  {
    if ins.amount == 0 then stacks
    else
      var src := stacks[ins.from];
      stacks[ins.from := src[..|src| - ins.amount]]
  }

  /** The state after one move. The 9000 lifts one crate at a time, so the
      lifted crates land in reverse order; the 9001 keeps their order. */
  function Moved(stacks: seq<seq<char>>, ins: Instruction, model: CraneModel): seq<seq<char>>
    requires CanMove(stacks, ins)
  {
    var lifted := Lifted(stacks, ins);
    var placed := if model == CrateMover9000 then Reverse(lifted) else lifted;
    var emptied := Emptied(stacks, ins);
    emptied[ins.to := emptied[ins.to] + placed]
  }

  /** Every instruction can be carried out on the state the earlier ones leave. */
  predicate CanArrange(stacks: seq<seq<char>>, instructions: seq<Instruction>, model: CraneModel)
    decreases |instructions|
  {
    instructions == [] ||
    (CanMove(stacks, instructions[0]) &&
     CanArrange(Moved(stacks, instructions[0], model), instructions[1..], model))
  }

  /** The state after carrying out the instructions in order. */
  function Arranged(stacks: seq<seq<char>>, instructions: seq<Instruction>, model: CraneModel): seq<seq<char>>
    requires CanArrange(stacks, instructions, model)
    decreases |instructions|
  {
    if instructions == [] then stacks
    else Arranged(Moved(stacks, instructions[0], model), instructions[1..], model)
  }

  /** The number of crates on all stacks together. */
  function TotalCrates(stacks: seq<seq<char>>): nat
  {
    if stacks == [] then 0 else TotalCrates(stacks[..|stacks| - 1]) + |stacks[|stacks| - 1]|
  }

  // ---------------------------------------------------------------------
  // The stacks object

  class Stacks {
    /** One sequence per stack, bottom crate first. */
    var stacks: seq<seq<char>>

    /** `Stacks::from_str`: the drawing is read bottom row first, pushing
        each row's crates onto their stacks. */
    constructor (lines: seq<string>)
      requires ReadableDrawing(lines)
      ensures stacks == DrawnStacks(lines)
    {
      var drawing := Drawing(lines);
      var legend := drawing[|drawing| - 1];
      var above := drawing[..|drawing| - 1];
      var n := StackCount(legend);
      var rows := Reverse(above);
      var s: seq<seq<char>> := seq(n, _ => []);
      var i := 0;
      while i < |rows|
        invariant 0 <= i <= |rows|
        invariant |s| == n
        invariant forall j | 0 <= j < n :: s[j] == Column(above[|above| - i..], j)
      {
        var row := rows[i];
        assert row == above[|above| - 1 - i] && ReadableRow(row, n);
        var pushed := PushRow(s, row);
        ColumnsAfterRow(above, i, s, pushed);
        s := pushed;
        i := i + 1;
      }
      assert above[|above| - i..] == above;
      stacks := s;
    }

    /** The inner loop of `from_str`: each crate of one row is pushed onto
        its stack. */
    static method PushRow(s: seq<seq<char>>, row: string) returns (r: seq<seq<char>>)
      requires ReadableRow(row, |s|)
      ensures |r| == |s|
      ensures forall j | 0 <= j < |s| :: r[j] == s[j] + CrateAt(row, j)
    {
      r := s;
      var idx := 0;
      while 4 * idx < |row|
        invariant |r| == |s|
        invariant forall j | 0 <= j < |s| :: r[j] == s[j] + (if j < idx then CrateAt(row, j) else [])
      {
        var c := row[4 * idx + 1];
        if c != ' ' {
          r := r[idx := r[idx] + [c]];
        }
        idx := idx + 1;
      }
    }

    /** The loop of `move_crates`: pops the given number of crates off the
        source stack onto a buffer, the topmost crate first. */
    method PopCrates(ins: Instruction) returns (toMove: seq<char>)
      modifies this
      requires CanMove(stacks, ins)
      ensures toMove == Reverse(Lifted(old(stacks), ins))
      ensures stacks == Emptied(old(stacks), ins)
      ensures forall j | 0 <= j < |stacks| && j != ins.from :: stacks[j] == old(stacks)[j]
    {
      ghost var src := if ins.from < |stacks| then stacks[ins.from] else [];
      toMove := [];
      var k := 0;
      while k < ins.amount
        invariant 0 <= k <= ins.amount
        invariant |stacks| == |old(stacks)|
        invariant ins.from < |stacks| ==> stacks[ins.from] == src[..|src| - k]
        invariant forall j | 0 <= j < |stacks| && j != ins.from :: stacks[j] == old(stacks)[j]
        invariant |toMove| == k
        invariant forall t | 0 <= t < k :: toMove[t] == src[|src| - 1 - t]
      {
        var from := stacks[ins.from];
        var c := from[|from| - 1];
        assert from[..|from| - 1] == src[..|src| - (k + 1)];
        stacks := stacks[ins.from := from[..|from| - 1]];
        toMove := toMove + [c];
        k := k + 1;
      }
      ghost var lifted := Lifted(old(stacks), ins);
      assert forall t | 0 <= t < |toMove| :: toMove[t] == lifted[|lifted| - 1 - t];
      if ins.amount == 0 {
        assert stacks == old(stacks);
      } else {
        assert stacks == old(stacks)[ins.from := src[..|src| - ins.amount]];
      }
    }

    /** `move_crates`: pops the crates one by one onto a buffer, turns the
        buffer round for the 9001, and appends it to the target stack. */
    method MoveCrates(ins: Instruction, model: CraneModel)
      modifies this
      requires CanMove(stacks, ins)
      ensures stacks == Moved(old(stacks), ins, model)
    {
      ghost var lifted := Lifted(stacks, ins);
      var toMove := PopCrates(ins);
      if model == CrateMover9001 {
        ReverseReverse(lifted);
        toMove := Reverse(toMove);
      }
      stacks := stacks[ins.to := stacks[ins.to] + toMove];
    }

    /** `arrange`: every instruction in turn. */
    method Arrange(instructions: seq<Instruction>, model: CraneModel)
      modifies this
      requires CanArrange(stacks, instructions, model)
      ensures stacks == Arranged(old(stacks), instructions, model)
    {
      var i := 0;
      while i < |instructions|
        invariant 0 <= i <= |instructions|
        invariant CanArrange(stacks, instructions[i..], model)
        invariant Arranged(old(stacks), instructions, model) == Arranged(stacks, instructions[i..], model)
      {
        assert instructions[i..][1..] == instructions[i + 1..];
        MoveCrates(instructions[i], model);
        i := i + 1;
      }
    }

    /** `tops`: the top crate of every stack, left to right. */
    function Tops(): (r: string)
      reads this
      requires forall i | 0 <= i < |stacks| :: stacks[i] != []
      ensures |r| == |stacks|
      ensures forall i | 0 <= i < |stacks| :: r[i] == Top(stacks[i])
    {
      var s := stacks;
      seq(|s|, i requires 0 <= i < |s| => Top(s[i]))
    }
  }

  // ---------------------------------------------------------------------
  // Instructions

  /** A line `Instruction::from_str` reads without panicking: at least six
      space-separated words, the second, fourth and sixth of them `usize`
      numbers, the fourth and sixth at least 1. The other words are not
      looked at. */
  predicate IsInstructionLine(line: string)
  {
    var w := Split(line, ' ');
    |w| >= 6 &&
    IsUnsigned(w[1], USIZE_MAX) &&
    IsUnsigned(w[3], USIZE_MAX) && ParseUnsigned(w[3], USIZE_MAX) >= 1 &&
    IsUnsigned(w[5], USIZE_MAX) && ParseUnsigned(w[5], USIZE_MAX) >= 1
  }

  /** `Instruction::from_str`: stacks are numbered from 1 in the text. */
  function ParseInstruction(line: string): (ins: Instruction)
    requires IsInstructionLine(line)
    ensures ins.amount <= USIZE_MAX && ins.from < USIZE_MAX && ins.to < USIZE_MAX
  {
    var w := Split(line, ' ');
    Instruction(ParseUnsigned(w[1], USIZE_MAX),
                ParseUnsigned(w[3], USIZE_MAX) - 1,
                ParseUnsigned(w[5], USIZE_MAX) - 1)
  }

  /** The lines after the first empty one. */
  function InstructionLines(lines: seq<string>): seq<string>
  {
    var k := FirstEmpty(lines);
    if k < |lines| then lines[k + 1..] else []
  }

  /** Every line after the drawing reads as an instruction. */
  predicate InstructionsReadable(lines: seq<string>)
  {
    forall i | 0 <= i < |InstructionLines(lines)| :: IsInstructionLine(InstructionLines(lines)[i])
  }

  /** `parse_instructions`: every line after the drawing is an instruction
      (a line that is not panics in `from_str`, so none is dropped). */
  function ParseInstructions(lines: seq<string>): (r: seq<Instruction>)
    requires InstructionsReadable(lines)
  {
    var body := InstructionLines(lines);
    seq(|body|, i requires 0 <= i < |body| && IsInstructionLine(body[i]) => ParseInstruction(body[i]))
  }

  /** The text of an instruction, as the puzzle writes it. */
  function InstructionText(ins: Instruction): string
  {
    Join(["move", NatToString(ins.amount), "from", NatToString(ins.from + 1),
          "to", NatToString(ins.to + 1)], ' ')
  }

  // ---------------------------------------------------------------------
  // What a move does

  /** Between two different stacks, the lifted crates leave `from` and sit
      on top of `to`, reversed by the 9000 and in order by the 9001; no other
      stack changes. */
  lemma MovedStacks(stacks: seq<seq<char>>, ins: Instruction, model: CraneModel)
    requires CanMove(stacks, ins) && ins.from != ins.to
    ensures var r := Moved(stacks, ins, model);
      |r| == |stacks| &&
      (ins.from < |stacks| ==>
        r[ins.from] + Lifted(stacks, ins) == stacks[ins.from] &&
        |r[ins.from]| == |stacks[ins.from]| - ins.amount) &&
      r[ins.to] == stacks[ins.to] +
        (if model == CrateMover9000 then Reverse(Lifted(stacks, ins)) else Lifted(stacks, ins)) &&
      |r[ins.to]| == |stacks[ins.to]| + ins.amount &&
      forall j | 0 <= j < |stacks| && j != ins.from && j != ins.to :: r[j] == stacks[j]
  {
    if ins.amount > 0 {
      var src := stacks[ins.from];
      assert src[..|src| - ins.amount] + src[|src| - ins.amount..] == src;
    }
  }

  /** A move of no crates needs only the target stack, and changes nothing. */
  lemma MovedNothing(stacks: seq<seq<char>>, ins: Instruction, model: CraneModel)
    requires ins.amount == 0
    ensures CanMove(stacks, ins) <==> ins.to < |stacks|
    ensures CanMove(stacks, ins) ==> Moved(stacks, ins, model) == stacks
  {
    if CanMove(stacks, ins) {
      assert Lifted(stacks, ins) == [];
      assert stacks[ins.to] + [] == stacks[ins.to];
    }
  }

  /** Moving a stack onto itself: the 9001 changes nothing, the 9000 turns
      the lifted crates round in place. */
  lemma MovedOntoItself(stacks: seq<seq<char>>, ins: Instruction, model: CraneModel)
    requires CanMove(stacks, ins) && ins.from == ins.to
    ensures var src := stacks[ins.from];
      Moved(stacks, ins, model) ==
        if model == CrateMover9001 then stacks
        else stacks[ins.from := src[..|src| - ins.amount] + Reverse(Lifted(stacks, ins))]
  {
    var src := stacks[ins.from];
    if ins.amount == 0 {
      MovedNothing(stacks, ins, model);
      assert Reverse(Lifted(stacks, ins)) == [];
      assert src[..|src| - ins.amount] + [] == src;
      assert stacks[ins.from := src] == stacks;
    } else {
      assert src[..|src| - ins.amount] + src[|src| - ins.amount..] == src;
    }
  }

  /** After moving at least one crate between two stacks, the top of `to` is
      the deepest lifted crate for the 9000 and the old top of `from` for
      the 9001. */
  lemma MovedTop(stacks: seq<seq<char>>, ins: Instruction, model: CraneModel)
    requires CanMove(stacks, ins) && ins.from != ins.to && ins.amount > 0
    ensures var src := stacks[ins.from];
      Top(Moved(stacks, ins, model)[ins.to]) ==
        if model == CrateMover9000 then src[|src| - ins.amount] else Top(src)
  {
    MovedStacks(stacks, ins, model);
  }

  /** Moving the same crates back with the same crane restores the stacks. */
  lemma MoveBack(stacks: seq<seq<char>>, ins: Instruction, model: CraneModel)
    requires CanMove(stacks, ins) && ins.from != ins.to
    ensures var back := Instruction(ins.amount, ins.to, ins.from);
      var moved := Moved(stacks, ins, model);
      (CanMove(moved, back) <==> ins.from < |stacks|) &&
      (CanMove(moved, back) ==> Moved(moved, back, model) == stacks)
  {
    if ins.amount == 0 {
      var moved := Moved(stacks, ins, model);
      MovedNothing(stacks, ins, model);
      MovedNothing(moved, Instruction(ins.amount, ins.to, ins.from), model);
    } else {
      MoveBackLifted(stacks, ins, model);
    }
  }

  /** A move of at least one crate, written out. */
  lemma MovedSome(stacks: seq<seq<char>>, ins: Instruction, model: CraneModel)
    requires CanMove(stacks, ins) && ins.amount > 0
    ensures var src := stacks[ins.from];
      var lifted := src[|src| - ins.amount..];
      var emptied := stacks[ins.from := src[..|src| - ins.amount]];
      Lifted(stacks, ins) == lifted &&
      Moved(stacks, ins, model) ==
        emptied[ins.to := emptied[ins.to] + if model == CrateMover9000 then Reverse(lifted) else lifted]
  {
  }

  /** The move back when at least one crate is lifted. */
  lemma MoveBackLifted(stacks: seq<seq<char>>, ins: Instruction, model: CraneModel)
    requires CanMove(stacks, ins) && ins.from != ins.to && ins.amount > 0
    ensures var back := Instruction(ins.amount, ins.to, ins.from);
      var moved := Moved(stacks, ins, model);
      CanMove(moved, back) && Moved(moved, back, model) == stacks
  {
    var src := stacks[ins.from];
    var lifted := src[|src| - ins.amount..];
    if model == CrateMover9000 {
      ReverseReverse(lifted);
      MoveBackWith(stacks, ins, model, Reverse(lifted), lifted);
    } else {
      MoveBackWith(stacks, ins, model, lifted, lifted);
    }
  }

  /** The move back, given the crates the crane puts down each way. */
  lemma MoveBackWith(stacks: seq<seq<char>>, ins: Instruction, model: CraneModel,
                     placed: seq<char>, placedBack: seq<char>)
    requires CanMove(stacks, ins) && ins.from != ins.to && ins.amount > 0
    requires var src := stacks[ins.from];
      var lifted := src[|src| - ins.amount..];
      placed == (if model == CrateMover9000 then Reverse(lifted) else lifted) &&
      placedBack == (if model == CrateMover9000 then Reverse(placed) else placed) &&
      placedBack == lifted
    ensures var back := Instruction(ins.amount, ins.to, ins.from);
      var moved := Moved(stacks, ins, model);
      CanMove(moved, back) && Moved(moved, back, model) == stacks
  {
    var a := ins.amount;
    var back := Instruction(a, ins.to, ins.from);
    var src := stacks[ins.from];
    var moved := stacks[ins.from := src[..|src| - a]][ins.to := stacks[ins.to] + placed];
    UndoMove(stacks, moved, ins.from, ins.to, a, placed, placedBack);
    assert Moved(stacks, ins, model) == moved by { MovedSome(stacks, ins, model); }
    assert CanMove(moved, back);
    var restored := moved[ins.to := moved[ins.to][..|moved[ins.to]| - a]][ins.from := moved[ins.from] + placedBack];
    assert Moved(moved, back, model) == restored by {
      MovedSome(moved, back, model);
    }
  }

  /** Taking `a` crates off `f` and putting `placed` on `t`, then taking
      them off `t` again and putting the original crates back on `f`,
      restores the stacks. */
  lemma UndoMove(stacks: seq<seq<char>>, moved: seq<seq<char>>, f: nat, t: nat, a: nat,
                  placed: seq<char>, placedBack: seq<char>)
    requires f < |stacks| && t < |stacks| && f != t && a <= |stacks[f]| && |placed| == a
    requires placedBack == stacks[f][|stacks[f]| - a..]
    requires moved == stacks[f := stacks[f][..|stacks[f]| - a]][t := stacks[t] + placed]
    ensures |moved| == |stacks| && |moved[t]| >= a && moved[t][|moved[t]| - a..] == placed
    ensures moved[t := moved[t][..|moved[t]| - a]][f := moved[f] + placedBack] == stacks
  {
    var src, dst := stacks[f], stacks[t];
    assert (dst + placed)[|dst + placed| - a..] == placed;
    assert (dst + placed)[..|dst + placed| - a] == dst;
    assert src[..|src| - a] + placedBack == src;
    UndoUpdates(stacks, f, t, src[..|src| - a], dst + placed);
  }

  /** Dropping the head of a concatenation drops the head of its first part. */
  lemma ConcatTail<T>(a: seq<T>, b: seq<T>)
    requires a != []
    ensures a + b != [] && (a + b)[0] == a[0] && (a + b)[1..] == a[1..] + b
  {
  }

  /** Putting back the old values of two updated positions restores a sequence. */
  lemma UndoUpdates<T>(s: seq<T>, i: nat, j: nat, x: T, y: T)
    requires i < |s| && j < |s| && i != j
    ensures s[i := x][j := y][j := s[j]][i := s[i]] == s
  {
  }

  /** Replacing one stack changes the total by the difference in height. */
  lemma {:induction false} TotalCratesUpdate(stacks: seq<seq<char>>, i: nat, s: seq<char>)
    requires i < |stacks|
    ensures TotalCrates(stacks[i := s]) + |stacks[i]| == TotalCrates(stacks) + |s|
    decreases |stacks|
  {
    var last := |stacks| - 1;
    assert stacks[i := s][..last] == if i == last then stacks[..last] else stacks[..last][i := s];
    if i < last {
      TotalCratesUpdate(stacks[..last], i, s);
    }
  }

  /** A move never creates or destroys crates. */
  lemma MovedTotal(stacks: seq<seq<char>>, ins: Instruction, model: CraneModel)
    requires CanMove(stacks, ins)
    ensures TotalCrates(Moved(stacks, ins, model)) == TotalCrates(stacks)
  {
    if ins.amount == 0 {
      MovedNothing(stacks, ins, model);
      return;
    }
    var src := stacks[ins.from];
    var emptied := stacks[ins.from := src[..|src| - ins.amount]];
    TotalCratesUpdate(stacks, ins.from, src[..|src| - ins.amount]);
    var placed := if model == CrateMover9000 then Reverse(Lifted(stacks, ins)) else Lifted(stacks, ins);
    TotalCratesUpdate(emptied, ins.to, emptied[ins.to] + placed);
  }

  /** Neither does a whole arrangement. */
  lemma {:induction false} ArrangedTotal(stacks: seq<seq<char>>, instructions: seq<Instruction>, model: CraneModel)
    requires CanArrange(stacks, instructions, model)
    ensures TotalCrates(Arranged(stacks, instructions, model)) == TotalCrates(stacks)
    ensures |Arranged(stacks, instructions, model)| == |stacks|
    decreases |instructions|
  {
    if instructions != [] {
      MovedTotal(stacks, instructions[0], model);
      ArrangedTotal(Moved(stacks, instructions[0], model), instructions[1..], model);
    }
  }

  /** Arranging by two lists of instructions one after the other is
      arranging by the two lists joined. */
  lemma {:induction false} ArrangedConcat(stacks: seq<seq<char>>, a: seq<Instruction>, b: seq<Instruction>, model: CraneModel)
    requires CanArrange(stacks, a, model)
    requires CanArrange(Arranged(stacks, a, model), b, model)
    ensures CanArrange(stacks, a + b, model)
    ensures Arranged(stacks, a + b, model) == Arranged(Arranged(stacks, a, model), b, model)
    decreases |a|
  {
    if a == [] {
      assert a + b == b;
    } else {
      var next := Moved(stacks, a[0], model);
      ArrangedConcat(next, a[1..], b, model);
      ArrangedConcatStep(stacks, next, a, b, model);
    }
  }

  /** One instruction of the first list, the rest joined by induction. */
  lemma ArrangedConcatStep(stacks: seq<seq<char>>, next: seq<seq<char>>, a: seq<Instruction>, b: seq<Instruction>,
                           model: CraneModel)
    requires a != [] && CanMove(stacks, a[0]) && next == Moved(stacks, a[0], model)
    requires CanArrange(stacks, a, model) && CanArrange(Arranged(stacks, a, model), b, model)
    requires CanArrange(next, a[1..], model)
    requires CanArrange(next, a[1..] + b, model)
    requires Arranged(next, a[1..] + b, model) == Arranged(Arranged(next, a[1..], model), b, model)
    ensures CanArrange(stacks, a + b, model)
    ensures Arranged(stacks, a + b, model) == Arranged(Arranged(stacks, a, model), b, model)
  {
    var c := a + b;
    ConcatTail(a, b);
    assert CanArrange(stacks, c, model);
    assert Arranged(stacks, c, model) == Arranged(next, a[1..] + b, model);
    assert Arranged(stacks, a, model) == Arranged(next, a[1..], model);
  }

  // ---------------------------------------------------------------------
  // Instruction text

  /** Parsing the text of an instruction gives the instruction back. */
  lemma InstructionTextParses(ins: Instruction)
    requires ins.amount <= USIZE_MAX && ins.from < USIZE_MAX && ins.to < USIZE_MAX
    ensures IsInstructionLine(InstructionText(ins))
    ensures ParseInstruction(InstructionText(ins)) == ins
  {
    var a, f, t := NatToString(ins.amount), NatToString(ins.from + 1), NatToString(ins.to + 1);
    var w := ["move", a, "from", f, "to", t];
    assert Split(InstructionText(ins), ' ') == w by {
      NatToStringNoBlank(ins.amount);
      NatToStringNoBlank(ins.from + 1);
      NatToStringNoBlank(ins.to + 1);
      assert forall i | 0 <= i < |w| :: ' ' !in w[i];
      SplitJoin(w, ' ');
    }
    NatToStringParses(ins.amount, USIZE_MAX);
    NatToStringParses(ins.from + 1, USIZE_MAX);
    NatToStringParses(ins.to + 1, USIZE_MAX);
  }

  /** The index of the first empty line does not look past it. */
  lemma {:induction false} FirstEmptyAt(drawing: seq<string>, rest: seq<string>)
    requires forall i | 0 <= i < |drawing| :: drawing[i] != ""
    ensures FirstEmpty(drawing + [""] + rest) == |drawing|
    decreases |drawing|
  {
    var lines := drawing + [""] + rest;
    if drawing != [] {
      assert lines[1..] == drawing[1..] + [""] + rest;
      FirstEmptyAt(drawing[1..], rest);
    }
  }

  /** The instructions written out below a drawing and an empty line are
      read back in order. */
  lemma ParseInstructionTexts(drawing: seq<string>, texts: seq<string>, instructions: seq<Instruction>)
    requires forall i | 0 <= i < |drawing| :: drawing[i] != ""
    requires |texts| == |instructions|
    requires forall i | 0 <= i < |instructions| ::
      instructions[i].amount <= USIZE_MAX && instructions[i].from < USIZE_MAX && instructions[i].to < USIZE_MAX &&
      texts[i] == InstructionText(instructions[i])
    ensures var lines := drawing + [""] + texts;
      InstructionsReadable(lines) &&
      ParseInstructions(lines) == instructions
  {
    var lines := drawing + [""] + texts;
    FirstEmptyAt(drawing, texts);
    assert InstructionLines(lines) == texts;
    forall i | 0 <= i < |instructions|
      ensures IsInstructionLine(texts[i]) && ParseInstruction(texts[i]) == instructions[i]
    {
      InstructionTextParses(instructions[i]);
    }
  }

  // ---------------------------------------------------------------------
  // The puzzle's example

  /** The example's drawing, with its six crate labels left open. */
  function ExampleDrawingOf(z: char, n: char, m: char, c: char, d: char, p: char): seq<string>
  {
    [ "    [" + [d] + "]    ",
      "[" + [n] + "] [" + [c] + "]    ",
      "[" + [z] + "] [" + [m] + "] [" + [p] + "]",
      " 1   2   3 " ]
  }

  const ExampleInstructionLines: seq<string> := [
    "move 1 from 2 to 1",
    "move 3 from 1 to 3",
    "move 2 from 2 to 1",
    "move 1 from 1 to 2"
  ]

  /** The example's input, its drawing followed by the given instruction lines. */
  function ExampleInputOf(z: char, n: char, m: char, c: char, d: char, p: char, texts: seq<string>): seq<string>
  {
    ExampleDrawingOf(z, n, m, c, d, p) + [""] + texts
  }

  /** Lines that are the texts of the example's instructions. */
  predicate ExampleTexts(texts: seq<string>)
  {
    |texts| == 4 && forall i | 0 <= i < 4 :: texts[i] == InstructionText(ExampleInstructions[i])
  }

  /** The example input, line by line. */
  const ExampleLines: seq<string> := [
    "    [D]    ",
    "[N] [C]    ",
    "[Z] [M] [P]",
    " 1   2   3 ",
    "",
    "move 1 from 2 to 1",
    "move 3 from 1 to 3",
    "move 2 from 2 to 1",
    "move 1 from 1 to 2"
  ]

  lemma ExampleLinesAre()
    ensures ExampleInputOf('Z', 'N', 'M', 'C', 'D', 'P', ExampleInstructionLines) == ExampleLines
  {
    var drawing := ExampleDrawingOf('Z', 'N', 'M', 'C', 'D', 'P');
    assert drawing[0] == "    [D]    ";
    assert drawing[1] == "[N] [C]    ";
    assert drawing[2] == "[Z] [M] [P]";
  }

  const ExampleInstructions: seq<Instruction> :=
    [Instruction(1, 1, 0), Instruction(3, 0, 2), Instruction(2, 1, 0), Instruction(1, 0, 1)]

  /** A drawing three rows high, read column by column. */
  lemma ColumnOfThree(top: string, middle: string, bottom: string, idx: nat)
    ensures Column([top, middle, bottom], idx) == CrateAt(bottom, idx) + CrateAt(middle, idx) + CrateAt(top, idx)
  {
    ColumnStep(top, [middle, bottom], idx);
    ColumnStep(middle, [bottom], idx);
    ColumnStep(bottom, [], idx);
    assert [top] + [middle, bottom] == [top, middle, bottom];
    assert [middle] + [bottom] == [middle, bottom];
    assert [bottom] + [] == [bottom];
  }

  /** The example's drawing ends at its blank line; its legend names three stacks. */
  lemma ExampleLegend(z: char, n: char, m: char, c: char, d: char, p: char, texts: seq<string>)
    ensures Drawing(ExampleInputOf(z, n, m, c, d, p, texts)) == ExampleDrawingOf(z, n, m, c, d, p)
    ensures HasStackCount(" 1   2   3 ") && StackCount(" 1   2   3 ") == 3
  {
    FirstEmptyAt(ExampleDrawingOf(z, n, m, c, d, p), texts);
    assert LastVisible(" 1   2   3 ") == Some('3');
  }

  /** The crates of the example's rows, column by column. */
  lemma ExampleColumns(z: char, n: char, m: char, c: char, d: char, p: char)
    requires z != ' ' && n != ' ' && m != ' ' && c != ' ' && d != ' ' && p != ' '
    ensures var rows := ExampleDrawingOf(z, n, m, c, d, p)[..3];
      Column(rows, 0) == [z, n] && Column(rows, 1) == [m, c, d] && Column(rows, 2) == [p]
  {
    var drawing := ExampleDrawingOf(z, n, m, c, d, p);
    var top, middle, bottom := drawing[0], drawing[1], drawing[2];
    assert drawing[..3] == [top, middle, bottom];
    ColumnOfThree(top, middle, bottom, 0);
    ColumnOfThree(top, middle, bottom, 1);
    ColumnOfThree(top, middle, bottom, 2);
    assert CrateAt(bottom, 0) == [z] && CrateAt(middle, 0) == [n] && CrateAt(top, 0) == [];
    assert CrateAt(bottom, 1) == [m] && CrateAt(middle, 1) == [c] && CrateAt(top, 1) == [d];
    assert CrateAt(bottom, 2) == [p] && CrateAt(middle, 2) == [] && CrateAt(top, 2) == [];
  }

  /** A drawing of a legend and readable rows above it can be read. */
  lemma ReadableDrawingOf(lines: seq<string>, drawing: seq<string>)
    requires Drawing(lines) == drawing && |drawing| > 0 && HasStackCount(drawing[|drawing| - 1])
    requires forall i | 0 <= i < |drawing| - 1 :: ReadableRow(drawing[i], StackCount(drawing[|drawing| - 1]))
    ensures ReadableDrawing(lines)
  {
  }

  /** The stacks of a readable drawing are the columns of its rows. */
  lemma DrawnStacksOf(lines: seq<string>, drawing: seq<string>)
    requires ReadableDrawing(lines) && Drawing(lines) == drawing
    ensures |DrawnStacks(lines)| == StackCount(drawing[|drawing| - 1])
    ensures forall idx | 0 <= idx < |DrawnStacks(lines)| ::
      DrawnStacks(lines)[idx] == Column(drawing[..|drawing| - 1], idx)
  {
  }

  lemma ExampleDrawing(z: char, n: char, m: char, c: char, d: char, p: char, texts: seq<string>)
    requires z != ' ' && n != ' ' && m != ' ' && c != ' ' && d != ' ' && p != ' '
    ensures ReadableDrawing(ExampleInputOf(z, n, m, c, d, p, texts))
    ensures DrawnStacks(ExampleInputOf(z, n, m, c, d, p, texts)) == [[z, n], [m, c, d], [p]]
  {
    var lines, drawing := ExampleInputOf(z, n, m, c, d, p, texts), ExampleDrawingOf(z, n, m, c, d, p);
    assert Drawing(lines) == drawing && |drawing| == 4 && StackCount(drawing[3]) == 3 &&
      HasStackCount(drawing[3]) by {
      ExampleLegend(z, n, m, c, d, p, texts);
      assert drawing[3] == " 1   2   3 ";
    }
    assert forall i | 0 <= i < 3 :: ReadableRow(drawing[i], 3) by {
      assert forall i | 0 <= i < 3 :: |drawing[i]| == 11;
    }
    ReadableDrawingOf(lines, drawing);
    var rows := drawing[..3];
    assert Column(rows, 0) == [z, n] && Column(rows, 1) == [m, c, d] && Column(rows, 2) == [p] by {
      ExampleColumns(z, n, m, c, d, p);
    }
    var r := DrawnStacks(lines);
    assert |r| == 3 && r[0] == [z, n] && r[1] == [m, c, d] && r[2] == [p] by {
      DrawnStacksOf(lines, drawing);
    }
    ThreeStacks(r);
  }

  lemma ThreeStacks(r: seq<seq<char>>)
    requires |r| == 3
    ensures r == [r[0], r[1], r[2]]
  {
  }

  /** A line reads as an instruction's text once its numbers are known. */
  lemma TextOfNumbers(ins: Instruction, line: string, a: string, f: string, t: string)
    requires NatToString(ins.amount) == a && NatToString(ins.from + 1) == f && NatToString(ins.to + 1) == t
    requires line == "move" + [' '] + a + [' '] + "from" + [' '] + f + [' '] + "to" + [' '] + t
    ensures InstructionText(ins) == line
  {
    JoinSix("move", a, "from", f, "to", t, ' ');
  }

  /** The example's instruction lines are the texts of its instructions. */
  lemma ExampleText0()
    ensures InstructionText(ExampleInstructions[0]) == ExampleInstructionLines[0]
  {
    assert NatToString(1) == "1" && NatToString(2) == "2";
    TextOfNumbers(Instruction(1, 1, 0), "move 1 from 2 to 1", "1", "2", "1");
  }

  lemma ExampleText1()
    ensures InstructionText(ExampleInstructions[1]) == ExampleInstructionLines[1]
  {
    assert NatToString(1) == "1" && NatToString(3) == "3";
    TextOfNumbers(Instruction(3, 0, 2), "move 3 from 1 to 3", "3", "1", "3");
  }

  lemma ExampleText2()
    ensures InstructionText(ExampleInstructions[2]) == ExampleInstructionLines[2]
  {
    assert NatToString(1) == "1" && NatToString(2) == "2";
    TextOfNumbers(Instruction(2, 1, 0), "move 2 from 2 to 1", "2", "2", "1");
  }

  lemma ExampleText3()
    ensures InstructionText(ExampleInstructions[3]) == ExampleInstructionLines[3]
  {
    assert NatToString(1) == "1" && NatToString(2) == "2";
    TextOfNumbers(Instruction(1, 0, 1), "move 1 from 1 to 2", "1", "1", "2");
  }

  lemma ExampleText(i: nat)
    requires i < 4
    ensures InstructionText(ExampleInstructions[i]) == ExampleInstructionLines[i]
  {
    if i == 0 { ExampleText0(); }
    else if i == 1 { ExampleText1(); }
    else if i == 2 { ExampleText2(); }
    else { ExampleText3(); }
  }

  /** The example's instruction lines are the texts of its instructions. */
  lemma ExampleLinesAreTexts()
    ensures ExampleTexts(ExampleInstructionLines)
  {
    forall i | 0 <= i < 4
      ensures ExampleInstructionLines[i] == InstructionText(ExampleInstructions[i])
    {
      ExampleText(i);
    }
  }

  lemma ExampleInstructionsParse(z: char, n: char, m: char, c: char, d: char, p: char, texts: seq<string>)
    requires ExampleTexts(texts)
    ensures var lines := ExampleInputOf(z, n, m, c, d, p, texts);
      InstructionsReadable(lines) &&
      ParseInstructions(lines) == ExampleInstructions
  {
    var drawing := ExampleDrawingOf(z, n, m, c, d, p);
    assert forall i | 0 <= i < |drawing| :: |drawing[i]| == 11;
    ParseInstructionTexts(drawing, texts, ExampleInstructions);
  }

  /** Carrying out four instructions is carrying them out one by one. */
  lemma ArrangedFour(s0: seq<seq<char>>, s1: seq<seq<char>>, s2: seq<seq<char>>, s3: seq<seq<char>>, s4: seq<seq<char>>,
                     instructions: seq<Instruction>, model: CraneModel)
    requires |instructions| == 4
    requires CanMove(s0, instructions[0]) && Moved(s0, instructions[0], model) == s1
    requires CanMove(s1, instructions[1]) && Moved(s1, instructions[1], model) == s2
    requires CanMove(s2, instructions[2]) && Moved(s2, instructions[2], model) == s3
    requires CanMove(s3, instructions[3]) && Moved(s3, instructions[3], model) == s4
    ensures CanArrange(s0, instructions, model) && Arranged(s0, instructions, model) == s4
  {
    var i0, i1, i2, i3 := instructions[0], instructions[1], instructions[2], instructions[3];
    assert CanArrange(s4, [], model) && Arranged(s4, [], model) == s4;
    ArrangedOne(s3, i3, [], model, s4);
    assert [i3] + [] == [i3];
    ArrangedOne(s2, i2, [i3], model, s4);
    ArrangedOne(s1, i1, [i2, i3], model, s4);
    ArrangedOne(s0, i0, [i1, i2, i3], model, s4);
    assert instructions == [i0] + [i1, i2, i3];
  }

  /** Carrying out one instruction and then the rest. */
  lemma ArrangedOne(stacks: seq<seq<char>>, ins: Instruction, rest: seq<Instruction>, model: CraneModel,
                    final: seq<seq<char>>)
    requires CanMove(stacks, ins)
    requires CanArrange(Moved(stacks, ins, model), rest, model)
    requires Arranged(Moved(stacks, ins, model), rest, model) == final
    ensures CanArrange(stacks, [ins] + rest, model) && Arranged(stacks, [ins] + rest, model) == final
  {
    ConcatTail([ins], rest);
    assert [ins][1..] + rest == rest;
  }

  /** A move between two different stacks, checked stack by stack. */
  lemma MovedTo(stacks: seq<seq<char>>, ins: Instruction, model: CraneModel, placed: seq<char>, after: seq<seq<char>>)
    requires CanMove(stacks, ins) && ins.from != ins.to && ins.from < |stacks|
    requires placed == if model == CrateMover9000 then Reverse(Lifted(stacks, ins)) else Lifted(stacks, ins)
    requires |after| == |stacks|
    requires after[ins.from] + Lifted(stacks, ins) == stacks[ins.from]
    requires after[ins.to] == stacks[ins.to] + placed
    requires forall j | 0 <= j < |stacks| && j != ins.from && j != ins.to :: after[j] == stacks[j]
    ensures Moved(stacks, ins, model) == after
  {
    MovedStacks(stacks, ins, model);
    var r := Moved(stacks, ins, model);
    assert r[ins.from] == after[ins.from];
  }

  /** The example's moves, one at a time, for any crate labels. */
  lemma Example9000Move1(z: char, n: char, m: char, c: char, d: char, p: char)
    ensures CanMove([[z, n], [m, c, d], [p]], Instruction(1, 1, 0))
    ensures Moved([[z, n], [m, c, d], [p]], Instruction(1, 1, 0), CrateMover9000) == [[z, n, d], [m, c], [p]]
  {
    ReverseOne(d);
    MovedTo([[z, n], [m, c, d], [p]], Instruction(1, 1, 0), CrateMover9000, [d], [[z, n, d], [m, c], [p]]);
  }

  lemma Example9000Move2(z: char, n: char, m: char, c: char, d: char, p: char)
    ensures CanMove([[z, n, d], [m, c], [p]], Instruction(3, 0, 2))
    ensures Moved([[z, n, d], [m, c], [p]], Instruction(3, 0, 2), CrateMover9000) == [[], [m, c], [p, d, n, z]]
  {
    ReverseThree(z, n, d);
    MovedTo([[z, n, d], [m, c], [p]], Instruction(3, 0, 2), CrateMover9000, [d, n, z], [[], [m, c], [p, d, n, z]]);
  }

  lemma Example9000Move3(z: char, n: char, m: char, c: char, d: char, p: char)
    ensures CanMove([[], [m, c], [p, d, n, z]], Instruction(2, 1, 0))
    ensures Moved([[], [m, c], [p, d, n, z]], Instruction(2, 1, 0), CrateMover9000) == [[c, m], [], [p, d, n, z]]
  {
    ReverseTwo(m, c);
    MovedTo([[], [m, c], [p, d, n, z]], Instruction(2, 1, 0), CrateMover9000, [c, m], [[c, m], [], [p, d, n, z]]);
  }

  lemma Example9000Move4(z: char, n: char, m: char, c: char, d: char, p: char)
    ensures CanMove([[c, m], [], [p, d, n, z]], Instruction(1, 0, 1))
    ensures Moved([[c, m], [], [p, d, n, z]], Instruction(1, 0, 1), CrateMover9000) == [[c], [m], [p, d, n, z]]
  {
    ReverseOne(m);
    MovedTo([[c, m], [], [p, d, n, z]], Instruction(1, 0, 1), CrateMover9000, [m], [[c], [m], [p, d, n, z]]);
  }

  lemma Example9001Move1(z: char, n: char, m: char, c: char, d: char, p: char)
    ensures CanMove([[z, n], [m, c, d], [p]], Instruction(1, 1, 0))
    ensures Moved([[z, n], [m, c, d], [p]], Instruction(1, 1, 0), CrateMover9001) == [[z, n, d], [m, c], [p]]
  {
    MovedTo([[z, n], [m, c, d], [p]], Instruction(1, 1, 0), CrateMover9001, [d], [[z, n, d], [m, c], [p]]);
  }

  lemma Example9001Move2(z: char, n: char, m: char, c: char, d: char, p: char)
    ensures CanMove([[z, n, d], [m, c], [p]], Instruction(3, 0, 2))
    ensures Moved([[z, n, d], [m, c], [p]], Instruction(3, 0, 2), CrateMover9001) == [[], [m, c], [p, z, n, d]]
  {
    MovedTo([[z, n, d], [m, c], [p]], Instruction(3, 0, 2), CrateMover9001, [z, n, d], [[], [m, c], [p, z, n, d]]);
  }

  lemma Example9001Move3(z: char, n: char, m: char, c: char, d: char, p: char)
    ensures CanMove([[], [m, c], [p, z, n, d]], Instruction(2, 1, 0))
    ensures Moved([[], [m, c], [p, z, n, d]], Instruction(2, 1, 0), CrateMover9001) == [[m, c], [], [p, z, n, d]]
  {
    MovedTo([[], [m, c], [p, z, n, d]], Instruction(2, 1, 0), CrateMover9001, [m, c], [[m, c], [], [p, z, n, d]]);
  }

  lemma Example9001Move4(z: char, n: char, m: char, c: char, d: char, p: char)
    ensures CanMove([[m, c], [], [p, z, n, d]], Instruction(1, 0, 1))
    ensures Moved([[m, c], [], [p, z, n, d]], Instruction(1, 0, 1), CrateMover9001) == [[m], [c], [p, z, n, d]]
  {
    MovedTo([[m, c], [], [p, z, n, d]], Instruction(1, 0, 1), CrateMover9001, [c], [[m], [c], [p, z, n, d]]);
  }

  lemma ExampleMoves9000(z: char, n: char, m: char, c: char, d: char, p: char)
    ensures CanArrange([[z, n], [m, c, d], [p]], ExampleInstructions, CrateMover9000)
    ensures Arranged([[z, n], [m, c, d], [p]], ExampleInstructions, CrateMover9000) == [[c], [m], [p, d, n, z]]
  {
    Example9000Move1(z, n, m, c, d, p);
    Example9000Move2(z, n, m, c, d, p);
    Example9000Move3(z, n, m, c, d, p);
    Example9000Move4(z, n, m, c, d, p);
    ArrangedFour([[z, n], [m, c, d], [p]], [[z, n, d], [m, c], [p]], [[], [m, c], [p, d, n, z]],
      [[c, m], [], [p, d, n, z]], [[c], [m], [p, d, n, z]], ExampleInstructions, CrateMover9000);
  }

  lemma ExampleMoves9001(z: char, n: char, m: char, c: char, d: char, p: char)
    ensures CanArrange([[z, n], [m, c, d], [p]], ExampleInstructions, CrateMover9001)
    ensures Arranged([[z, n], [m, c, d], [p]], ExampleInstructions, CrateMover9001) == [[m], [c], [p, z, n, d]]
  {
    Example9001Move1(z, n, m, c, d, p);
    Example9001Move2(z, n, m, c, d, p);
    Example9001Move3(z, n, m, c, d, p);
    Example9001Move4(z, n, m, c, d, p);
    ArrangedFour([[z, n], [m, c, d], [p]], [[z, n, d], [m, c], [p]], [[], [m, c], [p, z, n, d]],
      [[m, c], [], [p, z, n, d]], [[m], [c], [p, z, n, d]], ExampleInstructions, CrateMover9001);
  }

  /** The tops of three stacks, read off one by one. */
  lemma TopsOfThree(stacks: seq<seq<char>>, tops: string)
    requires |stacks| == 3 && |tops| == 3
    requires forall i | 0 <= i < 3 :: stacks[i] != [] && tops[i] == Top(stacks[i])
    ensures tops == [Top(stacks[0]), Top(stacks[1]), Top(stacks[2])]
  {
  }

  /** Every stack holds a crate. */
  predicate NoneEmpty(stacks: seq<seq<char>>)
  {
    forall i | 0 <= i < |stacks| :: stacks[i] != []
  }

  lemma NoneEmptyThree(a: seq<char>, b: seq<char>, c: seq<char>)
    requires a != [] && b != [] && c != []
    ensures NoneEmpty([a, b, c])
  {
  }

  /** An input the tests' steps run through without panicking. */
  predicate Solvable(lines: seq<string>, model: CraneModel)
  {
    ReadableDrawing(lines) &&
    InstructionsReadable(lines) &&
    CanArrange(DrawnStacks(lines), ParseInstructions(lines), model) &&
    NoneEmpty(Arranged(DrawnStacks(lines), ParseInstructions(lines), model))
  }

  /** The stacks once the input's instructions are carried out on its drawing. */
  function FinalStacks(lines: seq<string>, model: CraneModel): seq<seq<char>>
    requires Solvable(lines, model)
  {
    Arranged(DrawnStacks(lines), ParseInstructions(lines), model)
  }

  /** What the tests do with an input: build the stacks, read the
      instructions, arrange with the given crane and read off the tops. */
  method Solve(lines: seq<string>, model: CraneModel) returns (tops: string)
    requires Solvable(lines, model)
    ensures |tops| == |FinalStacks(lines, model)|
    ensures forall i | 0 <= i < |tops| :: tops[i] == Top(FinalStacks(lines, model)[i])
  {
    var stacks := new Stacks(lines);
    var instructions := ParseInstructions(lines);
    stacks.Arrange(instructions, model);
    tops := stacks.Tops();
  }

  /** Solving an input whose stacks, instructions and outcome are known
      reads the tops off that outcome. */
  method SolveKnown(lines: seq<string>, model: CraneModel, stacks: seq<seq<char>>,
                    instructions: seq<Instruction>, final: seq<seq<char>>) returns (tops: string)
    requires ReadableDrawing(lines) && DrawnStacks(lines) == stacks
    requires InstructionsReadable(lines) && ParseInstructions(lines) == instructions
    requires CanArrange(stacks, instructions, model) && Arranged(stacks, instructions, model) == final
    requires NoneEmpty(final)
    ensures |tops| == |final| && forall i | 0 <= i < |tops| :: tops[i] == Top(final[i])
  {
    tops := Solve(lines, model);
  }

  /** The example for any crate labels: the 9000 leaves the labels of the
      crates drawn as C, M and Z on top, the 9001 those drawn as M, C, D. */
  method ExampleOf(z: char, n: char, m: char, c: char, d: char, p: char, texts: seq<string>)
    returns (tops9000: string, tops9001: string)
    requires z != ' ' && n != ' ' && m != ' ' && c != ' ' && d != ' ' && p != ' '
    requires ExampleTexts(texts)
    ensures tops9000 == [c, m, z] && tops9001 == [m, c, d]
  {
    var lines := ExampleInputOf(z, n, m, c, d, p, texts);
    var stacks: seq<seq<char>> := [[z, n], [m, c, d], [p]];
    var final9000: seq<seq<char>> := [[c], [m], [p, d, n, z]];
    var final9001: seq<seq<char>> := [[m], [c], [p, z, n, d]];
    ExampleDrawing(z, n, m, c, d, p, texts);
    ExampleInstructionsParse(z, n, m, c, d, p, texts);
    ExampleMoves9000(z, n, m, c, d, p);
    ExampleMoves9001(z, n, m, c, d, p);
    NoneEmptyThree(final9000[0], final9000[1], final9000[2]);
    NoneEmptyThree(final9001[0], final9001[1], final9001[2]);
    tops9000 := SolveKnown(lines, CrateMover9000, stacks, ExampleInstructions, final9000);
    TopsOfThree(final9000, tops9000);
    tops9001 := SolveKnown(lines, CrateMover9001, stacks, ExampleInstructions, final9001);
    TopsOfThree(final9001, tops9001);
  }

  /** The example as the puzzle states it: the 9000 leaves "CMZ" on top,
      the 9001 "MCD". */
  method Example() returns (tops9000: string, tops9001: string)
    ensures tops9000 == "CMZ" && tops9001 == "MCD"
  {
    ExampleLinesAreTexts();
    tops9000, tops9001 := ExampleOf('Z', 'N', 'M', 'C', 'D', 'P', ExampleInstructionLines);
  }
}
