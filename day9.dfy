// Day 9: a rope of knots on the integer grid. The head follows "L 4"-style
// instructions one unit step at a time; every other knot is pulled after
// the knot before it so that neighbouring knots always touch, and the
// positions the last knot (the tail) has visited are collected.
//
// Distances are Chebyshev (L-infinity) distances: two knots touch when
// they are at distance at most 1, diagonals included.

module Day9 {
  import opened Wrappers
  import opened Text

  datatype Direction = Left | Right | Up | Down

  /** Move the head `amount` unit steps towards `direction`. */
  datatype Instruction = Instruction(direction: Direction, amount: nat)

  // ---------------------------------------------------------------------
  // Reading instructions

  /** The one-letter word naming a direction. */
  function DirectionWord(d: Direction): string
  {
    match d
    case Left => "L"
    case Right => "R"
    case Up => "U"
    case Down => "D"
  }

  /** The direction match of `Instruction::from_str`: "L", "R", "U" and "D"
      name directions; any other word is the error, as it stands. */
  function ParseDirection(word: string): (r: Result<Direction, string>)
    ensures r.Ok? <==> exists d: Direction :: DirectionWord(d) == word
    ensures r.Ok? ==> DirectionWord(r.value) == word
    ensures r.Err? ==> r.error == word
  {
    if word == "L" then assert DirectionWord(Left) == word; Ok(Left)
    else if word == "R" then assert DirectionWord(Right) == word; Ok(Right)
    else if word == "U" then assert DirectionWord(Up) == word; Ok(Up)
    else if word == "D" then assert DirectionWord(Down) == word; Ok(Down)
    else
      assert forall d: Direction :: DirectionWord(d) != word;
      Err(word)
  }

  /** A line `Instruction::from_str` does not panic on: either its first
      word is no direction (an error is returned before the amount is
      read), or a second word follows that parses as a `usize`. */
  predicate Readable(line: string)
  {
    var words := Split(line, ' ');
    ParseDirection(words[0]).Err? || (|words| >= 2 && IsUnsigned(words[1], USIZE_MAX))
  }

  /** `Instruction::from_str`: the direction from the first word, the amount
      from the second; words after the second are not looked at. */
  function ParseInstruction(line: string): (r: Result<Instruction, string>)
    requires Readable(line)
    ensures r.Err? <==> ParseDirection(Split(line, ' ')[0]).Err?
    ensures r.Err? ==> r.error == Split(line, ' ')[0]
    ensures r.Ok? ==> r.value.amount <= USIZE_MAX
  {
    var words := Split(line, ' ');
    match ParseDirection(words[0])
    case Err(e) => Err(e)
    case Ok(d) => Ok(Instruction(d, ParseUnsigned(words[1], USIZE_MAX)))
  }

  /** The text of an instruction: its direction's word and its amount. */
  function InstructionText(ins: Instruction): string
  {
    DirectionWord(ins.direction) + " " + NatToString(ins.amount)
  }

  /** Reading the text of an instruction gives the instruction back. */
  lemma InstructionTextParses(ins: Instruction)
    requires ins.amount <= USIZE_MAX
    ensures Readable(InstructionText(ins)) && ParseInstruction(InstructionText(ins)) == Ok(ins)
  {
    var w, a := DirectionWord(ins.direction), NatToString(ins.amount);
    assert ' ' !in w && ' ' !in a;
    assert InstructionText(ins) == Join([w, a], ' ');
    SplitJoin([w, a], ' ');
    NatToStringParses(ins.amount, USIZE_MAX);
  }

  /** `parse_instructions`: every line that reads as an instruction, in
      order; lines whose first word is no direction are dropped. */
  function ParseInstructions(lines: seq<string>): (r: seq<Instruction>)
    requires forall i | 0 <= i < |lines| :: Readable(lines[i])
    ensures |r| <= |lines|
    ensures forall k | 0 <= k < |r| :: r[k].amount <= USIZE_MAX
    decreases |lines|
  {
    if lines == [] then []
    else
      var rest := ParseInstructions(lines[1..]);
      match ParseInstruction(lines[0])
      case Ok(ins) => [ins] + rest
      case Err(_) => rest
  }

  /** Reading lines one after the other is reading them together. */
  lemma {:induction false} ParseInstructionsConcat(a: seq<string>, b: seq<string>)
    requires forall i | 0 <= i < |a| :: Readable(a[i])
    requires forall i | 0 <= i < |b| :: Readable(b[i])
    ensures forall i | 0 <= i < |a + b| :: Readable((a + b)[i])
    ensures ParseInstructions(a + b) == ParseInstructions(a) + ParseInstructions(b)
    decreases |a|
  {
    if a == [] {
      assert a + b == b;
    } else {
      assert (a + b)[0] == a[0] && (a + b)[1..] == a[1..] + b;
      ParseInstructionsConcat(a[1..], b);
    }
  }

  /** A line whose first word is no direction is dropped. */
  lemma NoDirectionDropped(line: string, b: seq<string>)
    requires ParseDirection(Split(line, ' ')[0]).Err?
    requires forall i | 0 <= i < |b| :: Readable(b[i])
    ensures forall i | 0 <= i < |[line] + b| :: Readable(([line] + b)[i])
    ensures ParseInstructions([line] + b) == ParseInstructions(b)
  {
    assert ([line] + b)[1..] == b;
  }

  /** The texts of instructions read back as those instructions. */
  lemma {:induction false} InstructionTextsParse(instructions: seq<Instruction>, lines: seq<string>)
    requires |lines| == |instructions|
    requires forall i | 0 <= i < |instructions| ::
      instructions[i].amount <= USIZE_MAX && lines[i] == InstructionText(instructions[i])
    ensures forall i | 0 <= i < |lines| :: Readable(lines[i])
    ensures ParseInstructions(lines) == instructions
    decreases |lines|
  {
    forall i | 0 <= i < |lines|
      ensures Readable(lines[i])
    {
      InstructionTextParses(instructions[i]);
    }
    if lines != [] {
      InstructionTextParses(instructions[0]);
      InstructionTextsParse(instructions[1..], lines[1..]);
    }
  }

  // ---------------------------------------------------------------------
  // Points and distances

  /** A point of the grid; `y` grows upwards. */
  datatype Vec2 = Vec2(x: int, y: int)

  const Origin := Vec2(0, 0)

  function Add(a: Vec2, b: Vec2): Vec2
  {
    Vec2(a.x + b.x, a.y + b.y)
  }

  function Sub(a: Vec2, b: Vec2): Vec2
  {
    Vec2(a.x - b.x, a.y - b.y)
  }

  /** Subtraction undoes addition, on either side. */
  lemma AddSub(a: Vec2, b: Vec2)
    ensures Sub(Add(a, b), b) == a && Sub(Add(a, b), a) == b
  {
  }

  /** `From<Direction> for Vec2`: the unit step towards a direction. */
  function Step(d: Direction): (v: Vec2)
    ensures Abs(v.x) + Abs(v.y) == 1
  {
    match d
    case Left => Vec2(-1, 0)
    case Right => Vec2(1, 0)
    case Up => Vec2(0, 1)
    case Down => Vec2(0, -1)
  }

  /** Different directions step to different points. */
  lemma StepInjective(d: Direction, e: Direction)
    ensures Step(d) == Step(e) <==> d == e
  {
  }

  function Abs(i: int): nat
  {
    if i < 0 then -i else i
  }

  /** `l_inf_norm`: the Chebyshev distance between two points. */
  function LInfNorm(a: Vec2, b: Vec2): (r: nat)
    ensures r >= Abs(a.x - b.x) && r >= Abs(a.y - b.y)
    ensures r == Abs(a.x - b.x) || r == Abs(a.y - b.y)
  {
    var dx, dy := a.x - b.x, a.y - b.y;
    if Abs(dx) >= Abs(dy) then Abs(dx) else Abs(dy)
  }

  /** Two points are at distance zero exactly when they are the same. */
  lemma LInfNormZero(a: Vec2, b: Vec2)
    ensures LInfNorm(a, b) == 0 <==> a == b
  {
  }

  /** A unit step goes one step. */
  lemma StepLength(d: Direction, p: Vec2)
    ensures LInfNorm(Add(p, Step(d)), p) == 1
  {
  }

  lemma LInfNormSymmetric(a: Vec2, b: Vec2)
    ensures LInfNorm(a, b) == LInfNorm(b, a)
  {
  }

  lemma LInfNormTriangle(a: Vec2, b: Vec2, c: Vec2)
    ensures LInfNorm(a, c) <= LInfNorm(a, b) + LInfNorm(b, c)
  {
  }

  /** The sign of an integer: 1, -1 or 0. */
  function Signum(i: int): int
  {
    if i > 0 then 1 else if i < 0 then -1 else 0
  }

  /** Rust's `/` on integers, which truncates towards zero. */
  function TruncDiv(a: int, b: int): int
    requires b != 0
  {
    if (a < 0) == (b < 0) then Abs(a) / Abs(b) else -(Abs(a) / Abs(b))
  }

  /** The diagonal step of `move_next_to` divides a distance by its own
      size: that quotient is the negated sign. */
  lemma NegatedOverAbs(x: int)
    requires x != 0
    ensures TruncDiv(-x, Abs(x)) == -Signum(x)
  {
    assert Abs(-x) == Abs(x);
  }

  /** `move_next_to`: the point next to `other` on the side facing `self`,
      along the axis of the larger distance, or diagonally when both
      distances are equal. The diagonal case divides each distance by its
      size (`-x / x.abs()`), which is its negated sign (see
      `NegatedOverAbs`) and panics when both are zero, so the points must
      differ. */
  function MoveNextTo(self: Vec2, other: Vec2): (r: Vec2)
    requires self != other
    ensures LInfNorm(r, other) == 1
  {
    var x, y := other.x - self.x, other.y - self.y;
    if Abs(x) > Abs(y) && x > 0 then Add(other, Step(Left))
    else if Abs(x) > Abs(y) && x < 0 then Add(other, Step(Right))
    else if Abs(x) < Abs(y) && y > 0 then Add(other, Step(Down))
    else if Abs(x) < Abs(y) && y < 0 then Add(other, Step(Up))
    else Add(other, Vec2(-Signum(x), -Signum(y)))
  }

  /** From two steps away, the point reached is one step from where it
      started: a move next to the other point is a single king's move. */
  lemma MoveNextToFromTwo(self: Vec2, other: Vec2)
    requires LInfNorm(self, other) == 2
    ensures LInfNorm(MoveNextTo(self, other), self) == 1
  {
    var diff := Sub(other, self);
    if Abs(diff.x) == Abs(diff.y) {
      assert Abs(diff.x) == 2;
    }
  }

  /** `pull_tail`: a tail touching the new head stays put; otherwise it
      moves next to the head. Either way it ends up touching the head. */
  function PullTail(oldTail: Vec2, newHead: Vec2): (r: Vec2)
    ensures LInfNorm(r, newHead) <= 1
    ensures LInfNorm(oldTail, newHead) < 2 ==> r == oldTail
    ensures LInfNorm(oldTail, newHead) >= 2 ==> LInfNorm(r, newHead) == 1
  {
    if LInfNorm(oldTail, newHead) < 2 then oldTail
    else MoveNextTo(oldTail, newHead)
  }

  /** A tail at most two steps from the head moves at most one step. */
  lemma PullTailStep(oldTail: Vec2, newHead: Vec2)
    requires LInfNorm(oldTail, newHead) <= 2
    ensures LInfNorm(PullTail(oldTail, newHead), oldTail) <= 1
  {
    if LInfNorm(oldTail, newHead) == 2 {
      MoveNextToFromTwo(oldTail, newHead);
    }
  }

  // ---------------------------------------------------------------------
  // The rope

  /** `Rope<N>`: the knots, head first. */
  datatype Rope = Rope(knots: seq<Vec2>)

  /** A rope with knots; `Rope::<0>` panics as soon as its head is read. */
  predicate HasKnots(rope: Rope)
  {
    |rope.knots| >= 1
  }

  /** `Rope::new`: every knot at the origin. */
  function NewRope(n: nat): (r: Rope)
    requires n >= 1
    ensures HasKnots(r) && |r.knots| == n
    ensures forall i | 0 <= i < n :: r.knots[i] == Origin
  {
    Rope(seq(n, _ => Origin))
  }

  function Head(rope: Rope): Vec2
    requires HasKnots(rope)
  {
    rope.knots[0]
  }

  /** `last`: the tail knot. */
  function Last(rope: Rope): Vec2
    requires HasKnots(rope)
  {
    rope.knots[|rope.knots| - 1]
  }

  /** Knot `i` touches knot `i - 1`. */
  predicate Touching(knots: seq<Vec2>, i: nat)
    requires 1 <= i < |knots|
  {
    LInfNorm(knots[i], knots[i - 1]) <= 1
  }

  /** Neighbouring knots touch. */
  predicate Taut(rope: Rope)
  {
    forall i | 1 <= i < |rope.knots| :: Touching(rope.knots, i)
  }

  /** Knot `i` of the new knots is old knot `i` pulled after new knot `i - 1`. */
  predicate Pulled(before: seq<Vec2>, after: seq<Vec2>, i: nat)
    requires 1 <= i < |before| && i < |after|
  {
    after[i] == PullTail(before[i], after[i - 1])
  }

  /** The fold of `move_knots`: each old knot after the ones already
      placed is pulled after the last knot placed. */
  function Follow(placed: seq<Vec2>, before: seq<Vec2>): (r: seq<Vec2>)
    requires 1 <= |placed| <= |before|
    ensures |r| == |before|
    ensures r[..|placed|] == placed
    ensures forall i | |placed| <= i < |before| :: Pulled(before, r, i)
    decreases |before| - |placed|
  {
    if |placed| == |before| then placed
    else
      var next := placed + [PullTail(before[|placed|], placed[|placed| - 1])];
      var r := Follow(next, before);
      assert r[..|placed|] == next[..|placed|];
      assert Pulled(before, r, |placed|);
      r
  }

  /** `move_knots`: the head takes one unit step, and every later knot is
      pulled after its new predecessor. */
  function MoveKnots(rope: Rope, d: Direction): (r: Rope)
    requires HasKnots(rope)
    ensures HasKnots(r) && |r.knots| == |rope.knots|
    ensures Head(r) == Add(Head(rope), Step(d))
    ensures forall i | 1 <= i < |r.knots| :: Pulled(rope.knots, r.knots, i)
  {
    Rope(Follow([Add(Head(rope), Step(d))], rope.knots))
  }

  /** After a head step every knot touches its predecessor, whatever the
      rope was before. */
  lemma MoveKnotsTaut(rope: Rope, d: Direction)
    requires HasKnots(rope)
    ensures Taut(MoveKnots(rope, d))
  {
    var r := MoveKnots(rope, d);
    forall i | 1 <= i < |r.knots|
      ensures Touching(r.knots, i)
    {
      assert Pulled(rope.knots, r.knots, i);
    }
  }

  /** In a taut rope every knot moves at most one step per head step. */
  lemma {:induction false} MoveKnotsSmallSteps(rope: Rope, d: Direction, i: nat)
    requires HasKnots(rope) && Taut(rope) && i < |rope.knots|
    ensures LInfNorm(MoveKnots(rope, d).knots[i], rope.knots[i]) <= 1
  {
    var r := MoveKnots(rope, d);
    if i > 0 {
      assert Pulled(rope.knots, r.knots, i) && Touching(rope.knots, i);
      MoveKnotsSmallSteps(rope, d, i - 1);
      LInfNormSymmetric(r.knots[i - 1], rope.knots[i - 1]);
      LInfNormTriangle(rope.knots[i], rope.knots[i - 1], r.knots[i - 1]);
      PullTailStep(rope.knots[i], r.knots[i - 1]);
    } else {
      assert Sub(r.knots[0], rope.knots[0]) == Step(d);
    }
  }

  // ---------------------------------------------------------------------
  // Following instructions

  /** The rope after `k` head steps towards `d`. */
  function Steps(rope: Rope, d: Direction, k: nat): (r: Rope)
    requires HasKnots(rope)
    ensures HasKnots(r) && |r.knots| == |rope.knots|
    decreases k
  {
    if k == 0 then rope else Steps(MoveKnots(rope, d), d, k - 1)
  }

  /** Where the tail is after each of the first `k` steps. */
  function TailsAfter(rope: Rope, d: Direction, k: nat): set<Vec2>
    requires HasKnots(rope)
    decreases k
  {
    if k == 0 then {} else {Last(MoveKnots(rope, d))} + TailsAfter(MoveKnots(rope, d), d, k - 1)
  }

  /** The tail's place after each of the first `k` steps is recorded. */
  lemma {:induction false} TailsAfterComplete(rope: Rope, d: Direction, k: nat, i: nat)
    requires HasKnots(rope) && 1 <= i <= k
    ensures Last(Steps(rope, d, i)) in TailsAfter(rope, d, k)
    decreases k
  {
    if i > 1 {
      TailsAfterComplete(MoveKnots(rope, d), d, k - 1, i - 1);
    }
    TailsAfterCompleteStep(rope, d, k, i);
  }

  lemma TailsAfterCompleteStep(rope: Rope, d: Direction, k: nat, i: nat)
    requires HasKnots(rope) && 1 <= i <= k
    requires i > 1 ==>
      Last(Steps(MoveKnots(rope, d), d, i - 1)) in TailsAfter(MoveKnots(rope, d), d, k - 1)
    ensures Last(Steps(rope, d, i)) in TailsAfter(rope, d, k)
  {
    var next := MoveKnots(rope, d);
    assert TailsAfter(rope, d, k) == {Last(next)} + TailsAfter(next, d, k - 1);
    assert Steps(rope, d, i) == Steps(next, d, i - 1);
    if i == 1 {
      assert Steps(next, d, 0) == next;
    }
  }

  /** Every recorded place is the tail's place after one of the steps. */
  lemma {:induction false} TailsAfterSound(rope: Rope, d: Direction, k: nat, v: Vec2)
    requires HasKnots(rope) && v in TailsAfter(rope, d, k)
    ensures exists i | 1 <= i <= k :: Last(Steps(rope, d, i)) == v
    decreases k
  {
    var next := MoveKnots(rope, d);
    assert TailsAfter(rope, d, k) == {Last(next)} + TailsAfter(next, d, k - 1);
    if v == Last(next) {
      assert Steps(rope, d, 1) == next;
    } else {
      TailsAfterSound(next, d, k - 1, v);
      var i :| 1 <= i <= k - 1 && Last(Steps(next, d, i)) == v;
      assert Steps(rope, d, i + 1) == Steps(next, d, i);
    }
  }

  /** The tail's recorded places are exactly its places after steps
      `1..k`. */
  lemma TailsAfterMembers(rope: Rope, d: Direction, k: nat, v: Vec2)
    requires HasKnots(rope)
    ensures v in TailsAfter(rope, d, k) <==> exists i | 1 <= i <= k :: Last(Steps(rope, d, i)) == v
  {
    if v in TailsAfter(rope, d, k) {
      TailsAfterSound(rope, d, k, v);
    }
    if exists i | 1 <= i <= k :: Last(Steps(rope, d, i)) == v {
      var i :| 1 <= i <= k && Last(Steps(rope, d, i)) == v;
      TailsAfterComplete(rope, d, k, i);
    }
  }

  /** The fold of `move_by_instruction` over `0..k`: one head step at a
      time, with the tail's new position added to the visited set. */
  function StepFold(rope: Rope, d: Direction, k: nat, visited: set<Vec2>): (r: (Rope, set<Vec2>))
    requires HasKnots(rope)
    ensures HasKnots(r.0) && |r.0.knots| == |rope.knots|
    ensures visited <= r.1
    decreases k
  {
    if k == 0 then (rope, visited)
    else
      var next := MoveKnots(rope, d);
      StepFold(next, d, k - 1, visited + {Last(next)})
  }

  /** `move_by_instruction`: the rope after the instruction, and the tail's
      positions from the start up to the end. */
  function MoveByInstruction(rope: Rope, ins: Instruction): (r: (Rope, set<Vec2>))
    requires HasKnots(rope)
    ensures HasKnots(r.0) && |r.0.knots| == |rope.knots|
    ensures Last(rope) in r.1
  {
    StepFold(rope, ins.direction, ins.amount, {Last(rope)})
  }

  /** The fold takes `k` steps and adds the tail's places after them. */
  lemma {:induction false} StepFoldIs(rope: Rope, d: Direction, k: nat, visited: set<Vec2>)
    requires HasKnots(rope)
    ensures StepFold(rope, d, k, visited) == (Steps(rope, d, k), visited + TailsAfter(rope, d, k))
    decreases k
  {
    if k > 0 {
      var next := MoveKnots(rope, d);
      StepFoldIs(next, d, k - 1, visited + {Last(next)});
      assert visited + {Last(next)} + TailsAfter(next, d, k - 1) == visited + TailsAfter(rope, d, k);
    } else {
      assert visited + {} == visited;
    }
  }

  /** An instruction takes exactly `amount` steps, and the visited set is
      the tail's starting point together with its place after every step. */
  lemma MoveByInstructionIs(rope: Rope, ins: Instruction)
    requires HasKnots(rope)
    ensures MoveByInstruction(rope, ins) ==
      (Steps(rope, ins.direction, ins.amount), {Last(rope)} + TailsAfter(rope, ins.direction, ins.amount))
  {
    StepFoldIs(rope, ins.direction, ins.amount, {Last(rope)});
  }

  /** The fold of `move_by_instrcutions`: each instruction in turn, with
      its visited set added to the running one. */
  function InstructionFold(rope: Rope, instructions: seq<Instruction>, visited: set<Vec2>): (r: (Rope, set<Vec2>))
    requires HasKnots(rope)
    ensures HasKnots(r.0) && |r.0.knots| == |rope.knots|
    ensures visited <= r.1
    decreases |instructions|
  {
    if instructions == [] then (rope, visited)
    else
      var (next, seen) := MoveByInstruction(rope, instructions[0]);
      InstructionFold(next, instructions[1..], visited + seen)
  }

  /** `move_by_instrcutions`: the rope after all instructions and every
      position the tail has visited, its starting point included. */
  function MoveByInstructions(rope: Rope, instructions: seq<Instruction>): (r: (Rope, set<Vec2>))
    requires HasKnots(rope)
    ensures HasKnots(r.0) && |r.0.knots| == |rope.knots|
    ensures Last(rope) in r.1
  {
    InstructionFold(rope, instructions, {Last(rope)})
  }

  /** The set the fold starts with is only added to. */
  lemma {:induction false} InstructionFoldVisited(rope: Rope, instructions: seq<Instruction>, visited: set<Vec2>)
    requires HasKnots(rope)
    ensures InstructionFold(rope, instructions, visited) ==
      (InstructionFold(rope, instructions, {}).0, visited + InstructionFold(rope, instructions, {}).1)
    decreases |instructions|
  {
    if instructions != [] {
      var (next, seen) := MoveByInstruction(rope, instructions[0]);
      InstructionFoldVisited(next, instructions[1..], visited + seen);
      InstructionFoldVisited(next, instructions[1..], {} + seen);
      var rest := InstructionFold(next, instructions[1..], {});
      assert InstructionFold(rope, instructions, visited) == InstructionFold(next, instructions[1..], visited + seen);
      assert InstructionFold(rope, instructions, {}) == InstructionFold(next, instructions[1..], {} + seen);
      assert {} + seen == seen;
      assert visited + seen + rest.1 == visited + (seen + rest.1);
    } else {
      assert visited + {} == visited;
    }
  }

  /** Folding over two runs of instructions is folding over the first and
      then over the second from where the first left off. */
  lemma {:induction false} InstructionFoldConcat(rope: Rope, a: seq<Instruction>, b: seq<Instruction>, visited: set<Vec2>)
    requires HasKnots(rope)
    ensures var first := InstructionFold(rope, a, visited);
      InstructionFold(rope, a + b, visited) == InstructionFold(first.0, b, first.1)
    decreases |a|
  {
    if a == [] {
      assert a + b == b;
    } else {
      var (next, seen) := MoveByInstruction(rope, a[0]);
      assert (a + b)[0] == a[0] && (a + b)[1..] == a[1..] + b;
      InstructionFoldConcat(next, a[1..], b, visited + seen);
    }
  }

  /** After an instruction the tail's place is among the visited ones. */
  lemma TailEndVisited(rope: Rope, ins: Instruction)
    requires HasKnots(rope)
    ensures Last(MoveByInstruction(rope, ins).0) in MoveByInstruction(rope, ins).1
  {
    MoveByInstructionIs(rope, ins);
    if ins.amount > 0 {
      TailsAfterComplete(rope, ins.direction, ins.amount, ins.amount);
    }
  }

  lemma {:induction false} FoldTailVisited(rope: Rope, instructions: seq<Instruction>, visited: set<Vec2>)
    requires HasKnots(rope) && Last(rope) in visited
    ensures Last(InstructionFold(rope, instructions, visited).0) in InstructionFold(rope, instructions, visited).1
    decreases |instructions|
  {
    if instructions != [] {
      var (next, seen) := MoveByInstruction(rope, instructions[0]);
      TailEndVisited(rope, instructions[0]);
      FoldTailVisited(next, instructions[1..], visited + seen);
    }
  }

  /** Instructions are carried out in order: running two lists one after
      the other ends where running them joined does, and the visited sets
      add up. */
  lemma MoveByInstructionsConcat(rope: Rope, a: seq<Instruction>, b: seq<Instruction>)
    requires HasKnots(rope)
    ensures var first := MoveByInstructions(rope, a);
      var second := MoveByInstructions(first.0, b);
      MoveByInstructions(rope, a + b) == (second.0, first.1 + second.1)
  {
    var first := MoveByInstructions(rope, a);
    InstructionFoldConcat(rope, a, b, {Last(rope)});
    FoldTailVisited(rope, a, {Last(rope)});
    InstructionFoldVisited(first.0, b, first.1);
    InstructionFoldVisited(first.0, b, {Last(first.0)});
    var rest := InstructionFold(first.0, b, {}).1;
    assert first.1 + ({Last(first.0)} + rest) == first.1 + rest;
  }

  /** A single instruction: what `move_by_instruction` gives. */
  lemma MoveByInstructionsOne(rope: Rope, ins: Instruction)
    requires HasKnots(rope)
    ensures MoveByInstructions(rope, [ins]) == MoveByInstruction(rope, ins)
  {
    var (next, seen) := MoveByInstruction(rope, ins);
    assert [ins][1..] == [];
    assert InstructionFold(rope, [ins], {Last(rope)}) == InstructionFold(next, [], {Last(rope)} + seen);
    assert {Last(rope)} + seen == seen;
  }

  /** A taut rope stays taut, step after step. */
  lemma {:induction false} StepsTaut(rope: Rope, d: Direction, k: nat)
    requires HasKnots(rope) && Taut(rope)
    ensures Taut(Steps(rope, d, k))
    decreases k
  {
    if k > 0 {
      MoveKnotsTaut(rope, d);
      StepsTaut(MoveKnots(rope, d), d, k - 1);
    }
  }

  lemma {:induction false} InstructionFoldTaut(rope: Rope, instructions: seq<Instruction>, visited: set<Vec2>)
    requires HasKnots(rope) && Taut(rope)
    ensures Taut(InstructionFold(rope, instructions, visited).0)
    decreases |instructions|
  {
    if instructions != [] {
      var (next, seen) := MoveByInstruction(rope, instructions[0]);
      MoveByInstructionIs(rope, instructions[0]);
      StepsTaut(rope, instructions[0].direction, instructions[0].amount);
      InstructionFoldTaut(next, instructions[1..], visited + seen);
    }
  }

  /** Every knot of a taut rope still touches its predecessor after any
      instructions; a new rope is taut. */
  lemma MoveByInstructionsTaut(rope: Rope, instructions: seq<Instruction>)
    requires HasKnots(rope) && Taut(rope)
    ensures Taut(MoveByInstructions(rope, instructions).0)
  {
    InstructionFoldTaut(rope, instructions, {Last(rope)});
  }

  lemma NewRopeTaut(n: nat)
    requires n >= 1
    ensures Taut(NewRope(n))
  {
    var r := NewRope(n);
    forall i | 1 <= i < n
      ensures Touching(r.knots, i)
    {
      LInfNormZero(r.knots[i], r.knots[i - 1]);
    }
  }

  // ---------------------------------------------------------------------
  // The example
  //
  // The published example, worked for a two-knot rope. Dynamics do not
  // depend on where the rope starts, so the walk is stated relative to an
  // arbitrary starting point `o`: each instruction is taken two head steps
  // at a time (`ExampleMove<n>From<j>` carries on from step `j`), and
  // `ExampleFrom<n>` folds the instructions from the `n`-th on.

  /** The instructions of the published example. */
  const ExampleInstructions: seq<Instruction> := [
    Instruction(Right, 4), Instruction(Up, 4), Instruction(Left, 3), Instruction(Down, 1),
    Instruction(Right, 4), Instruction(Down, 1), Instruction(Left, 5), Instruction(Right, 2)]

  /** The point `(dx, dy)` away from `o`. */
  function At(o: Vec2, dx: int, dy: int): Vec2
  {
    Vec2(o.x + dx, o.y + dy)
  }

  /** One head step of a two-knot rope. */
  lemma StepTwo(head: Vec2, tail: Vec2, d: Direction, head': Vec2, tail': Vec2)
    requires head' == Add(head, Step(d)) && tail' == PullTail(tail, head')
    ensures MoveKnots(Rope([head, tail]), d) == Rope([head', tail'])
  {
    var r := MoveKnots(Rope([head, tail]), d);
    assert Pulled([head, tail], r.knots, 1);
    assert r.knots == [head', tail'];
  }

  /** One step of an instruction on a two-knot rope. */
  lemma StepTwoFold(head: Vec2, tail: Vec2, d: Direction, k: nat, visited: set<Vec2>, head': Vec2, tail': Vec2)
    requires k >= 1 && head' == Add(head, Step(d)) && tail' == PullTail(tail, head')
    ensures StepFold(Rope([head, tail]), d, k, visited) ==
      StepFold(Rope([head', tail']), d, k - 1, visited + {tail'})
  {
    StepTwo(head, tail, d, head', tail');
  }

  /** One instruction of the fold over instructions. */
  lemma FoldFirst(rope: Rope, xs: seq<Instruction>, n: nat, visited: set<Vec2>, next: Rope, seen: set<Vec2>)
    requires HasKnots(rope) && n < |xs| && MoveByInstruction(rope, xs[n]) == (next, seen)
    ensures InstructionFold(rope, xs[n..], visited) == InstructionFold(next, xs[n + 1..], visited + seen)
  {
    assert xs[n..][0] == xs[n] && xs[n..][1..] == xs[n + 1..];
  }

  lemma ExampleMove1From2(o: Vec2, visited: set<Vec2>)
    ensures StepFold(Rope([At(o, 2, 0), At(o, 1, 0)]), Right, 2, visited) ==
      (Rope([At(o, 4, 0), At(o, 3, 0)]), visited + {At(o, 2, 0)} + {At(o, 3, 0)})
  {
    StepTwoFold(At(o, 2, 0), At(o, 1, 0), Right, 2, visited, At(o, 3, 0), At(o, 2, 0));
    StepTwoFold(At(o, 3, 0), At(o, 2, 0), Right, 1, visited + {At(o, 2, 0)}, At(o, 4, 0), At(o, 3, 0));
  }

  lemma ExampleMove1From0(o: Vec2, visited: set<Vec2>)
    ensures StepFold(Rope([At(o, 0, 0), At(o, 0, 0)]), Right, 4, visited) ==
      (Rope([At(o, 4, 0), At(o, 3, 0)]), visited + {At(o, 0, 0)} + {At(o, 1, 0)} + {At(o, 2, 0)} + {At(o, 3, 0)})
  {
    StepTwoFold(At(o, 0, 0), At(o, 0, 0), Right, 4, visited, At(o, 1, 0), At(o, 0, 0));
    StepTwoFold(At(o, 1, 0), At(o, 0, 0), Right, 3, visited + {At(o, 0, 0)}, At(o, 2, 0), At(o, 1, 0));
    ExampleMove1From2(o, visited + {At(o, 0, 0)} + {At(o, 1, 0)});
  }

  lemma ExampleMove2From2(o: Vec2, visited: set<Vec2>)
    ensures StepFold(Rope([At(o, 4, 2), At(o, 4, 1)]), Up, 2, visited) ==
      (Rope([At(o, 4, 4), At(o, 4, 3)]), visited + {At(o, 4, 2)} + {At(o, 4, 3)})
  {
    StepTwoFold(At(o, 4, 2), At(o, 4, 1), Up, 2, visited, At(o, 4, 3), At(o, 4, 2));
    StepTwoFold(At(o, 4, 3), At(o, 4, 2), Up, 1, visited + {At(o, 4, 2)}, At(o, 4, 4), At(o, 4, 3));
  }

  lemma ExampleMove2From0(o: Vec2, visited: set<Vec2>)
    ensures StepFold(Rope([At(o, 4, 0), At(o, 3, 0)]), Up, 4, visited) ==
      (Rope([At(o, 4, 4), At(o, 4, 3)]), visited + {At(o, 3, 0)} + {At(o, 4, 1)} + {At(o, 4, 2)} + {At(o, 4, 3)})
  {
    StepTwoFold(At(o, 4, 0), At(o, 3, 0), Up, 4, visited, At(o, 4, 1), At(o, 3, 0));
    StepTwoFold(At(o, 4, 1), At(o, 3, 0), Up, 3, visited + {At(o, 3, 0)}, At(o, 4, 2), At(o, 4, 1));
    ExampleMove2From2(o, visited + {At(o, 3, 0)} + {At(o, 4, 1)});
  }

  lemma ExampleMove3From2(o: Vec2, visited: set<Vec2>)
    ensures StepFold(Rope([At(o, 2, 4), At(o, 3, 4)]), Left, 1, visited) ==
      (Rope([At(o, 1, 4), At(o, 2, 4)]), visited + {At(o, 2, 4)})
  {
    StepTwoFold(At(o, 2, 4), At(o, 3, 4), Left, 1, visited, At(o, 1, 4), At(o, 2, 4));
  }

  lemma ExampleMove3From0(o: Vec2, visited: set<Vec2>)
    ensures StepFold(Rope([At(o, 4, 4), At(o, 4, 3)]), Left, 3, visited) ==
      (Rope([At(o, 1, 4), At(o, 2, 4)]), visited + {At(o, 4, 3)} + {At(o, 3, 4)} + {At(o, 2, 4)})
  {
    StepTwoFold(At(o, 4, 4), At(o, 4, 3), Left, 3, visited, At(o, 3, 4), At(o, 4, 3));
    StepTwoFold(At(o, 3, 4), At(o, 4, 3), Left, 2, visited + {At(o, 4, 3)}, At(o, 2, 4), At(o, 3, 4));
    ExampleMove3From2(o, visited + {At(o, 4, 3)} + {At(o, 3, 4)});
  }

  lemma ExampleMove4From0(o: Vec2, visited: set<Vec2>)
    ensures StepFold(Rope([At(o, 1, 4), At(o, 2, 4)]), Down, 1, visited) ==
      (Rope([At(o, 1, 3), At(o, 2, 4)]), visited + {At(o, 2, 4)})
  {
    StepTwoFold(At(o, 1, 4), At(o, 2, 4), Down, 1, visited, At(o, 1, 3), At(o, 2, 4));
  }

  lemma ExampleMove5From2(o: Vec2, visited: set<Vec2>)
    ensures StepFold(Rope([At(o, 3, 3), At(o, 2, 4)]), Right, 2, visited) ==
      (Rope([At(o, 5, 3), At(o, 4, 3)]), visited + {At(o, 3, 3)} + {At(o, 4, 3)})
  {
    StepTwoFold(At(o, 3, 3), At(o, 2, 4), Right, 2, visited, At(o, 4, 3), At(o, 3, 3));
    StepTwoFold(At(o, 4, 3), At(o, 3, 3), Right, 1, visited + {At(o, 3, 3)}, At(o, 5, 3), At(o, 4, 3));
  }

  lemma ExampleMove5From0(o: Vec2, visited: set<Vec2>)
    ensures StepFold(Rope([At(o, 1, 3), At(o, 2, 4)]), Right, 4, visited) ==
      (Rope([At(o, 5, 3), At(o, 4, 3)]), visited + {At(o, 2, 4)} + {At(o, 2, 4)} + {At(o, 3, 3)} + {At(o, 4, 3)})
  {
    StepTwoFold(At(o, 1, 3), At(o, 2, 4), Right, 4, visited, At(o, 2, 3), At(o, 2, 4));
    StepTwoFold(At(o, 2, 3), At(o, 2, 4), Right, 3, visited + {At(o, 2, 4)}, At(o, 3, 3), At(o, 2, 4));
    ExampleMove5From2(o, visited + {At(o, 2, 4)} + {At(o, 2, 4)});
  }

  lemma ExampleMove6From0(o: Vec2, visited: set<Vec2>)
    ensures StepFold(Rope([At(o, 5, 3), At(o, 4, 3)]), Down, 1, visited) ==
      (Rope([At(o, 5, 2), At(o, 4, 3)]), visited + {At(o, 4, 3)})
  {
    StepTwoFold(At(o, 5, 3), At(o, 4, 3), Down, 1, visited, At(o, 5, 2), At(o, 4, 3));
  }

  lemma ExampleMove7From4(o: Vec2, visited: set<Vec2>)
    ensures StepFold(Rope([At(o, 1, 2), At(o, 2, 2)]), Left, 1, visited) ==
      (Rope([At(o, 0, 2), At(o, 1, 2)]), visited + {At(o, 1, 2)})
  {
    StepTwoFold(At(o, 1, 2), At(o, 2, 2), Left, 1, visited, At(o, 0, 2), At(o, 1, 2));
  }

  lemma ExampleMove7From2(o: Vec2, visited: set<Vec2>)
    ensures StepFold(Rope([At(o, 3, 2), At(o, 4, 3)]), Left, 3, visited) ==
      (Rope([At(o, 0, 2), At(o, 1, 2)]), visited + {At(o, 3, 2)} + {At(o, 2, 2)} + {At(o, 1, 2)})
  {
    StepTwoFold(At(o, 3, 2), At(o, 4, 3), Left, 3, visited, At(o, 2, 2), At(o, 3, 2));
    StepTwoFold(At(o, 2, 2), At(o, 3, 2), Left, 2, visited + {At(o, 3, 2)}, At(o, 1, 2), At(o, 2, 2));
    ExampleMove7From4(o, visited + {At(o, 3, 2)} + {At(o, 2, 2)});
  }

  lemma ExampleMove7From0(o: Vec2, visited: set<Vec2>)
    ensures StepFold(Rope([At(o, 5, 2), At(o, 4, 3)]), Left, 5, visited) ==
      (Rope([At(o, 0, 2), At(o, 1, 2)]), visited + {At(o, 4, 3)} + {At(o, 4, 3)} + {At(o, 3, 2)} + {At(o, 2, 2)} + {At(o, 1, 2)})
  {
    StepTwoFold(At(o, 5, 2), At(o, 4, 3), Left, 5, visited, At(o, 4, 2), At(o, 4, 3));
    StepTwoFold(At(o, 4, 2), At(o, 4, 3), Left, 4, visited + {At(o, 4, 3)}, At(o, 3, 2), At(o, 4, 3));
    ExampleMove7From2(o, visited + {At(o, 4, 3)} + {At(o, 4, 3)});
  }

  lemma ExampleMove8From0(o: Vec2, visited: set<Vec2>)
    ensures StepFold(Rope([At(o, 0, 2), At(o, 1, 2)]), Right, 2, visited) ==
      (Rope([At(o, 2, 2), At(o, 1, 2)]), visited + {At(o, 1, 2)} + {At(o, 1, 2)})
  {
    StepTwoFold(At(o, 0, 2), At(o, 1, 2), Right, 2, visited, At(o, 1, 2), At(o, 1, 2));
    StepTwoFold(At(o, 1, 2), At(o, 1, 2), Right, 1, visited + {At(o, 1, 2)}, At(o, 2, 2), At(o, 1, 2));
  }

  /** The tail's places during instruction 1, each listed once. */
  lemma ExampleSeen1(o: Vec2)
    ensures {At(o, 0, 0)} + {At(o, 0, 0)} + {At(o, 1, 0)} + {At(o, 2, 0)} + {At(o, 3, 0)} == {At(o, 0, 0), At(o, 1, 0), At(o, 2, 0), At(o, 3, 0)}
  {
  }

  /** The tail's places during instruction 2, each listed once. */
  lemma ExampleSeen2(o: Vec2)
    ensures {At(o, 3, 0)} + {At(o, 3, 0)} + {At(o, 4, 1)} + {At(o, 4, 2)} + {At(o, 4, 3)} == {At(o, 3, 0), At(o, 4, 1), At(o, 4, 2), At(o, 4, 3)}
  {
  }

  /** The tail's places during instruction 3, each listed once. */
  lemma ExampleSeen3(o: Vec2)
    ensures {At(o, 4, 3)} + {At(o, 4, 3)} + {At(o, 3, 4)} + {At(o, 2, 4)} == {At(o, 4, 3), At(o, 3, 4), At(o, 2, 4)}
  {
  }

  /** The tail's places during instruction 4, each listed once. */
  lemma ExampleSeen4(o: Vec2)
    ensures {At(o, 2, 4)} + {At(o, 2, 4)} == {At(o, 2, 4)}
  {
  }

  /** The tail's places during instruction 5, each listed once. */
  lemma ExampleSeen5(o: Vec2)
    ensures {At(o, 2, 4)} + {At(o, 2, 4)} + {At(o, 2, 4)} + {At(o, 3, 3)} + {At(o, 4, 3)} == {At(o, 2, 4), At(o, 3, 3), At(o, 4, 3)}
  {
  }

  /** The tail's places during instruction 6, each listed once. */
  lemma ExampleSeen6(o: Vec2)
    ensures {At(o, 4, 3)} + {At(o, 4, 3)} == {At(o, 4, 3)}
  {
  }

  /** The tail's places during instruction 7, each listed once. */
  lemma ExampleSeen7(o: Vec2)
    ensures {At(o, 4, 3)} + {At(o, 4, 3)} + {At(o, 4, 3)} + {At(o, 3, 2)} + {At(o, 2, 2)} + {At(o, 1, 2)} == {At(o, 4, 3), At(o, 3, 2), At(o, 2, 2), At(o, 1, 2)}
  {
  }

  /** The tail's places during instruction 8, each listed once. */
  lemma ExampleSeen8(o: Vec2)
    ensures {At(o, 1, 2)} + {At(o, 1, 2)} + {At(o, 1, 2)} == {At(o, 1, 2)}
  {
  }

  lemma ExampleFrom8(o: Vec2, visited: set<Vec2>)
    ensures InstructionFold(Rope([At(o, 2, 2), At(o, 1, 2)]), ExampleInstructions[8..], visited) == (Rope([At(o, 2, 2), At(o, 1, 2)]), visited)
  {
    assert ExampleInstructions[8..] == [];
  }

  lemma ExampleFrom7(o: Vec2, visited: set<Vec2>)
    ensures InstructionFold(Rope([At(o, 0, 2), At(o, 1, 2)]), ExampleInstructions[7..], visited) ==
      (Rope([At(o, 2, 2), At(o, 1, 2)]), visited + {At(o, 1, 2)})
  {
    ExampleMove8From0(o, {At(o, 1, 2)});
    ExampleSeen8(o);
    FoldFirst(Rope([At(o, 0, 2), At(o, 1, 2)]), ExampleInstructions, 7, visited, Rope([At(o, 2, 2), At(o, 1, 2)]), {At(o, 1, 2)});
    ExampleFrom8(o, visited + {At(o, 1, 2)});
  }

  lemma ExampleFrom6(o: Vec2, visited: set<Vec2>)
    ensures InstructionFold(Rope([At(o, 5, 2), At(o, 4, 3)]), ExampleInstructions[6..], visited) ==
      (Rope([At(o, 2, 2), At(o, 1, 2)]), visited + {At(o, 4, 3), At(o, 3, 2), At(o, 2, 2), At(o, 1, 2)} + {At(o, 1, 2)})
  {
    ExampleMove7From0(o, {At(o, 4, 3)});
    ExampleSeen7(o);
    FoldFirst(Rope([At(o, 5, 2), At(o, 4, 3)]), ExampleInstructions, 6, visited, Rope([At(o, 0, 2), At(o, 1, 2)]), {At(o, 4, 3), At(o, 3, 2), At(o, 2, 2), At(o, 1, 2)});
    ExampleFrom7(o, visited + {At(o, 4, 3), At(o, 3, 2), At(o, 2, 2), At(o, 1, 2)});
  }

  lemma ExampleFrom5(o: Vec2, visited: set<Vec2>)
    ensures InstructionFold(Rope([At(o, 5, 3), At(o, 4, 3)]), ExampleInstructions[5..], visited) ==
      (Rope([At(o, 2, 2), At(o, 1, 2)]), visited + {At(o, 4, 3)} + {At(o, 4, 3), At(o, 3, 2), At(o, 2, 2), At(o, 1, 2)} + {At(o, 1, 2)})
  {
    ExampleMove6From0(o, {At(o, 4, 3)});
    ExampleSeen6(o);
    FoldFirst(Rope([At(o, 5, 3), At(o, 4, 3)]), ExampleInstructions, 5, visited, Rope([At(o, 5, 2), At(o, 4, 3)]), {At(o, 4, 3)});
    ExampleFrom6(o, visited + {At(o, 4, 3)});
  }

  lemma ExampleFrom4(o: Vec2, visited: set<Vec2>)
    ensures InstructionFold(Rope([At(o, 1, 3), At(o, 2, 4)]), ExampleInstructions[4..], visited) ==
      (Rope([At(o, 2, 2), At(o, 1, 2)]), visited + {At(o, 2, 4), At(o, 3, 3), At(o, 4, 3)} + {At(o, 4, 3)} + {At(o, 4, 3), At(o, 3, 2), At(o, 2, 2), At(o, 1, 2)} + {At(o, 1, 2)})
  {
    ExampleMove5From0(o, {At(o, 2, 4)});
    ExampleSeen5(o);
    FoldFirst(Rope([At(o, 1, 3), At(o, 2, 4)]), ExampleInstructions, 4, visited, Rope([At(o, 5, 3), At(o, 4, 3)]), {At(o, 2, 4), At(o, 3, 3), At(o, 4, 3)});
    ExampleFrom5(o, visited + {At(o, 2, 4), At(o, 3, 3), At(o, 4, 3)});
  }

  lemma ExampleFrom3(o: Vec2, visited: set<Vec2>)
    ensures InstructionFold(Rope([At(o, 1, 4), At(o, 2, 4)]), ExampleInstructions[3..], visited) ==
      (Rope([At(o, 2, 2), At(o, 1, 2)]), visited + {At(o, 2, 4)} + {At(o, 2, 4), At(o, 3, 3), At(o, 4, 3)} + {At(o, 4, 3)} + {At(o, 4, 3), At(o, 3, 2), At(o, 2, 2), At(o, 1, 2)} + {At(o, 1, 2)})
  {
    ExampleMove4From0(o, {At(o, 2, 4)});
    ExampleSeen4(o);
    FoldFirst(Rope([At(o, 1, 4), At(o, 2, 4)]), ExampleInstructions, 3, visited, Rope([At(o, 1, 3), At(o, 2, 4)]), {At(o, 2, 4)});
    ExampleFrom4(o, visited + {At(o, 2, 4)});
  }

  lemma ExampleFrom2(o: Vec2, visited: set<Vec2>)
    ensures InstructionFold(Rope([At(o, 4, 4), At(o, 4, 3)]), ExampleInstructions[2..], visited) ==
      (Rope([At(o, 2, 2), At(o, 1, 2)]), visited + {At(o, 4, 3), At(o, 3, 4), At(o, 2, 4)} + {At(o, 2, 4)} + {At(o, 2, 4), At(o, 3, 3), At(o, 4, 3)} + {At(o, 4, 3)} + {At(o, 4, 3), At(o, 3, 2), At(o, 2, 2), At(o, 1, 2)} + {At(o, 1, 2)})
  {
    ExampleMove3From0(o, {At(o, 4, 3)});
    ExampleSeen3(o);
    FoldFirst(Rope([At(o, 4, 4), At(o, 4, 3)]), ExampleInstructions, 2, visited, Rope([At(o, 1, 4), At(o, 2, 4)]), {At(o, 4, 3), At(o, 3, 4), At(o, 2, 4)});
    ExampleFrom3(o, visited + {At(o, 4, 3), At(o, 3, 4), At(o, 2, 4)});
  }

  lemma ExampleFrom1(o: Vec2, visited: set<Vec2>)
    ensures InstructionFold(Rope([At(o, 4, 0), At(o, 3, 0)]), ExampleInstructions[1..], visited) ==
      (Rope([At(o, 2, 2), At(o, 1, 2)]), visited + {At(o, 3, 0), At(o, 4, 1), At(o, 4, 2), At(o, 4, 3)} + {At(o, 4, 3), At(o, 3, 4), At(o, 2, 4)} + {At(o, 2, 4)} + {At(o, 2, 4), At(o, 3, 3), At(o, 4, 3)} + {At(o, 4, 3)} + {At(o, 4, 3), At(o, 3, 2), At(o, 2, 2), At(o, 1, 2)} + {At(o, 1, 2)})
  {
    ExampleMove2From0(o, {At(o, 3, 0)});
    ExampleSeen2(o);
    FoldFirst(Rope([At(o, 4, 0), At(o, 3, 0)]), ExampleInstructions, 1, visited, Rope([At(o, 4, 4), At(o, 4, 3)]), {At(o, 3, 0), At(o, 4, 1), At(o, 4, 2), At(o, 4, 3)});
    ExampleFrom2(o, visited + {At(o, 3, 0), At(o, 4, 1), At(o, 4, 2), At(o, 4, 3)});
  }

  lemma ExampleFrom0(o: Vec2, visited: set<Vec2>)
    ensures InstructionFold(Rope([At(o, 0, 0), At(o, 0, 0)]), ExampleInstructions[0..], visited) ==
      (Rope([At(o, 2, 2), At(o, 1, 2)]), visited + {At(o, 0, 0), At(o, 1, 0), At(o, 2, 0), At(o, 3, 0)} + {At(o, 3, 0), At(o, 4, 1), At(o, 4, 2), At(o, 4, 3)} + {At(o, 4, 3), At(o, 3, 4), At(o, 2, 4)} + {At(o, 2, 4)} + {At(o, 2, 4), At(o, 3, 3), At(o, 4, 3)} + {At(o, 4, 3)} + {At(o, 4, 3), At(o, 3, 2), At(o, 2, 2), At(o, 1, 2)} + {At(o, 1, 2)})
  {
    ExampleMove1From0(o, {At(o, 0, 0)});
    ExampleSeen1(o);
    FoldFirst(Rope([At(o, 0, 0), At(o, 0, 0)]), ExampleInstructions, 0, visited, Rope([At(o, 4, 0), At(o, 3, 0)]), {At(o, 0, 0), At(o, 1, 0), At(o, 2, 0), At(o, 3, 0)});
    ExampleFrom1(o, visited + {At(o, 0, 0), At(o, 1, 0), At(o, 2, 0), At(o, 3, 0)});
  }

  /** The places visited in the example, each listed once. */
  lemma ExampleVisited(o: Vec2)
    ensures {At(o, 0, 0)} + {At(o, 0, 0), At(o, 1, 0), At(o, 2, 0), At(o, 3, 0)} + {At(o, 3, 0), At(o, 4, 1), At(o, 4, 2), At(o, 4, 3)} + {At(o, 4, 3), At(o, 3, 4), At(o, 2, 4)} + {At(o, 2, 4)} + {At(o, 2, 4), At(o, 3, 3), At(o, 4, 3)} + {At(o, 4, 3)} + {At(o, 4, 3), At(o, 3, 2), At(o, 2, 2), At(o, 1, 2)} + {At(o, 1, 2)} ==
      {At(o, 0, 0), At(o, 1, 0), At(o, 2, 0), At(o, 3, 0), At(o, 4, 1), At(o, 4, 2), At(o, 4, 3), At(o, 3, 4), At(o, 2, 4), At(o, 3, 3), At(o, 3, 2), At(o, 2, 2), At(o, 1, 2)}
  {
  }

  lemma ExampleCount(o: Vec2)
    ensures |{At(o, 0, 0), At(o, 1, 0), At(o, 2, 0), At(o, 3, 0), At(o, 4, 1), At(o, 4, 2), At(o, 4, 3), At(o, 3, 4), At(o, 2, 4), At(o, 3, 3), At(o, 3, 2), At(o, 2, 2), At(o, 1, 2)}| == 13
  {
  }

  /** The example's instructions on a two-knot rope starting anywhere. */
  lemma ExampleFold(o: Vec2)
    ensures MoveByInstructions(Rope([o, o]), ExampleInstructions).1 ==
      {At(o, 0, 0), At(o, 1, 0), At(o, 2, 0), At(o, 3, 0), At(o, 4, 1), At(o, 4, 2), At(o, 4, 3), At(o, 3, 4), At(o, 2, 4), At(o, 3, 3), At(o, 3, 2), At(o, 2, 2), At(o, 1, 2)}
  {
    assert o == At(o, 0, 0);
    assert ExampleInstructions[0..] == ExampleInstructions;
    ExampleFrom0(o, {o});
    ExampleVisited(o);
  }

  /** The published example as text, one instruction per line. */
  const ExampleLines: seq<string> := ["R 4", "U 4", "L 3", "D 1", "R 4", "D 1", "L 5", "R 2"]

  /** Line `i` of the example is the text of instruction `i`. */
  lemma ExampleLineText(i: nat)
    requires i < 8
    ensures InstructionText(ExampleInstructions[i]) == ExampleLines[i]
  {
  }

  /** The example text reads as the example's instructions. */
  lemma ExampleLinesParse()
    ensures forall i | 0 <= i < |ExampleLines| :: Readable(ExampleLines[i])
    ensures ParseInstructions(ExampleLines) == ExampleInstructions
  {
    forall i | 0 <= i < 8
      ensures ExampleLines[i] == InstructionText(ExampleInstructions[i])
    {
      ExampleLineText(i);
    }
    InstructionTextsParse(ExampleInstructions, ExampleLines);
  }

  /** The first example test: a two-knot rope's tail visits 13 places. */
  lemma Example()
    ensures forall i | 0 <= i < |ExampleLines| :: Readable(ExampleLines[i])
    ensures |MoveByInstructions(NewRope(2), ParseInstructions(ExampleLines)).1| == 13
  {
    ExampleLinesParse();
    assert NewRope(2) == Rope([Origin, Origin]);
    ExampleFold(Origin);
    ExampleCount(Origin);
  }
}
