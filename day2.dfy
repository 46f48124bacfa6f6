// Day 2: rock, paper, scissors.  Each line of the strategy guide names the
// opponent's shape and a second letter, read in part one as the player's own
// shape and in part two as the outcome the player must bring about.  A round
// scores the player's shape (1, 2 or 3) plus the outcome (0, 3 or 6).

module Day2 {
  import opened Wrappers
  import opened Text
  import opened Seqs

  datatype Shape = Rock | Paper | Scissors

  datatype Outcome = Win | Loss | Draw

  /** A round: the opponent's shape, then the player's own. */
  datatype GameResult = GameResult(opponent: Shape, own: Shape)

  /** A part-two line: the opponent's shape and the outcome to reach. */
  datatype Strategy = Strategy(opponent: Shape, outcome: Outcome)

  // ---------------------------------------------------------------------
  // Shapes

  /** `Shape::from_str`: A and X are Rock, B and Y Paper, C and Z Scissors;
      any other text is an error. */
  function ParseShape(s: string): (r: Result<Shape, string>)
    ensures r.Ok? <==> s in {"A", "B", "C", "X", "Y", "Z"}
    ensures r.Err? ==> r.error == "Oh no"
  {
    match s
    case "A" => Ok(Rock)
    case "B" => Ok(Paper)
    case "C" => Ok(Scissors)
    case "X" => Ok(Rock)
    case "Y" => Ok(Paper)
    case "Z" => Ok(Scissors)
    case _ => Err("Oh no")
  }

  /** The letter the guide uses for the opponent's shape. */
  function OpponentLetter(s: Shape): string
  {
    match s
    case Rock => "A"
    case Paper => "B"
    case Scissors => "C"
  }

  /** The letter the guide uses, in part one, for the player's shape. */
  function OwnLetter(s: Shape): string
  {
    match s
    case Rock => "X"
    case Paper => "Y"
    case Scissors => "Z"
  }

  /** Both letters of a shape parse back to it. */
  lemma ParseShapeLetters(s: Shape)
    ensures ParseShape(OpponentLetter(s)) == Ok(s) && ParseShape(OwnLetter(s)) == Ok(s)
  {
  }

  /** `Shape::score`. */
  function ShapeScore(s: Shape): (n: nat)
    ensures 1 <= n <= 3
  {
    match s
    case Rock => 1
    case Paper => 2
    case Scissors => 3
  }

  /** Different shapes score differently. */
  lemma ShapeScoreInjective(a: Shape, b: Shape)
    requires ShapeScore(a) == ShapeScore(b)
    ensures a == b
  {
  }

  // ---------------------------------------------------------------------
  // Outcomes

  /** The position of a shape in the cycle Rock, Paper, Scissors. */
  function Index(s: Shape): nat
  {
    match s
    case Rock => 0
    case Paper => 1
    case Scissors => 2
  }

  /** Each shape beats the one before it in the cycle: Paper beats Rock,
      Scissors beat Paper, Rock beats Scissors. */
  predicate Beats(winner: Shape, loser: Shape)
  {
    (Index(winner) - Index(loser)) % 3 == 1
  }

  /** `Outcome::score`. */
  function OutcomeScore(o: Outcome): nat
  {
    match o
    case Win => 6
    case Loss => 0
    case Draw => 3
  }

  /** `GameResult::outcome`: the outcome for the player, whose shape is the
      second one. */
  function OutcomeOf(g: GameResult): (o: Outcome)
    ensures o == Draw <==> g.opponent == g.own
    ensures o == Win <==> Beats(g.own, g.opponent)
    ensures o == Loss <==> Beats(g.opponent, g.own)
  {
    match (g.opponent, g.own)
    case (Rock, Paper) => Win
    case (Paper, Rock) => Loss
    case (Paper, Scissors) => Win
    case (Scissors, Paper) => Loss
    case (Scissors, Rock) => Win
    case (Rock, Scissors) => Loss
    case _ => Draw
  }

  /** The outcome seen from the other side of the table. */
  function Reversed(o: Outcome): Outcome
  {
    match o
    case Win => Loss
    case Loss => Win
    case Draw => Draw
  }

  /** Swapping the two shapes swaps a win and a loss and keeps a draw. */
  lemma OutcomeSwap(a: Shape, b: Shape)
    ensures OutcomeOf(GameResult(b, a)) == Reversed(OutcomeOf(GameResult(a, b)))
  {
  }

  /** `GameResult::score`: the player's shape plus the outcome. */
  function Score(g: GameResult): (n: nat)
    ensures 1 <= n <= 9
  {
    ShapeScore(g.own) + OutcomeScore(OutcomeOf(g))
  }

  /** A score tells the player's shape and the outcome apart. */
  lemma ScoreDetermines(g: GameResult, h: GameResult)
    requires Score(g) == Score(h)
    ensures g.own == h.own && OutcomeOf(g) == OutcomeOf(h)
  {
  }

  // ---------------------------------------------------------------------
  // Part one: parsing rounds and summing their scores

  /** `GameResult::from_str`: the first two pieces of the line split at
      spaces, each parsed as a shape; pieces after the second are ignored. */
  function ParseGameResult(line: string): (r: Result<GameResult, string>)
    ensures r.Ok? <==>
      var parts := Split(line, ' ');
      |parts| >= 2 && ParseShape(parts[0]).Ok? && ParseShape(parts[1]).Ok?
    ensures r.Ok? ==>
      var parts := Split(line, ' ');
      r.value == GameResult(ParseShape(parts[0]).value, ParseShape(parts[1]).value)
    ensures r.Err? ==>
      var parts := Split(line, ' ');
      (r.error == "No next value" <==> ParseShape(parts[0]).Ok? && |parts| < 2)
  {
    var parts := Split(line, ' ');
    var first := ParseShape(parts[0]);
    if first.Err? then Err(first.error)
    else if |parts| < 2 then Err("No next value")
    else
      var second := ParseShape(parts[1]);
      if second.Err? then Err(second.error)
      else Ok(GameResult(first.value, second.value))
  }

  /** The line a round is written as. */
  function GameResultLine(g: GameResult): string
  {
    OpponentLetter(g.opponent) + " " + OwnLetter(g.own)
  }

  /** A round's line parses back to it. */
  lemma ParseGameResultLine(g: GameResult)
    ensures ParseGameResult(GameResultLine(g)) == Ok(g)
  {
    var a, b := OpponentLetter(g.opponent), OwnLetter(g.own);
    SplitAfterPiece(a, ' ', b);
    SplitNoSeparator(b, ' ');
    ParseShapeLetters(g.opponent);
    ParseShapeLetters(g.own);
  }

  /** `parse_scores`: the lines that parse, in order; the others are
      dropped. */
  function ParseScores(lines: seq<string>): (rounds: seq<GameResult>)
    ensures |rounds| <= |lines|
  {
    if lines == [] then [] else KeptRound(lines[0]) + ParseScores(lines[1..])
  }

  /** What `filter_map` keeps of one line: its round, or nothing. */
  function KeptRound(line: string): (kept: seq<GameResult>)
    ensures |kept| <= 1
  {
    var r := ParseGameResult(line);
    if r.Ok? then [r.value] else []
  }

  /** Parsing a guide is parsing its parts one after the other. */
  lemma {:induction false} ParseScoresConcat(a: seq<string>, b: seq<string>)
    ensures ParseScores(a + b) == ParseScores(a) + ParseScores(b)
    decreases |a|
  {
    if a == [] {
      assert a + b == b;
    } else {
      assert (a + b)[0] == a[0] && (a + b)[1..] == a[1..] + b;
      ParseScoresConcat(a[1..], b);
    }
  }

  /** A line is kept exactly when it parses. */
  lemma ParseScoresOne(line: string)
    ensures ParseScores([line]) == if ParseGameResult(line).Ok? then [ParseGameResult(line).value] else []
  {
    assert [line][1..] == [];
  }

  /** The scores of the rounds. */
  function Scores(rounds: seq<GameResult>): (s: seq<int>)
    ensures |s| == |rounds| && forall i | 0 <= i < |rounds| :: s[i] == Score(rounds[i])
  {
    seq(|rounds|, i requires 0 <= i < |rounds| => Score(rounds[i]))
  }

  /** `sum_scores`: the total of the rounds' scores. */
  function SumScores(rounds: seq<GameResult>): int
  {
    Sum(Scores(rounds))
  }

  /** Every round scores between 1 and 9. */
  lemma {:induction false} SumScoresBounds(rounds: seq<GameResult>)
    ensures |rounds| <= SumScores(rounds) <= 9 * |rounds|
    decreases |rounds|
  {
    if rounds != [] {
      var s, n := Scores(rounds), |rounds|;
      assert Scores(rounds[..n - 1]) == s[..n - 1];
      SumScoresBounds(rounds[..n - 1]);
    }
  }

  /** Totals add up over consecutive parts of a guide. */
  lemma SumScoresConcat(a: seq<GameResult>, b: seq<GameResult>)
    ensures SumScores(a + b) == SumScores(a) + SumScores(b)
  {
    assert Scores(a + b) == Scores(a) + Scores(b);
    SumConcat(Scores(a), Scores(b));
  }

  // ---------------------------------------------------------------------
  // Part two: strategies

  /** `Outcome::from_str`: X is a loss, Y a draw, Z a win; any other text is
      an error. */
  function ParseOutcome(s: string): (r: Result<Outcome, string>)
    ensures r.Ok? <==> s in {"X", "Y", "Z"}
    ensures r.Err? ==> r.error == "Oh no"
  {
    match s
    case "X" => Ok(Loss)
    case "Y" => Ok(Draw)
    case "Z" => Ok(Win)
    case _ => Err("Oh no")
  }

  /** The letter the guide uses, in part two, for an outcome. */
  function OutcomeLetter(o: Outcome): string
  {
    match o
    case Loss => "X"
    case Draw => "Y"
    case Win => "Z"
  }

  /** An outcome's letter parses back to it. */
  lemma ParseOutcomeLetter(o: Outcome)
    ensures ParseOutcome(OutcomeLetter(o)) == Ok(o)
  {
  }

  /** `Strategy::from_str`: the first two pieces of the line, a shape and an
      outcome. */
  function ParseStrategy(line: string): (r: Result<Strategy, string>)
    ensures r.Ok? <==>
      var parts := Split(line, ' ');
      |parts| >= 2 && ParseShape(parts[0]).Ok? && ParseOutcome(parts[1]).Ok?
    ensures r.Ok? ==>
      var parts := Split(line, ' ');
      r.value == Strategy(ParseShape(parts[0]).value, ParseOutcome(parts[1]).value)
    ensures r.Err? ==>
      var parts := Split(line, ' ');
      (r.error == "No next value" <==> ParseShape(parts[0]).Ok? && |parts| < 2)
  {
    var parts := Split(line, ' ');
    var shape := ParseShape(parts[0]);
    if shape.Err? then Err(shape.error)
    else if |parts| < 2 then Err("No next value")
    else
      var outcome := ParseOutcome(parts[1]);
      if outcome.Err? then Err(outcome.error)
      else Ok(Strategy(shape.value, outcome.value))
  }

  /** The line a strategy is written as. */
  function StrategyLine(s: Strategy): string
  {
    OpponentLetter(s.opponent) + " " + OutcomeLetter(s.outcome)
  }

  /** A strategy's line parses back to it. */
  lemma ParseStrategyLine(s: Strategy)
    ensures ParseStrategy(StrategyLine(s)) == Ok(s)
  {
    var a, b := OpponentLetter(s.opponent), OutcomeLetter(s.outcome);
    SplitAfterPiece(a, ' ', b);
    SplitNoSeparator(b, ' ');
    ParseShapeLetters(s.opponent);
    ParseOutcomeLetter(s.outcome);
  }

  /** `strategy_to_result`: the round in which the player answers the
      opponent's shape so as to reach the wanted outcome. */
  function StrategyToResult(s: Strategy): (g: GameResult)
    ensures g.opponent == s.opponent && OutcomeOf(g) == s.outcome
  {
    match s.outcome
    case Win =>
      GameResult(s.opponent, match s.opponent
        case Rock => Paper
        case Paper => Scissors
        case Scissors => Rock)
    case Loss =>
      GameResult(s.opponent, match s.opponent
        case Rock => Scissors
        case Paper => Rock
        case Scissors => Paper)
    case Draw => GameResult(s.opponent, s.opponent)
  }

  /** Only one answer reaches the wanted outcome. */
  lemma StrategyAnswerUnique(s: Strategy, g: GameResult)
    requires g.opponent == s.opponent && OutcomeOf(g) == s.outcome
    ensures g == StrategyToResult(s)
  {
  }

  /** `parse_strategies`: the lines that parse, in order. */
  function ParseStrategies(lines: seq<string>): (strategies: seq<Strategy>)
    ensures |strategies| <= |lines|
  {
    if lines == [] then [] else KeptStrategy(lines[0]) + ParseStrategies(lines[1..])
  }

  /** What `filter_map` keeps of one line: its strategy, or nothing. */
  function KeptStrategy(line: string): (kept: seq<Strategy>)
    ensures |kept| <= 1
  {
    var r := ParseStrategy(line);
    if r.Ok? then [r.value] else []
  }

  lemma {:induction false} ParseStrategiesConcat(a: seq<string>, b: seq<string>)
    ensures ParseStrategies(a + b) == ParseStrategies(a) + ParseStrategies(b)
    decreases |a|
  {
    if a == [] {
      assert a + b == b;
    } else {
      assert (a + b)[0] == a[0] && (a + b)[1..] == a[1..] + b;
      ParseStrategiesConcat(a[1..], b);
    }
  }

  lemma ParseStrategiesOne(line: string)
    ensures ParseStrategies([line]) == if ParseStrategy(line).Ok? then [ParseStrategy(line).value] else []
  {
    assert [line][1..] == [];
  }

  /** The rounds the strategies call for. */
  function StrategyRounds(strategies: seq<Strategy>): (rounds: seq<GameResult>)
    ensures |rounds| == |strategies|
    ensures forall i | 0 <= i < |strategies| ::
      rounds[i].opponent == strategies[i].opponent && OutcomeOf(rounds[i]) == strategies[i].outcome
  {
    seq(|strategies|, i requires 0 <= i < |strategies| => StrategyToResult(strategies[i]))
  }

  /** The part-two total: the scores of the rounds the strategies call for. */
  function StrategyTotal(lines: seq<string>): int
  {
    SumScores(StrategyRounds(ParseStrategies(lines)))
  }

  // ---------------------------------------------------------------------
  // The published example

  const ExampleLines: seq<string> := ["A Y", "B X", "C Z"]

  lemma ExampleRounds()
    ensures ParseScores(ExampleLines) ==
      [GameResult(Rock, Paper), GameResult(Paper, Rock), GameResult(Scissors, Scissors)]
  {
    var rounds := [GameResult(Rock, Paper), GameResult(Paper, Rock), GameResult(Scissors, Scissors)];
    ParseGameResultLine(rounds[0]);
    ParseGameResultLine(rounds[1]);
    ParseGameResultLine(rounds[2]);
    assert GameResultLine(rounds[0]) == "A Y";
    assert GameResultLine(rounds[1]) == "B X";
    assert GameResultLine(rounds[2]) == "C Z";
    assert ExampleLines == [GameResultLine(rounds[0])] + [GameResultLine(rounds[1])] + [GameResultLine(rounds[2])];
    ParseScoresConcat([GameResultLine(rounds[0])] + [GameResultLine(rounds[1])], [GameResultLine(rounds[2])]);
    ParseScoresConcat([GameResultLine(rounds[0])], [GameResultLine(rounds[1])]);
    ParseScoresOne(GameResultLine(rounds[0]));
    ParseScoresOne(GameResultLine(rounds[1]));
    ParseScoresOne(GameResultLine(rounds[2]));
  }

  /** `test_example`: the example scores 15 in part one. */
  lemma ExamplePartOne()
    ensures SumScores(ParseScores(ExampleLines)) == 15
  {
    ExampleRounds();
    var rounds := ParseScores(ExampleLines);
    assert Scores(rounds) == [8, 1, 6];
    assert [8, 1, 6][..2] == [8, 1] && [8, 1][..1] == [8] && [8][..0] == [];
  }

  lemma ExampleStrategies()
    ensures ParseStrategies(ExampleLines) ==
      [Strategy(Rock, Draw), Strategy(Paper, Loss), Strategy(Scissors, Win)]
  {
    var strategies := [Strategy(Rock, Draw), Strategy(Paper, Loss), Strategy(Scissors, Win)];
    ParseStrategyLine(strategies[0]);
    ParseStrategyLine(strategies[1]);
    ParseStrategyLine(strategies[2]);
    assert StrategyLine(strategies[0]) == "A Y";
    assert StrategyLine(strategies[1]) == "B X";
    assert StrategyLine(strategies[2]) == "C Z";
    assert ExampleLines == [StrategyLine(strategies[0])] + [StrategyLine(strategies[1])] + [StrategyLine(strategies[2])];
    ParseStrategiesConcat([StrategyLine(strategies[0])] + [StrategyLine(strategies[1])], [StrategyLine(strategies[2])]);
    ParseStrategiesConcat([StrategyLine(strategies[0])], [StrategyLine(strategies[1])]);
    ParseStrategiesOne(StrategyLine(strategies[0]));
    ParseStrategiesOne(StrategyLine(strategies[1]));
    ParseStrategiesOne(StrategyLine(strategies[2]));
  }

  /** `test_example2`: the example scores 12 in part two. */
  lemma ExamplePartTwo()
    ensures StrategyTotal(ExampleLines) == 12
  {
    ExampleStrategies();
    var rounds := StrategyRounds(ParseStrategies(ExampleLines));
    assert rounds == [GameResult(Rock, Rock), GameResult(Paper, Rock), GameResult(Scissors, Rock)];
    assert Scores(rounds) == [4, 1, 7];
    assert [4, 1, 7][..2] == [4, 1] && [4, 1][..1] == [4] && [4][..0] == [];
  }
}
