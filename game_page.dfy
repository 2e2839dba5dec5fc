/**
 * The round logic of client/src/pages/GamePage.tsx: a countdown from 60
 * seconds per question, revealing the answer when it runs out or on
 * request, and cycling through the shuffled questions of the category.
 */
module GamePage {
  import opened Wrappers
  import opened Schema
  import opened Utils

  /** Seconds on the clock at the start of every question. */
  const RoundSeconds := 60

  /** The page's state variables. */
  datatype Round = Round(index: nat, showAnswer: bool, timeLeft: int, timerRunning: bool)

  /** The state on first render: first question, answer hidden, full clock, timer on. */
  const Initial := Round(0, false, RoundSeconds, true)

  /**
   * One interval tick. While the timer runs, the clock counts down; at 1
   * or below it stops at 0 and shows the answer. With the timer off no
   * interval is installed, so nothing happens.
   */
  function Tick(r: Round): Round {
    if !r.timerRunning then r
    else if r.timeLeft <= 1 then r.(timeLeft := 0, timerRunning := false, showAnswer := true)
    else r.(timeLeft := r.timeLeft - 1)
  }

  /** `nextQuestion`: advance the index, hide the answer, restart the clock. */
  function Next(r: Round): Round {
    Round(r.index + 1, false, RoundSeconds, true)
  }

  /** `handleShowAnswer`: show the answer and stop the clock where it is. */
  function ShowAnswer(r: Round): Round {
    r.(showAnswer := true, timerRunning := false)
  }

  /** The effect on a `gameId` change: restart the clock and hide the answer; the index stays. */
  function GameIdChanged(r: Round): Round {
    r.(timeLeft := RoundSeconds, timerRunning := true, showAnswer := false)
  }

  /**
   * What every reachable state satisfies: the clock is within [0, 60];
   * the timer runs exactly while the answer is hidden; a running clock
   * shows at least 1; and a clock at 0 has revealed the answer.
   */
  ghost predicate Inv(r: Round) {
    && 0 <= r.timeLeft <= RoundSeconds
    && (r.timerRunning <==> !r.showAnswer)
    && (r.timerRunning ==> r.timeLeft >= 1)
  }

  lemma InitialInv()
    ensures Inv(Initial)
  {
  }

  /** Every transition keeps the invariant. */
  lemma TransitionsKeepInv(r: Round)
    requires Inv(r)
    ensures Inv(Tick(r)) && Inv(Next(r)) && Inv(ShowAnswer(r)) && Inv(GameIdChanged(r))
  {
  }

  /** The clock never stops at 0 with the answer still hidden. */
  lemma ZeroMeansRevealed(r: Round)
    requires Inv(r) && r.timeLeft == 0
    ensures r.showAnswer && !r.timerRunning
  {
  }

  /** `n` ticks in a row. */
  function Ticks(r: Round, n: nat): Round
    decreases n
  {
    if n == 0 then r else Ticks(Tick(r), n - 1)
  }

  /**
   * A running clock showing `t` reveals the answer after exactly `t`
   * ticks, and not before; the question does not change meanwhile.
   */
  lemma {:induction false} TicksRunOut(r: Round, n: nat)
    requires r.timerRunning && !r.showAnswer && r.timeLeft >= 1
    requires n <= r.timeLeft
    ensures Ticks(r, n).index == r.index
    ensures n < r.timeLeft ==> Ticks(r, n) == r.(timeLeft := r.timeLeft - n)
    ensures n == r.timeLeft ==> Ticks(r, n) == r.(timeLeft := 0, timerRunning := false, showAnswer := true)
    decreases n
  {
    if n > 0 {
      if r.timeLeft == 1 {
        assert Ticks(r, n) == Ticks(Tick(r), 0);
      } else {
        TicksRunOut(Tick(r), n - 1);
      }
    }
  }

  /** The timer bar's colour class. */
  datatype Color = Destructive | Warning | Accent

  function TimerBarColor(timeLeft: int): (c: Color)
    ensures c == Destructive <==> timeLeft <= 5
    ensures c == Warning <==> 5 < timeLeft <= 10
    ensures c == Accent <==> timeLeft > 10
  {
    if timeLeft <= 5 then Destructive
    else if timeLeft <= 10 then Warning
    else Accent
  }

  /** The shown question: `shuffled[index % length]`, none while the list is empty. */
  function QuestionAt(shuffled: seq<GameQuestion>, index: nat): (q: Option<GameQuestion>)
    ensures q.None? <==> shuffled == []
    ensures q.Some? ==> q.value in shuffled
  {
    if |shuffled| > 0 then Some(shuffled[index % |shuffled|]) else None
  }

  lemma MulAtLeast(k: int, n: int)
    requires k >= 1 && n > 0
    ensures k * n >= n
  {
    if k > 1 {
      MulAtLeast(k - 1, n);
      assert k * n == (k - 1) * n + n;
    }
  }

  /** Adding the divisor does not change the remainder. */
  lemma ModAddPeriod(a: nat, n: nat)
    requires n > 0
    ensures (a + n) % n == a % n
  {
    var q1, r1 := (a + n) / n, (a + n) % n;
    var q2, r2 := a / n, a % n;
    var k := q1 - q2 - 1;
    assert k * n == r2 - r1 by {
      assert q1 * n + r1 == q2 * n + r2 + n;
      assert k * n == q1 * n - q2 * n - n;
    }
    if k >= 1 {
      MulAtLeast(k, n);
    } else if k <= -1 {
      MulAtLeast(-k, n);
    }
  }

  /** The index grows without bound, and the questions come round again after `length` steps. */
  lemma QuestionAtPeriodic(shuffled: seq<GameQuestion>, index: nat)
    ensures QuestionAt(shuffled, index + |shuffled|) == QuestionAt(shuffled, index)
  {
    if |shuffled| > 0 {
      ModAddPeriod(index, |shuffled|);
    }
  }

  /** Within one pass, distinct indices show distinct positions of the list. */
  lemma QuestionsOfAPass(shuffled: seq<GameQuestion>, i: nat)
    requires i < |shuffled|
    ensures QuestionAt(shuffled, i) == Some(shuffled[i])
  {
  }

  /** The page's state, updated in place by its callbacks. */
  class GamePageState {
    var currentQuestionIndex: nat
    var showAnswer: bool
    var timeLeft: int
    var timerRunning: bool
    var shuffledQuestions: seq<GameQuestion>

    function State(): Round
      reads this
    {
      Round(currentQuestionIndex, showAnswer, timeLeft, timerRunning)
    }

    ghost predicate Valid()
      reads this
    {
      Inv(State())
    }

    constructor ()
      ensures Valid()
      ensures State() == Initial && shuffledQuestions == []
    {
      currentQuestionIndex := 0;
      showAnswer := false;
      timeLeft := RoundSeconds;
      timerRunning := true;
      shuffledQuestions := [];
    }

    method OnTick()
      requires Valid()
      modifies this
      ensures Valid()
      ensures State() == Tick(old(State()))
      ensures shuffledQuestions == old(shuffledQuestions)
    {
      TransitionsKeepInv(State());
      if timerRunning {
        if timeLeft <= 1 {
          timerRunning := false;
          showAnswer := true;
          timeLeft := 0;
        } else {
          timeLeft := timeLeft - 1;
        }
      }
    }

    method NextQuestion()
      requires Valid()
      modifies this
      ensures Valid()
      ensures State() == Next(old(State()))
      ensures shuffledQuestions == old(shuffledQuestions)
    {
      TransitionsKeepInv(State());
      currentQuestionIndex := currentQuestionIndex + 1;
      showAnswer := false;
      timeLeft := RoundSeconds;
      timerRunning := true;
    }

    method HandleShowAnswer()
      requires Valid()
      modifies this
      ensures Valid()
      ensures State() == ShowAnswer(old(State()))
      ensures shuffledQuestions == old(shuffledQuestions)
    {
      TransitionsKeepInv(State());
      showAnswer := true;
      timerRunning := false;
    }

    method OnGameIdChange()
      requires Valid()
      modifies this
      ensures Valid()
      ensures State() == GameIdChanged(old(State()))
      ensures shuffledQuestions == old(shuffledQuestions)
    {
      TransitionsKeepInv(State());
      timeLeft := RoundSeconds;
      timerRunning := true;
      showAnswer := false;
    }

    /**
     * The effect on loading the category's questions: a non-empty list is
     * shuffled (with the given picks) and kept; an empty one changes nothing.
     */
    method OnQuestionsLoaded(questions: seq<GameQuestion>, choices: seq<nat>)
      requires Valid()
      requires ValidChoices(choices, |questions|)
      modifies this
      ensures Valid()
      ensures State() == old(State())
      ensures questions == [] ==> shuffledQuestions == old(shuffledQuestions)
      ensures questions != [] ==> shuffledQuestions == Shuffled(questions, choices)
      ensures questions != [] ==> multiset(shuffledQuestions) == multiset(questions)
    {
      if |questions| > 0 {
        var a := new GameQuestion[|questions|](k requires 0 <= k < |questions| => questions[k]);
        assert a[..] == questions;
        var b := ShuffleArray(a, choices);
        shuffledQuestions := b[..];
      }
    }

    /** `currentQuestion`, computed on each render. */
    function CurrentQuestion(): (q: Option<GameQuestion>)
      reads this
      ensures q.None? <==> shuffledQuestions == []
      ensures q.Some? ==> q.value in shuffledQuestions
    {
      QuestionAt(shuffledQuestions, currentQuestionIndex)
    }
  }
}
