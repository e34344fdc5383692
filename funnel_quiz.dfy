/**
 * The three-question quiz (src/components/FunnelQuiz.jsx): the answers are
 * collected one per step, and after the last question the first two
 * answers pick one of four downloadable guides.
 */
module FunnelQuiz {

  datatype Question = Question(text: string, options: seq<string>)

  const GOAL_EXTRA_INCOME: string := "Start a side hustle for extra income"
  const GOAL_HOBBY: string := "Turn a hobby into a business"
  const GOAL_FULL_TIME: string := "Go full-time entrepreneur"
  const BUDGET_LOW: string := "$0\U{2013}$100"

  const QUESTIONS: seq<Question> := [
    Question("What\U{2019}s your main goal right now?", [GOAL_EXTRA_INCOME, GOAL_HOBBY, GOAL_FULL_TIME]),
    Question("What\U{2019}s your starting budget?", [BUDGET_LOW, "$100\U{2013}$1000", "$1000+"]),
    Question("How much time can you invest per week?", ["5 hours", "10\U{2013}20 hours", "20+ hours"])
  ]

  /** The four guides the quiz can recommend. */
  datatype Guide = QuickWins | Passion | Toolkit | Starter

  datatype Recommendation = Recommendation(title: string, description: string, link: string)

  function Details(g: Guide): Recommendation {
    match g
    case QuickWins => Recommendation("Quick Wins Side Hustles",
      "Low-cost, fast-start ideas you can launch this month to generate extra cash.", "/quick-wins-guide.pdf")
    case Passion => Recommendation("Turn Your Passion into Income Guide",
      "Learn how to validate your hobby, build your first audience, and earn your first sales.",
      "/hobby-to-business-guide.pdf")
    case Toolkit => Recommendation("Business Plan & Funding Toolkit",
      "A complete template and resource pack to plan, pitch, and secure funding.", "/business-plan-toolkit.pdf")
    case Starter => Recommendation("Side Hustle Starter Guide",
      "Covers the exact first steps to start a small business.", "/starter-guide.pdf")
  }

  /** `const [goal, budget] = answers`: an answer not yet given reads as `undefined`, equal to no option. */
  predicate AnswerIs(answers: seq<string>, i: nat, option: string) {
    i < |answers| && answers[i] == option
  }

  /** The if-chain of `getRecommendation`, as the guide it settles on. */
  function Recommend(answers: seq<string>): (g: Guide)
    ensures g == QuickWins <==> AnswerIs(answers, 0, GOAL_EXTRA_INCOME) && AnswerIs(answers, 1, BUDGET_LOW)
    ensures g == Passion <==> AnswerIs(answers, 0, GOAL_HOBBY)
    ensures g == Toolkit <==> AnswerIs(answers, 0, GOAL_FULL_TIME)
    ensures g == Starter <==>
      && !(AnswerIs(answers, 0, GOAL_EXTRA_INCOME) && AnswerIs(answers, 1, BUDGET_LOW))
      && !AnswerIs(answers, 0, GOAL_HOBBY) && !AnswerIs(answers, 0, GOAL_FULL_TIME)
  {
    assert |GOAL_EXTRA_INCOME| == 36 && |GOAL_HOBBY| == 28 && |GOAL_FULL_TIME| == 25;
    if AnswerIs(answers, 0, GOAL_EXTRA_INCOME) && AnswerIs(answers, 1, BUDGET_LOW) then QuickWins
    else if AnswerIs(answers, 0, GOAL_HOBBY) then Passion
    else if AnswerIs(answers, 0, GOAL_FULL_TIME) then Toolkit
    else Starter
  }

  function GetRecommendation(answers: seq<string>): Recommendation {
    Details(Recommend(answers))
  }

  /** Only the goal and the budget count: the time per week, and anything after it, never changes the pick. */
  lemma OnlyGoalAndBudgetMatter(a: seq<string>, b: seq<string>)
    requires |a| >= 2 && |b| >= 2 && a[0] == b[0] && a[1] == b[1]
    ensures Recommend(a) == Recommend(b)
  {
  }

  /** Whatever the third answer, the pick is the same. */
  lemma TimeAnswerIgnored(answers: seq<string>, time: string)
    requires |answers| >= 3
    ensures Recommend(answers[2 := time]) == Recommend(answers)
  {
    OnlyGoalAndBudgetMatter(answers[2 := time], answers);
  }

  /** The hobby goal and the full-time goal decide alone, whatever the budget. */
  lemma GoalDecides(budget: string, time: string)
    ensures Recommend([GOAL_HOBBY, budget, time]) == Passion
    ensures Recommend([GOAL_FULL_TIME, budget, time]) == Toolkit
  {
  }

  /** The extra-income goal with a larger budget, and no answers at all, both get the starter guide. */
  lemma StarterFallback(time: string)
    ensures Recommend([GOAL_EXTRA_INCOME, "$100\U{2013}$1000", time]) == Starter
    ensures Recommend([]) == Starter
  {
    assert "$100\U{2013}$1000" != BUDGET_LOW by {
      assert |BUDGET_LOW| == 7;
    }
  }

  /** What the quiz shows: the current question or, once past the last, the recommendation. */
  datatype View = Asking(question: Question, stepLabel: nat) | Results(rec: Recommendation)

  function Render(step: nat, answers: seq<string>): (v: View)
    ensures v.Results? <==> step >= |QUESTIONS|
    ensures v.Asking? ==> v.question == QUESTIONS[step] && v.stepLabel == step + 1
    ensures v.Results? ==> v.rec == GetRecommendation(answers)
  {
    if step < |QUESTIONS| then Asking(QUESTIONS[step], step + 1) else Results(GetRecommendation(answers))
  }

  /** The quiz component's state. */
  class Quiz {
    var step: nat
    var answers: seq<string>

    /** One answer per step taken. */
    predicate Valid()
      reads this
    {
      step == |answers|
    }

    constructor ()
      ensures step == 0 && answers == []
      ensures Valid()
    {
      step := 0;
      answers := [];
    }

    /** `handleAnswer`: both branches append the answer and move one step on. */
    method HandleAnswer(answer: string)
      modifies this
      ensures answers == old(answers) + [answer]
      ensures step == old(step) + 1
      ensures old(Valid()) ==> Valid()
    {
      var newAnswers := answers + [answer];
      answers := newAnswers;
      if step < |QUESTIONS| - 1 {
        step := step + 1;
      } else {
        step := step + 1;
      }
    }

    /** The results show exactly once three answers have been given. */
    function Shown(): (v: View)
      requires Valid()
      reads this
      ensures v.Results? <==> |answers| >= 3
    {
      Render(step, answers)
    }
  }

  /** Three answers in a fresh quiz lead to the results for those answers. */
  method ThreeAnswers(goal: string, budget: string, time: string) returns (v: View)
    ensures v == Results(GetRecommendation([goal, budget, time]))
  {
    var quiz := new Quiz();
    quiz.HandleAnswer(goal);
    quiz.HandleAnswer(budget);
    quiz.HandleAnswer(time);
    assert quiz.answers == [goal, budget, time] && quiz.step == 3;
    v := quiz.Shown();
  }
}
