/**
 * The practice-quiz screen: it turns the MCQs fetched for a chapter into a
 * quiz that takes one answer per question, keeps a running score, moves
 * only forward, reports the final score once, and ends on a result view
 * with a rounded percentage and a three-way band.
 */
module Practice {
  import opened Wrappers
  import Text
  import McqCard
  import AiGeneration

  // ---------------------------------------------------------------------
  // From fetched MCQs to quiz items
  // ---------------------------------------------------------------------

  /** An MCQ as the generation endpoint returns it. */
  datatype RawMcq = RawMcq(
    id: int, question: string, optionA: string, optionB: string, optionC: string, optionD: string, correct: string)

  /** A quiz question: its four labelled options and the label of the right one. */
  datatype QuizItem = QuizItem(id: int, question: string, options: seq<McqCard.Choice>, correct: string)

  const Labels: seq<string> := ["A", "B", "C", "D"]

  /** The `response.data.map(...)` step for one MCQ. */
  function Format(m: RawMcq): (q: QuizItem)
    ensures q.id == m.id && q.question == m.question && q.correct == m.correct
    ensures |q.options| == 4 && forall k :: 0 <= k < 4 ==> q.options[k].id == Labels[k]
    ensures q.options[0].text == m.optionA && q.options[1].text == m.optionB
    ensures q.options[2].text == m.optionC && q.options[3].text == m.optionD
  {
    QuizItem(m.id, m.question,
      [McqCard.Choice("A", m.optionA), McqCard.Choice("B", m.optionB),
       McqCard.Choice("C", m.optionC), McqCard.Choice("D", m.optionD)],
      m.correct)
  }

  /** The whole formatted list, in the order fetched. */
  function FormatAll(ms: seq<RawMcq>): (qs: seq<QuizItem>)
    ensures |qs| == |ms|
    ensures forall i :: 0 <= i < |ms| ==> qs[i] == Format(ms[i])
  {
    if ms == [] then [] else [Format(ms[0])] + FormatAll(ms[1..])
  }

  // ---------------------------------------------------------------------
  // Fetch outcomes
  // ---------------------------------------------------------------------

  /** How the request for questions ended. */
  datatype FetchOutcome =
    /** A 2xx answer; `response.data` may be null. */
    | Received(body: Option<seq<RawMcq>>)
    /** An error with a response: its status and the `detail` field of its body. */
    | HttpFailure(status: int, detail: Option<string>)
    /** An error without a response (network failure). */
    | NoResponse

  /** The screen's error state: the message shown and whether it is a rate-limit refusal. */
  datatype Failure = Failure(message: string, rateLimited: bool)

  datatype Loaded = Quiz(items: seq<QuizItem>) | Failed(failure: Failure)

  /** (Messages kept in short pieces.) */
  const NoQuestionsMessage := "No questions available " + "for this chapter."
  const DailyLimitMessage := "You've exceeded today's " + "limit of 5 AI requests. " + "Please try again tomorrow! \U{1F31F}"
  const GenericFailureMessage := "Failed to generate questions. " + "Check your API key."

  /** `err.response.data?.detail || <fixed message>`: a missing or empty detail falls back. */
  function DetailOr(detail: Option<string>, fallback: string): string {
    if detail.Some? && detail.value != "" then detail.value else fallback
  }

  /** A 429 status marks the failure as a rate-limit refusal. */
  function Load(o: FetchOutcome): (r: Loaded)
    ensures r.Quiz? <==> o.Received? && o.body.Some? && o.body.value != []
    ensures r.Quiz? ==> r.items == FormatAll(o.body.value) && r.items != []
    ensures r.Failed? ==> r.failure.message != "" && (r.failure.rateLimited <==> o.HttpFailure? && o.status == 429)
  {
    match o
    case Received(body) =>
      if body.Some? && |body.value| > 0 then Quiz(FormatAll(body.value))
      else Failed(Failure(NoQuestionsMessage, false))
    case HttpFailure(status, detail) =>
      if status == 429 then Failed(Failure(DetailOr(detail, DailyLimitMessage), true))
      else Failed(Failure(GenericFailureMessage, false))
    case NoResponse => Failed(Failure(GenericFailureMessage, false))
  }

  /** The source's own rule for the rate-limit view: the error text contains "limit". */
  predicate RateLimitViewAsWritten(message: string): (r: bool)
    ensures r ==> 5 <= |message|
    ensures Text.StartsWith(message, "limit") ==> r
  {
    assert Text.StartsWith(message, "limit") ==> Text.OccursAt(message, "limit", 0);
    Text.Contains(message, "limit")
  }

  /**
   * The quota refusal of the generation endpoint is a 429, yet its detail
   * lacks the word "limit", so the source shows it as a generic "Oops!".
   */
  lemma QuotaRefusalMisclassified()
    ensures var f := Load(HttpFailure(429, Some(AiGeneration.QuotaDetail))).failure;
      f.message == AiGeneration.QuotaDetail && f.rateLimited && !RateLimitViewAsWritten(f.message)
  {
    var a, b, c := "AI daily quota exceeded. ", "Try again tomorrow ", "or use existing questions.";
    Text.NoPairNotContains(a, "limit");
    Text.NoPairNotContains(b, "limit");
    Text.NoPairNotContains(c, "limit");
    Text.ConcatNotContains(a, b, "limit");
    Text.ConcatNotContains(a + b, c, "limit");
  }

  /** Both daily-limit texts, the client's fallback and the server's counter refusal, contain "limit". */
  lemma LimitMessagesContainLimit()
    ensures RateLimitViewAsWritten(DailyLimitMessage)
    ensures RateLimitViewAsWritten(AiGeneration.CounterLimitDetail)
  {
    Text.ContainsMiddle("You've exceeded today's ", "limit of 5 AI requests. ", "Please try again tomorrow! \U{1F31F}", "limit");
    Text.ContainsMiddle("You've exceeded today's ", "limit of 5 AI requests. ",
                        "Please try again tomorrow! \U{F0}\U{178}\U{152}\U{178}", "limit");
  }

  /** Neither the empty-list text nor the generic failure text contains "limit". */
  lemma OtherMessagesLackLimit()
    ensures !RateLimitViewAsWritten(NoQuestionsMessage)
    ensures !RateLimitViewAsWritten(GenericFailureMessage)
  {
    var a, b := "No questions available ", "for this chapter.";
    Text.NoPairNotContains(a, "limit");
    Text.NoPairNotContains(b, "limit");
    Text.ConcatNotContains(a, b, "limit");
    var c, d := "Failed to generate questions. ", "Check your API key.";
    Text.NoPairNotContains(c, "limit");
    Text.NoPairNotContains(d, "limit");
    Text.ConcatNotContains(c, d, "limit");
  }

  /** On every other outcome the source's text rule agrees with the status rule. */
  lemma TextRuleAgreesOtherwise(o: FetchOutcome)
    requires Load(o).Failed?
    requires o.HttpFailure? && o.status == 429 ==>
      o.detail.None? || o.detail == Some("") || o.detail == Some(AiGeneration.CounterLimitDetail)
    ensures RateLimitViewAsWritten(Load(o).failure.message) == Load(o).failure.rateLimited
  {
    match o
    case Received(_) => OtherMessagesLackLimit();
    case HttpFailure(status, _) =>
      if status == 429 { LimitMessagesContainLimit(); } else { OtherMessagesLackLimit(); }
    case NoResponse => OtherMessagesLackLimit();
  }

  // ---------------------------------------------------------------------
  // The quiz session
  // ---------------------------------------------------------------------

  /** The one-shot report sent on finishing: chapter, correct answers, questions. */
  datatype Report = Report(chapterId: int, correctAnswers: nat, totalQuestions: nat)

  /** The session's state variables. */
  datatype Session = Session(
    chapterId: int, mcqs: seq<QuizItem>, currentIndex: nat, score: nat,
    selectedOption: Option<string>, showResult: bool)

  /** `route.params?.chapterId || 1`. */
  function ChapterIdOf(param: Option<int>): (id: int)
    ensures id != 0
    ensures param.Some? && param.value != 0 ==> id == param.value
    ensures param.None? || param.value == 0 ==> id == 1
  {
    if param.Some? && param.value != 0 then param.value else 1
  }

  function Start(chapterId: int, items: seq<QuizItem>): Session {
    Session(chapterId, items, 0, 0, None, false)
  }

  /** 1 when an answer is recorded for the current question. */
  function Answered(s: Session): nat {
    if s.selectedOption.Some? then 1 else 0
  }

  /** The session invariant: the index is valid and at most one point per question answered so far. */
  ghost predicate Inv(s: Session) {
    |s.mcqs| > 0 && s.currentIndex < |s.mcqs|
    && s.score <= s.currentIndex + Answered(s) <= |s.mcqs|
    && s.selectedOption != Some("")
    && (s.showResult ==> s.currentIndex == |s.mcqs| - 1)
  }

  lemma StartInv(chapterId: int, items: seq<QuizItem>)
    requires items != []
    ensures Inv(Start(chapterId, items))
  {
  }

  /** `handleSelect(optId)`: only the first answer for a question counts. */
  function Select(s: Session, pick: string): (r: Session)
    requires Inv(s) && !s.showResult && pick != ""
    ensures Inv(r) && !r.showResult
    ensures r.mcqs == s.mcqs && r.currentIndex == s.currentIndex && r.chapterId == s.chapterId
    ensures s.selectedOption.Some? ==> r == s
    ensures s.selectedOption.None? ==>
      r.selectedOption == Some(pick) && r.score == s.score + (if pick == s.mcqs[s.currentIndex].correct then 1 else 0)
  {
    if s.selectedOption.Some? then s
    else
      var point := if pick == s.mcqs[s.currentIndex].correct then 1 else 0;
      s.(selectedOption := Some(pick), score := s.score + point)
  }

  /** `handleNext()`: the next question, or the result view and the one report. */
  function Next(s: Session): (r: (Session, Option<Report>))
    requires Inv(s) && !s.showResult
    ensures Inv(r.0) && r.0.mcqs == s.mcqs && r.0.score == s.score && r.0.chapterId == s.chapterId
    ensures s.currentIndex < |s.mcqs| - 1 ==>
      r.0.currentIndex == s.currentIndex + 1 && r.0.selectedOption.None? && !r.0.showResult && r.1.None?
    ensures s.currentIndex == |s.mcqs| - 1 ==>
      r.0 == s.(showResult := true) && r.1 == Some(Report(s.chapterId, s.score, |s.mcqs|))
  {
    if s.currentIndex < |s.mcqs| - 1 then (s.(currentIndex := s.currentIndex + 1, selectedOption := None), None)
    else (s.(showResult := true), Some(Report(s.chapterId, s.score, |s.mcqs|)))
  }

  /** Repeated answers change nothing: after the first, any number of further taps leave the session as it is. */
  lemma {:induction false} RepeatedSelectIsNoOp(s: Session, labels: seq<string>)
    requires Inv(s) && !s.showResult && s.selectedOption.Some?
    requires forall k :: 0 <= k < |labels| ==> labels[k] != ""
    ensures SelectAll(s, labels) == s
    decreases |labels|
  {
    if labels != [] {
      RepeatedSelectIsNoOp(Select(s, labels[0]), labels[1..]);
    }
  }

  /** Several taps on the current question in a row. */
  function SelectAll(s: Session, labels: seq<string>): (r: Session)
    requires Inv(s) && !s.showResult
    requires forall k :: 0 <= k < |labels| ==> labels[k] != ""
    ensures Inv(r) && !r.showResult
    decreases |labels|
  {
    if labels == [] then s else SelectAll(Select(s, labels[0]), labels[1..])
  }

  /** The number of picks that match their question's correct label. */
  function CountCorrect(items: seq<QuizItem>, picks: seq<string>): (n: nat)
    requires |picks| <= |items|
    ensures n <= |picks|
  {
    if picks == [] then 0
    else (if picks[0] == items[0].correct then 1 else 0) + CountCorrect(items[1..], picks[1..])
  }

  /** The quiz played from `s` on: one answer per question, then "next". */
  function Play(s: Session, picks: seq<string>): (r: (Session, seq<Report>))
    requires Inv(s) && !s.showResult && s.selectedOption.None?
    requires |picks| <= |s.mcqs| - s.currentIndex
    requires forall k :: 0 <= k < |picks| ==> picks[k] != ""
    decreases |picks|
  {
    if picks == [] then (s, [])
    else
      var (t, report) := Next(Select(s, picks[0]));
      var sent := if report.Some? then [report.value] else [];
      if t.showResult then (t, sent)
      else
        var (u, later) := Play(t, picks[1..]);
        (u, sent + later)
  }

  /**
   * Playing every remaining question ends on the result view with the
   * score raised by exactly the number of right answers, and exactly one
   * report carrying the chapter, that score and the number of questions.
   */
  lemma {:induction false} PlayScores(s: Session, picks: seq<string>)
    requires Inv(s) && !s.showResult && s.selectedOption.None?
    requires |picks| == |s.mcqs| - s.currentIndex
    requires forall k :: 0 <= k < |picks| ==> picks[k] != ""
    ensures var (t, reports) := Play(s, picks);
      t.showResult && t.score == s.score + CountCorrect(s.mcqs[s.currentIndex..], picks)
      && reports == [Report(s.chapterId, t.score, |s.mcqs|)]
    decreases |picks|
  {
    var a := Select(s, picks[0]);
    var (t, report) := Next(a);
    var rest := s.mcqs[s.currentIndex..];
    assert rest[0] == s.mcqs[s.currentIndex];
    if !t.showResult {
      PlayScores(t, picks[1..]);
      assert s.mcqs[t.currentIndex..] == rest[1..];
    } else {
      assert picks[1..] == [] && rest[1..] == [];
    }
  }

  /** A whole quiz from the start: score = right answers, and it is at most the number of questions. */
  lemma WholeQuiz(chapterId: int, items: seq<QuizItem>, picks: seq<string>)
    requires items != [] && |picks| == |items|
    requires forall k :: 0 <= k < |picks| ==> picks[k] != ""
    ensures var (t, reports) := Play(Start(chapterId, items), picks);
      t.showResult && t.score == CountCorrect(items, picks) <= |items|
      && reports == [Report(chapterId, t.score, |items|)]
  {
    StartInv(chapterId, items);
    PlayScores(Start(chapterId, items), picks);
    assert items[0..] == items;
  }

  // ---------------------------------------------------------------------
  // The result view
  // ---------------------------------------------------------------------

  /** `Math.round(score / total * 100)`, in integers. */
  function Percent(score: nat, total: nat): (pct: nat)
    requires total > 0
    ensures 2 * total * pct <= 200 * score + total < 2 * total * (pct + 1)
  {
    (200 * score + total) / (2 * total)
  }

  /** For a positive factor, `c * x < c * y` only when `x < y`. */
  lemma MulCancel(c: int, x: int, y: int)
    requires c > 0 && c * x < c * y
    ensures x < y
  {
    assert c * (y - x) > 0;
  }

  /** The rounded percentage lies in 0..100 when the score does not exceed the total. */
  lemma PercentBounded(score: nat, total: nat)
    requires 0 < total && score <= total
    ensures Percent(score, total) <= 100
  {
    var pct := Percent(score, total);
    assert 2 * total * pct < 2 * total * 101;
    MulCancel(2 * total, pct, 101);
  }

  /** A higher score never gives a lower percentage. */
  lemma PercentMonotone(a: nat, b: nat, total: nat)
    requires total > 0 && a <= b
    ensures Percent(a, total) <= Percent(b, total)
  {
    var p, q := Percent(a, total), Percent(b, total);
    assert 2 * total * p < 2 * total * (q + 1);
    MulCancel(2 * total, p, q + 1);
  }

  datatype Band = Excellent | GoodJob | KeepPracticing

  function BandOf(pct: int): (b: Band)
    ensures b == Excellent <==> pct >= 80
    ensures b == GoodJob <==> 60 <= pct < 80
    ensures b == KeepPracticing <==> pct < 60
  {
    if pct >= 80 then Excellent else if pct >= 60 then GoodJob else KeepPracticing
  }

  function Title(b: Band): string {
    match b
    case Excellent => "Excellent! \U{1F389}"
    case GoodJob => "Good Job! \U{1F44D}"
    case KeepPracticing => "Keep Practicing! \U{1F4AA}"
  }

  /** The result view: percentage, title, green (rather than red) colouring, and "score out of total". */
  datatype ResultView = ResultView(pct: nat, title: string, green: bool, score: nat, total: nat)

  function Result(score: nat, total: nat): (v: ResultView)
    requires total > 0
    ensures v.pct == Percent(score, total) && v.title == Title(BandOf(v.pct))
    ensures v.green <==> BandOf(v.pct) != KeepPracticing
    ensures v.score == score && v.total == total
  {
    var pct := Percent(score, total);
    ResultView(pct, Title(BandOf(pct)), pct >= 60, score, total)
  }

  /** 7 of 10 is 70%, "Good Job"; 9 of 10 "Excellent"; 3 of 10 "Keep Practicing"; 1 of 1 is 100%. */
  lemma ResultExamples()
    ensures Result(7, 10).pct == 70 && BandOf(70) == GoodJob && Result(7, 10).green
    ensures Result(9, 10).pct == 90 && BandOf(90) == Excellent
    ensures Result(3, 10).pct == 30 && BandOf(30) == KeepPracticing && !Result(3, 10).green
    ensures Result(1, 1).pct == 100
  {
  }

  // ---------------------------------------------------------------------
  // The screen
  // ---------------------------------------------------------------------

  datatype NextButton = NextQuestion | FinishQuiz

  /** What the screen shows. */
  datatype View =
    | LoadingView
    | ErrorView(rateLimited: bool, title: string, message: string)
    | ResultScreen(result: ResultView)
    | QuestionView(fillPercent: real, number: nat, total: nat, question: string,
                   styles: seq<(McqCard.OptionStyle, McqCard.TextStyle)>, next: Option<NextButton>)

  /** The styles of the options of question `q` (the same rule as the card component's). */
  function OptionStyles(q: QuizItem, selected: Option<string>): (rows: seq<(McqCard.OptionStyle, McqCard.TextStyle)>)
    ensures |rows| == |q.options|
    ensures forall k :: 0 <= k < |q.options| ==>
      rows[k] == (McqCard.StyleOf(selected, q.correct, q.options[k].id), McqCard.TextStyleOf(selected, q.correct, q.options[k].id))
  {
    seq(|q.options|, k requires 0 <= k < |q.options| =>
      (McqCard.StyleOf(selected, q.correct, q.options[k].id), McqCard.TextStyleOf(selected, q.correct, q.options[k].id)))
  }

  /** The width of the progress fill on question `index` (0-based) of `total`, in percent. */
  function FillPercent(index: nat, total: nat): (r: real)
    requires index < total
    ensures 0.0 < r <= 100.0
    ensures index == total - 1 ==> r == 100.0
  {
    assert (index + 1) as real <= total as real;
    ((index + 1) as real / total as real) * 100.0
  }

  /** The screen component and its state variables; `reports` are the progress reports sent so far. */
  class Screen {
    const chapterId: int
    var loading: bool
    var error: Option<Failure>
    var mcqs: seq<QuizItem>
    var currentIndex: nat
    var score: nat
    var selectedOption: Option<string>
    var showResult: bool
    var reports: seq<Report>

    function State(): Session
      reads this
    {
      Session(chapterId, mcqs, currentIndex, score, selectedOption, showResult)
    }

    /** The quiz itself is on screen. */
    predicate QuizShown()
      reads this
    {
      !loading && error.None? && mcqs != [] && !showResult
    }

    ghost predicate Valid()
      reads this
    {
      (loading ==> State() == Start(chapterId, []) && error.None? && reports == [])
      && (!loading && error.None? && mcqs != [] ==> Inv(State()))
      && (error.Some? ==> mcqs == [])
      && (reports != [] ==> showResult)
    }

    constructor (routeChapterId: Option<int>)
      ensures Valid() && loading && reports == []
      ensures chapterId == ChapterIdOf(routeChapterId)
    {
      chapterId := ChapterIdOf(routeChapterId);
      loading, error, mcqs := true, None, [];
      currentIndex, score, selectedOption, showResult := 0, 0, None, false;
      reports := [];
    }

    /** The fetch effect finishing: `setMcqs(formatted)` or `setError(...)`, then `setLoading(false)`. */
    method FetchDone(o: FetchOutcome)
      requires Valid() && loading
      modifies this
      ensures Valid() && !loading && reports == []
      ensures match Load(o)
        case Quiz(items) => error.None? && State() == Start(chapterId, items)
        case Failed(f) => error == Some(f) && State() == Start(chapterId, [])
    {
      match Load(o) {
        case Quiz(items) =>
          mcqs := items;
          StartInv(chapterId, items);
        case Failed(f) =>
          error := Some(f);
      }
      loading := false;
    }

    method HandleSelect(optId: string)
      requires Valid() && QuizShown() && optId != ""
      modifies this
      ensures Valid() && QuizShown()
      ensures State() == Select(old(State()), optId) && reports == old(reports)
    {
      if selectedOption.Some? {
        return;
      }
      selectedOption := Some(optId);
      if optId == mcqs[currentIndex].correct {
        score := score + 1;
      }
    }

    method HandleNext()
      requires Valid() && QuizShown()
      modifies this
      ensures Valid()
      ensures State() == Next(old(State())).0
      ensures reports == old(reports) + (match Next(old(State())).1 case Some(rep) => [rep] case None => [])
    {
      if currentIndex < |mcqs| - 1 {
        currentIndex := currentIndex + 1;
        selectedOption := None;
      } else {
        showResult := true;
        SubmitProgress();
      }
    }

    /** `submitProgress()`: one report; a failed delivery is swallowed and changes nothing here. */
    method SubmitProgress()
      modifies this`reports
      ensures reports == old(reports) + [Report(chapterId, score, |mcqs|)]
    {
      reports := reports + [Report(chapterId, score, |mcqs|)];
    }

    /** The rendered screen. */
    function Render(): (v: View)
      requires Valid()
      reads this
      ensures loading ==> v == LoadingView
      ensures !loading && (error.Some? || mcqs == []) ==> v.ErrorView?
      ensures v.ErrorView? ==> (v.rateLimited <==> error.Some? && error.value.rateLimited)
      ensures v.ResultScreen? ==> showResult && v.result == Result(score, |mcqs|) && v.result.pct <= 100
      ensures v.QuestionView? ==> 1 <= v.number <= v.total == |mcqs| && (v.next.Some? <==> selectedOption.Some?)
      ensures v.QuestionView? ==> 0.0 < v.fillPercent <= 100.0
      ensures v.QuestionView? ==>
        v.question == mcqs[currentIndex].question && v.styles == OptionStyles(mcqs[currentIndex], selectedOption)
      ensures v.QuestionView? && v.next.Some? ==> (v.next.value == FinishQuiz <==> currentIndex == |mcqs| - 1)
      ensures !loading && error.None? && mcqs != [] ==>
        (v.ResultScreen? <==> showResult) && (!showResult ==> v.QuestionView? && v.number == currentIndex + 1)
    {
      if loading then LoadingView
      else if error.Some? || mcqs == [] then
        var rateLimited := error.Some? && error.value.rateLimited;
        ErrorView(rateLimited, if rateLimited then "Daily Limit Reached" else "Oops!",
                  if error.Some? && error.value.message != "" then error.value.message else "No questions found")
      else if showResult then
        PercentBounded(score, |mcqs|);
        ResultScreen(Result(score, |mcqs|))
      else
        var q := mcqs[currentIndex];
        var next := if selectedOption.None? then None
                    else Some(if currentIndex == |mcqs| - 1 then FinishQuiz else NextQuestion);
        QuestionView(FillPercent(currentIndex, |mcqs|), currentIndex + 1, |mcqs|, q.question, OptionStyles(q, selectedOption), next)
    }
  }
}
