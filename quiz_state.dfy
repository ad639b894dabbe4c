/** The quiz session as a state machine over the page's session variables
    (currentCategory, questions, currentQuestionIndex, score, lives, lifelines,
    quizRunning, timeLeft), the option buttons' hidden/disabled flags, the hint
    text, the queue of 1-second continuations and the results shown.
    Each function here is one event handler's effect on that state; the
    QuizSession class performs the same updates in place. */
module QuizState {
  import opened Common
  import opened Questions

  const StartLives := 3
  /** timePerQuestion (15 s) in tenths of a second, one tenth per 100 ms tick.
      The page subtracts the double 0.1 instead; 150 such subtractions from 15
      leave a small positive residue (about 3.6e-14), so the clock reads
      "not yet expired" at 0 tenths and expires on the 151st tick. */
  const TimePerQuestion := 150
  const FiftyUses := 1
  const HintUses := 1
  const SkipUses := 2
  const NoHintText := "No hint available for this question."
  /** The indices of the four option buttons. */
  const AllOptions: set<int> := {0, 1, 2, 3}

  /** A continuation scheduled with setTimeout(..., 1000). All have the same
      delay, so they run in the order they were scheduled. */
  datatype Deferred = NextQuestion | EndFailed

  /** The session variables. `outcomes` holds the success flag of every results
      modal shown (one per endQuiz call). */
  datatype Play = Play(
    category: string,
    questions: seq<Question>,
    index: int,
    score: int,
    lives: int,
    fifty: int,
    hints: int,
    skips: int,
    running: bool,
    timerOn: bool,
    timeLeft: int,
    hidden: set<int>,
    disabled: set<int>,
    hintText: string,
    pending: seq<Deferred>,
    outcomes: seq<bool>)

  /** What holds between any two steps, whatever the index. */
  predicate Sane(s: Play) {
    && (forall q :: q in s.questions ==> WellFormed(q))
    && 0 <= s.index
    && 0 <= s.timeLeft <= TimePerQuestion
    && 0 <= s.fifty && 0 <= s.hints && 0 <= s.skips
    && s.hidden <= s.disabled <= AllOptions
  }

  /** The session invariant: a running session points at a question, and the
      50/50 has not hidden that question's correct option. */
  predicate Good(s: Play) {
    && Sane(s)
    && (s.running ==> s.index < |s.questions| && s.questions[s.index].answer !in s.hidden)
  }

  /** The page before any quiz has started. */
  function Initial(): (s: Play)
    ensures Good(s) && !s.running && !s.timerOn
    ensures s.lives == StartLives && s.fifty == FiftyUses && s.hints == HintUses && s.skips == SkipUses
  {
    Play("General", [], 0, 0, StartLives, FiftyUses, HintUses, SkipUses, false, false,
         TimePerQuestion, {}, {}, "", [], [])
  }

  /** endQuiz(success): stops the timer and the session and shows one result,
      a success when asked for or when every question has been passed. */
  function Ended(s: Play, success: bool): (r: Play)
    requires Sane(s)
    ensures Good(r) && !r.running && !r.timerOn
    ensures r.outcomes == s.outcomes + [success || s.index >= |s.questions|]
    ensures r.score == s.score && r.lives == s.lives && r.index == s.index && r.category == s.category
    ensures r.questions == s.questions && r.pending == s.pending
    ensures r.fifty == s.fifty && r.hints == s.hints && r.skips == s.skips
  {
    s.(running := false, timerOn := false, outcomes := s.outcomes + [success || s.index >= |s.questions|])
  }

  /** The display part of loadQuestion: fresh option buttons (none hidden or
      disabled), no hint, a full clock. The interval is not restarted. */
  function Shown(s: Play): (r: Play)
    requires Sane(s) && s.index < |s.questions|
    ensures Good(r) && r.hidden == {} && r.disabled == {} && r.hintText == ""
    ensures r.timeLeft == TimePerQuestion && r.timerOn == s.timerOn && r.running == s.running
    ensures r.index == s.index && r.score == s.score && r.lives == s.lives && r.questions == s.questions
    ensures r.fifty == s.fifty && r.hints == s.hints && r.skips == s.skips
    ensures r.pending == s.pending && r.outcomes == s.outcomes && r.category == s.category
  {
    s.(hidden := {}, disabled := {}, hintText := "", timeLeft := TimePerQuestion)
  }

  /** loadQuestion: ends the quiz when there are no questions (as a failure)
      or the index is past the last one (as a success); otherwise shows it. */
  function Loaded(s: Play): (r: Play)
    requires Sane(s)
    ensures Good(r)
    ensures s.index >= |s.questions| ==> r == Ended(s, |s.questions| != 0)
    ensures s.index < |s.questions| ==> r == Shown(s)
    ensures r.outcomes == s.outcomes || r.outcomes == s.outcomes + [true]
  {
    if |s.questions| == 0 then Ended(s, false)
    else if s.index >= |s.questions| then Ended(s, true)
    else Shown(s)
  }

  /** currentQuestionIndex++ followed by loadQuestion. */
  function Advanced(s: Play): (r: Play)
    requires Sane(s)
    ensures Good(r) && r.index == s.index + 1
    ensures r.score == s.score && r.lives == s.lives
    ensures s.index + 1 >= |s.questions| <==> r.outcomes == s.outcomes + [true]
    ensures s.index + 1 < |s.questions| <==> r.outcomes == s.outcomes
    ensures s.index + 1 >= |s.questions| ==> !r.running
  {
    Loaded(s.(index := s.index + 1))
  }

  /** A lost life: decrement, then schedule the end (no lives left) or the next question. */
  function LostLife(s: Play): (r: Play)
    ensures r.lives == s.lives - 1 && r.score == s.score
    ensures r.pending == s.pending + [if r.lives <= 0 then EndFailed else NextQuestion]
  {
    s.(lives := s.lives - 1, pending := s.pending + [if s.lives - 1 <= 0 then EndFailed else NextQuestion])
  }

  /** selectAnswer(sel): ignored unless running; disables every option; a
      correct choice earns the question's points and schedules the next
      question, a wrong one costs a life. */
  function Answered(s: Play, sel: int): (r: Play)
    requires Good(s)
    ensures Good(r)
    ensures !s.running ==> r == s
    ensures s.running ==> r.disabled == AllOptions && r.index == s.index && r.running
    ensures s.running && sel == s.questions[s.index].answer ==>
              r.score == s.score + s.questions[s.index].points && r.lives == s.lives &&
              r.pending == s.pending + [NextQuestion]
    ensures s.running && sel != s.questions[s.index].answer ==>
              r.score == s.score && r.lives == s.lives - 1 &&
              r.pending == s.pending + [if r.lives <= 0 then EndFailed else NextQuestion]
  {
    if !s.running then s
    else
      var q := s.questions[s.index];
      var d := s.(disabled := AllOptions);
      if sel == q.answer then d.(score := s.score + q.points, pending := s.pending + [NextQuestion])
      else LostLife(d)
  }

  /** A click on option button `sel`: the browser delivers no click to a disabled button. */
  function Clicked(s: Play, sel: int): (r: Play)
    requires Good(s)
    ensures Good(r)
    ensures sel in s.disabled ==> r == s
    ensures sel !in s.disabled ==> r == Answered(s, sel)
  {
    if sel in s.disabled then s else Answered(s, sel)
  }

  /** One 100 ms tick of the question timer. When the tick takes the clock
      below zero (the tick after it reads 0 tenths) the timer stops for good,
      the clock is clamped to 0 and a life is lost as for a wrong answer; the
      option buttons stay enabled. */
  function Ticked(s: Play): (r: Play)
    requires Good(s)
    ensures Good(r)
    ensures !s.timerOn ==> r == s
    ensures s.timerOn && s.timeLeft > 0 ==> r == s.(timeLeft := s.timeLeft - 1)
    ensures s.timerOn && s.timeLeft == 0 ==>
              !r.timerOn && r.timeLeft == 0 && r.lives == s.lives - 1 && r.score == s.score &&
              r.disabled == s.disabled &&
              r.pending == s.pending + [if r.lives <= 0 then EndFailed else NextQuestion]
  {
    if !s.timerOn then s
    else if s.timeLeft - 1 < 0 then LostLife(s.(timerOn := false, timeLeft := 0))
    else s.(timeLeft := s.timeLeft - 1)
  }

  /** n ticks of the question timer in a row. */
  function Ticks(s: Play, n: nat): (r: Play)
    requires Good(s)
    ensures Good(r)
    ensures r.score == s.score && r.running == s.running && r.index == s.index
    decreases n
  {
    if n == 0 then s else Ticks(Ticked(s), n - 1)
  }

  /** A running clock counts down one tenth per tick and expires on the tick
      after it reads 0: from a full clock, on the 151st tick. */
  lemma {:induction false} TicksCountDown(s: Play, k: nat)
    requires Good(s) && s.timerOn && k <= s.timeLeft
    ensures Ticks(s, k) == s.(timeLeft := s.timeLeft - k)
    ensures k == s.timeLeft ==> Ticks(s, k + 1) == LostLife(s.(timerOn := false, timeLeft := 0))
    decreases k
  {
    if k > 0 {
      TicksCountDown(Ticked(s), k - 1);
    }
  }

  /** From a full clock the timer survives 150 ticks and expires on the 151st, costing a life. */
  lemma ExpiresOnTick151(s: Play)
    requires Good(s) && s.timerOn && s.timeLeft == TimePerQuestion
    ensures Ticks(s, 150).timerOn && Ticks(s, 150).timeLeft == 0 && Ticks(s, 150).lives == s.lives
    ensures !Ticks(s, 151).timerOn && Ticks(s, 151).lives == s.lives - 1
  {
    TicksCountDown(s, 150);
  }

  /** Runs the oldest scheduled continuation, without checking whether the
      session is still running. */
  function Fired(s: Play): (r: Play)
    requires Good(s)
    ensures Good(r)
    ensures s.pending == [] ==> r == s
    ensures s.pending != [] && s.pending[0] == EndFailed ==> r == Ended(s.(pending := s.pending[1..]), false)
    ensures s.pending != [] && s.pending[0] == NextQuestion ==> r == Advanced(s.(pending := s.pending[1..]))
  {
    if s.pending == [] then s
    else
      var t := s.(pending := s.pending[1..]);
      match s.pending[0]
      case NextQuestion => Advanced(t)
      case EndFailed => Ended(t, false)
  }

  /** The wrong options 0 .. n-1 in order (the first loop of useFiftyFifty). */
  function WrongOptions(correct: int, n: nat): (r: seq<int>)
    ensures forall x :: x in r <==> 0 <= x < n && x != correct
    ensures 0 <= correct < n ==> |r| == n - 1
    ensures !(0 <= correct < n) ==> |r| == n
  {
    if n == 0 then [] else WrongOptions(correct, n - 1) + (if n - 1 != correct then [n - 1] else [])
  }

  lemma {:induction false} WrongOptionsNoDup(correct: int, n: nat)
    ensures NoDup(WrongOptions(correct, n))
  {
    if n > 0 {
      WrongOptionsNoDup(correct, n - 1);
      var w := WrongOptions(correct, n - 1);
      var r := WrongOptions(correct, n);
      forall i, j | 0 <= i < j < |r| ensures r[i] != r[j] {
        if j >= |w| {
          assert r[i] == w[i] && w[i] in w;
        } else {
          assert r[i] == w[i] && r[j] == w[j];
        }
      }
    }
  }

  /** The draws fit the shrinking list: the k-th draw is below n - k. */
  predicate FitsDraws(ps: seq<nat>, n: nat) {
    forall k :: 0 <= k < |ps| && k < n ==> ps[k] < n - k
  }

  /** The options the splice loop hides: one per draw, each removed from the
      remaining wrong options, until the draws or the options run out. */
  function Picked(wrong: seq<int>, ps: seq<nat>): (r: set<int>)
    requires FitsDraws(ps, |wrong|)
    ensures forall x :: x in r ==> x in wrong
    ensures |ps| == 0 || |wrong| == 0 ==> r == {}
    decreases |ps|
  {
    if |ps| == 0 || |wrong| == 0 then {}
    else {wrong[ps[0]]} + Picked(RemoveAt(wrong, ps[0]), ps[1..])
  }

  /** One step of the splice loop: the first draw's option is hidden, and the
      remaining draws fit the shortened list. */
  lemma PickedStep(wrong: seq<int>, ps: seq<nat>)
    requires FitsDraws(ps, |wrong|) && |ps| > 0 && |wrong| > 0
    ensures FitsDraws(ps[1..], |wrong| - 1)
    ensures Picked(wrong, ps) == {wrong[ps[0]]} + Picked(RemoveAt(wrong, ps[0]), ps[1..])
  {
    forall k | 0 <= k < |ps[1..]| && k < |wrong| - 1 ensures ps[1..][k] < |wrong| - 1 - k {
      assert ps[1..][k] == ps[k + 1];
    }
  }

  /** Without duplicates among the wrong options, the loop hides as many
      distinct wrong options as it has draws (or all of them). */
  lemma {:induction false} PickedDistinct(wrong: seq<int>, ps: seq<nat>)
    requires FitsDraws(ps, |wrong|) && NoDup(wrong)
    ensures forall x :: x in Picked(wrong, ps) ==> x in wrong
    ensures |Picked(wrong, ps)| == if |ps| <= |wrong| then |ps| else |wrong|
    decreases |ps|
  {
    if |ps| != 0 && |wrong| != 0 {
      var rest := RemoveAt(wrong, ps[0]);
      RemoveAtNoDup(wrong, ps[0]);
      assert FitsDraws(ps[1..], |rest|) by {
        forall k | 0 <= k < |ps[1..]| && k < |rest| ensures ps[1..][k] < |rest| - k {
          assert ps[1..][k] == ps[k + 1];
        }
      }
      PickedDistinct(rest, ps[1..]);
      assert wrong[ps[0]] !in Picked(rest, ps[1..]);
    }
  }

  lemma SubsetCard(a: set<int>, b: set<int>)
    requires a <= b
    ensures |a| <= |b|
  {
    assert b == a + (b - a);
  }

  /** The two random draws of useFiftyFifty: Math.floor(Math.random() * 3), then * 2. */
  predicate ValidPicks(ps: seq<nat>): (b: bool)
    ensures b ==> |ps| == 2 && FitsDraws(ps, 3)
  {
    |ps| == 2 && ps[0] < 3 && ps[1] < 2
  }

  /** The options 50/50 hides for a question whose correct option is `correct`. */
  function FiftyFiftyHidden(correct: int, ps: seq<nat>): (h: set<int>)
    requires 0 <= correct < 4 && ValidPicks(ps)
    ensures |h| == 2 && correct !in h
    ensures forall x :: x in h ==> 0 <= x < 4
  {
    var wrong := WrongOptions(correct, 4);
    WrongOptionsNoDup(correct, 4);
    PickedDistinct(wrong, ps);
    Picked(wrong, ps)
  }

  /** useFiftyFifty: when running with a 50/50 left, hides and disables two
      wrong options and uses the lifeline up. */
  function FiftyFiftied(s: Play, ps: seq<nat>): (r: Play)
    requires Good(s) && ValidPicks(ps)
    ensures Good(r)
    ensures !s.running || s.fifty <= 0 ==> r == s
    ensures s.running && s.fifty > 0 ==>
              && r.(hidden := s.hidden, disabled := s.disabled, fifty := s.fifty) == s
              && r.fifty == s.fifty - 1
              && s.hidden <= r.hidden && r.hidden - s.hidden <= AllOptions && |r.hidden - s.hidden| <= 2
              && r.disabled == s.disabled + (r.hidden - s.hidden)
              && s.questions[s.index].answer !in r.hidden
              && (s.hidden == {} ==> |r.hidden| == 2)
  {
    if !s.running || s.fifty <= 0 then s
    else
      var q := s.questions[s.index];
      assert q in s.questions;
      var h := FiftyFiftyHidden(q.answer, ps);
      HideTwo(s, h);
      s.(hidden := s.hidden + h, disabled := s.disabled + h, fifty := s.fifty - 1)
  }

  /** The running case of useFiftyFifty, as one update of the session. */
  lemma FiftyFiftiedRunning(s: Play, ps: seq<nat>)
    requires Good(s) && ValidPicks(ps) && s.running && s.fifty > 0
    ensures 0 <= s.index < |s.questions| && 0 <= s.questions[s.index].answer < 4
    ensures var h := FiftyFiftyHidden(s.questions[s.index].answer, ps);
            FiftyFiftied(s, ps) == s.(hidden := s.hidden + h, disabled := s.disabled + h, fifty := s.fifty - 1)
  {
    assert s.questions[s.index] in s.questions;
  }

  /** Hiding and disabling two options other than the correct one, and using
      the 50/50 up, keeps the session invariant and hides at most two more. */
  lemma HideTwo(s: Play, h: set<int>)
    requires Good(s) && s.running && s.fifty > 0
    requires |h| == 2 && s.questions[s.index].answer !in h
    requires forall x :: x in h ==> 0 <= x < 4
    ensures var r := s.(hidden := s.hidden + h, disabled := s.disabled + h, fifty := s.fifty - 1);
            && Good(r) && r.hidden - s.hidden <= h && |r.hidden - s.hidden| <= 2
            && (s.hidden == {} ==> |r.hidden| == 2)
  {
    assert h <= AllOptions by {
      forall x | x in h ensures x in AllOptions {
        assert 0 <= x < 4;
      }
    }
    SubsetCard((s.hidden + h) - s.hidden, h);
    assert s.hidden == {} ==> s.hidden + h == h;
  }

  /** useHint: shows the question's hint, or a fallback text when it has none. */
  function Hinted(s: Play): (r: Play)
    requires Good(s)
    ensures Good(r)
    ensures !s.running || s.hints <= 0 ==> r == s
    ensures s.running && s.hints > 0 ==>
              r == s.(hintText := r.hintText, hints := s.hints - 1) && r.hintText != "" &&
              (s.questions[s.index].hint != "" ==> r.hintText == s.questions[s.index].hint)
  {
    if !s.running || s.hints <= 0 then s
    else
      var q := s.questions[s.index];
      s.(hintText := if q.hint == "" then NoHintText else q.hint, hints := s.hints - 1)
  }

  /** useSkip: moves on without touching score or lives; the skip is used up
      even when moving on ends the quiz. */
  function Skipped(s: Play): (r: Play)
    requires Good(s)
    ensures Good(r)
    ensures !s.running || s.skips <= 0 ==> r == s
    ensures s.running && s.skips > 0 ==>
              r.index == s.index + 1 && r.score == s.score && r.lives == s.lives &&
              r.skips == s.skips - 1 && r.pending == s.pending &&
              (s.index + 1 >= |s.questions| <==> r.outcomes == s.outcomes + [true])
  {
    if !s.running || s.skips <= 0 then s
    else
      var t := Advanced(s);
      t.(skips := t.skips - 1)
  }

  /** startQuiz after its checks: the shuffled questions, fresh counters, the
      first question shown and the timer started; queued continuations survive. */
  function Started(s: Play, category: string, qs: seq<Question>): (r: Play)
    requires Sane(s) && qs != [] && forall q :: q in qs ==> WellFormed(q)
    ensures Good(r) && r.running && r.timerOn && r.index == 0 && r.score == 0
    ensures r.category == category && r.questions == qs
    ensures r.lives == StartLives && r.fifty == FiftyUses && r.hints == HintUses && r.skips == SkipUses
    ensures r.pending == s.pending && r.outcomes == s.outcomes
  {
    Shown(s.(category := category, questions := qs, index := 0, score := 0, lives := StartLives,
             running := true, fifty := FiftyUses, hints := HintUses, skips := SkipUses)).(timerOn := true)
  }

  /** What the page can do to a session once the quiz page is up. */
  datatype Event =
    | Click(option: int)
    | Tick
    | Fire
    | FiftyFifty(picks: seq<nat>)
    | Hint
    | Skip
    | EndButton   // pressed while a quiz runs; with none running it starts one (Started)

  /** The page has four option buttons, and the 50/50 draws are in range. */
  predicate Allowed(e: Event) {
    && (e.Click? ==> 0 <= e.option < OptionCount)
    && (e.FiftyFifty? ==> ValidPicks(e.picks))
  }

  function Next(s: Play, e: Event): (r: Play)
    requires Good(s) && Allowed(e)
    ensures Good(r)
  {
    match e
    case Click(o) => Clicked(s, o)
    case Tick => Ticked(s)
    case Fire => Fired(s)
    case FiftyFifty(ps) => FiftyFiftied(s, ps)
    case Hint => Hinted(s)
    case Skip => Skipped(s)
    case EndButton => if s.running then Ended(s, false) else s
  }

  /** Within a session no event gives back a lifeline or a life, or restarts
      the timer; the score only moves by a correctly answered question's points. */
  lemma NextMonotone(s: Play, e: Event)
    requires Good(s) && Allowed(e)
    ensures var r := Next(s, e);
            && r.fifty <= s.fifty && r.hints <= s.hints && r.skips <= s.skips
            && r.lives <= s.lives
            && (!s.timerOn ==> !r.timerOn)
            && (r.score != s.score ==>
                  e.Click? && s.running && e.option == s.questions[s.index].answer &&
                  r.score == s.score + s.questions[s.index].points)
  {
  }

  /** A results modal is shown only by the end button, a queued continuation
      or a skip past the last question. */
  lemma EndsOnlyBy(s: Play, e: Event)
    requires Good(s) && Allowed(e)
    ensures Next(s, e).outcomes != s.outcomes ==> e.EndButton? || e.Fire? || e.Skip?
  {
  }

  /** Answering the last question correctly and letting its continuation run
      ends the quiz as a success, with the question's points added. */
  lemma LastCorrectAnswerWins(s: Play)
    requires Good(s) && s.running && s.index == |s.questions| - 1 && s.pending == []
    requires s.questions[s.index].answer !in s.disabled
    ensures var r := Fired(Clicked(s, s.questions[s.index].answer));
            && !r.running && r.outcomes == s.outcomes + [true] && r.pending == []
            && r.score == s.score + s.questions[|s.questions| - 1].points && r.lives == s.lives
  {
    var c := Clicked(s, s.questions[s.index].answer);
    assert c.pending == [NextQuestion];
    assert c.index == s.index && c.score == s.score + s.questions[s.index].points;
  }

  /** When the clock runs out, the options stay enabled, so a wrong click in
      the following second costs a second life: with one life left, lives
      reach -1. */
  lemma ExpiryThenWrongClick(s: Play, wrong: int)
    requires Good(s) && s.running && s.timerOn && s.timeLeft == 0 && s.lives == 1
    requires s.disabled == {} && 0 <= wrong < 4 && wrong != s.questions[s.index].answer
    ensures var r := Clicked(Ticked(s), wrong);
            r.lives == -1 && r.running && r.pending == s.pending + [EndFailed, EndFailed]
  {
    var t := Ticked(s);
    assert t.lives == 0 && t.pending == s.pending + [EndFailed];
    assert wrong !in t.disabled;
  }
}
