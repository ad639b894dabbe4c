/** The quiz page's session: the global variables that startQuiz, selectAnswer,
    the timer, the lifelines and endQuiz update in place, held as the fields of
    one object, with the stores it writes to. Each method is proved to perform
    the corresponding QuizState step; endQuiz also records a score and marks
    the category. */
module Session {
  import opened Common
  import opened Shuffle
  import opened Questions
  import opened Scores
  import opened Completion
  import opened QuizState

  /** What startQuiz did; QuizEnded is the start button ending a running quiz instead. */
  datatype StartOutcome = Playing | AlreadyAttempted | NoQuestions | QuizEnded

  /** The copy startQuiz plays: the category's questions, shuffled in place
      in a fresh array, so the bank keeps its order. */
  method ShuffledCopy(source: seq<Question>, js: seq<nat>) returns (qs: seq<Question>)
    requires ValidDraws(js) && |source| <= |js|
    ensures qs == Shuffled(source, js) && multiset(qs) == multiset(source)
    ensures (forall q :: q in source ==> WellFormed(q)) ==> forall q :: q in qs ==> WellFormed(q)
  {
    var a := new Question[|source|](i requires 0 <= i < |source| => source[i]);
    assert a[..] == source;
    ShuffleArray(a, js);
    qs := a[..];
    forall q | q in qs ensures q in source {
      assert q in multiset(qs);
    }
  }

  /** The first loop of useFiftyFifty: every option index but the correct one, in order. */
  method CollectWrong(correct: int) returns (wrong: seq<int>)
    ensures wrong == WrongOptions(correct, OptionCount)
  {
    wrong := [];
    var i := 0;
    while i < OptionCount
      invariant 0 <= i <= OptionCount
      invariant wrong == WrongOptions(correct, i)
    {
      if i != correct {
        wrong := wrong + [i];
      }
      i := i + 1;
    }
  }

  /** The second loop of useFiftyFifty: at most twice, remove the drawn
      candidate from the list and hide it. */
  method SpliceDraws(candidates: seq<int>, picks: seq<nat>) returns (h: set<int>)
    requires |candidates| == 3 && |picks| == 2 && FitsDraws(picks, 3)
    ensures h == Picked(candidates, picks)
  {
    var wrong := candidates;
    h := {};
    var k := 0;
    while k < 2
      invariant 0 <= k <= 2 && |wrong| == 3 - k
      invariant FitsDraws(picks[k..], |wrong|)
      invariant h + Picked(wrong, picks[k..]) == Picked(candidates, picks)
    {
      PickedStep(wrong, picks[k..]);
      assert picks[k..][1..] == picks[k + 1..];
      var chosen := wrong[picks[k]];
      wrong := RemoveAt(wrong, picks[k]);
      h := h + {chosen};
      k := k + 1;
    }
    assert picks[2..] == [];
  }

  /** The two loops of useFiftyFifty together compute the options 50/50 hides. */
  method FiftyFiftyDraw(correct: int, picks: seq<nat>) returns (h: set<int>)
    requires 0 <= correct < OptionCount && ValidPicks(picks)
    ensures h == FiftyFiftyHidden(correct, picks)
  {
    var wrong := CollectWrong(correct);
    h := SpliceDraws(wrong, picks);
  }

  class QuizSession {
    const bank: QuestionBank
    const scores: ScoreStore
    const tracker: CompletionTracker
    const userId: string
    const playerName: string

    var category: string
    var questions: seq<Question>
    var index: int
    var score: int
    var lives: int
    var fifty: int
    var hints: int
    var skips: int
    var running: bool
    var timerOn: bool
    var timeLeft: int
    var hidden: set<int>
    var disabled: set<int>
    var hintText: string
    var pending: seq<Deferred>
    var outcomes: seq<bool>

    /** The session variables as one value. */
    ghost function State(): Play
      reads this
    {
      Play(category, questions, index, score, lives, fifty, hints, skips, running, timerOn,
           timeLeft, hidden, disabled, hintText, pending, outcomes)
    }

    ghost predicate Valid()
      reads this, bank
    {
      bank.Valid() && Good(State())
    }

    /** The quiz page: the player is the stored user, named by the stored
        name or "User-<id>" when there is none. */
    constructor (bank: QuestionBank, scores: ScoreStore, tracker: CompletionTracker,
                 userId: string, storedName: string)
      requires bank.Valid()
      ensures Valid() && State() == Initial()
      ensures this.bank == bank && this.scores == scores && this.tracker == tracker
      ensures this.userId == userId
      ensures playerName == if storedName == "" then "User-" + userId else storedName
    {
      this.bank := bank;
      this.scores := scores;
      this.tracker := tracker;
      this.userId := userId;
      playerName := if storedName == "" then "User-" + userId else storedName;
      category := "General";
      questions := [];
      index := 0;
      score := 0;
      lives := StartLives;
      fifty, hints, skips := FiftyUses, HintUses, SkipUses;
      running := false;
      timerOn := false;
      timeLeft := TimePerQuestion;
      hidden, disabled := {}, {};
      hintText := "";
      pending := [];
      outcomes := [];
    }

    /** The category select's change listener. It stays enabled during a quiz,
        so the category a score is saved under can differ from the one played. */
    method ChooseCategory(c: string)
      requires Valid()
      modifies this
      ensures Valid() && State() == old(State()).(category := c)
    {
      category := c;
    }

    /** startQuiz: refuses a category this user has attempted, then one that
        is missing or empty; otherwise plays a shuffled copy of its questions
        and marks the category attempted at once. */
    method StartQuiz(cat: string, js: seq<nat>) returns (r: StartOutcome)
      requires Valid() && ValidDraws(js)
      requires cat in bank.categories ==> |bank.categories[cat]| <= |js|
      modifies this, tracker
      ensures Valid()
      ensures r != QuizEnded
      ensures r == AlreadyAttempted <==> Has(old(tracker.done), userId, cat)
      ensures r == NoQuestions <==>
                !Has(old(tracker.done), userId, cat) && (cat !in bank.categories || bank.categories[cat] == [])
      ensures r != Playing ==> State() == old(State()).(category := cat) && tracker.done == old(tracker.done)
      ensures r == Playing ==>
                && multiset(questions) == multiset(bank.categories[cat])
                && questions == Shuffled(bank.categories[cat], js)
                && State() == Started(old(State()), cat, questions)
                && tracker.done == Marked(old(tracker.done), userId, cat)
    {
      category := cat;
      if Has(tracker.done, userId, cat) {
        return AlreadyAttempted;
      }
      if cat !in bank.categories || |bank.categories[cat]| == 0 {
        return NoQuestions;
      }
      var qs := ShuffledCopy(bank.categories[cat], js);
      tracker.MarkCategoryCompleted(userId, cat);
      Begin(qs);
      assert Started(old(State()).(category := cat), cat, qs) == Started(old(State()), cat, qs);
      r := Playing;
    }

    /** The resets of startQuiz once the category is accepted: the shuffled
        questions from the first one, score 0, three lives, fresh lifelines,
        the first question shown and the timer started. */
    method Begin(qs: seq<Question>)
      requires Sane(State()) && qs != [] && forall q :: q in qs ==> WellFormed(q)
      modifies this
      ensures State() == Started(old(State()), old(category), qs)
    {
      ghost var s1 := old(State()).(questions := qs, index := 0, score := 0, lives := StartLives,
                                    running := true, fifty := FiftyUses, hints := HintUses, skips := SkipUses);
      questions, index, score, lives, running := qs, 0, 0, StartLives, true;
      fifty, hints, skips := FiftyUses, HintUses, SkipUses;
      assert State() == s1;
      ShowQuestion();
      assert State() == Shown(s1);
      timerOn := true;
    }

    /** The display part of loadQuestion. */
    method ShowQuestion()
      requires Sane(State()) && index < |questions|
      modifies this
      ensures State() == Shown(old(State()))
    {
      hidden, disabled := {}, {};
      hintText := "";
      timeLeft := TimePerQuestion;
    }

    /** endQuiz(success): stops the session, saves the score (even 0) and marks
        the category, every time it is called. */
    method EndQuiz(success: bool, now: string)
      requires bank.Valid() && Sane(State())
      modifies this, scores, tracker
      ensures Valid() && State() == Ended(old(State()), success)
      ensures scores.entries == Saved(old(scores.entries), userId, playerName, old(score), old(category), now)
      ensures tracker.done == Marked(old(tracker.done), userId, old(category))
    {
      timerOn := false;
      running := false;
      scores.SaveHighScore(userId, playerName, score, category, now);
      tracker.MarkCategoryCompleted(userId, category);
      outcomes := outcomes + [success || index >= |questions|];
    }

    /** loadQuestion. */
    method LoadQuestion(now: string)
      requires bank.Valid() && Sane(State())
      modifies this, scores, tracker
      ensures Valid() && State() == Loaded(old(State()))
      ensures |outcomes| > |old(outcomes)| ==>
                scores.entries == Saved(old(scores.entries), userId, playerName, old(score), old(category), now) &&
                tracker.done == Marked(old(tracker.done), userId, old(category))
      ensures |outcomes| == |old(outcomes)| ==>
                scores.entries == old(scores.entries) && tracker.done == old(tracker.done)
    {
      if |questions| == 0 {
        EndQuiz(false, now);
        return;
      }
      if index >= |questions| {
        EndQuiz(true, now);
        return;
      }
      ShowQuestion();
    }

    /** The continuation `currentQuestionIndex++; loadQuestion()`. */
    method Advance(now: string)
      requires bank.Valid() && Sane(State())
      modifies this, scores, tracker
      ensures Valid() && State() == Advanced(old(State()))
      ensures |outcomes| > |old(outcomes)| ==>
                scores.entries == Saved(old(scores.entries), userId, playerName, old(score), old(category), now) &&
                tracker.done == Marked(old(tracker.done), userId, old(category))
      ensures |outcomes| == |old(outcomes)| ==>
                scores.entries == old(scores.entries) && tracker.done == old(tracker.done)
    {
      index := index + 1;
      LoadQuestion(now);
    }

    /** The shared tail of a wrong answer and of a timeout. */
    method LoseLife()
      modifies this
      ensures State() == LostLife(old(State()))
    {
      lives := lives - 1;
      if lives <= 0 {
        pending := pending + [EndFailed];
      } else {
        pending := pending + [NextQuestion];
      }
    }

    /** selectAnswer(sel), guarded only by quizRunning. */
    method SelectAnswer(sel: int)
      requires Valid()
      modifies this
      ensures Valid() && State() == Answered(old(State()), sel)
    {
      if !running {
        return;
      }
      var q := questions[index];
      disabled := AllOptions;
      if sel == q.answer {
        score := score + q.points;
        pending := pending + [NextQuestion];
      } else {
        LoseLife();
      }
    }

    /** A click on option button `sel`, which the browser drops when the button is disabled. */
    method ClickOption(sel: int)
      requires Valid()
      modifies this
      ensures Valid() && State() == Clicked(old(State()), sel)
    {
      if sel in disabled {
        return;
      }
      SelectAnswer(sel);
    }

    /** One run of the 100 ms interval callback started by startTimer. A clock
        reading 0 tenths still holds the positive rounding residue of the
        double subtractions, so only a tick taking it below 0 expires it. */
        method Tick()
      requires Valid()
      modifies this
      ensures Valid() && State() == Ticked(old(State()))
    {
      if !timerOn {
        return;
      }
      timeLeft := timeLeft - 1;
      if timeLeft < 0 {
        timerOn := false;
        timeLeft := 0;
        LoseLife();
      }
    }

    /** The oldest pending 1-second continuation runs. */
    method Fire(now: string)
      requires Valid()
      modifies this, scores, tracker
      ensures Valid() && State() == Fired(old(State()))
      ensures |outcomes| > |old(outcomes)| ==>
                scores.entries == Saved(old(scores.entries), userId, playerName, old(score), old(category), now) &&
                tracker.done == Marked(old(tracker.done), userId, old(category))
      ensures |outcomes| == |old(outcomes)| ==>
                scores.entries == old(scores.entries) && tracker.done == old(tracker.done)
    {
      if pending == [] {
        return;
      }
      var d := pending[0];
      pending := pending[1..];
      match d
      case NextQuestion => Advance(now);
      case EndFailed => EndQuiz(false, now);
    }

    /** useFiftyFifty: hides and disables the options the draws pick, then
        uses the lifeline up. */
    method UseFiftyFifty(picks: seq<nat>)
      requires Valid() && ValidPicks(picks)
      modifies this
      ensures Valid() && State() == FiftyFiftied(old(State()), picks)
    {
      if !running || fifty <= 0 {
        return;
      }
      FiftyFiftiedRunning(State(), picks);
      var h := FiftyFiftyDraw(questions[index].answer, picks);
      hidden := hidden + h;
      disabled := disabled + h;
      fifty := fifty - 1;
    }

    /** useHint. */
    method UseHint()
      requires Valid()
      modifies this
      ensures Valid() && State() == Hinted(old(State()))
    {
      if !running || hints <= 0 {
        return;
      }
      var q := questions[index];
      hintText := if q.hint == "" then NoHintText else q.hint;
      hints := hints - 1;
    }

    /** useSkip: move on, then use the skip up (also when moving on ended the quiz). */
    method UseSkip(now: string)
      requires Valid()
      modifies this, scores, tracker
      ensures Valid() && State() == Skipped(old(State()))
      ensures |outcomes| > |old(outcomes)| ==>
                scores.entries == Saved(old(scores.entries), userId, playerName, old(score), old(category), now) &&
                tracker.done == Marked(old(tracker.done), userId, old(category))
      ensures |outcomes| == |old(outcomes)| ==>
                scores.entries == old(scores.entries) && tracker.done == old(tracker.done)
    {
      if !running || skips <= 0 {
        return;
      }
      Advance(now);
      skips := skips - 1;
    }

    /** The start button: ends a running quiz ("End Quiz", the confirmation
        taken as accepted), otherwise starts one in the selected category. */
    method StartButton(selected: string, js: seq<nat>, now: string) returns (r: StartOutcome)
      requires Valid() && ValidDraws(js)
      requires selected in bank.categories ==> |bank.categories[selected]| <= |js|
      modifies this, scores, tracker
      ensures Valid()
      ensures r == QuizEnded <==> old(running)
      ensures r == QuizEnded ==>
                && State() == Ended(old(State()), false)
                && scores.entries == Saved(old(scores.entries), userId, playerName, old(score), old(category), now)
                && tracker.done == Marked(old(tracker.done), userId, old(category))
      ensures r != QuizEnded ==> scores.entries == old(scores.entries)
      ensures r == AlreadyAttempted || r == NoQuestions ==>
                State() == old(State()).(category := selected) && tracker.done == old(tracker.done)
      ensures r == Playing ==>
                && selected in bank.categories && questions != []
                && multiset(questions) == multiset(bank.categories[selected])
                && State() == Started(old(State()), selected, questions)
                && tracker.done == Marked(old(tracker.done), userId, selected)
    {
      if running {
        EndQuiz(false, now);
        r := QuizEnded;
      } else {
        r := StartQuiz(selected, js);
      }
    }
  }
}
