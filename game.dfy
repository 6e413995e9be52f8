/** The quiz session: the sketch's global state and the transitions its
    buttons and its frame loop drive (`setup`, `startQuiz`, `displayQuestion`,
    `checkAnswer`, `next`, `setupResultAnimation` and the state-changing part
    of `draw`). Buttons are modelled by what they show and whether they can
    be clicked; a click is a call of the method the button is bound to.

    Each transition is specified by a function on `Session`, the value of
    the globals other than the particles; the lemmas state what each
    transition does and that it keeps `SessionOk`, and the methods of
    `Sketch` are proved to carry the transitions out on its fields. */
module Game {
  import opened Shuffles
  import opened Questions
  import opened Particles
  import opened Results

  datatype GameState = Start | Quiz | Result

  /** One entry of `answeredQuestions`. */
  datatype AnsweredRecord = AnsweredRecord(question: Question, selected: string)

  /** How many questions one round draws from the pool. */
  const QuizLength: nat := 4

  /** The length of a round drawn from a pool of `b` questions is Min(QuizLength, b). */
  function Min(a: nat, b: nat): nat
  {
    if a <= b then a else b
  }

  /** The ambient particles created by `setup` and `startQuiz`. */
  const AmbientCount: nat := 100
  /** The particles a correct answer adds. */
  const CelebrationCount: nat := 30

  const StartLabel := "開始測驗"
  const PlayAgainLabel := "再玩一次"
  const NextQuestionLabel := "下一題"
  const SeeResultsLabel := "看結果"
  const CorrectFeedback := "答對了！"
  const WrongFeedbackPrefix := "答錯了，正確答案是 "

  /** A record is correct when the selected letter is the stored answer,
      compared as strings. */
  predicate IsCorrect(r: AnsweredRecord)
  {
    r.selected == r.question.answer
  }

  /** The number of correct records. */
  function CountCorrect(rs: seq<AnsweredRecord>): (n: nat)
    ensures n <= |rs|
    ensures n == |rs| <==> forall i :: 0 <= i < |rs| ==> IsCorrect(rs[i])
    ensures n == 0 <==> forall i :: 0 <= i < |rs| ==> !IsCorrect(rs[i])
  {
    if rs == [] then 0
    else CountCorrect(rs[..|rs| - 1]) + (if IsCorrect(rs[|rs| - 1]) then 1 else 0)
  }

  /** Appending one record adds one exactly when it is correct. */
  lemma CountCorrectAppend(rs: seq<AnsweredRecord>, r: AnsweredRecord)
    ensures CountCorrect(rs + [r]) == CountCorrect(rs) + (if IsCorrect(r) then 1 else 0)
  {
    assert (rs + [r])[..|rs|] == rs;
  }

  /** A full round scores perfect exactly when every answer was correct, and
      lands in the baseline tier when none was. */
  lemma PerfectIffAllCorrect(rs: seq<AnsweredRecord>)
    requires |rs| > 0
    ensures TierOf(CountCorrect(rs), |rs|) == Perfect <==> forall i :: 0 <= i < |rs| ==> IsCorrect(rs[i])
    ensures (forall i :: 0 <= i < |rs| ==> !IsCorrect(rs[i])) ==> TierOf(CountCorrect(rs), |rs|) == KeepTrying
  {
  }

  /** The label of the button `checkAnswer` creates; AdvancedOk proves that
      it names the branch `next` takes. */
  function NextLabel(index: nat, total: nat): string
  {
    if index < total - 1 then NextQuestionLabel else SeeResultsLabel
  }

  /** The feedback line `checkAnswer` sets. */
  function FeedbackFor(selected: string, answer: string): (f: string)
    ensures f == CorrectFeedback <==> selected == answer
    ensures selected != answer ==> |answer| <= |f| && f[|f| - |answer|..] == answer
  {
    if selected == answer then CorrectFeedback else WrongFeedbackPrefix + answer
  }

  /** The sketch's globals other than the particles, as one value. The
      buttons appear as what they show: the option buttons as the bound
      options, the next button as its label when it is on screen, the start
      button as its label when it was created and whether it is shown.
      `optionOrder` is the order the options of the current question were
      shuffled into. */
  datatype Session = Session(
    questions: seq<Question>,
    quizQuestions: seq<Question>,
    currentQuestionIndex: nat,
    answeredQuestions: seq<AnsweredRecord>,
    score: nat,
    gameState: GameState,
    feedback: string,
    answerOptions: seq<AnswerOption>,
    optionsEnabled: bool,
    nextButton: Option<string>,
    startButton: Option<string>,
    startVisible: bool,
    optionOrder: seq<nat>)

  /** Every question of the pool and of the round has four options, and a
      round has at most four questions. */
  ghost predicate PoolOk(s: Session)
  {
    && (forall k :: 0 <= k < |s.questions| ==> WellFormed(s.questions[k]))
    && |s.quizQuestions| <= QuizLength
    && (forall i :: 0 <= i < |s.quizQuestions| ==> WellFormed(s.quizQuestions[i]))
  }

  /** One record per answered question, in order, and the score counts the
      correct ones. */
  ghost predicate RecordsOk(s: Session)
  {
    && |s.answeredQuestions| <= |s.quizQuestions|
    && (forall i :: 0 <= i < |s.answeredQuestions| ==> s.answeredQuestions[i].question == s.quizQuestions[i])
    && s.score == CountCorrect(s.answeredQuestions)
  }

  /** The option buttons show the options of `q` in the order `order`, each
      with its original letter. */
  ghost predicate ShowingOk(q: Question, answerOptions: seq<AnswerOption>, order: seq<nat>)
  {
    WellFormed(q) && IsPermutation(order, NumOptions)
    && answerOptions == Shuffle(Bindings(q), order)
  }

  /** What is on screen in each state. An empty round is the state the
      sketch is left in when it fails to display its first question. */
  ghost predicate PhaseOk(s: Session)
  {
    match s.gameState
    case Start =>
      s.score == 0 && s.currentQuestionIndex == 0 && s.answeredQuestions == [] && s.quizQuestions == []
      && s.answerOptions == [] && s.nextButton == None && s.feedback == ""
      && s.startVisible == s.startButton.Some?
    case Quiz =>
      !s.startVisible && s.startButton.Some?
      && (if s.quizQuestions == [] then
            s.currentQuestionIndex == 0 && s.answeredQuestions == [] && s.answerOptions == [] && s.nextButton == None
          else
            s.currentQuestionIndex < |s.quizQuestions|
            && ShowingOk(s.quizQuestions[s.currentQuestionIndex], s.answerOptions, s.optionOrder)
            && (if s.optionsEnabled then
                  |s.answeredQuestions| == s.currentQuestionIndex && s.nextButton == None && s.feedback == ""
                else
                  |s.answeredQuestions| == s.currentQuestionIndex + 1
                  && s.nextButton == Some(NextLabel(s.currentQuestionIndex, |s.quizQuestions|))
                  && s.feedback == FeedbackFor(s.answeredQuestions[s.currentQuestionIndex].selected,
                                               s.quizQuestions[s.currentQuestionIndex].answer)))
    case Result =>
      s.startButton.Some? && 0 < |s.quizQuestions| && s.currentQuestionIndex == |s.quizQuestions| - 1
      && |s.answeredQuestions| == |s.quizQuestions|
      && s.answerOptions == [] && s.nextButton == None && s.feedback == ""
  }

  /** The invariant every reachable session satisfies. */
  ghost predicate SessionOk(s: Session)
  {
    PoolOk(s) && RecordsOk(s) && PhaseOk(s)
  }

  /** The score never exceeds the answers given, nor those the round's
      length; in a round being played there is one record per question
      already asked, and one more once the current one is answered. The
      index always names a question of a non-empty round, the last one on
      the result screen. */
  lemma Counters(s: Session)
    requires SessionOk(s)
    ensures s.score <= |s.answeredQuestions| <= |s.quizQuestions| <= QuizLength
    ensures s.gameState == Quiz && s.quizQuestions != [] ==>
      |s.answeredQuestions| == s.currentQuestionIndex + (if s.optionsEnabled then 0 else 1)
    ensures s.quizQuestions != [] ==> s.currentQuestionIndex < |s.quizQuestions|
    ensures s.gameState == Result ==> s.currentQuestionIndex == |s.quizQuestions| - 1
  {
  }

  /** The session `setup` leaves: the parsed pool and, when the table was
      loaded, a shown start button. */
  function SetUp(questions: seq<Question>, loaded: bool): Session
  {
    Session(questions, [], 0, [], 0, Start, "", [], true, None,
            if loaded then Some(StartLabel) else None, loaded, [])
  }

  lemma SetUpOk(questions: seq<Question>, loaded: bool)
    requires forall k :: 0 <= k < |questions| ==> WellFormed(questions[k])
    ensures SessionOk(SetUp(questions, loaded))
    ensures SetUp(questions, loaded).startVisible <==> loaded
  {
  }

  /** `displayQuestion`: clears the option buttons, the next button and the
      feedback, then shows the current question's options, bound to their
      letters, in the order `order`. With no current question the source
      fails on the missing record right after clearing. */
  function Displayed(s: Session, order: seq<nat>): Session
    requires IsPermutation(order, NumOptions)
    requires s.currentQuestionIndex < |s.quizQuestions| ==> WellFormed(s.quizQuestions[s.currentQuestionIndex])
  {
    var cleared := s.(answerOptions := [], nextButton := None, feedback := "");
    if s.currentQuestionIndex < |s.quizQuestions| then
      cleared.(answerOptions := Shuffle(Bindings(s.quizQuestions[s.currentQuestionIndex]), order),
               optionOrder := order, optionsEnabled := true)
    else
      cleared
  }

  /** `startQuiz`: `pick` is the order the library's shuffle puts the pool
      in, `order` the one it puts the first question's options in. */
  function Started(s: Session, pick: seq<nat>, order: seq<nat>): Session
    requires IsPermutation(pick, |s.questions|) && IsPermutation(order, NumOptions)
    requires forall k :: 0 <= k < |s.questions| ==> WellFormed(s.questions[k])
  {
    var m := Min(QuizLength, |s.questions|);
    var round := Shuffle(s.questions, pick)[..m];
    assert 0 < |round| ==> WellFormed(round[0]) by {
      if 0 < |round| {
        assert round[0] == s.questions[pick[0]];
      }
    }
    Displayed(s.(startVisible := false, score := 0, currentQuestionIndex := 0, answeredQuestions := [],
                 quizQuestions := round, gameState := Quiz), order)
  }

  /** `checkAnswer(selected)`: records the answer, disables the option
      buttons, scores a correct answer, sets the feedback and creates the
      next button. */
  function Answered(s: Session, selected: string): Session
    requires s.currentQuestionIndex < |s.quizQuestions|
  {
    var q := s.quizQuestions[s.currentQuestionIndex];
    s.(answeredQuestions := s.answeredQuestions + [AnsweredRecord(q, selected)],
       optionsEnabled := false,
       score := if selected == q.answer then s.score + 1 else s.score,
       feedback := FeedbackFor(selected, q.answer),
       nextButton := Some(NextLabel(s.currentQuestionIndex, |s.quizQuestions|)))
  }

  /** `next`: the following question, or after the last one the result
      screen with the question's buttons and feedback cleared. */
  function Advanced(s: Session, order: seq<nat>): Session
    requires IsPermutation(order, NumOptions)
    requires s.currentQuestionIndex + 1 < |s.quizQuestions| ==> WellFormed(s.quizQuestions[s.currentQuestionIndex + 1])
  {
    if s.currentQuestionIndex < |s.quizQuestions| - 1 then
      Displayed(s.(currentQuestionIndex := s.currentQuestionIndex + 1), order)
    else
      s.(gameState := Result, answerOptions := [], nextButton := None, feedback := "")
  }

  /** What one `draw` frame does to the session: on the result screen the
      start button is shown again, relabelled as the play-again button. */
  function Drawn(s: Session): Session
  {
    if s.gameState == Result then s.(startVisible := true, startButton := Some(PlayAgainLabel)) else s
  }

  /** Starting a round from a shown start button resets the counters, draws
      the round and shows its first question; on an empty pool there is no
      question to show. */
  lemma StartedOk(s: Session, pick: seq<nat>, order: seq<nat>)
    requires SessionOk(s) && s.startVisible
    requires IsPermutation(pick, |s.questions|) && IsPermutation(order, NumOptions)
    ensures SessionOk(Started(s, pick, order))
    ensures var t := Started(s, pick, order);
      && t.gameState == Quiz && t.score == 0 && t.currentQuestionIndex == 0 && t.answeredQuestions == []
      && !t.startVisible && t.questions == s.questions && t.startButton == s.startButton
      && (t.quizQuestions != [] ==>
            t.optionsEnabled && t.optionOrder == order
            && t.answerOptions == Shuffle(Bindings(t.quizQuestions[0]), order))
      && (t.quizQuestions == [] <==> s.questions == [])
      && (t.quizQuestions == [] ==> t.answerOptions == [])
  {
    var t := Started(s, pick, order);
    var m := Min(QuizLength, |s.questions|);
    assert t.quizQuestions == Shuffle(s.questions, pick)[..m];
    forall i | 0 <= i < |t.quizQuestions|
      ensures WellFormed(t.quizQuestions[i])
    {
      assert t.quizQuestions[i] == s.questions[pick[i]];
    }
    assert CountCorrect([]) == 0;
  }

  /** A round is a sample without replacement: its question i is the pool
      question at position pick[i], these positions are all different, and
      the round has four questions or, with a smaller pool, all of them. */
  lemma RoundIsSample(s: Session, pick: seq<nat>, order: seq<nat>)
    requires IsPermutation(pick, |s.questions|) && IsPermutation(order, NumOptions)
    requires forall k :: 0 <= k < |s.questions| ==> WellFormed(s.questions[k])
    ensures var round := Started(s, pick, order).quizQuestions;
      && |round| == Min(QuizLength, |s.questions|)
      && Distinct(pick[..|round|])
      && forall i :: 0 <= i < |round| ==> pick[i] < |s.questions| && round[i] == s.questions[pick[i]]
  {
    PrefixOfPermutationDistinct(pick, |s.questions|, Min(QuizLength, |s.questions|));
  }

  /** Answering the current question keeps the invariant: one more record,
      a point exactly for the stored answer's letter, the buttons disabled
      and the next button labelled by whether questions remain. */
  lemma AnsweredOk(s: Session, selected: string)
    requires SessionOk(s) && s.answerOptions != [] && s.optionsEnabled
    ensures s.gameState == Quiz && s.currentQuestionIndex < |s.quizQuestions|
    ensures SessionOk(Answered(s, selected))
    ensures var t := Answered(s, selected);
      && t.gameState == Quiz && !t.optionsEnabled
      && |t.answeredQuestions| == |s.answeredQuestions| + 1
      && t.answeredQuestions[..|s.answeredQuestions|] == s.answeredQuestions
      && t.answeredQuestions[|s.answeredQuestions|].selected == selected
      && (t.score == s.score + 1 <==> selected == s.quizQuestions[s.currentQuestionIndex].answer)
      && (t.score == s.score || t.score == s.score + 1)
      && (t.feedback == CorrectFeedback <==> t.score == s.score + 1)
      && (t.nextButton == Some(SeeResultsLabel) <==> s.currentQuestionIndex == |s.quizQuestions| - 1)
  {
    var q := s.quizQuestions[s.currentQuestionIndex];
    var r := AnsweredRecord(q, selected);
    var t := Answered(s, selected);
    CountCorrectAppend(s.answeredQuestions, r);
    assert t.answeredQuestions == s.answeredQuestions + [r];
    assert t.answeredQuestions[..|s.answeredQuestions|] == s.answeredQuestions;
    forall i | 0 <= i < |t.answeredQuestions|
      ensures t.answeredQuestions[i].question == t.quizQuestions[i]
    {
      if i < |s.answeredQuestions| {
        assert t.answeredQuestions[i] == s.answeredQuestions[i];
      }
    }
  }

  /** Clicking option button j answers with the letter bound to it. The
      click scores exactly when that letter's original position is the one
      the stored answer names, and at most one of the four buttons scores. */
  lemma ClickScoresIffLetterMatches(s: Session, j: nat)
    requires SessionOk(s) && s.optionsEnabled && j < |s.answerOptions|
    ensures s.currentQuestionIndex < |s.quizQuestions| && j < |s.optionOrder|
    ensures var q := s.quizQuestions[s.currentQuestionIndex];
      (Answered(s, s.answerOptions[j].originalLetter).score == s.score + 1)
        <==> LetterIndex(q.answer) == Some(s.optionOrder[j])
    ensures forall j' :: 0 <= j' < |s.answerOptions| && j' != j ==>
      !(Answered(s, s.answerOptions[j].originalLetter).score == s.score + 1
        && Answered(s, s.answerOptions[j'].originalLetter).score == s.score + 1)
  {
    var q := s.quizQuestions[s.currentQuestionIndex];
    ChoosingByLetter(q, s.optionOrder);
  }

  /** `next` takes the branch its button's label names: the following
      question, shown with its options, or the result screen. */
  lemma AdvancedOk(s: Session, order: seq<nat>)
    requires SessionOk(s) && s.nextButton.Some? && IsPermutation(order, NumOptions)
    ensures s.currentQuestionIndex + 1 < |s.quizQuestions| ==> WellFormed(s.quizQuestions[s.currentQuestionIndex + 1])
    ensures SessionOk(Advanced(s, order))
    ensures var t := Advanced(s, order);
      && (s.nextButton == Some(NextQuestionLabel) <==> t.gameState == Quiz)
      && (s.nextButton == Some(SeeResultsLabel) <==> t.gameState == Result)
      && t.questions == s.questions && t.quizQuestions == s.quizQuestions
      && t.answeredQuestions == s.answeredQuestions && t.score == s.score
      && (t.gameState == Quiz ==>
            t.currentQuestionIndex == s.currentQuestionIndex + 1 && t.optionsEnabled && t.optionOrder == order
            && t.answerOptions == Shuffle(Bindings(t.quizQuestions[t.currentQuestionIndex]), order))
      && (t.gameState == Result ==> t.currentQuestionIndex == s.currentQuestionIndex && t.answerOptions == [])
  {
  }

  /** A frame keeps the invariant, and on the result screen shows the
      play-again button. */
  lemma DrawnOk(s: Session)
    requires SessionOk(s)
    ensures SessionOk(Drawn(s))
    ensures s.gameState == Result ==> Drawn(s).startVisible && Drawn(s).startButton == Some(PlayAgainLabel)
    ensures s.gameState != Result ==> Drawn(s) == s
  {
  }

  /** On the result screen every question of the round has been answered
      once, the score is the number of correct answers, and the tier is
      perfect exactly when all of them were correct. */
  lemma ResultReflectsAnswers(s: Session)
    requires SessionOk(s) && s.gameState == Result
    ensures |s.answeredQuestions| == |s.quizQuestions| > 0
    ensures forall i :: 0 <= i < |s.quizQuestions| ==> s.answeredQuestions[i].question == s.quizQuestions[i]
    ensures s.score == CountCorrect(s.answeredQuestions)
    ensures TierOf(s.score, |s.quizQuestions|) == Perfect
      <==> forall i :: 0 <= i < |s.answeredQuestions| ==> IsCorrect(s.answeredQuestions[i])
  {
    PerfectIffAllCorrect(s.answeredQuestions);
  }

  /** `after` is `before` followed by the celebration burst: that many
      new ambient particles. */
  twostate predicate Celebrated(before: seq<Particle>, new after: seq<Particle>)
  {
    && |after| == |before| + CelebrationCount
    && after[..|before|] == before
    && forall k :: |before| <= k < |after| ==> fresh(after[k]) && after[k].kind == Default
  }

  /** Every particle has the lifespan its kind and age give. */
  ghost predicate AllValid(ps: seq<Particle>)
    reads ps
  {
    forall k :: 0 <= k < |ps| ==> ps[k].Valid()
  }

  class Sketch {
    /** The pool built in `setup`. */
    var questions: seq<Question>
    var quizQuestions: seq<Question>
    var currentQuestionIndex: nat
    var answeredQuestions: seq<AnsweredRecord>
    var score: nat
    var gameState: GameState
    var feedback: string
    var particles: seq<Particle>
    /** The option buttons on screen, each with its text and bound letter. */
    var answerOptions: seq<AnswerOption>
    /** False once `checkAnswer` has disabled the option buttons. */
    var optionsEnabled: bool
    /** The label of the next button, when there is one on screen. */
    var nextButton: Option<string>
    /** The label of the start button; None when `setup` stopped before creating it. */
    var startButton: Option<string>
    var startVisible: bool
    /** The permutation the options of the current question were shown in. */
    ghost var optionOrder: seq<nat>

    /** The fields other than the particles, as a session value. */
    ghost function Snapshot(): Session
      reads this
    {
      Session(questions, quizQuestions, currentQuestionIndex, answeredQuestions, score, gameState, feedback,
              answerOptions, optionsEnabled, nextButton, startButton, startVisible, optionOrder)
    }

    ghost predicate Valid()
      reads this, particles
    {
      SessionOk(Snapshot()) && Distinct(particles) && AllValid(particles)
    }

    /** `setup`: parses the loaded rows, creates the start button and the
        ambient particles. Without a table it stops before all three. */
    constructor (table: Option<seq<Row>>)
      ensures Valid()
      ensures table.None? ==> Snapshot() == SetUp([], false) && particles == []
      ensures table.Some? ==>
        Snapshot() == SetUp(questions, true)
        && |questions| == |table.value|
        && (forall i :: 0 <= i < |questions| ==> questions[i] == FromRow(table.value[i]))
        && |particles| == AmbientCount
        && forall p :: p in particles ==> fresh(p) && p.kind == Default && p.age == 0
    {
      var pool: seq<Question> := [];
      var ambient: seq<Particle> := [];
      if table.Some? {
        pool := ParseRows(table.value);
        ambient := Spawn(AmbientCount, Default);
      }
      questions := pool;
      quizQuestions := [];
      currentQuestionIndex := 0;
      answeredQuestions := [];
      score := 0;
      gameState := Start;
      feedback := "";
      particles := ambient;
      answerOptions := [];
      optionsEnabled := true;
      nextButton := None;
      startButton := if table.Some? then Some(StartLabel) else None;
      startVisible := table.Some?;
      optionOrder := [];
      new;
      SetUpOk(pool, table.Some?);
      assert forall k :: 0 <= k < |ambient| ==> ambient[k] in ambient;
    }

    /** `startQuiz`: resets the counters, renews the ambient particles, draws
        the round and shows its first question. `pick` is the order the
        library's shuffle puts the pool in, `order` the one it puts the first
        question's options in. */
    method StartQuiz(pick: seq<nat>, order: seq<nat>)
      requires IsPermutation(pick, |questions|) && IsPermutation(order, NumOptions)
      requires forall k :: 0 <= k < |questions| ==> WellFormed(questions[k])
      modifies this`startVisible, this`score, this`currentQuestionIndex, this`answeredQuestions, this`particles
      modifies this`quizQuestions, this`gameState
      modifies this`answerOptions, this`nextButton, this`feedback, this`optionOrder, this`optionsEnabled
      ensures !startVisible && score == 0 && currentQuestionIndex == 0 && answeredQuestions == [] && gameState == Quiz
      ensures quizQuestions == Shuffle(questions, pick)[..Min(QuizLength, |questions|)]
      ensures nextButton == None && feedback == ""
      ensures quizQuestions != [] ==>
        WellFormed(quizQuestions[0]) && optionsEnabled && optionOrder == order
        && answerOptions == Shuffle(Bindings(quizQuestions[0]), order)
      ensures quizQuestions == [] ==>
        answerOptions == [] && optionsEnabled == old(optionsEnabled) && optionOrder == old(optionOrder)
      ensures |particles| == AmbientCount && Distinct(particles) && AllValid(particles)
      ensures forall p :: p in particles ==> fresh(p) && p.kind == Default && p.age == 0
    {
      startVisible := false;
      score := 0;
      currentQuestionIndex := 0;
      answeredQuestions := [];
      RenewAmbient();
      DrawRound(pick);
      DisplayQuestion(order);
    }

    /** The round `startQuiz` draws: the first four questions of the
        shuffled pool, or all of a smaller pool; then the quiz state. */
    method DrawRound(pick: seq<nat>)
      requires IsPermutation(pick, |questions|)
      requires forall k :: 0 <= k < |questions| ==> WellFormed(questions[k])
      modifies this`quizQuestions, this`gameState
      ensures quizQuestions == Shuffle(questions, pick)[..Min(QuizLength, |questions|)] && gameState == Quiz
      ensures quizQuestions != [] ==> WellFormed(quizQuestions[0])
    {
      var m := Min(QuizLength, |questions|);
      var round := Shuffle(questions, pick)[..m];
      assert 0 < |round| ==> round[0] == questions[pick[0]];
      quizQuestions := round;
      gameState := Quiz;
    }

    /** The particles `startQuiz` starts a round with: the old ones are
        dropped and the ambient ones created anew. */
    method RenewAmbient()
      modifies this`particles
      ensures |particles| == AmbientCount && Distinct(particles) && AllValid(particles)
      ensures forall p :: p in particles ==> fresh(p) && p.kind == Default && p.age == 0
    {
      particles := [];
      var ambient := Spawn(AmbientCount, Default);
      assert forall k :: 0 <= k < |ambient| ==> ambient[k] in ambient;
      particles := ambient;
    }

    /** `displayQuestion`. */
    method DisplayQuestion(order: seq<nat>)
      requires IsPermutation(order, NumOptions)
      requires currentQuestionIndex < |quizQuestions| ==> WellFormed(quizQuestions[currentQuestionIndex])
      modifies this`answerOptions, this`nextButton, this`feedback, this`optionOrder, this`optionsEnabled
      ensures nextButton == None && feedback == ""
      ensures currentQuestionIndex < |quizQuestions| ==>
        optionsEnabled && optionOrder == order
        && answerOptions == Shuffle(Bindings(quizQuestions[currentQuestionIndex]), order)
      ensures currentQuestionIndex >= |quizQuestions| ==>
        answerOptions == [] && optionsEnabled == old(optionsEnabled) && optionOrder == old(optionOrder)
    {
      answerOptions := [];
      nextButton := None;
      feedback := "";
      if currentQuestionIndex < |quizQuestions| {
        var q := quizQuestions[currentQuestionIndex];
        var bound := BindOptions(q);
        answerOptions := Shuffle(bound, order);
        optionOrder := order;
        optionsEnabled := true;
      }
    }

    /** `checkAnswer`: records the answer, disables the option buttons,
        scores a correct answer and celebrates it with particles, sets the
        feedback and creates the next button. */
    method CheckAnswer(selected: string)
      requires currentQuestionIndex < |quizQuestions|
      requires Distinct(particles) && AllValid(particles)
      modifies this`answeredQuestions, this`optionsEnabled, this`nextButton, this`score, this`feedback, this`particles
      ensures answeredQuestions == old(answeredQuestions) + [AnsweredRecord(quizQuestions[currentQuestionIndex], selected)]
      ensures !optionsEnabled && nextButton == Some(NextLabel(currentQuestionIndex, |quizQuestions|))
      ensures score == old(score) + (if selected == quizQuestions[currentQuestionIndex].answer then 1 else 0)
      ensures feedback == FeedbackFor(selected, quizQuestions[currentQuestionIndex].answer)
      ensures Distinct(particles) && AllValid(particles)
      ensures selected == quizQuestions[currentQuestionIndex].answer ==> Celebrated(old(particles), particles)
      ensures selected != quizQuestions[currentQuestionIndex].answer ==> particles == old(particles)
    {
      answeredQuestions := answeredQuestions + [AnsweredRecord(quizQuestions[currentQuestionIndex], selected)];
      var correctAnswer := quizQuestions[currentQuestionIndex].answer;
      optionsEnabled := false;
      if selected == correctAnswer {
        score := score + 1;
        feedback := CorrectFeedback;
        Celebrate();
      } else {
        feedback := WrongFeedbackPrefix + correctAnswer;
      }
      nextButton := Some(NextLabel(currentQuestionIndex, |quizQuestions|));
    }

    /** The particles a correct answer adds after the existing ones. */
    method Celebrate()
      requires Distinct(particles) && AllValid(particles)
      modifies this`particles
      ensures Distinct(particles) && AllValid(particles)
      ensures Celebrated(old(particles), particles)
    {
      var burst := Spawn(CelebrationCount, Default);
      DistinctAppend(particles, burst);
      AllValidAppend(particles, burst);
      particles := particles + burst;
      assert particles[|old(particles)|..] == burst;
      assert particles[..|old(particles)|] == old(particles);
    }

    /** `next`: the following question, or after the last one the result
        burst and the result screen. */
    method Next(order: seq<nat>)
      requires IsPermutation(order, NumOptions)
      requires currentQuestionIndex + 1 < |quizQuestions| ==> WellFormed(quizQuestions[currentQuestionIndex + 1])
      modifies this`currentQuestionIndex, this`gameState, this`particles
      modifies this`answerOptions, this`nextButton, this`feedback, this`optionOrder, this`optionsEnabled
      ensures nextButton == None && feedback == ""
      ensures old(currentQuestionIndex) < |quizQuestions| - 1 ==>
        currentQuestionIndex == old(currentQuestionIndex) + 1 && gameState == old(gameState)
        && optionsEnabled && optionOrder == order
        && answerOptions == Shuffle(Bindings(quizQuestions[old(currentQuestionIndex) + 1]), order)
        && particles == old(particles)
      ensures old(currentQuestionIndex) >= |quizQuestions| - 1 ==>
        currentQuestionIndex == old(currentQuestionIndex) && gameState == Result && answerOptions == []
        && optionsEnabled == old(optionsEnabled) && optionOrder == old(optionOrder)
        && |particles| == Burst(TierOf(score, |quizQuestions|)).0 && Distinct(particles) && AllValid(particles)
        && forall p :: p in particles ==> fresh(p) && p.kind == Burst(TierOf(score, |quizQuestions|)).1 && p.age == 0
    {
      if currentQuestionIndex < |quizQuestions| - 1 {
        currentQuestionIndex := currentQuestionIndex + 1;
        DisplayQuestion(order);
      } else {
        SetupResultAnimation();
        gameState := Result;
        answerOptions := [];
        nextButton := None;
        feedback := "";
      }
    }

    /** `setupResultAnimation`: replaces the particles by the burst its own
        threshold chain selects. With no questions the percentage is not a
        number and the chain falls through to the last branch. */
    method SetupResultAnimation()
      modifies this`particles
      ensures |particles| == Burst(TierOf(score, |quizQuestions|)).0
      ensures Distinct(particles) && AllValid(particles)
      ensures forall p :: p in particles ==>
        fresh(p) && p.kind == Burst(TierOf(score, |quizQuestions|)).1 && p.age == 0
    {
      var total := |quizQuestions|;
      var burst;
      if PercentIsHundred(score, total) {
        burst := Spawn(200, Firework);
      } else if PercentAtLeast(score, total, 75) {
        burst := Spawn(100, Star);
      } else if PercentAtLeast(score, total, 50) {
        burst := Spawn(50, Bubble);
      } else {
        burst := Spawn(100, Default);
      }
      assert forall k :: 0 <= k < |burst| ==> burst[k] in burst;
      particles := burst;
    }

    /** The state-changing part of `draw`: the particles are updated and
        pruned; on the result screen the start button is shown again as the
        play-again button. Returns the message the result screen shows. */
    method Draw() returns (message: Option<string>)
      requires Distinct(particles) && AllValid(particles)
      modifies this`particles, this`startVisible, this`startButton, particles
      ensures particles == Survivors(old(particles)) && Distinct(particles) && AllValid(particles)
      ensures forall k :: 0 <= k < |old(particles)| ==> old(particles)[k].age == old(particles[k].age) + 1
      ensures gameState == Result ==> startVisible && startButton == Some(PlayAgainLabel)
      ensures gameState != Result ==> startVisible == old(startVisible) && startButton == old(startButton)
      ensures message.Some? <==> gameState == Result
      ensures gameState == Result ==> message == Some(TierMessage(TierOf(score, |quizQuestions|)))
    {
      UpdateParticles();
      message := None;
      if gameState == Result {
        MessageMatchesTier(score, |quizQuestions|);
        message := Some(ResultMessage(score, |quizQuestions|));
        startVisible := true;
        startButton := Some(PlayAgainLabel);
      }
    }

    /** The particle loop of `draw`: every particle is updated once and the
        finished ones are dropped, the others keeping their order. */
    method UpdateParticles()
      requires Distinct(particles) && AllValid(particles)
      modifies this`particles, particles
      ensures particles == Survivors(old(particles)) && Distinct(particles) && AllValid(particles)
      ensures forall k :: 0 <= k < |old(particles)| ==> old(particles)[k].age == old(particles[k].age) + 1
    {
      var ps := particles;
      var kept := UpdateAndPrune(ps);
      SurvivorsMembers(ps);
      forall k | 0 <= k < |kept|
        ensures kept[k].Valid()
      {
        assert kept[k] in ps;
      }
      particles := kept;
    }

    /** A click on the start button, which can be clicked while it is shown. */
    method PressStart(pick: seq<nat>, order: seq<nat>)
      requires Valid() && startVisible
      requires IsPermutation(pick, |questions|) && IsPermutation(order, NumOptions)
      modifies this
      ensures Valid()
      ensures Snapshot() == Started(old(Snapshot()), pick, order)
      ensures |particles| == AmbientCount && forall p :: p in particles ==> fresh(p) && p.kind == Default
    {
      ghost var s0 := Snapshot();
      StartQuiz(pick, order);
      StartedStep(s0, pick, order, Snapshot());
    }

    /** A click on option button j: while the buttons are enabled it answers
        with the button's bound letter (see ClickScoresIffLetterMatches);
        once they are disabled the click changes nothing, so a question is
        answered at most once. */
    method ClickOption(j: nat)
      requires Valid() && j < |answerOptions|
      modifies this
      ensures Valid()
      ensures !old(optionsEnabled) ==> unchanged(this)
      ensures old(optionsEnabled) ==> Snapshot() == Answered(old(Snapshot()), old(answerOptions[j].originalLetter))
      ensures score == old(score) + 1 ==> Celebrated(old(particles), particles)
      ensures score == old(score) ==> particles == old(particles)
    {
      if optionsEnabled {
        ghost var s0 := Snapshot();
        var selected := answerOptions[j].originalLetter;
        CheckAnswer(selected);
        AnsweredStep(s0, selected, Snapshot());
      }
    }

    /** A click on the next button, which exists once the current question
        is answered. */
    method PressNext(order: seq<nat>)
      requires Valid() && nextButton.Some? && IsPermutation(order, NumOptions)
      modifies this
      ensures Valid()
      ensures Snapshot() == Advanced(old(Snapshot()), order)
      ensures gameState == Quiz ==> particles == old(particles)
      ensures gameState == Result ==>
        |particles| == Burst(TierOf(score, |quizQuestions|)).0
        && forall p :: p in particles ==> fresh(p) && p.kind == Burst(TierOf(score, |quizQuestions|)).1
    {
      ghost var s0 := Snapshot();
      Next(order);
      AdvancedStep(s0, order, Snapshot());
    }

    /** One frame of the sketch's loop. */
    method Frame() returns (message: Option<string>)
      requires Valid()
      modifies this, particles
      ensures Valid()
      ensures Snapshot() == Drawn(old(Snapshot()))
      ensures particles == Survivors(old(particles))
      ensures forall k :: 0 <= k < |old(particles)| ==> old(particles)[k].age == old(particles[k].age) + 1
      ensures message.Some? <==> gameState == Result
      ensures gameState == Result ==> message == Some(TierMessage(TierOf(score, |quizQuestions|)))
    {
      ghost var s0 := Snapshot();
      message := Draw();
      DrawnStep(s0, Snapshot());
    }
  }

  /** A session whose fields are those `Answered` gives is that session, and
      it keeps the invariant. */
  lemma AnsweredStep(s0: Session, selected: string, s1: Session)
    requires SessionOk(s0) && s0.answerOptions != [] && s0.optionsEnabled
    requires s0.currentQuestionIndex < |s0.quizQuestions|
    requires s1.questions == s0.questions && s1.quizQuestions == s0.quizQuestions
    requires s1.currentQuestionIndex == s0.currentQuestionIndex && s1.gameState == s0.gameState
    requires s1.answerOptions == s0.answerOptions && s1.optionOrder == s0.optionOrder
    requires s1.startButton == s0.startButton && s1.startVisible == s0.startVisible
    requires s1.answeredQuestions == s0.answeredQuestions + [AnsweredRecord(s0.quizQuestions[s0.currentQuestionIndex], selected)]
    requires s1.score == s0.score + (if selected == s0.quizQuestions[s0.currentQuestionIndex].answer then 1 else 0)
    requires s1.feedback == FeedbackFor(selected, s0.quizQuestions[s0.currentQuestionIndex].answer)
    requires !s1.optionsEnabled && s1.nextButton == Some(NextLabel(s0.currentQuestionIndex, |s0.quizQuestions|))
    ensures s1 == Answered(s0, selected) && SessionOk(s1)
  {
    AnsweredOk(s0, selected);
  }

  /** A session whose fields are those `Started` gives is that session, and
      it keeps the invariant. */
  lemma StartedStep(s0: Session, pick: seq<nat>, order: seq<nat>, s1: Session)
    requires SessionOk(s0) && s0.startVisible
    requires IsPermutation(pick, |s0.questions|) && IsPermutation(order, NumOptions)
    requires s1.questions == s0.questions && s1.startButton == s0.startButton
    requires !s1.startVisible && s1.score == 0 && s1.currentQuestionIndex == 0 && s1.answeredQuestions == []
    requires s1.gameState == Quiz && s1.nextButton == None && s1.feedback == ""
    requires s1.quizQuestions == Shuffle(s0.questions, pick)[..Min(QuizLength, |s0.questions|)]
    requires s1.quizQuestions != [] ==>
      WellFormed(s1.quizQuestions[0]) && s1.optionsEnabled && s1.optionOrder == order
      && s1.answerOptions == Shuffle(Bindings(s1.quizQuestions[0]), order)
    requires s1.quizQuestions == [] ==>
      s1.answerOptions == [] && s1.optionsEnabled == s0.optionsEnabled && s1.optionOrder == s0.optionOrder
    ensures s1 == Started(s0, pick, order) && SessionOk(s1)
  {
    StartedOk(s0, pick, order);
  }

  /** A session whose fields are those `Advanced` gives is that session, and
      it keeps the invariant. */
  lemma AdvancedStep(s0: Session, order: seq<nat>, s1: Session)
    requires SessionOk(s0) && s0.nextButton.Some? && IsPermutation(order, NumOptions)
    requires s1.questions == s0.questions && s1.quizQuestions == s0.quizQuestions
    requires s1.answeredQuestions == s0.answeredQuestions && s1.score == s0.score
    requires s1.startButton == s0.startButton && s1.startVisible == s0.startVisible
    requires s1.nextButton == None && s1.feedback == ""
    requires s0.currentQuestionIndex < |s0.quizQuestions| - 1 ==>
      s1.currentQuestionIndex == s0.currentQuestionIndex + 1 && s1.gameState == s0.gameState
      && s1.optionsEnabled && s1.optionOrder == order
      && s1.answerOptions == Shuffle(Bindings(s0.quizQuestions[s0.currentQuestionIndex + 1]), order)
    requires s0.currentQuestionIndex >= |s0.quizQuestions| - 1 ==>
      s1.currentQuestionIndex == s0.currentQuestionIndex && s1.gameState == Result && s1.answerOptions == []
      && s1.optionsEnabled == s0.optionsEnabled && s1.optionOrder == s0.optionOrder
    ensures s1 == Advanced(s0, order) && SessionOk(s1)
  {
    AdvancedOk(s0, order);
  }

  /** A session whose fields are those `Drawn` gives is that session, and it
      keeps the invariant. */
  lemma DrawnStep(s0: Session, s1: Session)
    requires SessionOk(s0)
    requires s1.questions == s0.questions && s1.quizQuestions == s0.quizQuestions
    requires s1.currentQuestionIndex == s0.currentQuestionIndex && s1.answeredQuestions == s0.answeredQuestions
    requires s1.score == s0.score && s1.gameState == s0.gameState && s1.feedback == s0.feedback
    requires s1.answerOptions == s0.answerOptions && s1.optionsEnabled == s0.optionsEnabled
    requires s1.nextButton == s0.nextButton && s1.optionOrder == s0.optionOrder
    requires s0.gameState == Result ==> s1.startVisible && s1.startButton == Some(PlayAgainLabel)
    requires s0.gameState != Result ==> s1.startVisible == s0.startVisible && s1.startButton == s0.startButton
    ensures s1 == Drawn(s0) && SessionOk(s1)
  {
    DrawnOk(s0);
  }

  /** Joining two lists of valid particles gives a list of valid particles. */
  lemma AllValidAppend(a: seq<Particle>, b: seq<Particle>)
    requires AllValid(a) && forall p :: p in b ==> p.Valid()
    ensures AllValid(a + b)
  {
    forall k | 0 <= k < |a + b|
      ensures (a + b)[k].Valid()
    {
      if k >= |a| {
        assert (a + b)[k] == b[k - |a|];
        assert b[k - |a|] in b;
      }
    }
  }
}
