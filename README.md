# p5.js quiz sketch — a Dafny model of its session core

`sketch.js` is a p5.js quiz page. `setup` turns the loaded table into a pool
of four-option questions and creates the start button and 100 ambient
particles. `startQuiz` draws a round of at most four questions from the
shuffled pool. `displayQuestion` binds each option to its original letter
(A–D), shuffles the options and creates one button per option.
`checkAnswer` records the answer, disables the buttons, scores a correct
letter (celebrating it with 30 particles) and creates the next button.
`next` moves to the following question or, after the last one, to the
result screen. On the result screen a particle burst and a message are
chosen by the percentage score (100, at least 75, at least 50, below).
Every frame, `draw` updates each particle once and splices out the ones
whose lifespan has run out.

The model has five modules:

- `Shuffles` (shuffles.dfy): the outcome of the library's `shuffle`, given
  as a permutation parameter, so every contract holds for every order.
- `Questions` (questions.dfy): table rows, question records, the parse loop
  of `setup`, and the letter binding of `displayQuestion` with the proof
  that the stored answer letter picks out the right button whatever the
  display order.
- `Particles` (particles.dfy): the `Particle` class with its lifespan in
  half-units (255 is 510, a step of 1.5 is 3). It also holds the loops that
  create particles, and the backward splice loop of `draw`, proved to keep
  exactly the particles that are not done, in order, after updating each
  one once.
- `Results` (results.dfy): the two threshold chains, evaluated by integer
  cross-multiplication and proved equal to the chain on the exact
  percentage. The bursts, and the messages, which always agree with the
  bursts.
- `Game` (game.dfy): the sketch's globals as the class `Sketch`, one method
  per function of the source. Each transition is also given as a function
  on the value `Session` (the globals other than the particles). Lemmas
  state what each transition does and that it keeps the invariant
  `SessionOk`. The event methods (`PressStart`, `ClickOption`, `PressNext`,
  `Frame`) are proved to perform those transitions on the fields and to
  keep `Valid()`.

Buttons are modelled by what they show: the option buttons as the list of
bound options plus whether they are enabled; the next button as its label
when it exists; the start button as its label and whether it is shown. A
click is a call of the bound function, made only while the button can be
clicked.

## Model

| member | source | states |
|---|---|---|
| Shuffles.Shuffle | sketch.js:96 | a shuffle has the input's length, holds every input element and nothing else |
| Shuffles.ShufflePlaces | sketch.js:125 | each input element lands at exactly one position of the shuffle |
| Shuffles.PrefixOfPermutationDistinct | sketch.js:96-97 | the first n positions of a shuffle name n different input positions, so a slice of it is a sample without replacement |
| Questions.FromRow | sketch.js:36-41 | a record built from a row has four options |
| Questions.RowRoundTrip | sketch.js:37-41 | building the record loses nothing: the row can be read back from it |
| Questions.QuestionRoundTrip | sketch.js:37-41 | every four-option record is the record of exactly its row |
| Questions.ParseRows | sketch.js:35-42 | the parse loop yields one record per row, record i built from row i |
| Questions.Letter | sketch.js:122 | `String.fromCharCode(65 + i)` is a single capital letter |
| Questions.LetterIndex | sketch.js:122 | a letter names at most one of the four option positions |
| Questions.LetterIndexInverse | sketch.js:119-123 | letter i names position i, and only letter i names it |
| Questions.Column | sketch.js:39-40 | an answer names a column of the row exactly when it is one of the letters A–D |
| Questions.OptionUnderItsLetter | sketch.js:119-123 | option i of a record is the column that letter i names |
| Questions.BindOptions | sketch.js:118-124 | the binding loop pairs each option with its own letter, in column order |
| Questions.ChoosingByLetter | sketch.js:125-130 | whatever the display order, a button's letter equals the stored answer exactly when its original position is the one the answer names; such a button exists when the answer is a letter A–D, shows that column's text, and is unique |
| Questions.CorrectButtonShowsAnswerColumn | sketch.js:128-130 | the button carrying the answer letter shows the text of the column the answer names |
| Results.TierOf | sketch.js:224-244 | the threshold chain by cross-multiplication, with a zero total treated as NaN or +Infinity; TierAgreesWithPercentage, TierMonotone and TiersOutOfFour state its properties |
| Results.ResultMessage | sketch.js:253-256 | the message chain of `drawResultScreen`; MessageMatchesTier proves it agrees with TierOf |
| Results.Burst | sketch.js:224-244 | the burst is made of ambient particles exactly in the lowest tier |
| Results.TierAgreesWithPercentage | sketch.js:222-234 | the cross-multiplied chain selects the same tier as the chain on the exact percentage |
| Results.PercentageCompares | sketch.js:222-234 | comparing the percentage with a bound is comparing 100·score with bound·total, for both >= and === |
| Results.TierMonotone | sketch.js:224-244 | more correct answers never give a lower tier |
| Results.TiersOutOfFour | sketch.js:224-244 | out of four: 4 is perfect, 3 excellent, 2 good, 1 and 0 the baseline |
| Results.MessageMatchesTier | sketch.js:247-256 | the result message is the message of the tier whose burst was shown, and it determines that tier |
| Particles.LifeAfter | sketch.js:320-325 | the lifespan after n updates, one decay step per update; LifeAfterClosedForm and DoneExactlyAfter state its closed form and when it goes negative |
| Particles.Particle.IsDone | sketch.js:360-362 | `lifespan < 0`; with Valid() the lifespan is LifeAfter(kind, age), so DoneExactlyAfter says from which update on it holds |
| Particles.LifeAfterClosedForm | sketch.js:320-325 | after n updates a decaying particle's lifespan is 255 − 1.5n and strictly falls; an ambient one stays at 255 |
| Particles.DoneExactlyAfter | sketch.js:360-362 | a particle reports done exactly from its 171st update on, and an ambient particle never does |
| Particles.Particle.constructor | sketch.js:292-295 | a new particle has its kind and the full lifespan 255 |
| Particles.Particle.Update | sketch.js:320-329 | an update lowers the lifespan by 1.5 for decaying kinds only and keeps it equal to the lifespan its age gives |
| Particles.SurvivorsMembers | sketch.js:59-66 | the survivors are exactly the particles that are not done, and contain no particle twice |
| Particles.Spawn | sketch.js:49-51 | the creation loop yields that many new, distinct particles of the kind, each with the full lifespan |
| Particles.UpdateAndPrune | sketch.js:59-66 | every particle is updated exactly once, and the list left is the particles not done afterwards, in their original order |
| Particles.PruneBackwards | sketch.js:59-66 | the backward loop with in-place splicing establishes what UpdateAndPrune states |
| Particles.VisitParticle | sketch.js:60-65 | one pass updates particle i and splices it out exactly when it is now done |
| Game.CountCorrect | sketch.js:151-152 | the number of correct records is at most their number; it equals it exactly when all are correct, and is zero exactly when none is |
| Game.CountCorrectAppend | sketch.js:138-152 | appending a record adds one to the count exactly when the record is correct |
| Game.PerfectIffAllCorrect | sketch.js:222-224 | a round scores perfect exactly when every answer was correct, and the baseline tier when none was |
| Game.NextLabel | sketch.js:165 | the label `checkAnswer` creates; AdvancedOk proves 下一題 ⇔ `next` stays in the quiz and 看結果 ⇔ it enters the result screen |
| Game.FeedbackFor | sketch.js:151-161 | the feedback is 答對了！ exactly when the selected letter is the answer; a wrong answer's feedback ends with the stored answer, revealing it |
| Game.SetUp | sketch.js:28-52 | the session `setup` leaves: the parsed pool, start state, and the start button only when the table loaded; SetUpOk proves it keeps the invariant |
| Game.Displayed | sketch.js:103-134 | `displayQuestion` on the session: the buttons and feedback cleared, then the current options bound to their letters in the given order and enabled; StartedOk and AdvancedOk state it for the question shown |
| Game.Started | sketch.js:80-101 | `startQuiz` on the session; StartedOk and RoundIsSample state what it does |
| Game.Answered | sketch.js:136-168 | `checkAnswer` on the session; AnsweredOk and ClickScoresIffLetterMatches state what it does |
| Game.Advanced | sketch.js:170-185 | `next` on the session; AdvancedOk states what it does |
| Game.Drawn | sketch.js:269-271 | what a frame does to the session on the result screen; DrawnOk states what it does |
| Game.Counters | sketch.js:85-87 | in every reachable session: score ≤ answers given ≤ round length ≤ 4; one record per question asked; the index names a question of a non-empty round, the last one on the result screen |
| Game.SetUpOk | sketch.js:28-52 | the session `setup` leaves keeps the invariant, with the start button shown exactly when the table was loaded |
| Game.StartedOk | sketch.js:80-101 | starting resets score, index and records, enters the quiz, keeps the pool, shows the first question's options in the drawn order, keeps the invariant; the round is empty exactly when the pool is |
| Game.RoundIsSample | sketch.js:95-97 | the round has min(4, pool size) questions; question i is pool question pick[i], and these positions are all different |
| Game.AnsweredOk | sketch.js:136-168 | answering appends exactly one record with the selected letter, adds a point exactly for the stored answer, disables the buttons, shows 看結果 exactly on the last question, keeps the invariant |
| Game.ClickScoresIffLetterMatches | sketch.js:128-152 | clicking button j scores exactly when the answer letter names j's original position, and no two buttons both score |
| Game.AdvancedOk | sketch.js:170-185 | `next` takes the branch its label names: the following question with its options shown, or the result screen with the index unchanged; records and score untouched; keeps the invariant |
| Game.DrawnOk | sketch.js:269-271 | a frame keeps the invariant, shows the play-again button on the result screen and changes nothing otherwise |
| Game.ResultReflectsAnswers | sketch.js:136-185 | on the result screen every round question was answered once, in order, the score counts the correct answers, and the tier is perfect exactly when all were correct |
| Game.Sketch.constructor | sketch.js:28-52 | `setup`: with a table, one record per row, the start button and 100 new ambient particles; without one, nothing; the invariant holds |
| Game.Sketch.StartQuiz | sketch.js:80-101 | the counters reset, 100 new ambient particles, the round drawn from the shuffled pool, the quiz state, the first question displayed |
| Game.Sketch.RenewAmbient | sketch.js:90-93 | the particles are replaced by 100 new, distinct ambient particles |
| Game.Sketch.DrawRound | sketch.js:96-99 | the round is the first min(4, pool size) questions of the shuffled pool, and the quiz state is entered |
| Game.Sketch.DisplayQuestion | sketch.js:103-134 | the buttons and feedback are cleared, then the current question's options are shown, bound to their letters, in the given order and enabled |
| Game.Sketch.CheckAnswer | sketch.js:136-168 | one record appended, buttons disabled, score and feedback set by comparing with the answer, the next button labelled; 30 particles added exactly on a correct answer |
| Game.Sketch.Celebrate | sketch.js:155-158 | the particles are kept and followed by 30 new ambient ones |
| Game.Sketch.Next | sketch.js:170-185 | the following question displayed, or the result state with the burst of the tier and the buttons and feedback cleared |
| Game.Sketch.SetupResultAnimation | sketch.js:219-245 | the particles are replaced by the burst of the score's tier: that many new particles of that kind |
| Game.Sketch.Draw | sketch.js:54-76 | every particle updated once and the done ones dropped; on the result screen the play-again button shown and the tier's message returned |
| Game.Sketch.UpdateParticles | sketch.js:58-66 | the particle list becomes its survivors after one update of each particle |
| Game.Sketch.PressStart | sketch.js:45 | a click on the shown start button performs `Started` on the session, keeps the invariant and leaves 100 new ambient particles |
| Game.Sketch.ClickOption | sketch.js:130-149 | a click on an enabled option button performs `Answered` with its bound letter and celebrates exactly a point; a click on a disabled button changes nothing, so each question is answered at most once |
| Game.Sketch.PressNext | sketch.js:166 | a click on the next button performs `Advanced`, keeps the invariant, keeps the particles within the quiz and shows the tier's burst on the result screen |
| Game.Sketch.Frame | sketch.js:54-76 | a frame updates every particle of the old list exactly once, leaves the survivors, performs `Drawn`, keeps the invariant and returns the message of the tier on the result screen only |

## Left out

- Loading the table (`preload`, `loadTable`, the error callback with `console.error` and `alert`) is I/O. The constructor takes the parsed rows as an optional parameter; no table stands for the failed load, after which `setup` stops early.
- Shuffles.Shuffle: the internals and the randomness of the library's `shuffle` are not modelled. Each outcome is a permutation parameter, so nothing is said about the distribution of orders.
- Buttons and styling (`createButton`, `remove`, `hide`, `show`, `html`, `attribute`, `style`, `updateElementStyles`, `windowResized`) are DOM work. Buttons are kept only as their labels, their visibility and whether the option buttons are enabled.
- Game.Sketch.ClickOption: the lockout after an answer comes from the browser ignoring clicks on disabled buttons (sketch.js:146-149); it is modelled by the `optionsEnabled` flag.
- Drawing (`drawGradientBackground`, `drawStartScreen`, `drawQuizScreen`, the text of `drawResultScreen`, `Particle.show`, `s`) is rendering over floating point. `Draw` keeps only the state `draw` changes and the message the result screen selects.
- Particle position, velocity, acceleration, size, hue and `edges` wrapping are float kinematics with random starts, and are not modelled. The particle constructor's position arguments are dropped.
- `feedbackColor` is presentation only.
- Floating point: lifespans are exact multiples of 0.5 and are kept in half-units. Percentages are compared by cross-multiplication, proved equal to the comparison on the exact rational percentage (TierAgreesWithPercentage); with 1, 2 or 4 questions the float chain computes exactly that percentage, and with 3 questions the float values 33.33333333333333 and 66.66666666666666 are not the exact thirds but lie between the same thresholds 50, 75 and 100, so the same tier is selected.
- Game.Sketch.DisplayQuestion: with no current question (an empty pool), the source throws on the missing record right after clearing the buttons and the feedback. The model keeps that cleared state and does not model the exception.
- Game.Sketch.PressStart, Game.Sketch.PressNext, Game.Sketch.Frame: the event loop and the order in which the browser delivers events are not modelled. Each event method takes the state the preceding events left.
