/** The question pool: the table rows the sketch loads, the question records
    built from them, and the binding of each option to its original letter. */
module Questions {
  import opened Shuffles

  datatype Option<T> = None | Some(value: T)

  /** One row of the question table, by its header columns
      question, optionA, optionB, optionC, optionD, answer. */
  datatype Row = Row(question: string, optionA: string, optionB: string,
                     optionC: string, optionD: string, answer: string)

  /** A question as the sketch keeps it: the prompt, the options in column
      order, and the answer exactly as the table spells it. */
  datatype Question = Question(question: string, options: seq<string>, answer: string)

  /** Every row carries four options. */
  const NumOptions: nat := 4

  ghost predicate WellFormed(q: Question)
  {
    |q.options| == NumOptions
  }

  /** The record built for one row in `setup`. */
  function FromRow(r: Row): (q: Question)
    ensures WellFormed(q)
  {
    Question(r.question, [r.optionA, r.optionB, r.optionC, r.optionD], r.answer)
  }

  /** The row a well-formed question came from. */
  function ToRow(q: Question): (r: Row)
    requires WellFormed(q)
  {
    Row(q.question, q.options[0], q.options[1], q.options[2], q.options[3], q.answer)
  }

  /** Building the record loses nothing of the row ... */
  lemma RowRoundTrip(r: Row)
    ensures ToRow(FromRow(r)) == r
  {
  }

  /** ... and every well-formed question is the record of exactly its row. */
  lemma QuestionRoundTrip(q: Question)
    requires WellFormed(q)
    ensures FromRow(ToRow(q)) == q
  {
    assert FromRow(ToRow(q)).options == q.options;
  }

  /** The loop in `setup`: one record per row, in the table's order. */
  method ParseRows(rows: seq<Row>) returns (questions: seq<Question>)
    ensures |questions| == |rows|
    ensures forall i :: 0 <= i < |rows| ==> questions[i] == FromRow(rows[i])
  {
    questions := [];
    for i := 0 to |rows|
      invariant |questions| == i
      invariant forall k :: 0 <= k < i ==> questions[k] == FromRow(rows[k])
    {
      questions := questions + [FromRow(rows[i])];
    }
  }

  /** The letter `String.fromCharCode(65 + i)`: "A" for the first option. */
  function Letter(i: nat): (l: string)
    requires i < 26
    ensures |l| == 1 && 'A' <= l[0] <= 'Z'
  {
    [(65 + i) as char]
  }

  /** The option index a letter names, if it names one of the four. */
  function LetterIndex(l: string): (k: Option<nat>)
    ensures k.Some? ==> k.value < NumOptions
  {
    if |l| == 1 && 'A' <= l[0] && (l[0] as int) < 65 + NumOptions then Some(l[0] as int - 65) else None
  }

  /** Letter and LetterIndex are inverse on the four options. */
  lemma LetterIndexInverse(i: nat, l: string)
    requires i < NumOptions
    ensures LetterIndex(Letter(i)) == Some(i)
    ensures LetterIndex(l) == Some(i) ==> l == Letter(i)
  {
    if LetterIndex(l) == Some(i) {
      assert l == [l[0]];
    }
  }

  /** The column of the table that an answer letter refers to. */
  function Column(r: Row, letter: string): (c: Option<string>)
    ensures c.Some? <==> LetterIndex(letter).Some?
  {
    if letter == "A" then Some(r.optionA)
    else if letter == "B" then Some(r.optionB)
    else if letter == "C" then Some(r.optionC)
    else if letter == "D" then Some(r.optionD)
    else None
  }

  /** Option i of a record is the column named by letter i. */
  lemma OptionUnderItsLetter(r: Row, i: nat)
    requires i < NumOptions
    ensures Column(r, Letter(i)) == Some(FromRow(r).options[i])
  {
  }

  /** An option button's content: the text and the letter it had before shuffling. */
  datatype AnswerOption = AnswerOption(text: string, originalLetter: string)

  /** Each option bound to its original letter, in column order. */
  function Bindings(q: Question): (b: seq<AnswerOption>)
    requires |q.options| < 26
  {
    seq(|q.options|, i requires 0 <= i < |q.options| => AnswerOption(q.options[i], Letter(i)))
  }

  /** The first loop of `displayQuestion`, before the shuffle. */
  method BindOptions(q: Question) returns (answerOptions: seq<AnswerOption>)
    requires WellFormed(q)
    ensures answerOptions == Bindings(q)
  {
    answerOptions := [];
    var i := 0;
    while i < |q.options|
      invariant 0 <= i <= |q.options|
      invariant answerOptions == Bindings(q)[..i]
    {
      answerOptions := answerOptions + [AnswerOption(q.options[i], Letter(i))];
      i := i + 1;
    }
  }

  /** Whatever order the options are shown in, the button carrying the
      stored answer letter is exactly the one whose original position that
      letter names: so it is recognised as correct, and its text is the
      option the letter refers to. When the stored answer names none of the
      four letters, no button is correct. */
  lemma ChoosingByLetter(q: Question, p: seq<nat>)
    requires WellFormed(q) && IsPermutation(p, NumOptions)
    ensures forall j :: 0 <= j < NumOptions ==>
      (Shuffle(Bindings(q), p)[j].originalLetter == q.answer <==> LetterIndex(q.answer) == Some(p[j]))
    ensures LetterIndex(q.answer).Some? ==>
      exists j :: 0 <= j < NumOptions && Shuffle(Bindings(q), p)[j].originalLetter == q.answer
        && Shuffle(Bindings(q), p)[j].text == q.options[LetterIndex(q.answer).value]
    ensures forall j, j' ::
      (0 <= j < NumOptions && 0 <= j' < NumOptions
       && Shuffle(Bindings(q), p)[j].originalLetter == q.answer
       && Shuffle(Bindings(q), p)[j'].originalLetter == q.answer) ==> j == j'
  {
    var shown := Shuffle(Bindings(q), p);
    forall j | 0 <= j < NumOptions
      ensures shown[j].originalLetter == q.answer <==> LetterIndex(q.answer) == Some(p[j])
    {
      assert shown[j].originalLetter == Letter(p[j]);
      LetterIndexInverse(p[j], q.answer);
    }
    if LetterIndex(q.answer).Some? {
      var k := LetterIndex(q.answer).value;
      ShufflePlaces(Bindings(q), p, k);
      var j :| 0 <= j < NumOptions && p[j] == k && shown[j] == Bindings(q)[k];
      assert shown[j].originalLetter == q.answer;
    }
  }

  /** For a question built from a row, the button whose letter equals the
      row's answer shows the text of the column that answer names. */
  lemma CorrectButtonShowsAnswerColumn(r: Row, p: seq<nat>, j: nat)
    requires IsPermutation(p, NumOptions) && j < NumOptions
    requires Shuffle(Bindings(FromRow(r)), p)[j].originalLetter == r.answer
    ensures Column(r, r.answer) == Some(Shuffle(Bindings(FromRow(r)), p)[j].text)
  {
    var q := FromRow(r);
    ChoosingByLetter(q, p);
    var k := p[j];
    LetterIndexInverse(k, r.answer);
    OptionUnderItsLetter(r, k);
  }
}
