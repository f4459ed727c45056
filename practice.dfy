/**
 * The Practice screen (src/App.tsx:71-117): the four state cells `a`, `b`,
 * `answer` and `checked`, and the three handlers `onChange`, `onCheck` and
 * `next`. Each handler's setter calls take effect together, before the
 * next user event.
 */
module PracticeScreen {
  import opened Wrappers
  import opened Answer
  import opened Question
  import Learn

  /** The interactive controls the screen renders. */
  datatype Control = AnswerInput | CheckButton | NextButton

  /** The message shown under the input (src/App.tsx:107-108). */
  datatype Feedback = NoFeedback | CorrectMessage | IncorrectMessage(expected: int)

  /**
   * What `onCheck` decides for a typed answer and the product `correct`:
   * None when `Number(answer)` is not finite (the handler returns early),
   * otherwise whether the number equals the product.
   */
  function Verdict(answer: string, correct: int): (v: Option<bool>)
    requires AllDigits(answer)
    ensures v.None? <==> DigitsValue(answer) >= InfinityBound
    ensures v.Some? ==> (v.value <==> DigitsValue(answer) == correct)
  {
    match ToNumber(answer)
    case NotFinite => None
    case Finite(n) => Some(n == correct)
  }

  /** An answer written as the decimal spelling of v is judged correct exactly when v is the product. */
  lemma VerdictOfDecimal(v: nat, correct: int)
    requires v < InfinityBound
    ensures Verdict(Decimal(v), correct) == Some(v == correct)
  {
    DecimalRoundTrip(v);
  }

  /** Characters the filter removes do not affect the verdict: "12x" is judged as "12". */
  lemma VerdictIgnoresJunk(typed: string, junk: string, correct: int)
    requires forall i :: 0 <= i < |junk| ==> !IsDigit(junk[i])
    ensures Verdict(StripNonDigits(typed + junk), correct) == Verdict(StripNonDigits(typed), correct)
  {
    StripIgnoresJunk(typed, junk);
  }

  /**
   * Because `Number("")` is 0, checking an empty answer marks it wrong: no
   * question has product 0.
   */
  lemma EmptyAnswerIsIncorrect(a: int, b: int)
    requires 2 <= a <= 9 && 1 <= b <= 10
    ensures Verdict("", a * b) == Some(false)
  {
  }

  /** Every question the screen can ask is a row of a table listed in Learn mode. */
  lemma QuestionIsInLearnTables(ra: real, rb: real)
    requires IsRandom(ra) && IsRandom(rb)
    ensures DrawA(ra) in Learn.TableList()
    ensures Learn.Row(DrawA(ra), DrawB(rb), DrawA(ra) * DrawB(rb)) in Learn.Rows(DrawA(ra))
  {
    Learn.TableListOrderAndRange();
    Learn.RowsExactly(DrawA(ra));
  }

  class Practice {
    var a: int
    var b: int
    var answer: string
    /** `null` until an answer is checked, then whether it was correct. */
    var checked: Option<bool>

    /**
     * The operands are in range, the answer holds only digits, and a shown
     * verdict always belongs to the answer and operands currently on screen.
     */
    ghost predicate Valid()
      reads this
    {
      2 <= a <= 9 && 1 <= b <= 10 && AllDigits(answer) &&
      (checked.Some? ==> checked == Verdict(answer, a * b))
    }

    /** `const correct = a * b`. */
    function Correct(): (c: int)
      reads this
      requires Valid()
      ensures 2 <= c <= 90
    {
      a * b
    }

    /**
     * `showNext = checked !== null` decides what is on screen: the input is
     * disabled and only Next is shown after a check; before it, the input and
     * Check are live and Next is not shown.
     */
    predicate Offers(c: Control)
      reads this
    {
      match c
      case AnswerInput => checked.None?
      case CheckButton => checked.None?
      case NextButton => checked.Some?
    }

    /** The message line: praise, the correct product after a wrong answer, or nothing before a check. */
    function Message(): (f: Feedback)
      reads this
      requires Valid()
      ensures f == NoFeedback <==> Offers(CheckButton)
      ensures f == CorrectMessage <==> !Offers(CheckButton) && DigitsValue(answer) == a * b
      ensures f.IncorrectMessage? ==> f.expected == a * b && DigitsValue(answer) != a * b
    {
      match checked
      case None => NoFeedback
      case Some(true) => CorrectMessage
      case Some(false) => IncorrectMessage(Correct())
    }

    /** Mounting the screen: the lazy `useState` initialisers draw the first question. */
    constructor (ra: real, rb: real)
      requires IsRandom(ra) && IsRandom(rb)
      ensures Valid()
      ensures a == DrawA(ra) && b == DrawB(rb)
      ensures answer == "" && checked == None
      ensures Offers(AnswerInput) && Offers(CheckButton) && !Offers(NextButton)
    {
      a := DrawA(ra);
      b := DrawB(rb);
      answer := "";
      checked := None;
    }

    /** `onChange`: the typed text, stripped of every non-digit, becomes the answer. */
    method OnChange(value: string)
      requires Valid() && Offers(AnswerInput)
      modifies this`answer
      ensures Valid()
      ensures answer == StripNonDigits(value)
      ensures Offers(AnswerInput) && Offers(CheckButton)
    {
      answer := StripNonDigits(value);
    }

    /**
     * `onCheck`: when `Number(answer)` is finite, record whether it equals
     * the product; otherwise change nothing. Only `checked` can change.
     */
    method OnCheck()
      requires Valid() && Offers(CheckButton)
      modifies this`checked
      ensures Valid()
      ensures ToNumber(answer).NotFinite? ==> checked == old(checked)
      ensures ToNumber(answer).Finite? ==> checked == Some(ToNumber(answer).value == a * b)
      ensures checked.Some? <==> ToNumber(answer).Finite?
      ensures Offers(NextButton) <==> ToNumber(answer).Finite?
      ensures Offers(CheckButton) <==> ToNumber(answer).NotFinite?
    {
      var val := ToNumber(answer);
      if val.NotFinite? {
        return;
      }
      checked := Some(val.value == Correct());
    }

    /** `next`: draw a fresh question and clear the answer and the verdict. */
    method Next(ra: real, rb: real)
      requires Valid() && Offers(NextButton)
      requires IsRandom(ra) && IsRandom(rb)
      modifies this
      ensures Valid()
      ensures a == DrawA(ra) && b == DrawB(rb)
      ensures answer == "" && checked == None
      ensures Offers(AnswerInput) && Offers(CheckButton) && !Offers(NextButton)
    {
      a := DrawA(ra);
      b := DrawB(rb);
      answer := "";
      checked := None;
    }
  }

  /**
   * What `showNext` puts on screen: the input is live exactly when Check is
   * shown, and Check and Next are never shown together nor both missing.
   */
  lemma OffersExclusive(p: Practice)
    ensures p.Offers(AnswerInput) == p.Offers(CheckButton)
    ensures p.Offers(CheckButton) != p.Offers(NextButton)
    ensures p.Offers(NextButton) <==> p.checked.Some?
  {
  }

  /** The question 6 × 7: "4x2" is read as "42" and judged correct; "40" is judged wrong. */
  lemma SixTimesSeven()
    ensures DrawA(0.5) == 6 && DrawB(0.6) == 7
    ensures StripNonDigits("4x2") == "42"
    ensures Verdict("42", 6 * 7) == Some(true)
    ensures Verdict("40", 6 * 7) == Some(false)
  {
  }
}
