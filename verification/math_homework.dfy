/**
  The arithmetic of MathHomeworkGenerator.java: how many operands a
  question has at each complexity, the integer question kinds and the
  answer each one expects, the mm:ss timer caption, and the checks
  generateTest makes before it builds a test. Every `random.nextInt`
  draw is a parameter, given together with its range.
 */
module MathHomework {
  import opened Wrappers
  import opened JavaText

  // ---- arithmetic helpers ---------------------------------------------------------------

  function Sum(s: seq<int>): int
    decreases |s|
  {
    if |s| == 0 then 0 else Sum(s[..|s| - 1]) + s[|s| - 1]
  }

  function Product(s: seq<int>): int
    decreases |s|
  {
    if |s| == 0 then 1 else Product(s[..|s| - 1]) * s[|s| - 1]
  }

  function Pow(b: int, n: nat): int
    decreases n
  {
    if n == 0 then 1 else Pow(b, n - 1) * b
  }

  /** Draws each in 0..hi-1 add up to at most |s|·(hi-1). */
  lemma {:induction false} SumBounds(s: seq<int>, hi: int)
    requires forall i :: 0 <= i < |s| ==> 0 <= s[i] < hi
    ensures 0 <= Sum(s) <= |s| * (hi - 1)
    decreases |s|
  {
    if |s| > 0 {
      SumBounds(s[..|s| - 1], hi);
    }
  }

  /** Factors each in 1..m multiply to at least 1 and at most m to the |s|. */
  lemma {:induction false} ProductBounds(s: seq<int>, m: int)
    requires forall i :: 0 <= i < |s| ==> 1 <= s[i] <= m
    ensures 1 <= Product(s) <= Pow(m, |s|)
    decreases |s|
  {
    if |s| > 0 {
      var init := s[..|s| - 1];
      ProductBounds(init, m);
      MulMono(Product(init), Pow(m, |init|), s[|s| - 1], m);
    }
  }

  lemma MulMono(a: int, b: int, c: int, d: int)
    requires 1 <= a <= b && 1 <= c <= d
    ensures 1 <= a * c <= b * d
  {
    assert a * c <= b * c;
    assert b * c <= b * d;
  }

  /** Multiplying by a positive divisor and dividing again gives the quotient back, with nothing over. */
  lemma ExactQuotient(c: int, b: int)
    requires b >= 1
    ensures (c * b) / b == c && (c * b) % b == 0
  {
    var q, r := (c * b) / b, (c * b) % b;
    assert c * b == q * b + r && 0 <= r < b;
    assert (c - q) * b == r;
  }

  lemma {:induction false} PowMono(b1: int, b2: int, n: nat)
    requires 1 <= b1 <= b2
    ensures 1 <= Pow(b1, n) <= Pow(b2, n)
    decreases n
  {
    if n > 0 {
      PowMono(b1, b2, n - 1);
      assert Pow(b1, n - 1) * b1 <= Pow(b2, n - 1) * b1;
    }
  }

  lemma {:induction false} PowGrows(b: int, n: nat, k: nat)
    requires 1 <= b && n <= k
    ensures Pow(b, n) <= Pow(b, k)
    decreases k
  {
    if n < k {
      PowGrows(b, n, k - 1);
      PowMono(b, b, k - 1);
    }
  }

  // ---- question kinds -------------------------------------------------------------------

  /** The question types in the order of their check boxes. */
  datatype QuestionType = Addition | Subtraction | Multiplication | Division | Equation | Squaring
                        | Fraction | Exponent | Percentage

  const AllTypes: seq<QuestionType> :=
    [Addition, Subtraction, Multiplication, Division, Equation, Squaring, Fraction, Exponent, Percentage]

  /** The question kinds whose answer is an integer; the others are not modelled. */
  predicate IsIntegerKind(t: QuestionType) {
    t != Fraction && t != Exponent && t != Percentage
  }

  /** The complexity slider runs from 1 to 10. */
  predicate IsScale(scale: int) {
    1 <= scale <= 10
  }

  /** `2 + (scale - 1) / 4`. */
  function NumOperands(scale: int): int
    requires IsScale(scale)
  {
    2 + (scale - 1) / 4
  }

  /** Two operands up to complexity 4, three up to 8, four at 9 and 10. */
  lemma NumOperandsSteps(scale: int)
    requires IsScale(scale)
    ensures 1 <= scale <= 4 <==> NumOperands(scale) == 2
    ensures 5 <= scale <= 8 <==> NumOperands(scale) == 3
    ensures 9 <= scale <= 10 <==> NumOperands(scale) == 4
  {
  }

  /**
    A question as the numbers its text shows, in order, and the integer
    answer; the answer field expects `Integer.toString(answer)`.
     - addition, multiplication: the operands;
     - subtraction: x, then the subtrahends;
     - division: the dividend and the divisor;
     - equation: the known terms, then the total;
     - squaring: the number to square.
   */
  datatype Question = Question(kind: QuestionType, shown: seq<int>, answer: int)

  /** The answer solves the question the text poses. */
  predicate Solves(q: Question) {
    match q.kind
    case Addition => q.answer == Sum(q.shown)
    case Subtraction => |q.shown| >= 1 && q.shown[0] - Sum(q.shown[1..]) == q.answer
    case Multiplication => q.answer == Product(q.shown)
    case Division => |q.shown| == 2 && q.shown[1] != 0 && q.shown[0] == q.answer * q.shown[1]
    case Equation => |q.shown| >= 1 && q.answer + Sum(q.shown[..|q.shown| - 1]) == q.shown[|q.shown| - 1]
    case Squaring => |q.shown| == 1 && q.answer == q.shown[0] * q.shown[0]
    case _ => false
  }

  predicate InRange(s: seq<int>, lo: int, hi: int) {
    forall i :: 0 <= i < |s| ==> lo <= s[i] < hi
  }

  /**
    The draws one question consumes, in the order createQuestion makes
    them, each within its `nextInt` bound.
   */
  predicate DrawsOk(t: QuestionType, scale: int, draws: seq<int>)
    requires IsScale(scale)
  {
    var n := NumOperands(scale);
    match t
    case Addition => |draws| == n && InRange(draws, 0, 100 * scale)
    case Subtraction => |draws| == n && InRange(draws, 0, 50 * scale)
    case Multiplication => |draws| == n && InRange(draws, 0, 10 * scale)
    case Division => |draws| == 2 && 0 <= draws[0] < 19 * scale && 0 <= draws[1] < 20 * scale
    case Equation => |draws| == n && InRange(draws, 0, 50 * scale)
    case Squaring => |draws| == 1 && 0 <= draws[0] < 20 * scale
    case _ => false
  }

  function AddOne(s: seq<int>): (r: seq<int>)
    ensures |r| == |s| && forall i :: 0 <= i < |s| ==> r[i] == s[i] + 1
  {
    seq(|s|, i requires 0 <= i < |s| => s[i] + 1)
  }

  /** createQuestion for the integer kinds. */
  function CreateQuestion(t: QuestionType, scale: int, draws: seq<int>): (q: Question)
    requires IsScale(scale) && IsIntegerKind(t) && DrawsOk(t, scale, draws)
    ensures q.kind == t
  {
    var n := NumOperands(scale);
    match t
    case Addition => Question(t, draws, Sum(draws))
    case Subtraction =>
      var subtrahends := draws[..n - 1];
      var extra := draws[n - 1];
      Question(t, [Sum(subtrahends) + extra] + subtrahends, extra)
    case Multiplication =>
      var factors := AddOne(draws);
      Question(t, factors, Product(factors))
    case Division =>
      var b := draws[0] + 1;
      var c := draws[1];
      Question(t, [b * c, b], c)
    case Equation =>
      var terms := draws[..n - 1];
      var total := Sum(terms) + draws[n - 1];
      Question(t, terms + [total], total - Sum(terms))
    case Squaring => Question(t, draws, draws[0] * draws[0])
  }

  /** The expected text in the answer field. */
  function AnswerText(q: Question): string {
    IntToString(q.answer)
  }

  lemma AdditionFacts(scale: int, draws: seq<int>)
    requires IsScale(scale) && DrawsOk(Addition, scale, draws)
    ensures var q := CreateQuestion(Addition, scale, draws);
      Solves(q) && |q.shown| == NumOperands(scale) && 0 <= q.answer <= NumOperands(scale) * (100 * scale - 1)
  {
    SumBounds(draws, 100 * scale);
  }

  /** Subtraction never asks for a negative answer: x is built as the subtrahends plus the answer. */
  lemma SubtractionFacts(scale: int, draws: seq<int>)
    requires IsScale(scale) && DrawsOk(Subtraction, scale, draws)
    ensures var q := CreateQuestion(Subtraction, scale, draws);
      Solves(q) && |q.shown| == NumOperands(scale) && 0 <= q.answer < 50 * scale &&
      q.shown[0] >= Sum(q.shown[1..])
  {
    var q := CreateQuestion(Subtraction, scale, draws);
    var n := NumOperands(scale);
    assert q.shown[1..] == draws[..n - 1];
    SumBounds(draws[..n - 1], 50 * scale);
  }

  lemma MultiplicationFacts(scale: int, draws: seq<int>)
    requires IsScale(scale) && DrawsOk(Multiplication, scale, draws)
    ensures var q := CreateQuestion(Multiplication, scale, draws);
      Solves(q) && InRange(q.shown, 1, 10 * scale + 1) && 1 <= q.answer <= Pow(10 * scale, |q.shown|)
  {
    var q := CreateQuestion(Multiplication, scale, draws);
    ProductBounds(q.shown, 10 * scale);
  }

  /** Division is always exact: the dividend is a multiple of the divisor, and the quotient is the answer. */
  lemma DivisionFacts(scale: int, draws: seq<int>)
    requires IsScale(scale) && DrawsOk(Division, scale, draws)
    ensures var q := CreateQuestion(Division, scale, draws);
      Solves(q) && 1 <= q.shown[1] <= 19 * scale && 0 <= q.answer < 20 * scale &&
      q.shown[0] % q.shown[1] == 0 && q.shown[0] / q.shown[1] == q.answer
  {
    var q := CreateQuestion(Division, scale, draws);
    ExactQuotient(q.answer, q.shown[1]);
  }

  /** The unknown of an equation is the extra draw: 0 <= x < 50·scale. */
  lemma EquationFacts(scale: int, draws: seq<int>)
    requires IsScale(scale) && DrawsOk(Equation, scale, draws)
    ensures var q := CreateQuestion(Equation, scale, draws);
      Solves(q) && |q.shown| == NumOperands(scale) && 0 <= q.answer < 50 * scale &&
      q.answer == draws[NumOperands(scale) - 1]
  {
    var q := CreateQuestion(Equation, scale, draws);
    var n := NumOperands(scale);
    assert q.shown[..|q.shown| - 1] == draws[..n - 1];
  }

  lemma SquaringFacts(scale: int, draws: seq<int>)
    requires IsScale(scale) && DrawsOk(Squaring, scale, draws)
    ensures var q := CreateQuestion(Squaring, scale, draws);
      Solves(q) && 0 <= q.answer < 400 * scale * scale
  {
    var a := draws[0];
    assert a * a <= a * (20 * scale) <= (20 * scale) * (20 * scale);
  }

  /** With at most four factors of at most 100, a product stays below 10^8. */
  lemma ProductFitsInt(scale: int, draws: seq<int>)
    requires IsScale(scale) && DrawsOk(Multiplication, scale, draws)
    ensures var q := CreateQuestion(Multiplication, scale, draws);
      Solves(q) && 1 <= q.answer <= 100000000
  {
    var q := CreateQuestion(Multiplication, scale, draws);
    MultiplicationFacts(scale, draws);
    PowMono(10 * scale, 100, |q.shown|);
    PowGrows(100, |q.shown|, 4);
    assert Pow(100, 4) == 100000000;
  }

  /**
    Every integer question's answer is a Java int, so the expected answer
    text is exactly what `Integer.parseInt` reads back as the answer.
   */
  lemma AnswerReadsBack(t: QuestionType, scale: int, draws: seq<int>)
    requires IsScale(scale) && IsIntegerKind(t) && DrawsOk(t, scale, draws)
    ensures Solves(CreateQuestion(t, scale, draws))
    ensures ParseInt(AnswerText(CreateQuestion(t, scale, draws))) == Some(CreateQuestion(t, scale, draws).answer)
  {
    AnswerFits(t, scale, draws);
    ParseIntToString(CreateQuestion(t, scale, draws).answer);
  }

  /** Every integer question's answer lies between 0 and 10^8. */
  lemma AnswerFits(t: QuestionType, scale: int, draws: seq<int>)
    requires IsScale(scale) && IsIntegerKind(t) && DrawsOk(t, scale, draws)
    ensures var q := CreateQuestion(t, scale, draws);
      Solves(q) && 0 <= q.answer <= 100000000
  {
    match t {
      case Addition =>
        AdditionFacts(scale, draws);
        MulLe(NumOperands(scale), 4, 100 * scale - 1, 999);
      case Subtraction => SubtractionFacts(scale, draws);
      case Multiplication => ProductFitsInt(scale, draws);
      case Division => DivisionFacts(scale, draws);
      case Equation => EquationFacts(scale, draws);
      case Squaring =>
        SquaringFacts(scale, draws);
        MulLe(draws[0], 199, draws[0], 199);
    }
  }

  lemma MulLe(a: int, b: int, c: int, d: int)
    requires 0 <= a <= b && 0 <= c <= d
    ensures a * c <= b * d
  {
    assert a * c <= b * c;
  }

  // ---- formatTime ---------------------------------------------------------------------

  /** Java's `/` on int: the quotient truncated toward zero. */
  function JavaDiv(a: int, b: int): int
    requires b > 0
  {
    if a >= 0 then a / b else -((-a) / b)
  }

  /** Java's `%` on int: the remainder takes the dividend's sign. */
  function JavaRem(a: int, b: int): int
    requires b > 0
  {
    a - JavaDiv(a, b) * b
  }

  /** formatTime: minutes and seconds, each through `%02d`, joined by a colon. */
  function FormatTime(seconds: int): (r: string)
    ensures 0 <= seconds ==> 5 <= |r| && r[|r| - 3] == ':'
  {
    Pad2(JavaDiv(seconds, 60)) + ":" + Pad2(JavaRem(seconds, 60))
  }

  /**
    For a non-negative count the caption reads back: the digits before the
    colon are whole minutes, the two after it the seconds below 60, and
    together they make the count.
   */
  lemma FormatTimeReadsBack(seconds: int)
    requires 0 <= seconds
    ensures var r := FormatTime(seconds);
      var mm := r[..|r| - 3];
      var ss := r[|r| - 2..];
      AllDigits(mm) && AllDigits(ss) && 2 <= |mm| &&
      DigitsValue(ss) < 60 && DigitsValue(mm) * 60 + DigitsValue(ss) == seconds
  {
    var q, rem := seconds / 60, seconds % 60;
    assert JavaDiv(seconds, 60) == q && JavaRem(seconds, 60) == rem;
    assert q * 60 + rem == seconds && rem < 60;
    var m, s := Pad2(q), Pad2(rem);
    assert FormatTime(seconds) == m + ":" + s;
    ColonSplit(m, s);
  }

  /** Text joined around a colon, with two characters after it, splits back at the colon. */
  lemma ColonSplit(m: string, s: string)
    requires |s| == 2
    ensures var r := m + ":" + s; r[..|r| - 3] == m && r[|r| - 2..] == s
  {
    var r := m + ":" + s;
    assert r[..|m|] == m;
    assert r[|m| + 1..] == s;
  }

  /** A negative count, which a negative timer setting produces, shows a signed seconds field. */
  lemma FormatTimeNegative()
    ensures FormatTime(-75) == "-1:-15"
  {
    assert JavaDiv(-75, 60) == -1 && JavaRem(-75, 60) == -15;
    assert IntToString(-1) == "-1" && IntToString(-15) == "-15";
  }

  // ---- generateTest ------------------------------------------------------------------

  datatype TestError = BadQuestionCount | NoQuestionType | BadTimerDuration

  /** The position of a type's check box, counted from 0. */
  function Pos(t: QuestionType): (i: nat)
    ensures i < |AllTypes| && AllTypes[i] == t
  {
    match t
    case Addition => 0
    case Subtraction => 1
    case Multiplication => 2
    case Division => 3
    case Equation => 4
    case Squaring => 5
    case Fraction => 6
    case Exponent => 7
    case Percentage => 8
  }

  /** The type in box `k` has position `k`. */
  lemma BoxPos(k: nat)
    requires k < |AllTypes|
    ensures Pos(AllTypes[k]) == k
  {
    assert AllTypes[Pos(AllTypes[k])] == AllTypes[k];
  }

  /** Each entry's check box is further down than the one before. */
  predicate InBoxOrder(types: seq<QuestionType>) {
    forall i, j :: 0 <= i < j < |types| ==> Pos(types[i]) < Pos(types[j])
  }

  /**
    The ticked types, in check-box order: each ticked type once, each
    entry's box further down than the one before, so the list is as long
    as the ticked set.
   */
  function Types(ticked: set<QuestionType>): (types: seq<QuestionType>)
    ensures forall t :: t in types <==> t in ticked
    ensures InBoxOrder(types)
    ensures |types| == |ticked|
  {
    var types := TypesFrom(ticked, 0);
    TypesCount(ticked, types);
    types
  }

  /** The ticked types listed from the first box on number as many as the ticked set. */
  lemma TypesCount(ticked: set<QuestionType>, types: seq<QuestionType>)
    requires types == TypesFrom(ticked, 0)
    ensures forall t :: t in types <==> t in ticked
    ensures |types| == |ticked|
  {
    OrderedDistinct(types);
    ElementsCount(types);
    assert (set t | t in types) == ticked;
  }

  /** Entries in strictly increasing box order are distinct. */
  lemma OrderedDistinct(s: seq<QuestionType>)
    requires InBoxOrder(s)
    ensures forall i, j :: 0 <= i < j < |s| ==> s[i] != s[j]
  {
    forall i, j | 0 <= i < j < |s| ensures s[i] != s[j] {
      assert Pos(s[i]) < Pos(s[j]);
    }
  }

  /** A list without repeated entries has as many entries as elements. */
  lemma {:induction false} ElementsCount(s: seq<QuestionType>)
    requires forall i, j :: 0 <= i < j < |s| ==> s[i] != s[j]
    ensures |set t | t in s| == |s|
    decreases |s|
  {
    if |s| > 0 {
      var rest := s[1..];
      ElementsCount(rest);
      assert (set t | t in s) == {s[0]} + (set t | t in rest);
      assert s[0] !in rest by {
        forall i | 0 <= i < |rest| ensures rest[i] != s[0] {
          assert rest[i] == s[i + 1];
        }
      }
    }
  }

  /** The ticked types whose box is at position `k` or further down, in box order. */
  function TypesFrom(ticked: set<QuestionType>, k: nat): (types: seq<QuestionType>)
    requires k <= |AllTypes|
    ensures forall t :: t in types <==> t in ticked && k <= Pos(t)
    ensures InBoxOrder(types)
    decreases |AllTypes| - k
  {
    if k == |AllTypes| then []
    else
      var rest := TypesFrom(ticked, k + 1);
      var t := AllTypes[k];
      BoxPos(k);
      if t in ticked then
        var types := [t] + rest;
        assert forall i :: 0 < i < |types| ==> types[i] == rest[i - 1];
        types
      else rest
  }

  /** What generateTest sets up once its checks pass. */
  datatype TestPlan = TestPlan(count: nat, types: seq<QuestionType>, timer: Option<int>)

  /**
    generateTest's checks, in the order it makes them: the question count
    must parse, some type must be ticked, and an enabled timer's duration
    must parse. A count below one builds an empty test.
   */
  function PlanTest(countText: string, ticked: set<QuestionType>, timerOn: bool, durationText: string): (r: Result<TestPlan, TestError>)
    ensures r == Err(BadQuestionCount) <==> ParseInt(countText).None?
    ensures r == Err(NoQuestionType) <==> ParseInt(countText).Some? && ticked == {}
    ensures r == Err(BadTimerDuration) <==>
      ParseInt(countText).Some? && ticked != {} && timerOn && ParseInt(durationText).None?
    ensures r.Ok? ==>
      (ParseInt(countText).value <= 0 ==> r.value.count == 0) &&
      (ParseInt(countText).value > 0 ==> r.value.count == ParseInt(countText).value) &&
      r.value.types != [] && |r.value.types| == |ticked| &&
      (forall t :: t in r.value.types <==> t in ticked) &&
      (r.value.timer.Some? <==> timerOn) &&
      (timerOn ==> r.value.timer == ParseInt(durationText))
  {
    match ParseInt(countText)
    case None => Err(BadQuestionCount)
    case Some(n) =>
      var types := Types(ticked);
      if types == [] then
        assert forall t :: t !in ticked;
        Err(NoQuestionType)
      else if !timerOn then Ok(TestPlan(if n < 0 then 0 else n, types, None))
      else
        match ParseInt(durationText)
        case None => Err(BadTimerDuration)
        case Some(d) => Ok(TestPlan(if n < 0 then 0 else n, types, Some(d)))
  }

  /** The loop that draws each question's type: `types.get(random.nextInt(types.size()))`. */
  function PickTypes(plan: TestPlan, picks: seq<nat>): (kinds: seq<QuestionType>)
    requires |picks| == plan.count
    requires forall i :: 0 <= i < |picks| ==> picks[i] < |plan.types|
  {
    seq(|picks|, i requires 0 <= i < |picks| => plan.types[picks[i]])
  }

  /**
    A test that passed the checks has exactly the requested number of
    questions, each of a ticked type.
   */
  lemma TestHasRequestedQuestions(countText: string, ticked: set<QuestionType>, timerOn: bool, durationText: string, picks: seq<nat>)
    requires PlanTest(countText, ticked, timerOn, durationText).Ok?
    requires |picks| == PlanTest(countText, ticked, timerOn, durationText).value.count
    requires forall i :: 0 <= i < |picks| ==> picks[i] < |PlanTest(countText, ticked, timerOn, durationText).value.types|
    ensures var kinds := PickTypes(PlanTest(countText, ticked, timerOn, durationText).value, picks);
      (ParseInt(countText).value >= 0 ==> |kinds| == ParseInt(countText).value) &&
      (forall i :: 0 <= i < |kinds| ==> kinds[i] in ticked)
  {
    var plan := PlanTest(countText, ticked, timerOn, durationText).value;
    PicksTicked(plan, picks, ticked);
  }

  /** Every drawn type is an entry of the plan's list, hence ticked. */
  lemma PicksTicked(plan: TestPlan, picks: seq<nat>, ticked: set<QuestionType>)
    requires |picks| == plan.count
    requires forall i :: 0 <= i < |picks| ==> picks[i] < |plan.types|
    requires forall t :: t in plan.types ==> t in ticked
    ensures forall i :: 0 <= i < |picks| ==> PickTypes(plan, picks)[i] in ticked
  {
    var kinds := PickTypes(plan, picks);
    forall i | 0 <= i < |kinds|
      ensures kinds[i] in ticked
    {
      assert kinds[i] == plan.types[picks[i]];
    }
  }
}
