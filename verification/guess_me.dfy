/**
  GuessMe.java: guess a secret number from 1 to 100 in five attempts.
  The game screen is a state (secret, attempts left, whether the text
  field is enabled, its text, the result label); pressing Enter in the
  field is a transition. The secret's random draw is a parameter.
 */
module GuessMe {
  import opened Wrappers
  import opened JavaText

  const MaxAttempts: int := 5

  datatype Screen = Screen(secret: int, attemptsLeft: int, enabled: bool, input: string, result: string)

  /** generateRandomNumber: `random.nextInt(100) + 1`. */
  function GenerateRandomNumber(draw: int): (n: int)
    requires 0 <= draw < 100
    ensures 1 <= n <= 100
  {
    draw + 1
  }

  /** Every number from 1 to 100 can be the secret. */
  lemma EverySecretPossible(n: int)
    requires 1 <= n <= 100
    ensures exists draw :: 0 <= draw < 100 && GenerateRandomNumber(draw) == n
  {
    assert GenerateRandomNumber(n - 1) == n;
  }

  function ChancesLeft(n: int): string {
    "You have " + IntToString(n) + " chances left."
  }

  /** showGameScreen: attempts reset to five, an empty enabled field. */
  function ShowGameScreen(secret: int): Screen {
    Screen(secret, MaxAttempts, true, "", ChancesLeft(MaxAttempts))
  }

  function Hint(guess: int, secret: int): string {
    if guess < secret then "Too low!" else "Too high!"
  }

  /**
    The field's action listener. A disabled field fires no action, so the
    screen stays as it is. Text Integer.parseInt rejects only sets the
    label (and leaves the text in the field).
   */
  function Submit(s: Screen, text: string): (r: Screen)
    ensures r.secret == s.secret
    ensures !s.enabled || ParseInt(text).None? ==> r.attemptsLeft == s.attemptsLeft && r.enabled == s.enabled
    ensures s.enabled && ParseInt(text) == Some(s.secret) ==>
      r.attemptsLeft == s.attemptsLeft && !r.enabled && r.result == "Correct! The number was " + IntToString(s.secret) + "."
    ensures s.enabled && ParseInt(text).Some? && ParseInt(text).value != s.secret ==>
      r.attemptsLeft == s.attemptsLeft - 1 && (r.enabled <==> r.attemptsLeft != 0)
    ensures s.enabled && ParseInt(text).Some? && ParseInt(text).value != s.secret && r.attemptsLeft != 0 ==>
      r.result == (if ParseInt(text).value < s.secret then "Too low!" else "Too high!") + " " + ChancesLeft(r.attemptsLeft)
  {
    if !s.enabled then s
    else
      match ParseInt(text)
      case None => s.(input := text, result := "Invalid input. Please enter a number.")
      case Some(guess) =>
        if guess == s.secret then
          s.(input := "", enabled := false, result := "Correct! The number was " + IntToString(s.secret) + ".")
        else
          var left := s.attemptsLeft - 1;
          if left == 0 then
            s.(attemptsLeft := left, input := "", enabled := false, result := "Game over! The number was " + IntToString(s.secret) + ".")
          else
            s.(attemptsLeft := left, input := "", result := Hint(guess, s.secret) + " " + ChancesLeft(left))
  }

  /** The field is enabled only while attempts remain, and there are never more than five. */
  predicate Consistent(s: Screen) {
    0 <= s.attemptsLeft <= MaxAttempts && (s.enabled ==> s.attemptsLeft > 0)
  }

  lemma ShowGameScreenConsistent(secret: int)
    ensures Consistent(ShowGameScreen(secret)) && ShowGameScreen(secret).attemptsLeft == MaxAttempts && ShowGameScreen(secret).enabled
  {
  }

  /** Enter keeps the screen consistent: in particular the attempts never drop below zero. */
  lemma SubmitConsistent(s: Screen, text: string)
    requires Consistent(s)
    ensures Consistent(Submit(s, text))
  {
  }

  /** Several submissions in a row. */
  function Play(s: Screen, texts: seq<string>): Screen
    decreases |texts|
  {
    if |texts| == 0 then s else Play(Submit(s, texts[0]), texts[1..])
  }

  /** The number of submissions that were wrong guesses the game counted. */
  function WrongGuesses(s: Screen, texts: seq<string>): nat
    decreases |texts|
  {
    if |texts| == 0 then 0
    else
      var counted := s.enabled && ParseInt(texts[0]).Some? && ParseInt(texts[0]).value != s.secret;
      (if counted then 1 else 0) + WrongGuesses(Submit(s, texts[0]), texts[1..])
  }

  /**
    Over any run of submissions, each counted wrong guess costs exactly one
    attempt, so a consistent screen admits at most as many wrong guesses
    as it has attempts left; once the field is disabled nothing changes.
   */
  lemma {:induction false} PlayCountsAttempts(s: Screen, texts: seq<string>)
    requires Consistent(s)
    ensures Consistent(Play(s, texts))
    ensures Play(s, texts).attemptsLeft == s.attemptsLeft - WrongGuesses(s, texts)
    ensures WrongGuesses(s, texts) <= s.attemptsLeft
    ensures Play(s, texts).secret == s.secret
    ensures !s.enabled ==> Play(s, texts) == s
    decreases |texts|
  {
    if |texts| > 0 {
      SubmitConsistent(s, texts[0]);
      PlayCountsAttempts(Submit(s, texts[0]), texts[1..]);
    }
  }

  /** Guessing the secret at once wins with all five attempts left. */
  lemma FirstGuessWins(secret: int)
    requires 1 <= secret <= 100
    ensures var r := Submit(ShowGameScreen(secret), IntToString(secret));
      !r.enabled && r.attemptsLeft == MaxAttempts
  {
    ParseIntToString(secret);
  }
}
