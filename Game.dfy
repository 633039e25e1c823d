/** The `Game` controller of the guessing game (src/game.rs): a difficulty, a
    secret number, an attempt counter and the last guess, driven through the
    main menu, the difficulty screen and the guess loop by the lines the
    player types.

    Lines arrive as a sequence. Every screen takes the lines it needs from the
    front of that sequence and says how many it used; a screen that runs out of
    lines before it gets an answer it accepts is still waiting (`Waiting`,
    `AwaitingInput`). The random draw arrives as a parameter that lies in the
    difficulty's range. */
module Game {
  import Wrappers
  import opened Input

  /** src/difficulty.rs is not part of this model; these are the four
      variants the controller uses. */
  datatype Difficulty = None | Easy | Medium | Hard

  /** An inclusive range `lo..=hi`. */
  datatype Range = Range(lo: u32, hi: u32)

  /** The range `generate_secret_number` draws from: Easy 1..=100,
      Medium 1..=1000, Hard 1..=10000, and no range at all for `None`. */
  function SecretRange(d: Difficulty): (r: Wrappers.Option<Range>)
    ensures r.Some? <==> d != None
    ensures r.Some? ==> 1 == r.value.lo <= r.value.hi <= 10000
  {
    match d
    case None => Wrappers.None
    case Easy => Wrappers.Some(Range(1, 100))
    case Medium => Wrappers.Some(Range(1, 1000))
    case Hard => Wrappers.Some(Range(1, 10000))
  }

  predicate InRange(d: Difficulty, v: u32) {
    match SecretRange(d)
    case Some(r) => r.lo <= v <= r.hi
    case None => false
  }

  /** What `rng.gen_range` may return: for each difficulty, a number in its range. */
  predicate DrawInRange(draw: Difficulty -> u32) {
    InRange(Easy, draw(Easy)) && InRange(Medium, draw(Medium)) && InRange(Hard, draw(Hard))
  }

  /** The four fields of `Game`, as one value. `attempts` is unbounded here. */
  datatype GameState = GameState(difficulty: Difficulty, secretNumber: u32, attempts: nat, attempt: u32)

  /** The state `new` builds and `reset` restores. */
  const Initial := GameState(None, 0, 0, 0)

  // ---------------------------------------------------------------------------
  // The guess loop
  // ---------------------------------------------------------------------------

  /** The trimmed line parses to exactly the secret. */
  predicate Hits(line: string, secret: u32) {
    ParseU32(Trim(line)) == Wrappers.Some(secret)
  }

  datatype GuessResult = GuessResult(state: GameState, won: bool)

  /** One pass of `game_loop` after its screen is drawn: a line that does not
      parse as `u32` is ignored; one that does becomes `attempt`, counts one
      more attempt, and wins when it equals the secret. */
  function Guess(s: GameState, line: string): (r: GuessResult)
    ensures r.state.difficulty == s.difficulty && r.state.secretNumber == s.secretNumber
    ensures ParseU32(Trim(line)).None? ==> r.state == s && !r.won
    ensures ParseU32(Trim(line)).Some? ==>
              r.state.attempts == s.attempts + 1 && r.state.attempt == ParseU32(Trim(line)).value
    ensures r.won <==> Hits(line, s.secretNumber)
    ensures r.won ==> r.state.attempt == s.secretNumber
  {
    match ParseU32(Trim(line))
    case Some(number) => GuessResult(s.(attempt := number, attempts := s.attempts + 1), number == s.secretNumber)
    case None => GuessResult(s, false)
  }

  datatype RoundResult = RoundResult(state: GameState, won: bool, consumed: nat)

  function RoundLater(r: RoundResult, k: nat): RoundResult {
    r.(consumed := r.consumed + k)
  }

  /** `game_loop` fed with `lines`: guesses until one wins or the lines run out. */
  function Round(s: GameState, lines: seq<string>): (r: RoundResult)
    ensures r.consumed <= |lines|
    ensures r.state.difficulty == s.difficulty && r.state.secretNumber == s.secretNumber
    ensures r.state.attempts >= s.attempts
    ensures r.won ==> r.state.attempt == s.secretNumber && r.state.attempts > s.attempts
    ensures !r.won ==> r.consumed == |lines|
    decreases |lines|
  {
    if lines == [] then RoundResult(s, false, 0)
    else
      var g := Guess(s, lines[0]);
      if g.won then RoundResult(g.state, true, 1)
      else RoundLater(Round(g.state, lines[1..]), 1)
  }

  /** How many of `lines` parse as a `u32` guess. */
  function ParsedCount(lines: seq<string>): (n: nat)
    ensures n <= |lines|
  {
    if lines == [] then 0
    else (if ParseU32(Trim(lines[0])).Some? then 1 else 0) + ParsedCount(lines[1..])
  }

  // ---------------------------------------------------------------------------
  // The game screen
  // ---------------------------------------------------------------------------

  datatype Hint = Higher | Lower

  /** The decisions `game_screen` makes: the attempt count, the row with the
      previous attempt, and the hint. */
  datatype GameView = GameView(attempts: nat, previousAttempt: Wrappers.Option<u32>, hint: Wrappers.Option<Hint>)

  /** The previous attempt and the hint are shown once a guess has been
      counted; the hint is Higher when that guess is below the secret and Lower
      otherwise. */
  function GameScreen(s: GameState): (v: GameView)
    ensures v.attempts == s.attempts
    ensures v.previousAttempt.Some? <==> s.attempts > 0
    ensures v.previousAttempt.Some? ==> v.previousAttempt.value == s.attempt
    ensures v.hint.Some? <==> s.attempts > 0
    ensures v.hint == Wrappers.Some(Higher) <==> s.attempts > 0 && s.attempt < s.secretNumber
    ensures v.hint == Wrappers.Some(Lower) <==> s.attempts > 0 && s.attempt >= s.secretNumber
  {
    if s.attempts > 0 then
      GameView(s.attempts, Wrappers.Some(s.attempt),
               Wrappers.Some(if s.attempt < s.secretNumber then Higher else Lower))
    else
      GameView(s.attempts, Wrappers.None, Wrappers.None)
  }

  // ---------------------------------------------------------------------------
  // Menus
  // ---------------------------------------------------------------------------

  datatype MenuAction = Play | Leaderboard | Exit

  /** The main menu's dispatch on the trimmed line; `None` re-prompts. */
  function MenuChoice(line: string): (r: Wrappers.Option<MenuAction>)
    ensures r == Wrappers.Some(Play) <==> Trim(line) == "1"
    ensures r == Wrappers.Some(Leaderboard) <==> Trim(line) == "2"
    ensures r == Wrappers.Some(Exit) <==> Trim(line) == "3"
  {
    var input := Trim(line);
    if input == "1" then Wrappers.Some(Play)
    else if input == "2" then Wrappers.Some(Leaderboard)
    else if input == "3" then Wrappers.Some(Exit)
    else Wrappers.None
  }

  /** The difficulty screen's dispatch on the trimmed line; `None` re-prompts,
      and a choice is never `Difficulty.None`. */
  function DifficultyChoice(line: string): (r: Wrappers.Option<Difficulty>)
    ensures r.Some? ==> r.value != None
    ensures r == Wrappers.Some(Easy) <==> Trim(line) == "1"
    ensures r == Wrappers.Some(Medium) <==> Trim(line) == "2"
    ensures r == Wrappers.Some(Hard) <==> Trim(line) == "3"
  {
    var input := Trim(line);
    if input == "1" then Wrappers.Some(Easy)
    else if input == "2" then Wrappers.Some(Medium)
    else if input == "3" then Wrappers.Some(Hard)
    else Wrappers.None
  }

  /** A screen that re-prompts until `choose` accepts a line: the choice and
      the number of lines read, or `Waiting` when no line was accepted. */
  datatype Prompted<A> = Chosen(choice: A, consumed: nat) | Waiting

  function PromptLater<A>(p: Prompted<A>, k: nat): Prompted<A> {
    match p
    case Chosen(a, c) => Chosen(a, c + k)
    case Waiting => Waiting
  }

  /** The re-prompting screens: the first accepted line decides, every line
      before it is discarded. */
  function Prompt<A>(choose: string -> Wrappers.Option<A>, lines: seq<string>): (r: Prompted<A>)
    ensures r.Chosen? ==> 0 < r.consumed <= |lines| && choose(lines[r.consumed - 1]) == Wrappers.Some(r.choice)
    ensures r.Chosen? ==> forall k :: 0 <= k < r.consumed - 1 ==> choose(lines[k]).None?
    ensures r.Waiting? <==> forall k :: 0 <= k < |lines| ==> choose(lines[k]).None?
    decreases |lines|
  {
    if lines == [] then Waiting
    else
      match choose(lines[0])
      case Some(a) => Chosen(a, 1)
      case None => PromptLater(Prompt(choose, lines[1..]), 1)
  }

  /** Reading line `i` of a re-prompting screen. */
  lemma PromptAt<A>(choose: string -> Wrappers.Option<A>, lines: seq<string>, i: nat)
    requires i < |lines|
    ensures Prompt(choose, lines[i..])
         == match choose(lines[i])
            case Some(a) => Chosen(a, 1)
            case None => PromptLater(Prompt(choose, lines[i + 1..]), 1)
  {
    assert lines[i..][1..] == lines[i + 1..];
  }

  // ---------------------------------------------------------------------------
  // A round and a session
  // ---------------------------------------------------------------------------

  /** `play`: the difficulty screen first, then the draw, then the guess loop. */
  function PlayRound(s: GameState, lines: seq<string>, draw: Difficulty -> u32): (r: RoundResult)
    ensures r.consumed <= |lines|
  {
    match Prompt(DifficultyChoice, lines)
    case Waiting => RoundResult(s, false, |lines|)
    case Chosen(d, c) =>
      RoundLater(Round(s.(difficulty := d, secretNumber := draw(d)), lines[c..]), c)
  }

  /** How a session ends. `Exited` is `std::process::exit(0)`; after the
      leaderboard and after a won round `menu_screen` returns, and so does
      `run`, which ends the program. */
  datatype Ending = Exited | LeaderboardShown | RoundWon | AwaitingInput

  datatype SessionResult = SessionResult(state: GameState, ending: Ending, consumed: nat)

  /** `menu_screen` from state `s`. */
  function Menu(s: GameState, lines: seq<string>, draw: Difficulty -> u32): (r: SessionResult)
    ensures r.consumed <= |lines|
  {
    match Prompt(MenuChoice, lines)
    case Waiting => SessionResult(s, AwaitingInput, |lines|)
    case Chosen(action, c) =>
      match action
      case Exit => SessionResult(s, Exited, c)
      case Leaderboard => SessionResult(s, LeaderboardShown, c)
      case Play =>
        var p := PlayRound(s, lines[c..], draw);
        SessionResult(p.state, if p.won then RoundWon else AwaitingInput, c + p.consumed)
  }

  /** `run`: reset, then the main menu. */
  function Session(lines: seq<string>, draw: Difficulty -> u32): (r: SessionResult)
    ensures r.consumed <= |lines|
  {
    Menu(Initial, lines, draw)
  }

  // ---------------------------------------------------------------------------
  // The controller
  // ---------------------------------------------------------------------------

  class Game {
    var difficulty: Difficulty
    var secretNumber: u32
    var attempts: nat
    var attempt: u32

    function State(): GameState
      reads this
    {
      GameState(difficulty, secretNumber, attempts, attempt)
    }

    /** `Game::new`. */
    constructor ()
      ensures State() == Initial
    {
      difficulty := None;
      secretNumber := 0;
      attempts := 0;
      attempt := 0;
    }

    /** `reset`: every field back to its initial value, whatever it was. */
    method Reset()
      modifies this
      ensures State() == Initial
    {
      difficulty := None;
      secretNumber := 0;
      attempts := 0;
      attempt := 0;
    }

    /** One showing of `difficulty_screen`: set the difficulty, or ask to be
        shown again with nothing changed. */
    method SelectDifficulty(line: string) returns (again: bool)
      modifies this
      ensures again <==> DifficultyChoice(line).None?
      ensures !again ==> State() == old(State()).(difficulty := DifficultyChoice(line).value)
      ensures again ==> State() == old(State())
    {
      match DifficultyChoice(line) {
        case Some(d) =>
          difficulty := d;
          again := false;
        case None =>
          again := true;
      }
    }

    /** `difficulty_screen` with its re-prompts: shown again until a line is
        accepted. */
    method DifficultyScreen(lines: seq<string>) returns (consumed: nat, chosen: bool)
      modifies this
      ensures chosen <==> Prompt(DifficultyChoice, lines).Chosen?
      ensures chosen ==> difficulty != None
      ensures match Prompt(DifficultyChoice, lines)
              case Chosen(d, c) => consumed == c && State() == old(State()).(difficulty := d)
              case Waiting => consumed == |lines| && State() == old(State())
    {
      consumed := 0;
      var again := true;
      while again && consumed < |lines|
        invariant consumed <= |lines|
        invariant again ==> State() == old(State())
        invariant again ==> Prompt(DifficultyChoice, lines) == PromptLater(Prompt(DifficultyChoice, lines[consumed..]), consumed)
        invariant !again ==> Prompt(DifficultyChoice, lines) == Chosen(difficulty, consumed)
        invariant !again ==> State() == old(State()).(difficulty := difficulty)
        decreases |lines| - consumed
      {
        PromptAt(DifficultyChoice, lines, consumed);
        again := SelectDifficulty(lines[consumed]);
        consumed := consumed + 1;
      }
      chosen := !again;
    }

    /** `generate_secret_number`: with a difficulty, the secret becomes the
        draw, which lies in that difficulty's range; with none, the difficulty
        screen is shown and the secret is left as it was. */
    method GenerateSecretNumber(draw: u32, lines: seq<string>) returns (consumed: nat)
      requires difficulty != None ==> InRange(difficulty, draw)
      modifies this
      ensures old(difficulty) != None ==>
                consumed == 0 && State() == old(State()).(secretNumber := draw) &&
                InRange(difficulty, secretNumber)
      ensures old(difficulty) == None ==>
                secretNumber == old(secretNumber) &&
                match Prompt(DifficultyChoice, lines)
                case Chosen(d, c) => consumed == c && State() == old(State()).(difficulty := d)
                case Waiting => consumed == |lines| && State() == old(State())
    {
      match difficulty {
        case Easy =>
          secretNumber := draw;
          consumed := 0;
        case Medium =>
          secretNumber := draw;
          consumed := 0;
        case Hard =>
          secretNumber := draw;
          consumed := 0;
        case None =>
          var chosen;
          consumed, chosen := DifficultyScreen(lines);
      }
    }

    /** One pass of `game_loop` after the screen: read a line, record it when
        it parses, and report a win. */
    method GuessStep(line: string) returns (won: bool)
      modifies this
      ensures GuessResult(State(), won) == Guess(old(State()), line)
    {
      match ParseU32(Trim(line)) {
        case Some(number) =>
          attempt := number;
          attempts := attempts + 1;
          won := number == secretNumber;
        case None =>
          won := false;
      }
    }

    /** `game_loop`: guesses until one equals the secret. */
    method GameLoop(lines: seq<string>) returns (won: bool, consumed: nat)
      modifies this
      ensures RoundResult(State(), won, consumed) == Round(old(State()), lines)
    {
      won, consumed := false, 0;
      while !won && consumed < |lines|
        invariant consumed <= |lines|
        invariant won ==> Round(old(State()), lines) == RoundResult(State(), true, consumed)
        invariant !won ==> Round(old(State()), lines) == RoundLater(Round(State(), lines[consumed..]), consumed)
        decreases |lines| - consumed
      {
        assert lines[consumed..][1..] == lines[consumed + 1..];
        won := GuessStep(lines[consumed]);
        consumed := consumed + 1;
      }
    }

    /** `play`: the difficulty is chosen before the secret is drawn, and the
        guess loop starts only after that. */
    method Play(lines: seq<string>, draw: Difficulty -> u32) returns (won: bool, consumed: nat)
      requires DrawInRange(draw)
      modifies this
      ensures RoundResult(State(), won, consumed) == PlayRound(old(State()), lines, draw)
    {
      var chosen;
      consumed, chosen := DifficultyScreen(lines);
      if !chosen {
        won := false;
        return;
      }
      var drawLines := GenerateSecretNumber(draw(difficulty), []);
      var more;
      won, more := GameLoop(lines[consumed..]);
      consumed := consumed + more;
    }

    /** The re-prompting part of `menu_screen`: reads lines until one is a
        menu choice. Nothing changes while it does. */
    method ReadMenuChoice(lines: seq<string>) returns (action: Wrappers.Option<MenuAction>, consumed: nat)
      ensures consumed <= |lines|
      ensures action.None? <==> Prompt(MenuChoice, lines).Waiting?
      ensures action.None? ==> consumed == |lines|
      ensures action.Some? ==> Prompt(MenuChoice, lines) == Chosen(action.value, consumed)
    {
      consumed := 0;
      action := Wrappers.None;
      while action.None? && consumed < |lines|
        invariant consumed <= |lines|
        invariant action.None? ==> Prompt(MenuChoice, lines) == PromptLater(Prompt(MenuChoice, lines[consumed..]), consumed)
        invariant action.Some? ==> Prompt(MenuChoice, lines) == Chosen(action.value, consumed)
        decreases |lines| - consumed
      {
        PromptAt(MenuChoice, lines, consumed);
        action := MenuChoice(lines[consumed]);
        // The two cases of `PromptAt`, spelled out: without them the solver
        // needs several times the effort to close the invariant.
        ghost var rest := Prompt(MenuChoice, lines[consumed..]);
        assert action.Some? ==> rest == Chosen(action.value, 1);
        assert action.None? ==> rest == PromptLater(Prompt(MenuChoice, lines[consumed + 1..]), 1);
        consumed := consumed + 1;
      }
    }

    /** `menu_screen`: re-prompts until a choice, then plays, shows the
        leaderboard, or exits. */
    method MenuScreen(lines: seq<string>, draw: Difficulty -> u32) returns (ending: Ending, consumed: nat)
      requires DrawInRange(draw)
      modifies this
      ensures SessionResult(State(), ending, consumed) == Menu(old(State()), lines, draw)
    {
      var action;
      action, consumed := ReadMenuChoice(lines);
      match action {
        case None =>
          ending := AwaitingInput;
        case Some(Play) =>
          var won, more := Play(lines[consumed..], draw);
          ending := if won then RoundWon else AwaitingInput;
          consumed := consumed + more;
        case Some(Leaderboard) =>
          ending := LeaderboardShown;
        case Some(Exit) =>
          ending := Exited;
      }
    }

    /** `run`. */
    method Run(lines: seq<string>, draw: Difficulty -> u32) returns (ending: Ending, consumed: nat)
      requires DrawInRange(draw)
      modifies this
      ensures SessionResult(State(), ending, consumed) == Session(lines, draw)
    {
      Reset();
      ending, consumed := MenuScreen(lines, draw);
    }
  }
}
