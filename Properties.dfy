/** What the controller promises across several steps: how attempts are
    counted, when the guess loop stops, that the secret is drawn only after a
    difficulty is chosen and lies in its range, and that every rejected line
    is a "same screen again" with nothing changed. */
module GameProperties {
  import Wrappers
  import opened Input
  import opened Game

  // ---------------------------------------------------------------------------
  // The guess loop
  // ---------------------------------------------------------------------------

  lemma ParsedCountShift(lines: seq<string>, m: nat, i: nat, j: nat, hi: nat)
    requires m + j <= |lines| && i <= j && hi == m + j
    ensures ParsedCount(lines[m..][i..j]) == ParsedCount(lines[m + i..hi])
  {
    assert lines[m..][i..j] == lines[m + i..hi];
  }

  lemma SliceOfSlice<T>(xs: seq<T>, c: nat, n: nat)
    requires c + n <= |xs|
    ensures xs[c..][..n] == xs[c..c + n]
  {
  }

  /** `attempts` grows by exactly the number of lines that parsed, up to and
      including the winning one. */
  lemma {:induction false} RoundCountsAttempts(s: GameState, lines: seq<string>)
    ensures var r := Round(s, lines);
            r.state.attempts == s.attempts + ParsedCount(lines[..r.consumed])
    decreases |lines|
  {
    if lines != [] {
      var g := Guess(s, lines[0]);
      var r := Round(s, lines);
      if g.won {
        assert lines[..1][1..] == [];
      } else {
        RoundCountsAttempts(g.state, lines[1..]);
        var r' := Round(g.state, lines[1..]);
        assert lines[..r.consumed][1..] == lines[1..][..r'.consumed];
      }
    }
  }

  /** The guess loop ends exactly at the first line that parses to the secret,
      and only then. */
  lemma {:induction false} RoundStopsAtFirstHit(s: GameState, lines: seq<string>)
    ensures var r := Round(s, lines);
            (r.won <==> exists k :: 0 <= k < |lines| && Hits(lines[k], s.secretNumber))
            && (r.won ==> 0 < r.consumed && Hits(lines[r.consumed - 1], s.secretNumber))
            && (forall k :: 0 <= k < r.consumed - 1 ==> !Hits(lines[k], s.secretNumber))
    decreases |lines|
  {
    if lines != [] {
      var g := Guess(s, lines[0]);
      if !g.won {
        RoundStopsAtFirstHit(g.state, lines[1..]);
        var r' := Round(g.state, lines[1..]);
        forall k | 0 <= k < r'.consumed ensures !Hits(lines[k], s.secretNumber) {
          if k > 0 { assert lines[k] == lines[1..][k - 1]; }
        }
        if r'.won {
          assert lines[r'.consumed] == lines[1..][r'.consumed - 1];
        } else {
          forall k | 0 <= k < |lines| ensures !Hits(lines[k], s.secretNumber) {
            if k > 0 { assert lines[k] == lines[1..][k - 1]; }
          }
        }
      }
    }
  }

  /** A line that does not parse is discarded: the loop goes on from the same
      state, one line later. */
  lemma RoundSkipsUnparsed(s: GameState, line: string, lines: seq<string>)
    requires ParseU32(Trim(line)).None?
    ensures Round(s, [line] + lines) == RoundLater(Round(s, lines), 1)
  {
    assert ([line] + lines)[1..] == lines;
  }

  /** After a guess that parsed and missed, the next screen shows the guess and
      a hint that points towards the secret. */
  lemma HintAfterMiss(s: GameState, line: string)
    requires ParseU32(Trim(line)).Some? && !Hits(line, s.secretNumber)
    ensures var n := ParseU32(Trim(line)).value;
            var v := GameScreen(Guess(s, line).state);
            v.previousAttempt == Wrappers.Some(n)
            && v.hint.Some?
            && (v.hint.value == Higher <==> n < s.secretNumber)
            && (v.hint.value == Lower <==> n > s.secretNumber)
  {
  }

  /** Before the first counted guess the screen shows neither hint nor
      previous attempt. */
  lemma NoHintAtStart(s: GameState)
    requires s.attempts == 0
    ensures GameScreen(s).hint.None? && GameScreen(s).previousAttempt.None?
  {
  }

  // ---------------------------------------------------------------------------
  // Menus
  // ---------------------------------------------------------------------------

  /** Whitespace around a choice, such as the newline `read_line` keeps,
      does not change the dispatch. */
  lemma ChoicesIgnorePadding(pre: string, t: string, post: string)
    requires AllWhitespace(pre) && AllWhitespace(post)
    ensures MenuChoice(pre + Trim(t) + post) == MenuChoice(t)
    ensures DifficultyChoice(pre + Trim(t) + post) == DifficultyChoice(t)
  {
    TrimPadded(pre, Trim(t), post);
  }

  /** An unrecognised line at the main menu changes nothing: the session goes
      on as if the line had not been typed. */
  lemma MenuRepromptChangesNothing(s: GameState, line: string, lines: seq<string>, draw: Difficulty -> u32)
    requires MenuChoice(line).None?
    ensures var r := Menu(s, lines, draw);
            Menu(s, [line] + lines, draw) == r.(consumed := r.consumed + 1)
  {
    var all := [line] + lines;
    assert all[1..] == lines;
    match Prompt(MenuChoice, lines)
    case Waiting =>
    case Chosen(a, c) =>
      assert all[c + 1..] == lines[c..];
  }

  /** An unrecognised line at the difficulty screen changes nothing either. */
  lemma DifficultyRepromptChangesNothing(s: GameState, line: string, lines: seq<string>, draw: Difficulty -> u32)
    requires DifficultyChoice(line).None?
    ensures PlayRound(s, [line] + lines, draw) == RoundLater(PlayRound(s, lines, draw), 1)
  {
    var all := [line] + lines;
    assert all[1..] == lines;
    match Prompt(DifficultyChoice, lines)
    case Waiting =>
    case Chosen(d, c) =>
      assert all[c + 1..] == lines[c..];
  }

  // ---------------------------------------------------------------------------
  // A round and a session
  // ---------------------------------------------------------------------------

  /** `play` waits at the difficulty screen until a difficulty is chosen,
      and nothing changes while it waits. */
  lemma PlayRoundWaits(s: GameState, lines: seq<string>, draw: Difficulty -> u32)
    requires forall k :: 0 <= k < |lines| ==> DifficultyChoice(lines[k]).None?
    ensures PlayRound(s, lines, draw) == RoundResult(s, false, |lines|)
  {
  }

  /** `play` chooses the difficulty first; only then is the secret drawn, and
      it lies in that difficulty's range. */
  lemma PlayRoundDraws(s: GameState, lines: seq<string>, draw: Difficulty -> u32, d: Difficulty, c: nat)
    requires DrawInRange(draw)
    requires Prompt(DifficultyChoice, lines) == Chosen(d, c)
    ensures var r := PlayRound(s, lines, draw);
            d != None && r.state.difficulty == d
            && r.state.secretNumber == draw(d) && InRange(d, r.state.secretNumber)
            && c <= r.consumed <= |lines|
  {
  }

  /** The guess loop started at line `c` counts the lines that parsed from
      there to where it stopped. */
  lemma RoundFromCounts(s: GameState, lines: seq<string>, c: nat)
    requires c <= |lines|
    ensures var r := RoundLater(Round(s, lines[c..]), c);
            c <= r.consumed <= |lines|
            && r.state.attempts == s.attempts + ParsedCount(lines[c..r.consumed])
  {
    var rest := lines[c..];
    var g := Round(s, rest);
    assert RoundLater(g, c).consumed == c + g.consumed;
    RoundCountsAttempts(s, rest);
    SliceOfSlice(lines, c, g.consumed);
  }

  /** The guess loop started at line `c` wins exactly when some line from `c`
      on hits the secret. */
  lemma RoundFromWins(s: GameState, lines: seq<string>, c: nat)
    requires c <= |lines|
    ensures RoundLater(Round(s, lines[c..]), c).won
        <==> exists k :: c <= k < |lines| && Hits(lines[k], s.secretNumber)
  {
    var rest := lines[c..];
    RoundStopsAtFirstHit(s, rest);
    if Round(s, rest).won {
      var k :| 0 <= k < |rest| && Hits(rest[k], s.secretNumber);
      assert rest[k] == lines[c + k];
    }
    if exists k :: c <= k < |lines| && Hits(lines[k], s.secretNumber) {
      var k :| c <= k < |lines| && Hits(lines[k], s.secretNumber);
      assert rest[k - c] == lines[k];
    }
  }

  /** The round counts every guess that parsed after the difficulty line, up
      to the winning one. */
  lemma PlayRoundCounts(s: GameState, lines: seq<string>, draw: Difficulty -> u32, d: Difficulty, c: nat)
    requires Prompt(DifficultyChoice, lines) == Chosen(d, c)
    ensures var r := PlayRound(s, lines, draw);
            c <= r.consumed <= |lines|
            && r.state.attempts == s.attempts + ParsedCount(lines[c..r.consumed])
  {
    var start := s.(difficulty := d, secretNumber := draw(d));
    assert PlayRound(s, lines, draw) == RoundLater(Round(start, lines[c..]), c);
    RoundFromCounts(start, lines, c);
  }

  /** The round is won exactly when some line after the difficulty line hits
      the drawn secret. */
  lemma PlayRoundWins(s: GameState, lines: seq<string>, draw: Difficulty -> u32, d: Difficulty, c: nat)
    requires Prompt(DifficultyChoice, lines) == Chosen(d, c)
    ensures PlayRound(s, lines, draw).won <==> exists k :: c <= k < |lines| && Hits(lines[k], draw(d))
  {
    var start := s.(difficulty := d, secretNumber := draw(d));
    assert PlayRound(s, lines, draw) == RoundLater(Round(start, lines[c..]), c);
    RoundFromWins(start, lines, c);
  }

  /** How a session from `run` can end, and what the state is then. */
  lemma SessionEndings(lines: seq<string>, draw: Difficulty -> u32)
    requires DrawInRange(draw)
    ensures var r := Session(lines, draw);
            (r.ending == Exited ==> r.state == Initial && 0 < r.consumed && Trim(lines[r.consumed - 1]) == "3")
            && (r.ending == LeaderboardShown ==> r.state == Initial && 0 < r.consumed && Trim(lines[r.consumed - 1]) == "2")
            && (r.ending == RoundWon ==>
                  r.state.difficulty != None && InRange(r.state.difficulty, r.state.secretNumber)
                  && r.state.attempt == r.state.secretNumber && r.state.attempts > 0)
            && (r.state.difficulty == None ==> r.state == Initial)
  {
    match Prompt(MenuChoice, lines)
    case Waiting =>
    case Chosen(a, c) =>
      if a == Play {
        match Prompt(DifficultyChoice, lines[c..])
        case Waiting =>
        case Chosen(d, c') =>
          PlayRoundDraws(Initial, lines[c..], draw, d, c');
      }
  }

  /** "1" at the main menu, as line `m`, hands the rest of the lines to `play`. */
  lemma SessionPlays(lines: seq<string>, draw: Difficulty -> u32, m: nat)
    requires Prompt(MenuChoice, lines) == Chosen(Play, m)
    ensures var p := PlayRound(Initial, lines[m..], draw);
            Session(lines, draw) == SessionResult(p.state, if p.won then RoundWon else AwaitingInput, m + p.consumed)
  {
  }

  /** A round played from `run` counts exactly the parsed guesses typed after
      the difficulty line: "1" at the menu was line `m`, the difficulty line
      was `c` lines further on. */
  lemma SessionCountsAttempts(lines: seq<string>, draw: Difficulty -> u32, m: nat, d: Difficulty, c: nat)
    requires Prompt(MenuChoice, lines) == Chosen(Play, m)
    requires Prompt(DifficultyChoice, lines[m..]) == Chosen(d, c)
    ensures var r := Session(lines, draw);
            m + c <= r.consumed <= |lines|
            && r.state.attempts == ParsedCount(lines[m + c..r.consumed])
  {
    SessionPlays(lines, draw, m);
    ShiftedCount(lines, draw, m, d, c, Session(lines, draw));
  }

  /** The counting of `PlayRoundCounts`, moved from the lines after the menu
      choice to the whole input. */
  lemma ShiftedCount(lines: seq<string>, draw: Difficulty -> u32, m: nat, d: Difficulty, c: nat, r: SessionResult)
    requires m <= |lines| && Prompt(DifficultyChoice, lines[m..]) == Chosen(d, c)
    requires var p := PlayRound(Initial, lines[m..], draw);
             r.state == p.state && r.consumed == m + p.consumed
    ensures m + c <= r.consumed <= |lines| && r.state.attempts == ParsedCount(lines[m + c..r.consumed])
  {
    var p := PlayRound(Initial, lines[m..], draw);
    PlayRoundCounts(Initial, lines[m..], draw, d, c);
    ParsedCountShift(lines, m, c, p.consumed, r.consumed);
  }

  // ---------------------------------------------------------------------------
  // Scenarios
  // ---------------------------------------------------------------------------

  /** A line holding just the decimal numeral of `n` is read as `n`. */
  lemma NumberLine(n: u32)
    ensures ParseU32(Trim(Decimal(n as nat))) == Wrappers.Some(n)
  {
    var t := Decimal(n as nat);
    assert !IsWhitespace(t[0]) && !IsWhitespace(t[|t| - 1]);
    TrimPadded([], t, []);
    assert [] + t + [] == t;
    ParseDecimal(n);
  }

  /** How the text lines of the scenario below are read. */
  lemma ScenarioTextLines()
    ensures Trim("1") == "1"
    ensures ParseU32(Trim("abc")) == Wrappers.None
  {
    assert Trim("1") == "1" by {
      assert !IsWhitespace('1');
    }
    assert Trim("abc") == "abc" by {
      assert !IsWhitespace('a') && !IsWhitespace('c');
    }
    ParseRejects();
  }

  /** How the guesses of the scenario below are read. */
  lemma ScenarioNumberLines()
    ensures ParseU32(Trim("10")) == Wrappers.Some(10)
    ensures ParseU32(Trim("50")) == Wrappers.Some(50)
    ensures ParseU32(Trim("42")) == Wrappers.Some(42)
  {
    assert Decimal(10) == "10" && Decimal(50) == "50" && Decimal(42) == "42";
    NumberLine(10);
    NumberLine(50);
    NumberLine(42);
  }

  /** The guess loop of the scenario: "abc" is discarded, "10" and "50" miss,
      "42" wins on the third counted attempt. */
  lemma ScenarioRound()
    ensures Round(GameState(Easy, 42, 0, 0), ["abc", "10", "50", "42"])
         == RoundResult(GameState(Easy, 42, 3, 42), true, 4)
  {
    ScenarioTextLines();
    ScenarioNumberLines();
    var s0 := GameState(Easy, 42, 0, 0);
    var s1 := GameState(Easy, 42, 1, 10);
    var s2 := GameState(Easy, 42, 2, 50);
    assert Guess(s0, "abc") == GuessResult(s0, false);
    assert Guess(s0, "10") == GuessResult(s1, false);
    assert Guess(s1, "50") == GuessResult(s2, false);
    assert Guess(s2, "42") == GuessResult(GameState(Easy, 42, 3, 42), true);
    assert ["abc", "10", "50", "42"][1..] == ["10", "50", "42"];
    assert ["10", "50", "42"][1..] == ["50", "42"];
    assert Round(s2, ["50", "42"][1..]) == RoundResult(GameState(Easy, 42, 3, 42), true, 1);
    assert Round(s1, ["50", "42"]) == RoundResult(GameState(Easy, 42, 3, 42), true, 2);
    assert Round(s0, ["10", "50", "42"]) == RoundResult(GameState(Easy, 42, 3, 42), true, 3);
  }

  /** Easy with the secret 42, played from `run`: "1" at the menu, "1" for
      Easy, then "abc", "10", "50", "42"; the round is won with three counted
      attempts, after hints Higher (for 10) and Lower (for 50). */
  lemma EasyScenario(draw: Difficulty -> u32)
    requires draw(Easy) == 42
    ensures Session(["1", "1", "abc", "10", "50", "42"], draw)
         == SessionResult(GameState(Easy, 42, 3, 42), RoundWon, 6)
    ensures GameScreen(Guess(GameState(Easy, 42, 0, 0), "10").state).hint == Wrappers.Some(Higher)
    ensures GameScreen(Guess(GameState(Easy, 42, 1, 10), "50").state).hint == Wrappers.Some(Lower)
  {
    ScenarioTextLines();
    ScenarioNumberLines();
    ScenarioRound();
    var lines := ["1", "1", "abc", "10", "50", "42"];
    assert MenuChoice(lines[0]) == Wrappers.Some(Play);
    assert Prompt(MenuChoice, lines) == Chosen(Play, 1);
    var rest := lines[1..];
    assert rest == ["1", "abc", "10", "50", "42"];
    assert DifficultyChoice(rest[0]) == Wrappers.Some(Easy);
    assert Prompt(DifficultyChoice, rest) == Chosen(Easy, 1);
    assert rest[1..] == ["abc", "10", "50", "42"];
    assert Initial.(difficulty := Easy, secretNumber := 42) == GameState(Easy, 42, 0, 0);
    assert PlayRound(Initial, rest, draw) == RoundResult(GameState(Easy, 42, 3, 42), true, 5);
  }

  /** "9" at the main menu is ignored; the "1" after it starts a round. */
  lemma MenuScenario(rest: seq<string>, draw: Difficulty -> u32)
    ensures Prompt(MenuChoice, ["9", "1"] + rest) == Chosen(Play, 2)
    ensures var r := Session(["1"] + rest, draw);
            Session(["9", "1"] + rest, draw) == r.(consumed := r.consumed + 1)
  {
    var lines := ["9", "1"] + rest;
    assert lines[1..] == ["1"] + rest;
    MenuRepromptChangesNothing(Initial, "9", ["1"] + rest, draw);
    assert lines == ["9"] + (["1"] + rest);
  }
}
