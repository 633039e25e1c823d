# Guess the number: the `Game` controller

This project models the `Game` controller of a terminal number-guessing game
(src/game.rs). The model follows the controller's own flow:

- `run` resets the four fields (`difficulty`, `secret_number`, `attempts`,
  `attempt`) and shows the main menu.
- The main menu reads a line. It dispatches "1" to `play`, "2" to the
  leaderboard and "3" to exit. On anything else it shows itself again.
- `play` shows the difficulty screen, which also re-prompts until it reads
  "1", "2" or "3". It then draws the secret from the chosen difficulty's
  range and runs the guess loop.
- The guess loop reads one line per pass. It trims the line and parses it
  as a `u32`. A line that does not parse is ignored. A line that parses
  becomes `attempt` and adds one to `attempts`. A guess equal to the secret
  ends the loop.

The files:

- `Wrappers.dfy`: an `Option` type.
- `Input.dfy`: the Rust string handling that every dispatch depends on.
  - `str::trim`, which strips the characters with the Unicode White_Space
    property.
  - `str::parse::<u32>`: an optional '+', then ASCII digits, checked for
    overflow at each step, as the standard library's `from_str_radix` does.
  - `u32::to_string`, as the shortest decimal numeral.
- `Game.dfy`: the rules as pure functions and the `Game` class.
  - The pure functions are `Guess`, `Round`, `GameScreen`, `MenuChoice`,
    `DifficultyChoice`, `Prompt`, `PlayRound`, `Menu` and `Session`.
  - The class holds the four fields.
  - Each method of the class is proved to move its fields exactly as the
    matching function says.
- `Properties.dfy`: what holds across several steps, and a worked session.

How input, randomness and the end of the program appear in the model:

- **Input.** The lines the player types are a `seq<string>`. Each screen
  takes lines from the front and reports how many it used. If the lines run
  out before a screen accepts one, the screen is still waiting
  (`Waiting`, `AwaitingInput`).
- **Randomness.** `rand::thread_rng().gen_range` becomes a parameter
  `draw: Difficulty -> u32`. The only thing assumed about it is that it
  returns a number in the difficulty's range (`DrawInRange`).
- **Exit.** `std::process::exit(0)` is the ending `Exited`.

How a session ends, in the code:

- **After a win.** `game_loop` breaks after `win_screen`; then `play`,
  `menu_screen` and `run` return, so the program ends
  (src/game.rs:43-46, 100-103, 142). The model ends the session with
  `RoundWon` and keeps the final state.
- **After the leaderboard.** `leaderboard_screen` returns, and the program
  ends the same way (src/game.rs:143). The ending is `LeaderboardShown`.
- **Reset.** `reset` is called only from `run` (src/game.rs:44).

## Model

`trim` is used at src/game.rs:95, 141 and 169, and `to_string` at src/game.rs:195 and 202. Each `Input` row below cites one of those places.

| member | source | states |
|---|---|---|
| Game.Game.constructor | src/game.rs:25-41 | `Game::new` leaves difficulty `None`, secret 0, attempts 0 and attempt 0 |
| Game.Game.Reset | src/game.rs:52-58 | `reset` restores that same initial state, whatever the state was before |
| Game.SecretRange | src/game.rs:63-67 | contract: a range exists iff the difficulty is not `None`, and every range starts at 1 and ends at or below 10000. The body holds the table itself: Easy 1..=100, Medium 1..=1000, Hard 1..=10000 |
| Game.Game.GenerateSecretNumber | src/game.rs:60-69 | with a difficulty, only the secret changes, to the drawn value, which lies in the difficulty's range. With `None`, the difficulty screen runs and the secret keeps its old value |
| Game.Guess | src/game.rs:95-106 | a line that does not parse after trimming changes nothing and does not win. A line that parses to n sets attempt to n and adds exactly 1 to attempts. It wins exactly when n is the secret. Difficulty and secret never change |
| Game.Game.GuessStep | src/game.rs:91-106 | one pass of the loop changes the fields exactly as `Guess` says, and reports its win |
| Game.Round | src/game.rs:85-108 | the loop uses no more lines than it is given. It keeps difficulty and secret and never lowers attempts. A win leaves attempt equal to the secret with at least one more attempt. Without a win it reads every line |
| Game.Game.GameLoop | src/game.rs:85-108 | the loop method leaves the fields, the win flag and the lines used exactly as `Round` says |
| GameProperties.RoundCountsAttempts | src/game.rs:86-107 | when the loop stops, attempts has grown by exactly the number of lines that parsed, up to and including the winning one |
| GameProperties.RoundStopsAtFirstHit | src/game.rs:86-107 | the loop is won iff some line parses to the secret. It stops right after the first such line, and no line before that one hits |
| GameProperties.RoundSkipsUnparsed | src/game.rs:105 | a line that does not parse is skipped: the rest of the loop runs as if it had not been typed |
| Game.GameScreen | src/game.rs:192-216 | the attempt count is always shown. The previous attempt and a hint appear iff attempts > 0. The hint is Higher iff attempt < secret and Lower iff attempt >= secret |
| GameProperties.HintAfterMiss | src/game.rs:199-216 | after a guess that parses and misses, the next screen shows that guess. Its hint is Higher iff the guess is below the secret and Lower iff it is above |
| GameProperties.NoHintAtStart | src/game.rs:199-216 | before any counted guess, neither the previous attempt nor a hint is shown |
| Game.MenuChoice | src/game.rs:141-146 | Play iff the trimmed line is "1", Leaderboard iff "2", Exit iff "3". Any other line re-prompts |
| Game.DifficultyChoice | src/game.rs:169-174 | Easy iff the trimmed line is "1", Medium iff "2", Hard iff "3". A choice is never `None`. Any other line re-prompts |
| Game.Game.SelectDifficulty | src/game.rs:169-174 | one showing of the difficulty screen either sets only the difficulty to the choice, or changes nothing and asks to be shown again, exactly when the line is not a choice |
| Game.Prompt | src/game.rs:141-174 | a re-prompting screen is decided by the first accepted line. Every earlier line is rejected. It waits iff every line is rejected |
| Game.Game.DifficultyScreen | src/game.rs:149-175 | the re-prompting difficulty screen sets only the difficulty, to a value other than `None`, at the line `Prompt` finds. If no line is accepted it reads them all and changes nothing |
| GameProperties.ChoicesIgnorePadding | src/game.rs:136-146 | whitespace around a choice, such as the newline `read_line` keeps, does not change either dispatch |
| GameProperties.MenuRepromptChangesNothing | src/game.rs:145 | an unrecognised line at the main menu leaves the session exactly as if the line had not been typed, except that one more line is used |
| GameProperties.DifficultyRepromptChangesNothing | src/game.rs:173 | the same holds for an unrecognised line at the difficulty screen |
| Game.PlayRound | src/game.rs:71-83 | `play` uses no more lines than it is given |
| Game.Game.Play | src/game.rs:71-83 | `play` as a method, in the source's order: the difficulty screen, then the draw, then the loop. It leaves the fields and results exactly as `PlayRound` says |
| GameProperties.PlayRoundWaits | src/game.rs:76-79 | while no difficulty has been chosen, `play` only waits at the difficulty screen and changes nothing |
| GameProperties.PlayRoundDraws | src/game.rs:76-79 | once a difficulty d is chosen, it is not `None`. The secret is the draw for d and lies in d's range. The guess loop starts only after the difficulty line |
| GameProperties.PlayRoundCounts | src/game.rs:76-82 | after `play`, attempts equals the old count plus the lines that parsed between the difficulty line and where the loop stopped |
| GameProperties.PlayRoundWins | src/game.rs:76-82 | `play` is won iff some line after the difficulty line parses to the drawn secret |
| GameProperties.RoundFromCounts | src/game.rs:86-107 | the counting of `RoundCountsAttempts`, for a loop that starts after the first c lines |
| GameProperties.RoundFromWins | src/game.rs:86-107 | the winning condition of `RoundStopsAtFirstHit`, for a loop that starts after the first c lines |
| Game.Menu | src/game.rs:110-147 | the main menu uses no more lines than it is given |
| Game.Game.ReadMenuChoice | src/game.rs:136-146 | the re-prompting part of the main menu changes nothing. It returns the choice and the lines used that `Prompt` gives, or no choice after all lines |
| Game.Game.MenuScreen | src/game.rs:110-147 | `menu_screen` leaves the fields, the ending and the lines used exactly as `Menu` says |
| Game.Session | src/game.rs:43-46 | a session uses no more lines than it is given |
| Game.Game.Run | src/game.rs:43-46 | `run` resets, then runs the menu, ending exactly as `Session` says |
| GameProperties.SessionPlays | src/game.rs:142 | "1" at the main menu hands the remaining lines to `play`. The session then ends with its state, won or still waiting |
| GameProperties.SessionEndings | src/game.rs:43-46 | Exit and Leaderboard end the session with the initial state, on a line that trims to "3" or "2". A won round has a difficulty, a secret in its range, attempt equal to the secret and at least one attempt. With no difficulty the state is the initial one |
| GameProperties.SessionCountsAttempts | src/game.rs:43-46 | from `run`, attempts counts exactly the lines that parsed after the difficulty line, up to where the session stopped |
| GameProperties.ShiftedCount | src/game.rs:96-98 | the same count, restated on positions in the whole input rather than after the menu line |
| GameProperties.EasyScenario | src/game.rs:43-216 | the lines "1", "1", "abc", "10", "50", "42" with secret 42 end the round on the sixth line with three counted attempts. The hints after 10 and after 50 are Higher and Lower |
| GameProperties.ScenarioRound | src/game.rs:86-107 | in the guess loop alone, "abc", "10", "50", "42" give three attempts and a win |
| GameProperties.MenuScenario | src/game.rs:141-146 | "9" then "1" at the main menu: "9" changes nothing, and "1" starts a round |
| GameProperties.NumberLine | src/game.rs:95 | a line holding just the decimal numeral of a `u32` n is read as n |
| Input.Trim | src/game.rs:95 | `trim` gives text with no whitespace at either end and never lengthens it |
| Input.TrimIsSlice | src/game.rs:95 | what `trim` removes is whitespace, and only whitespace: the result is a slice of the line with whitespace on both sides |
| Input.TrimPadded | src/game.rs:141 | text with no whitespace at either end, padded by whitespace on both sides, trims back to exactly itself |
| Input.ParseU32 | src/game.rs:95 | `parse::<u32>` accepts only non-empty text, with a value no greater than 4294967295 |
| Input.ParseU32Meaning | src/game.rs:95 | `parse::<u32>` succeeds iff the text is an optional '+' then one or more ASCII digits of value at most 4294967295. The result is that value |
| Input.ParseDecimal | src/game.rs:95 | parsing gives back n from `n.to_string()`, from "+" followed by it, and from it with a leading zero |
| Input.ParseRejectsOverflow | src/game.rs:95 | a numeral above 4294967295 is refused rather than wrapped |
| Input.ParseRejects | src/game.rs:95-105 | "", "+", "-", "-0", "abc" and "1 2" are not guesses |
| Input.Decimal | src/game.rs:202 | `to_string` gives a non-empty string of digits with no leading zero |
| Input.DecimalValue | src/game.rs:202 | the numeral `to_string` gives has the number's value |

## Left out

- Terminal rendering is left out: `clear_screen!`, the `prettytable` tables and colours, and the `FancyPrinter` typing animation with its delay (src/game.rs:8-12, 27-30, 114-134, 182-207). `GameScreen` keeps only the decisions the screen makes: the count shown, whether the previous-attempt row appears, and the hint.
- `win_screen` and `leaderboard_screen` only print tables (src/game.rs:219-257). They are modelled as the endings `RoundWon` and `LeaderboardShown`, and nothing is rendered.
- Reading standard input, including a read failure that panics through `unwrap` (src/game.rs:92, 138, 166), is left out. The lines are a parameter. A screen that runs out of lines is `Waiting` or `AwaitingInput`. In the source, while the player has typed nothing more, `read_line` blocks. At end of input it returns `Ok(0)` and leaves the line empty. An empty line does not parse, so `game_loop` then loops forever without blocking (src/game.rs:95, 105). `menu_screen` and `difficulty_screen` call themselves until the stack overflows (src/game.rs:145, 173).
- Randomness from `rand::thread_rng` (src/game.rs:61) is a parameter whose value lies in the range. Uniformity and independence of the draws cannot be stated here.
- `std::process::exit(0)` (src/game.rs:48-50) is the ending `Exited`. The process itself is not modelled.
- The re-prompts recurse in the source (src/game.rs:67, 145, 173). They are modelled as loops that read the next line with nothing changed. The growth of the call stack is not modelled.
- Game.Game.GuessStep: `attempts` is unbounded. The overflow of `attempts += 1` after 4294967295 counted guesses (src/game.rs:98) is not modelled. It panics in a debug build. In a release build it wraps `attempts` to 0, which then hides the previous attempt and the hint (src/game.rs:199, 210). Game.Guess has the same limit.
- Game.Game.Play: takes `DrawInRange(draw)` as a precondition. This states what `gen_range` guarantees; it does not restrict the player's input. Game.Game.MenuScreen and Game.Game.Run take the same precondition.
- src/difficulty.rs is not part of this model. `Difficulty` has the four variants src/game.rs uses (src/game.rs:33, 63-67).
- src/main.rs only builds the `Game` and calls `run`; the model has no separate wiring for it.
- guessing-game/src/game.rs is a smaller copy of the menu with a two-option dispatch. It is not part of this model.
