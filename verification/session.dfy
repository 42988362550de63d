/** The game session record of `src/game.rs`: counters, per-type piece
    statistics, best and current score, the board, and the playing/paused
    flags, with the transitions that exist in this version of the game.
    Each transition is a pure function from the old record to the new one.
    Reading and writing the best-score file are outside the model: the
    loaded value is an argument of `NewGame`, and the write that `game_over`
    asks for is returned as data. */
module Session {
  import opened Uints
  import Consts
  import Minos

  const BOARD_WIDTH: nat := 10
  const BOARD_HEIGHT: nat := 20
  /** One statistics counter per piece type. */
  const STAT_SLOTS: nat := 7

  datatype Option<T> = None | Some(value: T)

  type Board = seq<seq<u8>>

  datatype Game = Game(
    lineCount: u16,
    statistics: seq<u16>,
    topScore: u32,
    currentScore: u32,
    currentLevel: u16,
    boardState: Board,
    playing: bool,
    paused: bool)

  /** What `game_over` leaves behind: the new record, and the score it asked
      the score file to hold, if it asked at all. */
  datatype GameOverOutcome = GameOverOutcome(game: Game, saved: Option<u32>)

  /** The input methods wired to keys. */
  datatype Command =
    | Slam
    | DropSpeedFaster
    | DropSpeedNormal
    | MoveLeft
    | MoveRight
    | RotateClockwise
    | RotateCounterClockwise

  ghost predicate BoardShaped(b: Board) {
    |b| == BOARD_HEIGHT && forall i :: 0 <= i < |b| ==> |b[i]| == BOARD_WIDTH
  }

  ghost predicate BoardEmpty(b: Board) {
    BoardShaped(b) && forall i, j :: 0 <= i < |b| && 0 <= j < |b[i]| ==> b[i][j] == 0
  }

  ghost predicate AllZero(s: seq<u16>) {
    forall i :: 0 <= i < |s| ==> s[i] == 0
  }

  /** The shape every record keeps: seven counters and a 20×10 board. */
  ghost predicate Valid(g: Game) {
    |g.statistics| == STAT_SLOTS && BoardShaped(g.boardState)
  }

  function ZeroStatistics(): seq<u16> {
    seq(STAT_SLOTS, _ => 0)
  }

  function ClearBoard(): Board {
    seq(BOARD_HEIGHT, _ => seq(BOARD_WIDTH, _ => 0))
  }

  /** `Game::new`; `storedTop` is what reading the score file produced. */
  function NewGame(storedTop: Option<u32>): (g: Game)
    ensures Valid(g)
    ensures BoardEmpty(g.boardState)
    ensures AllZero(g.statistics)
    ensures g.lineCount == 0 && g.currentLevel == 0 && g.currentScore == 0
    ensures !g.playing && !g.paused
    ensures storedTop.Some? ==> g.topScore == storedTop.value
    ensures storedTop.None? ==> g.topScore == 0
  {
    Game(
      lineCount := 0,
      statistics := ZeroStatistics(),
      topScore := match storedTop case Some(score) => score case None => 0,
      currentScore := 0,
      currentLevel := 0,
      boardState := ClearBoard(),
      playing := false,
      paused := false)
  }

  /** `increase_lines`: one more cleared line, nothing else touched.  The
      `u16` counter must have room. */
  function IncreaseLines(g: Game): (r: Game)
    requires g.lineCount + 1 < U16_LIMIT
    ensures r.lineCount == g.lineCount + 1
    ensures r.(lineCount := g.lineCount) == g
  {
    g.(lineCount := g.lineCount + 1)
  }

  /** `increase_stat`: one more piece of type `index`; every other counter
      and every other field keep their values.  The index must be in range
      (the source would panic) and the counter must have room. */
  function IncreaseStat(g: Game, index: nat): (r: Game)
    requires index < |g.statistics|
    requires g.statistics[index] + 1 < U16_LIMIT
    ensures |r.statistics| == |g.statistics|
    ensures r.statistics[index] == g.statistics[index] + 1
    ensures forall j :: 0 <= j < |g.statistics| && j != index ==> r.statistics[j] == g.statistics[j]
    ensures r.(statistics := g.statistics) == g
  {
    g.(statistics := g.statistics[index := g.statistics[index] + 1])
  }

  /** `game_over`: the run's level, lines, statistics and score go back to
      zero; the best score becomes the larger of the old best and the run's
      score, and exactly when the run beat it the new best is handed to the
      score file.  The board and the flags are left alone. */
  function GameOver(g: Game): (o: GameOverOutcome)
    ensures o.game.currentLevel == 0 && o.game.lineCount == 0 && o.game.currentScore == 0
    ensures |o.game.statistics| == STAT_SLOTS && AllZero(o.game.statistics)
    ensures o.game.topScore == Max32(g.topScore, g.currentScore)
    ensures o.saved.Some? <==> g.topScore < g.currentScore
    ensures o.saved.Some? ==> o.saved.value == g.currentScore
    ensures o.game.boardState == g.boardState
    ensures o.game.playing == g.playing && o.game.paused == g.paused
  {
    var beaten := g.topScore < g.currentScore;
    var reset := g.(currentLevel := 0, lineCount := 0, statistics := ZeroStatistics());
    var best := if beaten then reset.(topScore := g.currentScore) else reset;
    GameOverOutcome(best.(currentScore := 0), if beaten then Some(g.currentScore) else None)
  }

  /** `set_top_score`: the best score becomes what reading the score file
      produced (`loaded`), or 0 when the read failed, so it can go down; no
      other field changes.  Nothing in this version calls it. */
  function SetTopScore(g: Game, loaded: Option<u32>): (r: Game)
    ensures loaded.Some? ==> r.topScore == loaded.value
    ensures loaded.None? ==> r.topScore == 0
    ensures r.(topScore := g.topScore) == g
  {
    match loaded
    case Some(score) => g.(topScore := score)
    case None => g.(topScore := 0)
  }

  /** `toggle_paused`: a no-op unless a game is being played; otherwise it
      flips `paused` and nothing else. */
  function TogglePaused(g: Game): (r: Game)
    ensures !g.playing ==> r == g
    ensures g.playing ==> r.paused == !g.paused && r.(paused := g.paused) == g
  {
    if !g.playing then g else g.(paused := !g.paused)
  }

  /** The movement, rotation, slam and drop-speed inputs: each returns early
      when not playing or paused, and otherwise has no body yet, so in every
      state the record is unchanged. */
  function ApplyCommand(g: Game, c: Command): (r: Game)
    ensures r == g
  {
    if !g.playing || g.paused then g
    else match c
      case Slam => g
      case DropSpeedFaster => g
      case DropSpeedNormal => g
      case MoveLeft => g
      case MoveRight => g
      case RotateClockwise => g
      case RotateCounterClockwise => g
  }

  /** `set_top_score` loads the best score the same way `Game::new` does:
      applied to a fresh record it gives the record built from that load. */
  lemma SetTopScoreMatchesNewGame(storedTop: Option<u32>)
    ensures SetTopScore(NewGame(None), storedTop) == NewGame(storedTop)
  {
  }

  /** Pausing twice is the same as not pausing. */
  lemma TogglePausedInvolution(g: Game)
    ensures TogglePaused(TogglePaused(g)) == g
  {
  }

  /** A second `game_over` right after the first changes nothing and writes
      nothing: the run's score is already zero. */
  lemma GameOverIdempotent(g: Game)
    ensures GameOver(GameOver(g).game).game == GameOver(g).game
    ensures GameOver(GameOver(g).game).saved.None?
  {
  }

  /** Every operation of the session, as one alphabet of events. */
  datatype Event =
    | Input(c: Command)
    | TogglePause
    | LineCleared
    | PieceCounted(index: nat)
    | Over

  /** One event; `None` where the source would overflow a counter or index
      out of range and panic. */
  function Step(g: Game, e: Event): (r: Option<Game>)
    ensures r.None? <==>
      || (e.LineCleared? && g.lineCount + 1 >= U16_LIMIT)
      || (e.PieceCounted? && (e.index >= |g.statistics| || g.statistics[e.index] + 1 >= U16_LIMIT))
  {
    match e
    case Input(c) => Some(ApplyCommand(g, c))
    case TogglePause => Some(TogglePaused(g))
    case LineCleared =>
      if g.lineCount + 1 < U16_LIMIT then Some(IncreaseLines(g)) else None
    case PieceCounted(index) =>
      if index < |g.statistics| && g.statistics[index] + 1 < U16_LIMIT then Some(IncreaseStat(g, index)) else None
    case Over => Some(GameOver(g).game)
  }

  /** A sequence of events, stopping at the first that would panic. */
  function Run(g: Game, es: seq<Event>): Option<Game>
    decreases |es|
  {
    if es == [] then Some(g)
    else match Step(g, es[0])
      case None => None
      case Some(g1) => Run(g1, es[1..])
  }

  /** Across any sequence of the events above, the record keeps its shape,
      the board is never written (placement is still a stub), `playing`
      never changes, and the best score never goes down.  `SetTopScore` is
      not one of the events: it can lower the best score. */
  lemma {:induction false} RunPreserves(g: Game, es: seq<Event>)
    requires Valid(g)
    ensures Run(g, es).Some? ==>
      && Valid(Run(g, es).value)
      && Run(g, es).value.boardState == g.boardState
      && Run(g, es).value.playing == g.playing
      && Run(g, es).value.topScore >= g.topScore
    decreases |es|
  {
    if es != [] {
      match Step(g, es[0])
      case None =>
      case Some(g1) =>
        RunPreserves(g1, es[1..]);
    }
  }

  /** Since nothing in this version sets `playing`, a fresh game stays on
      the start screen: no sequence of operations ever pauses it or reaches
      a playing state. */
  lemma {:induction false} NeverLeavesStartScreen(storedTop: Option<u32>, es: seq<Event>)
    ensures Run(NewGame(storedTop), es).Some? ==>
      !Run(NewGame(storedTop), es).value.playing && !Run(NewGame(storedTop), es).value.paused
  {
    NotPlayingStaysPut(NewGame(storedTop), es);
  }

  lemma {:induction false} NotPlayingStaysPut(g: Game, es: seq<Event>)
    requires !g.playing && !g.paused
    ensures Run(g, es).Some? ==> !Run(g, es).value.playing && !Run(g, es).value.paused
    decreases |es|
  {
    if es != [] {
      match Step(g, es[0])
      case None =>
      case Some(g1) =>
        NotPlayingStaysPut(g1, es[1..]);
    }
  }

  /** The session's own board size and counter count agree with the shared
      tables and with the piece catalog. */
  lemma AgreesWithTables()
    ensures BOARD_WIDTH == Consts.GAME_BOARD_WIDTH && BOARD_HEIGHT == Consts.GAME_BOARD_HEIGHT
    ensures STAT_SLOTS == Consts.MINO_TYPES as nat == Minos.MINO_TYPES as nat
  {
  }
}
