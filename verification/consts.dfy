/** The game tables of `src/consts.rs`: line-clear base scores, the gravity
    frame table, board dimensions, movement offsets and the id constants.
    The block ids here number J=1 … I=7 and are NOT the numbering of the
    piece catalog (see module Minos, where T=0 … I=6). */
module Consts {
  import opened Uints

  /** A board displacement `(x, y)`; `x` counts display columns, two per cell. */
  datatype BoardXY = BoardXY(x: i16, y: i16)

  const BASE_SCORES: seq<u32> := [0, 40, 100, 300, 1200]

  const J_BLOCK: u8 := 1
  const Z_BLOCK: u8 := 2
  const O_BLOCK: u8 := 3
  const S_BLOCK: u8 := 4
  const T_BLOCK: u8 := 5
  const L_BLOCK: u8 := 6
  const I_BLOCK: u8 := 7

  const STATE_PLAYING: u8 := 0
  const STATE_PAUSED: u8 := 1
  const STATE_GAME_OVER: u8 := 2
  const STATE_START_SCREEN: u8 := 3

  const MINO_TYPES: u8 := 7

  const GAME_BOARD_WIDTH: nat := 10
  const GAME_BOARD_HEIGHT: nat := 20

  const LEFT_OFFSET: BoardXY := BoardXY(-2, 0)
  const RIGHT_OFFSET: BoardXY := BoardXY(2, 0)
  const DOWN_OFFSET: BoardXY := BoardXY(0, 1)
  const NO_OFFSET: BoardXY := BoardXY(0, 0)

  const ROT_LEFT: u8 := 0
  const ROT_RIGHT: u8 := 1

  const SIGNAL_INCREASE: u8 := 1
  const SIGNAL_PAUSE: u8 := 2
  const SIGNAL_UNPAUSE: u8 := 3
  const SIGNAL_KILL: u8 := 4
  const SIGNAL_RESET: u8 := 5

  const GRAVITY_TABLE: seq<u8> := [48, 43, 38, 33, 28, 23, 18, 13, 8, 6, 5, 4, 3, 2, 1]

  /** Ordered block ids, in declaration order. */
  const BLOCK_IDS: seq<u8> := [J_BLOCK, Z_BLOCK, O_BLOCK, S_BLOCK, T_BLOCK, L_BLOCK, I_BLOCK]
  const STATE_IDS: seq<u8> := [STATE_PLAYING, STATE_PAUSED, STATE_GAME_OVER, STATE_START_SCREEN]
  const SIGNAL_IDS: seq<u8> := [SIGNAL_INCREASE, SIGNAL_PAUSE, SIGNAL_UNPAUSE, SIGNAL_KILL, SIGNAL_RESET]

  ghost predicate StrictlyIncreasing(s: seq<int>) {
    forall i, j :: 0 <= i < j < |s| ==> s[i] < s[j]
  }

  ghost predicate StrictlyDecreasing(s: seq<int>) {
    forall i, j :: 0 <= i < j < |s| ==> s[i] > s[j]
  }

  ghost predicate Distinct<T>(s: seq<T>) {
    forall i, j :: 0 <= i < j < |s| ==> s[i] != s[j]
  }

  function Negate(d: BoardXY): BoardXY
    requires d.x != -0x8000 && d.y != -0x8000
  {
    BoardXY(-d.x, -d.y)
  }

  /** The line-clear table: one entry per number of lines cleared at once,
      0 through 4, clearing nothing scores nothing, and more lines always
      score more. */
  lemma BaseScoresShape()
    ensures |BASE_SCORES| == 5
    ensures BASE_SCORES[0] == 0
    ensures StrictlyIncreasing(BASE_SCORES)
    ensures BASE_SCORES[1] == 40 && BASE_SCORES[2] == 100 && BASE_SCORES[3] == 300 && BASE_SCORES[4] == 1200
  {
  }

  /** The gravity table: 15 frame counts, all positive, strictly falling
      from 48 frames per row to 1. */
  lemma GravityTableShape()
    ensures |GRAVITY_TABLE| == 15
    ensures GRAVITY_TABLE[0] == 48 && GRAVITY_TABLE[14] == 1
    ensures forall i :: 0 <= i < |GRAVITY_TABLE| ==> GRAVITY_TABLE[i] >= 1
    ensures StrictlyDecreasing(GRAVITY_TABLE)
  {
  }

  /** Horizontal moves are mirror images two display columns wide (one cell
      is two columns), the down move is one row, and "no move" is zero. */
  lemma OffsetsShape()
    ensures LEFT_OFFSET == Negate(RIGHT_OFFSET)
    ensures LEFT_OFFSET.y == 0 && RIGHT_OFFSET.y == 0
    ensures RIGHT_OFFSET.x == 2 && LEFT_OFFSET.x == -2
    ensures DOWN_OFFSET == BoardXY(0, 1)
    ensures NO_OFFSET == BoardXY(0, 0)
  {
  }

  /** The seven block ids are pairwise distinct and are exactly 1..7, one
      per piece type. */
  lemma BlockIdsShape()
    ensures |BLOCK_IDS| == MINO_TYPES as int
    ensures Distinct(BLOCK_IDS)
    ensures forall k: u8 :: k in BLOCK_IDS <==> 1 <= k <= 7
  {
  }

  /** The game-state and timer-signal ids are pairwise distinct, and so are
      the two rotation directions. */
  lemma StateAndSignalIdsDistinct()
    ensures |STATE_IDS| == 4 && Distinct(STATE_IDS)
    ensures |SIGNAL_IDS| == 5 && Distinct(SIGNAL_IDS)
    ensures ROT_LEFT != ROT_RIGHT
  {
  }

  /** The play area is 10 cells wide and 20 cells high. */
  lemma BoardDimensions()
    ensures GAME_BOARD_WIDTH == 10 && GAME_BOARD_HEIGHT == 20
  {
  }
}
