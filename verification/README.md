# rata-tetris, early snapshot: a Dafny model

This project models the logic that exists in an early version of a terminal
Tetris game written in Rust on top of ratatui. In that version most of the
engine is not written yet. What it does have is:

- a **piece catalog** (`src/minos.rs`): seven tetromino types, each with a
  fixed list of 0/1 rotation matrices, and `Mino::new`, which draws one type
  at random and starts at rotation 0;
- a **game session record** (`src/game.rs`): line count, seven per-type
  statistics counters, best and current score, level, a 20×10 board and the
  `playing`/`paused` flags. It also has the constructor, the counter bumps,
  `game_over` (which keeps the best score) and the pause toggle. The input
  methods return early when not playing or paused and do nothing otherwise;
- the **game tables** (`src/consts.rs`): line-clear base scores, the
  gravity frame table, board size, movement offsets, and the block, state and
  signal ids;
- the **layout arithmetic** (`src/ui.rs`): `calc_tile_size`, the tiling of
  the cached background over the terminal, and the size guard and centring
  of the game screen.

The source's fixed-width integers (`u8`, `u16`, `u32`, `i16`) are subset
types of `int` (module `Uints`). Its `usize` values (the board sizes in
`src/game.rs` and `src/consts.rs`, `BlockIndex`, and a piece's
`current_rotation`) are modelled as `nat`. Overflow is never wrapped: an
operation that could overflow carries a precondition, so a verified caller
never overflows.

Modules, one per file: `Uints` (uints.dfy), `Consts` (consts.dfy),
`Minos` (minos.dfy), `Session` (session.dfy) and `Ui` (ui.dfy).

Notes on what the model shows:

- **Two numberings.** The catalog numbers the types T=0, J=1, Z=2, O=3,
  S=4, L=5, I=6. The shared tables number them J=1, Z=2, O=3, S=4, T=5,
  L=6, I=7. Both are kept as written, in separate modules.
- **Rotation cycles.** For T, J, L, O and I, each rotation matrix is the
  clockwise quarter turn of the one before it, cyclically. Z and S keep
  their pivot column instead. Their second matrix is the quarter turn of
  the first moved one column right, and turning the second matrix gives
  the first back.
- **I is not square.** Standard Tetris rotation systems rotate I inside a
  4×4 box. This code uses a 1×4 box and a 4×1 box for I instead, and the
  model follows the code.
- **The game never starts.** Nothing in this version sets `playing`, so a
  fresh game stays on the start screen. The pause toggle and every input
  are therefore no-ops, and the board is never written.
  `Session.NeverLeavesStartScreen` and `Session.RunPreserves` prove this.
- **Centring is relative to (0, 0).** `Game::render` centres the screen
  using only the area's width and height and ignores its origin. The caller
  passes the whole frame, whose origin is (0, 0), so "inside the area"
  below means inside `[0, width) × [0, height)`.
- **The tile count.** `area.width / self.width + 1` is a `u16`. It cannot
  overflow for the cached background's 24×12 tiles. The model therefore
  asks for tiles at least 2 long, because a 1-wide tile could overflow.
  When the area is an exact multiple of the tile size, the last tile in
  that direction is empty (width or height 0).

## Model

| member | source | states |
|---|---|---|
| Uints.SaturatingSub16 | src/ui.rs:114 | the saturating difference: the exact difference when it is non-negative, zero otherwise, never more than the minuend |
| Uints.CheckedSub16 | src/ui.rs:160-161 | plain `u16` subtraction is only defined when it does not underflow; its result added back gives the minuend |
| Consts.BaseScoresShape | src/consts.rs:22 | five line-clear entries (0 to 4 lines), clearing nothing scores 0, strictly increasing: 0, 40, 100, 300, 1200 |
| Consts.GravityTableShape | src/consts.rs:65 | 15 frame counts, all at least 1, strictly decreasing from 48 to 1 |
| Consts.OffsetsShape | src/consts.rs:47-50 | left is the negation of right, both purely horizontal and two display columns wide; down is (0, 1) and no-move is (0, 0) |
| Consts.BlockIdsShape | src/consts.rs:24-38 | seven block ids, as many as `MINO_TYPES`, pairwise distinct, and a byte is one of them exactly when it is in 1..7 |
| Consts.StateAndSignalIdsDistinct | src/consts.rs:32-61 | the four game-state ids, the five timer-signal ids and the two rotation directions are pairwise distinct |
| Consts.BoardDimensions | src/consts.rs:43-44 | the play area is 10 cells wide and 20 high |
| Minos.NewMino | src/minos.rs:19-156 | a new piece has the drawn type and starts at rotation 0; that index is valid exactly when the type is one of the seven, and then every rotation is a well-formed tetromino |
| Minos.RotationCounts | src/minos.rs:26-149 | T, J and L have 4 rotations, Z, S and I have 2, O has 1, and any other value falls through to none |
| Minos.CatalogWellFormed | src/minos.rs:27-147 | every rotation of every type is rectangular, holds only 0 and 1, and has exactly four occupied cells |
| Minos.CatalogShapes | src/minos.rs:27-147 | T, J, Z, S and L rotations are 3×3, O is 2×2, and I's two rotations are 1×4 and 4×1 |
| Minos.RotationsDistinct | src/minos.rs:27-147 | no type lists the same matrix twice |
| Minos.RotationCycle | src/minos.rs:27-74 | for T, J, L, O and I each next rotation is the clockwise quarter turn of the previous one, wrapping around |
| Minos.ZigZagCycle | src/minos.rs:75-110 | for Z and S the second rotation is the quarter turn of the first shifted one column right (not the plain turn), and the turn of the second is the first |
| Minos.DrawnMinoIsUsable | src/minos.rs:22-23 | a type drawn from 0..7 gives a non-empty rotation list whose starting entry is a well-formed tetromino, so the fallthrough arm is never taken |
| Session.NewGame | src/game.rs:32-48 | a fresh record has zero lines, level and score, seven zero statistics, an all-zero 20×10 board, is neither playing nor paused, and takes the stored best score or 0 |
| Session.IncreaseLines | src/game.rs:54-56 | the line count grows by exactly one and no other field changes (no `u16` overflow) |
| Session.IncreaseStat | src/game.rs:58-60 | only counter `index` grows by one; every other counter and field is unchanged (index in range, no overflow) |
| Session.GameOver | src/game.rs:70-84 | level, lines, score and statistics reset; best score becomes the max of the old best and the run's score; the score file is written exactly when the run beat the best, with the run's score; board and flags untouched |
| Session.TogglePaused | src/game.rs:108-111 | no change when not playing; otherwise only `paused` flips |
| Session.SetTopScore | src/game.rs:62-68 | the best score becomes the loaded value, or 0 when loading failed, so it may go down; nothing else changes |
| Session.ApplyCommand | src/game.rs:87-107 | slam, drop-speed, move and rotate inputs leave the whole record unchanged in every state |
| Session.SetTopScoreMatchesNewGame | src/game.rs:35-40 | `set_top_score` on a fresh record yields exactly the record `Game::new` builds from the same load |
| Session.TogglePausedInvolution | src/game.rs:108-111 | toggling twice is the identity |
| Session.GameOverIdempotent | src/game.rs:70-84 | a second game over right after the first changes nothing and writes no score |
| Session.Step | src/game.rs:54-111 | one session operation fails exactly when it would overflow a counter or index a counter out of range |
| Session.RunPreserves | src/game.rs:50-111 | across any sequence of the modelled operations (inputs, pause toggle, line and piece counters, game over) the record keeps seven counters and a 20×10 board, the board is never written, `playing` never changes and the best score never decreases |
| Session.NeverLeavesStartScreen | src/game.rs:32-48 | from a fresh record no sequence of operations ever reaches playing or paused |
| Session.AgreesWithTables | src/game.rs:6-7 | the session's 10×20 board and seven counters agree with the shared tables and the piece catalog |
| Ui.CachedBackground | src/ui.rs:67-110 | the background pattern is 24 columns (12 cells, two columns each) by 12 rows |
| Ui.CalcTileSize | src/ui.rs:113-116 | never more than the tile size; 0 once the start is past the end; never reaches past the end; equal to the tile size exactly when the tile fits (or is empty); the cells it keeps are exactly the tile's cells before the end |
| Ui.TileCount | src/ui.rs:121-122 | the tiles laid along an axis cover more than its length, and all but the last fit whole |
| Ui.TileSpans | src/ui.rs:124-141 | the first tile starts at 0 and each next one a full tile length after the previous; the tiles stay inside the area, do not overlap, their lengths sum to exactly the area's length, and every position is covered |
| Ui.SteppedStarts | src/ui.rs:126-131 | in such an evenly stepped run tile i starts at i × size, the offset the loop computes |
| Ui.TileRects | src/ui.rs:118-143 | every background tile lies in the area, no two tiles share a cell, and every cell of the area is in some tile |
| Ui.ScreenLayout | src/ui.rs:150-164 | a notice is drawn exactly when the area is smaller than 64×28; otherwise the subtractions do not underflow, the 64×28 screen lies inside the area, and the margins on opposite sides differ by at most one |

## Left out

- `load_top_score`, `save_top_score` (src/game.rs:114-144): file-system I/O. The loaded value is the `storedTop` argument of `Session.NewGame` and the `loaded` argument of `Session.SetTopScore`. The write requested by `game_over` is the `saved` field of its outcome, and a failed write has no effect on the record.
- The random draw in `Mino::new` (src/minos.rs:22-23): the drawn type is the argument of `Minos.NewMino`.
- `board_insert` (src/game.rs:50-52) and the bodies of the input methods: they are empty in this version, so there is nothing to model beyond "no change".
- Collision, placement, line clearing, the 7-bag, level-up, score-by-level and the gravity timer: none of them exists in this version. The tables in `src/consts.rs` are defined there but not used anywhere.
- `src/main.rs`: keyboard dispatch, the drawing thread and the stop channel. This is input and concurrency plumbing. Space calls `toggle_paused` (`Session.TogglePaused`); the arrow and page keys call the input methods (`Session.ApplyCommand`).
- The drawing thread never sees a key press: `run` (src/main.rs:32-33) hands `draw_ui` a clone of the record taken before the key loop, and the keys change only the original. The model has one record and does not represent the two copies.
- `Session.SetTopScore` is not part of the event alphabet of `Session.Run`: it can lower the best score, so `Session.RunPreserves` promises a non-decreasing best score only for the other operations. Nothing in this version calls `set_top_score`.
- `draw_ui` and the widget drawing of `Game::render` and `CachedBackground::render` (src/ui.rs:146-317, apart from the arithmetic above): terminal I/O, sleeping and locking. `draw_ui` also calls `update()`, which `src/game.rs` does not define.
- The colours of the background pattern and the text art, layout sizes and palettes of `src/consts.rs` and `src/ui_consts.rs`: display data with no behaviour.
- `src/audio.rs`: entirely commented out.
- Integer overflow and panics: stated as preconditions (`Session.IncreaseLines`, `Session.IncreaseStat`, `Uints.CheckedSub16`, `Ui.TileCount`), or as the failing case of `Session.Step`, rather than modelled as wrap-around.
