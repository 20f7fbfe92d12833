# MicroChess in Dafny

A model of the MicroChess engine: chess on a 5 x 4 board, with a minimax
agent and material heuristics. It covers:

- the per-type destination generators and the "cannot check" short-cuts of
  `piece.py`;
- the `Position` engine of `microchess.py`: the starting layout,
  `create_copy`, `is_check`, `would_be_check`, `player_legal_moves`,
  `is_checkmate`, `winner`, `result` and `result_copy`;
- `minimax` and `choose_next_move` of `mini_max_agent.py`;
- `value_based_heuristic`, `simple_heuristic` and `uniform_heuristic` of
  `evaluate_heuristic.py`.

The model follows the code's behaviour exactly, except as listed
under "## Left out". A position is an immutable value. The engine's in-place
mutation is modelled by returning the position together with the result.
`would_be_check`, `player_legal_moves`, `is_checkmate` and `winner` return a
`(result, position)` pair. When a king is probed, the probe writes the
king's origin square back into the king cache. On a position whose cache is
right (`Engine.Valid`), the returned position is proved to be the input. On
any other position the change is kept and threaded through the search, as
the original does. `minimax` and `choose_next_move` return the root position
the search leaves behind, which is the caller's `pos` after the calls made
on it.

Source behaviour the model keeps:

- `result_copy` never moves the copy's king cache, so after a king move the
  child position records the square the king left.
- A pawn captures on the diagonal behind it. Its capture list holds the same
  entry twice, so it names the capture square twice.
- A side with no legal move loses, stalemate included.
- Among equally good children, minimax keeps the last one.
- `result` and `result_copy` read the colour of the origin square before any
  emptiness check, so an empty origin is an attribute error there. Here it
  is the `EmptyOrigin` fault.

Modules:

- `Util`: `Option`, `Result` and small integer helpers.
- `Pieces`: board, pieces and generators.
- `Engine`: the position engine.
- `EngineProofs`: invariants of the engine and facts about the starting
  position.
- `Search`: minimax.
- `Heuristics`: the evaluations.

## Model

| member | source | states |
|---|---|---|
| Pieces.Code | piece.py:4-9 | the type codes skip 1, the queen's code, and stay within 0..5 |
| Pieces.MoveTo | piece.py:66-71 | a moved piece keeps its colour, type and original square; only its current square changes |
| Pieces.Ray | piece.py:89-97 | the squares of one direction of `continuous_legal_moves`, from n steps out; `RayShape` states their shape |
| Pieces.RayShape | piece.py:89-97 | one direction of a sliding piece: consecutive squares n, n+1, ... steps out, each empty or enemy-held, all but the last empty; the ray stops at the edge, at a friendly piece, or just after the first enemy |
| Pieces.RaySighted | piece.py:89-97 | every square on a ray lies in the ray's direction with every square in between empty |
| Pieces.RayExact | piece.py:89-97 | every square the piece may enter that lies in the ray's direction with a clear line is on the ray |
| Pieces.Slide | piece.py:81-98 | `continuous_legal_moves`: the rays in the given directions, one after the other; `SlideSound` and `SlideComplete` state what they contain |
| Pieces.SlideSound | piece.py:81-98 | every square returned may be entered by the piece, lies in one of the given directions, and has a clear line to it |
| Pieces.SlideComplete | piece.py:81-98 | every square the piece may enter that lies in one of the given directions with a clear line to it is returned |
| Pieces.Steps | piece.py:107-111 | a square is returned exactly when the piece may enter it and its offset is one of those listed |
| Pieces.KingOffsets | piece.py:106 | the eight straight and diagonal offsets reach exactly the squares at king distance 1 |
| Pieces.KnightOffsets | piece.py:166 | the eight knight offsets reach exactly the (1, 2) and (2, 1) shapes |
| Pieces.StraightDirs | piece.py:15 | a line runs in a straight direction exactly when it stays on one row or one column |
| Pieces.DiagonalDirs | piece.py:14 | a line runs in a diagonal direction exactly when its row and column distances are equal |
| Pieces.KingMoves | piece.py:102-112 | the king reaches exactly the squares one step away in any direction that are empty or hold an enemy of the colour on its square |
| Pieces.RookMoves | piece.py:133-137 | the rook reaches exactly the enterable squares on its row or column with a clear line |
| Pieces.BishopMoves | piece.py:148-152 | the bishop reaches exactly the enterable squares on its diagonals with a clear line |
| Pieces.KnightMoves | piece.py:162-171 | the knight reaches exactly the enterable squares at a (1, 2) or (2, 1) jump, ignoring pieces between |
| Pieces.PawnPush | piece.py:194-198 | at most one square: one row towards the opponent (down for black, up for white) when it is on the board and empty; never a double step |
| Pieces.PawnCaptures | piece.py:199-206 | each entry of the capture list probes the same backward diagonal square, which is listed once per entry exactly when it holds an enemy |
| Pieces.PawnMoves | piece.py:182-207 | a pawn reaches only its push square (present whenever empty) and its capture square, listed twice when it holds an enemy |
| Pieces.Destinations | piece.py:42-46 | dispatch on the type; every destination is on the board, is not the piece's own square, and is not held by the side on that square |
| Pieces.CantCheck | piece.py:114-119 | the short-cuts of `cant_check_fxn` for the king (lines 114-119), rook (138-143), bishop (153-157), knight (172-177) and pawn (208-212); `CantCheckSound` states that none hides an attack |
| Pieces.CantCheckSound | piece.py:73-74 | when the short-cut says a piece cannot reach the (occupied) king square, the generator indeed does not list it, for every type |
| Engine.ScanLists | microchess.py:38-47 | the row-major scan of the first k cells lists, in board order and without repetition, exactly the pieces of one colour among those cells |
| Engine.Setup | microchess.py:12-49 | the starting layout, white to move, the lists by board scan and the kings cached at (0, 0) and (4, 3); `SetupValid` and `SetupLists` state its properties |
| Engine.Initial | microchess.py:51-57 | `initial_pos`: a copy of the starting position; `InitialIsSetup` and `InitialFacts` state what it is |
| Engine.CreateCopy | microchess.py:72-103 | the copy has the same occupied cells, each holding a fresh piece of the same colour and type built at the stored square; turn and king cache are copied; consistent boards give consistent copies with row-major lists; a valid position gives a valid copy |
| Engine.Attacked | microchess.py:156-161 | for an occupied target, the loop answers true exactly when some listed piece's generator reaches it; the short-cut never changes the answer |
| Engine.IsCheck | microchess.py:145-161 | when the cached square of the side to move is occupied, that side is in check exactly when some opposing listed piece reaches the square |
| Engine.WouldBeCheck | microchess.py:163-193 | every cell and list is restored after the probe; the returned cache puts a probed king back on its origin square; on a valid position nothing changes |
| Engine.Probe | microchess.py:175-184 | the position the probe inspects: the move made on the board and lists, and the cache moved with a king; `WouldBeCheckMeaning` states the probe's answer about it |
| Engine.RestoreExact | microchess.py:185-191 | undoing the probe rebuilds exactly the board and the lists it started from |
| Engine.CandidatesFrom | microchess.py:133-137 | for each listed piece in list order, a move to each of its destinations in generator order; `CandidatesSound` and `CandidatesComplete` state which moves it lists |
| Engine.CandidatesSound | microchess.py:133-137 | every move tried leaves some listed piece's square for one of that piece's destinations |
| Engine.CandidatesComplete | microchess.py:133-137 | every destination of every listed piece gives a move that is tried |
| Engine.Candidates | microchess.py:130-137 | the tried moves are exactly the generator moves of the side to move, each of which starts on one of its pieces and ends on an enterable square |
| Engine.Screen | microchess.py:133-139 | the kept moves come from those tried; on a valid position they are those that do not leave the mover in check, and the position is untouched |
| Engine.Unchecked | microchess.py:137-138 | a move is kept exactly when it is tried and the check probe says false |
| Engine.LegalMoves | microchess.py:125-139 | on a valid position, a move is legal exactly when the mover's generator produces it and it does not leave the mover's king attacked |
| Engine.Recheck | microchess.py:202-206 | on a valid position the second loop answers whether every listed move leaves the mover in check |
| Engine.IsCheckmate | microchess.py:195-206 | on a valid position: checkmate exactly when there are no legal moves |
| Engine.Winner | microchess.py:208-220 | a won game is won by the side not to move, and a draw means both lists hold a single piece. On a valid position the game is won exactly when there is no legal move, and drawn exactly when there is one and both lists hold a single piece |
| Engine.RemoveFirst | microchess.py:243-246 | `list.remove` fails exactly when the piece is not listed |
| Engine.RemoveFirstDrops | microchess.py:243-246 | a successful removal takes out the first occurrence only and keeps every other entry in order |
| Engine.Advance | microchess.py:240-254 | fails exactly when the destination holds a piece that is not in the opponent's list. Otherwise the origin is emptied and the moved piece stands on the destination, and every other cell is kept. The mover's list keeps its order with the mover relocated in place. The opponent's list loses only its first entry for the captured piece and keeps its order. The turn passes |
| Engine.AuditFrom | microchess.py:256-263 | the audit passes exactly when every remaining cell's piece stores its square and every king sits on its cached square |
| Engine.AuditMeansValid | microchess.py:256-263 | a full audit passes exactly when positions match and the king cache matches |
| Engine.Apply | microchess.py:222-264 | `result` faults on an empty origin or a piece of the side not to move. A success has matching positions and king cache, and the origin emptied. The moved piece is on the destination and the other cells are kept. The mover's list has the mover relocated in place, and the opponent's list loses only the captured entry, both keeping their order. The turn passes, and the mover's cache follows a moving king |
| Engine.ApplyCopy | microchess.py:266-300 | `result_copy`: faults on an empty origin or on a piece of the side not to move; a success has the move made on a fresh copy, the turn passed and the king cache left exactly as it was |
| EngineProofs.AdvanceOk | microchess.py:240-246 | on a consistent position the shared move step succeeds exactly when the destination is empty or holds an enemy of the mover |
| EngineProofs.AdvanceConsistent | microchess.py:240-254 | a move onto an enterable square keeps board and lists consistent |
| EngineProofs.CacheAfterMove | microchess.py:249-250 | a king cache that follows the moving king still matches every king after the move |
| EngineProofs.ApplyValid | microchess.py:222-264 | on a valid position `result` succeeds exactly when the side to move has a piece on the origin and the destination is enterable, and the result is valid again |
| EngineProofs.ApplyCopyConsistent | microchess.py:266-300 | on a consistent position `result_copy` succeeds exactly when the side to move has a piece on the origin and the destination is enterable, and the copy is consistent |
| EngineProofs.SetupCells | microchess.py:16-28 | in the starting layout every piece stands on its own square, and the only kings are black's at (0, 0) and white's at (4, 3) |
| EngineProofs.SetupLists | microchess.py:38-45 | the starting lists are black K, N, B, R, P and white P, R, B, N, K, in board order |
| EngineProofs.SetupValid | microchess.py:12-49 | the starting position is valid |
| EngineProofs.InitialIsSetup | microchess.py:51-57 | the copy handed out as the initial position equals the starting position |
| EngineProofs.InitialFacts | microchess.py:51-57 | the initial position is valid, white moves first, each side has five pieces, and the kings are cached at (0, 0) and (4, 3) |
| EngineProofs.StaleCacheWitness | microchess.py:266-300 | from the initial position the white king move (4, 3) to (3, 2) is generated and `result_copy` performs it, leaving a king whose cache entry no longer matches |
| EngineProofs.WouldBeCheckMeaning | microchess.py:163-193 | on a valid position whose mover's king stands on its cached square, the probe examines the king at its new square after a king move, else at its cached square, and answers true exactly when some opposing listed piece reaches that square |
| EngineProofs.CheckmateMeansNoEscape | microchess.py:195-206 | on a valid position: checkmate exactly when every generated move leaves the mover in check |
| EngineProofs.CapturedNeverChecks | microchess.py:163-193 | a piece captured by the probe stays in the opposing list during the probe, yet never reaches the king |
| Search.Child | mini_max_agent.py:45 | the child is consistent, its turn passes, and its king cache is the parent's |
| Search.Pick | mini_max_agent.py:41-58 | the loop over the children: a child value at least as good (`>=` for black, `<=` for white) replaces the running pair; `PickKeeps`, `PickSpec` and `PickBest` state its result |
| Search.Terminal | mini_max_agent.py:30-36 | a draw is worth 0; a black win is worth at least every score and a white win at most every score |
| Search.PickKeeps | mini_max_agent.py:44-49 | when no child value can replace the running pair, the loop returns it unchanged |
| Search.PickSpec | mini_max_agent.py:44-59 | when some child can replace the starting pair, the loop returns a child's value that every value is at most as good as, together with the last move whose value is that good |
| Search.PickFromExtreme | mini_max_agent.py:42-59 | started from minus infinity for black and plus infinity for white, the loop settles on a move exactly when there are moves, and on one of them |
| Search.PickBest | mini_max_agent.py:42-59 | started from the worst value, the loop returns a best value for the side to move and the last move attaining it |
| Search.Minimax | mini_max_agent.py:23-59 | a returned move is legal in the position as the winner checks leave it. On a valid position there is no move exactly when the game is decided or the depth is 0. The position left behind differs from the input only in its king cache, and on a valid position it is the input |
| Search.ChildValues | mini_max_agent.py:44-46 | one value per move |
| Search.ChooseNextMove | mini_max_agent.py:14-21 | the chosen move belongs to the side to move and is produced by its generator. On a valid position it is legal, and it is missing exactly when the game is decided or the depth is 0. The caller's position differs afterwards only in its king cache, and a valid position is left as it was |
| Search.MinimaxDecided | mini_max_agent.py:30-36 | a decided valid position is worth its outcome: 0 for a draw, plus infinity for a black win, minus infinity for a white win, and the position is left unchanged |
| Search.MinimaxNoMoves | mini_max_agent.py:30-36 | on a valid position, a side to move with no legal move has lost, stalemate included: plus infinity if white is stuck, minus infinity if black is, and the position is left unchanged |
| Search.MinimaxDraw | mini_max_agent.py:30-32 | a valid position with a single piece on each side and a move to make is worth 0 at every depth, and the position is left unchanged |
| Search.MinimaxLeaf | mini_max_agent.py:38-39 | an undecided valid position at depth 0 is worth its heuristic value, and the position is left unchanged |
| Search.MinimaxStep | mini_max_agent.py:41-59 | an undecided valid position above depth 0 has legal moves, and its value is the scan of their children's values, and the position is left unchanged |
| Search.MinimaxBest | mini_max_agent.py:41-59 | above depth 0, an undecided valid position is worth the best child value for the side to move, and the move returned is the last legal move whose child attains it |
| Heuristics.Weight | evaluate_heuristic.py:17-22 | the table `[0, 0] + w` gives kings 0 and a rook, bishop, knight or pawn its entry of `w`; the lookup fails exactly when the type code lies past the end |
| Heuristics.SideValue | evaluate_heuristic.py:18-22 | the sum of one side's weights, which always exists when the table has four or more weights |
| Heuristics.ValueBased | evaluate_heuristic.py:8-23 | `value_based_heuristic` fails exactly when a listed piece of either side has a type code past the table |
| Heuristics.SideValueCounts | evaluate_heuristic.py:18-22 | with four or more weights a side's value is its weighted count of rooks, bishops, knights and pawns, whatever the order or squares |
| Heuristics.SideValueFails | evaluate_heuristic.py:19-22 | a side's sum fails exactly when some listed piece has a type code past the table |
| Heuristics.ValueBasedMaterial | evaluate_heuristic.py:8-23 | with four or more weights the evaluation never fails, and is black's material minus white's |
| Heuristics.Simple | evaluate_heuristic.py:25-30 | the simple evaluation is the material difference with rook 6, bishop 3, knight 3 and pawn 1 |
| Heuristics.Uniform | evaluate_heuristic.py:32-36 | `uniform_heuristic` counts every type alike: black's count of each type summed, minus white's |
| Heuristics.UniformIsUnitWeights | evaluate_heuristic.py:32-36 | when both sides have as many kings, the uniform count equals the value-based evaluation with every weight 1 |
| Heuristics.CountTotal | evaluate_heuristic.py:32-36 | a list's length is the sum of its per-type counts |
| Heuristics.MaterialAdd | evaluate_heuristic.py:19-22 | with four or more weights the first piece always has a weight, and adds it to the material of the rest |
| Heuristics.ValueBasedSwap | evaluate_heuristic.py:8-23 | exchanging the two lists negates the evaluation, and one fails exactly when the other does |
| Heuristics.Balanced | evaluate_heuristic.py:8-36 | sides with equal counts of every type are level under every evaluation |
| Heuristics.SetupCounts | microchess.py:18-28 | each side starts with one piece of every type and five pieces in all |
| Heuristics.InitialLevel | evaluate_heuristic.py:8-36 | the initial position is worth 0 under every complete weight table, the simple evaluation and the uniform count |

## Left out

- The queen: its constructor passes no short-cut function and cannot be built, and no queen is ever on the board.
- `genetic_algorithm.py`, `compare_heuristic`, `random_heuristic`, the printing helpers and `my_tests.py`: these are outside the engine, search and heuristic code modelled here.
- Floating-point values: heuristic values are integers, and the two infinities of the search are the `NegInf` and `PosInf` cases of `Search.Score`.
- Python's negative list indices: moves and squares are required to be on the board, which every generated move is.
- The `ValueError` for an invalid colour in `is_check`: a `Color` can only be black or white.
- The object mutations `result` has already made when its closing audit fails: the model returns the fault instead of the half-updated position.
- Object identity: pieces are compared by value. On a valid position every square holds a different piece, so removing a captured piece from a list finds the same entry.
- A negative search depth: `depth` is a natural number.
- The heuristic is a parameter of the agent, so any function from positions to integers can be used.
- Engine.LegalMoves: states which moves are legal, not their order (list order, then generator order); the order only decides ties in the search.
- Engine.WouldBeCheck: requires the destination not to hold a piece of the mover's side. Every generated move meets this; the original would restore such a probe by object identity, which a value model cannot.
- Engine.IsCheck: the answer is characterised only when the cached king square is occupied. A stale cache can name a vacant square, where the pawn short-cut skips a pawn that could move there, so the answer is then not "some piece reaches the square".
- Engine.Winner: the draw test counts pieces, not kings, as the original does. A lone rook against a lone king counts as two lone kings; `Valid` does not require each side to have a king.
- EngineProofs.WouldBeCheckMeaning: stated only when the mover's king stands on its cached square. With a stale cache the probe looks at a square that may not hold the king.
- Search.Minimax: the value theorems `MinimaxDecided`, `MinimaxNoMoves`, `MinimaxDraw`, `MinimaxLeaf`, `MinimaxStep` and `MinimaxBest` are stated for valid positions. A child reached by a king move carries the stale cache described above.
- The weight order follows the code's type codes: rook, bishop, knight, pawn (indices 2 to 5 of the padded table).
