# Models and proofs for the Jac runtime's native passes, allocator, seed transpiler, cache and chess ports

Five independent parts of the repository are modelled in Dafny and their central properties proved
for all inputs. `dafny verify dfyconfig.toml` checks everything.

**1. Reference-count normaliser and pruner** (`jac/native/custom_passes.cpp`).
`RefIr` gives functions (blocks of instructions, successor lists), runs, and the meaning of a run: a
trace of events, the object each SSA value denotes (a `World` chooses it, so pointers may alias in
any way and a value may denote another object each time it is bound), and the reference count of every
object. `Balance` and `PruneTheory` hold the argument all methods share: if incref and decrefs
alternate on every run, the erased operations contribute one reference while the pair is open and
none otherwise. The imperative models follow: `RefNormalize`, `BlockPrune`, `DiamondPrune`,
`FanoutForward`, `FanoutBackward`, `FanoutPrune`, and the pass itself in `RefPrune`.
Three expectations turn out to need a condition, and the exact one is proved:
- The diamond method checks only that the decref cannot repeat. If the incref can (a loop at the
  head that avoids the tail), erasing the pair changes counts. `DiamondTheory.DiamondExact`: counts
  are kept if and only if no such bypass exists; `DiamondPrune.DiamondLoopUnsound` is a function,
  with an entry block that nothing leads to, that the pass accepts and breaks.
- Diamond and fan-out pruning look for other decrefs in the blocks between, never in the tail
  itself. `WindowTheory.NeverFallsExact`: counts never dip before the erased decref if and only if
  no tail runs another decref first. `WindowTheory.NeverFallsForExact` says the same of one object
  on one run, and `WindowTheory.WholeTailSafe` goes on to the end of the tail: if those decrefs are
  on other objects, nothing dies in it that would not have died.
- The fan-out pass does not prune every incref that meets its condition: a walk that meets a decref
  of something else, or its head again, marks the head, and other increfs there are not tried.
  `FanoutPass.FanoutIdle`: the pass leaves a function alone if and only if no incref meets the
  condition unmarked; `FanoutPass.MaskedCandidateStays` is a candidate that is never pruned.
`FanoutForward.Goes`, `FanoutPrune.Fans` and `DiamondPrune.Accepted` say what is pruned by ways
through the function, and `RefPrune.RunOnFunction` ends only when nothing of it is left.

**2. JIT section allocator** (`jac/native/memorymanager.cpp`, `.h`). `GroupLayout` has the value
level (blocks, free lists, pending regions and their index links, carving, trimming, page
permissions); `MemoryManager` the class with its three groups, together with ghost logs of the
allocations made and the pages owned. `Sound`, the layout together with what refusals cannot break
of the permissions, holds over every sequence of calls, refused finalizations included. From it
alone, every successful finalization puts every allocation on its final pages
(`FinalizedAllocations`) and makes all permissions right, `PermissionsOk`, under which fresh
allocations are writable. A finalization that the operating system refuses half-way leaves them
right exactly if the blocks protected before the refusal are empty (`RefusedCode`, `RefusedData`):
protected pages stay listed as pending.

**3. Seed transpiler** (`jac/jaclang/jac0.py`) at three levels, each a printer and its reader.
- Tokens: `LexSyntax` says what text lexes to, `Lexer` is the class that moves over the source,
  `LexRoundTrip` proves that lexing printed tokens gives them back if and only if no token clashes
  with the one or two after it, and names all clashes; `LexGaps` what is passed over between tokens,
  and `LexForms` which characters make which token.
- Indented code: `PySource` says which indentation tree a statement stands for in a lexical context,
  `CodeGen` is the class with its mutable `indent`, `inClass`, `archKind`, `PyLines` reads suites from
  indentation alone, `PySolid` proves that the trees are read back if and only if every body with
  statements emits a line, `PyText` the same of the lines joined into one text, if also no text of
  a statement holds a line end. `PyParse` and `PyReader` read statements of Python from lines and
  trees, with their own keywords and grammar; `PyMeaning` says which of them each statement means, and
  `PyBack` that its lines are read as exactly those. A switch is one `if` chain if and only if its
  default is the last of several cases (`PyBack.SwitchExactly`); a lone default after an `if` is read
  as the `else` of that (`PyBack.StrayDefault`).
- Wires: `WireSyntax` has wires, their canonical tokens and the imports they mean; `WireReader` what
  is read from any tokens, and the reader class; `WireRoundTrip` that reading undoes printing. It
  fails for an unquoted provider whose name starts with `as` after a keyword, which is refused, or
  with `edge` without one, which is taken for a rule; `WireExact` proves that these are the only
  ones: a file is read back if and only if it has none. `WireFacts` starts from the other end: facts
  written as wires come back as these facts, and several consumers as one wire for each.

**4. Chess engine and generator** (`jac/examples/chess/other_langs/chess.cpp`,
`jac/examples/raylib_shooter/shooter.rs`). `ChessRules` describes moves on positions; `ChessBoard` is
the mutable board of shared piece objects with `MakeMove` and `UndoMove`; `ChessGame`, `ChessPlay` the
search by doing and undoing, and the automatic game; `ChessKings` that kings stay; `ChessGeometry` that
the generated moves are exactly those that geometry allows, and in which order; `ChessRights` what
castling rights and castling amount to; `Lcg` the generator both programs use.

**5. Lock and atomic publication** (`jac/jaclang/jac0core/cache_paths.py`). `CacheProtocol` is a state
machine over the steps of any number of processes on a file system of names and inodes, with crashes,
failures and time-outs at any point, and readers that take no lock. `CacheFiles` says what is left
on the disk: permissions, and staging files only after a crash.

`Options` and `Numbers` hold what several parts use.

## Model

| member | source | states |
|---|---|---|
| RefNormalize.FindIncref | jac/native/custom_passes.cpp:114-160 | a block's search for an incref answers whether it holds one, at any place |
| RefNormalize.MoveDecrefs | jac/native/custom_passes.cpp:114-160 | moving the listed decrefs one by one to the terminator gives the block with its other instructions first and all decrefs, in order, last before the terminator |
| RefNormalize.RunOnFunction | jac/native/custom_passes.cpp:114-160 | the pass gives the normal form of every block, reports a change exactly if some block holds both an incref and a decref, and keeps every object's count after every run |
| RefNormalize.NormalizedAgrees | jac/native/custom_passes.cpp:114-160 | after every run the normal form leaves every value and every object's count as the original does, under any aliasing |
| RefNormalize.NormalizedKeepsSsa | jac/native/custom_passes.cpp:114-160 | the normal form still defines every value before its uses, and once if the function did |
| RefNormalize.DelayDecref | jac/native/custom_passes.cpp:114-160 | a decref commutes with any events that do not rebind its pointer |
| RefIr.TraceOfErase | jac/native/custom_passes.cpp:255-322 | running a function without some instructions is running it and leaving out their events |
| RefIr.CountKeep | jac/native/custom_passes.cpp:255-322 | leaving out reference operations changes every count by exactly what they contributed |
| Balance.DominatorNotOpen | jac/native/custom_passes.cpp:530-685 | while a pair is open no block that dominates the head is entered, so the pointer cannot be rebound before the decref |
| Balance.ErasedContribution | jac/native/custom_passes.cpp:530-685 | on every run of every function, an alternating pair contributes one reference to what its pointer denotes while open, and nothing otherwise |
| PruneTheory.PrunedCount | jac/native/custom_passes.cpp:530-685 | the pruned count is always the original, or one less |
| PruneTheory.EraseKeepsNet | jac/native/custom_passes.cpp:530-685 | if the pair is closed at every exit, every object's net count on every complete run is unchanged |
| BlockPrune.Scan | jac/native/custom_passes.cpp:255-282 | the scan lists exactly the block's increfs, decrefs and refops on null |
| BlockPrune.MatchPairs | jac/native/custom_passes.cpp:283-319 | matching erases, for every pointer, exactly as many increfs as decrefs, as many as the smaller number |
| BlockPrune.PruneBlock | jac/native/custom_passes.cpp:255-322 | a block loses its refops on null and exactly the minimum of increfs and decrefs of each pointer; all else stays in order, and every count after every run is kept |
| BlockTheory.ErasePairKeepsCounts | jac/native/custom_passes.cpp:283-319 | one incref and one decref of one pointer in one block can go: every object's count after every run is kept |
| BlockTheory.EraseNullKeepsCounts | jac/native/custom_passes.cpp:255-282 | refops on null can go |
| BlockSafety.UseStaysLive | jac/native/custom_passes.cpp:114-160 | in a normalised, pruned block an object at any instruction has at least its original count there, or what it had on entry plus the references born since |
| DiamondTheory.DiamondExact | jac/native/custom_passes.cpp:367-438 | for a dominating, postdominated pair whose head is passed before each tail, net counts are kept if and only if no run bypasses the tail round the head |
| DiamondTheory.BypassBreaksNet | jac/native/custom_passes.cpp:367-438 | a bypass changes the net count on some complete run |
| WindowTheory.NeverFallsExact | jac/native/custom_passes.cpp:367-438 | between head and erased decref no count falls, whatever the pointers denote, if and only if no tail runs another decref before the erased one |
| DiamondPrune.HasDecrefBetweenGraph | jac/native/custom_passes.cpp:1080-1120 | the graph search answers exactly whether a block reachable from the head before the tail holds a decref |
| DiamondPrune.IsDiamond | jac/native/custom_passes.cpp:367-438 | a pair is accepted if and only if it is of one pointer in two blocks, one dominating, the other postdominating, no trail leads back to the decref without the incref, and no decref lies between |
| DiamondPrune.DiamondResult | jac/native/custom_passes.cpp:367-438 | an accepted pair can be erased: the rest is well formed, and net counts are kept unless a candidate is bypassed |
| DiamondPrune.RunDiamondPrune | jac/native/custom_passes.cpp:367-438 | the subpass takes the increfs in order, each with the first accepted decref left, and gives exactly the function without these pairs; it reports a change exactly if it erased any, and keeps every net count if no candidate is bypassed |
| DiamondPrune.DiamondIdle | jac/native/custom_passes.cpp:367-438 | the subpass leaves a function as it is if and only if no incref and decref in it are an accepted pair |
| DiamondPrune.DiamondLoopUnsound | jac/native/custom_passes.cpp:367-438 | a concrete loop at the head that passes every check, and whose net counts change |
| DiamondPrune.DiamondPruneSafe | jac/native/custom_passes.cpp:367-438 | without a bypass, counts never fall before the erased decref if and only if the tail is clean; with decrefs on other objects before it, no object dies early in the whole tail |
| FanoutForward.Walk.WalkChild | jac/native/custom_passes.cpp:773-853 | the recursive walk keeps its path stack, comes to the answer and the count of the depth-first order, and if it answers true its child is finished: a decref block, a raising block, on the stack, or with every successor finished |
| FanoutForward.FindFanoutDecrefCandidates | jac/native/custom_passes.cpp:720-751 | the walk succeeds if and only if the head has a successor, no way from it leads to an exit, a foreign decref or the head again or is 15 distinct blocks long, and there are no more ways than the limit if the counter can exceed it; then the region is covered; the head is marked exactly if the first failure in depth-first order marks it |
| FanoutForward.MarksBecause | jac/native/custom_passes.cpp:773-853 | a head is marked only for a way to a foreign decref or back to it, or too many ways; a failure that marks nothing has a way to an exit or one too long |
| FanoutForward.CoveredEnds | jac/native/custom_passes.cpp:720-853 | the collected blocks are exactly those with a decref of the pointer, or raising, at which ways from the head end |
| FanoutForward.CoveredNoBadWay | jac/native/custom_passes.cpp:720-853 | over a covered region no way from the head avoiding the collected blocks ends at a decref, an exit or the head |
| FanoutForward.HeadNotReentered | jac/native/custom_passes.cpp:720-853 | no run comes back to the head while its pair is open |
| FanoutBackward.VerifyFanoutBackward | jac/native/custom_passes.cpp:872-936 | the worklist search answers true exactly if no trail leads back from a tail to the entry, another tail or a raising block without the head |
| FanoutBackward.NoBadTrailHeadFirst | jac/native/custom_passes.cpp:872-936 | then every run to a tail passes the head, and passes it again between two visits to tails |
| FanoutPrune.FindFanout | jac/native/custom_passes.cpp:649-685 | a fan-out is found if and only if the walk's condition holds, some way ends at a decref of the pointer and, in the raise variant, some at a raising block, and no bad trail leads back from where ways end; the decref blocks are exactly those at which ways end |
| FanoutPrune.WalksMakeFanout | jac/native/custom_passes.cpp:649-685 | forward and backward walk together make head and tails alternate strictly on every run, closed at every exit |
| FanoutPrune.EraseFanout | jac/native/custom_passes.cpp:560-600 | erases the incref and the first matching decref of every tail, and nothing else |
| FanoutPrune.FanoutPruneSound | jac/native/custom_passes.cpp:530-685 | an erased fan-out keeps every net count, and every count but for one reference while open (through no raising block in the raise variant) |
| FanoutPrune.FanoutPruneSafe | jac/native/custom_passes.cpp:530-685 | counts never fall before an erased decref if and only if no tail runs another decref first; with such decrefs on other objects, no object dies early in the whole tail |
| RefPrune.RunPerBasicBlockPrune | jac/native/custom_passes.cpp:255-322 | the subpass leaves no block with a refop on null or with an incref and a decref of one pointer, and keeps every net count |
| RefPrune.RunFanoutPrune | jac/native/custom_passes.cpp:530-605 | the subpass tries the increfs in order, each unless its head holds a decref or was marked, and gives exactly the function without those that meet the condition and their decrefs; it reports a change exactly if it erased any, and keeps every net count |
| FanoutPass.FanoutIdle | jac/native/custom_passes.cpp:530-605 | the subpass leaves a function as it is if and only if no incref in a head without decrefs meets the fan-out condition with none before it in its block that marks the head |
| FanoutPass.MaskedCandidateStays | jac/native/custom_passes.cpp:530-605 | a concrete function with an incref that meets the condition and is never tried |
| RefPrune.RunOnFunction | jac/native/custom_passes.cpp:201-222 | each round is exactly the enabled subpasses in their order; the rounds end, because each that changed anything erased a reference operation, and end only when no enabled subpass finds anything; net counts are kept, and with per-block pruning alone counts at the end of every block of every run |
| RefPrune.NormalizeAndPrune | jac/native/custom_passes.cpp:1162-1195 | normalising and then pruning erases only reference operations of the normal form, reports a change exactly if some decref moved or any operation went, and keeps every net count of the original; with per-block pruning alone the result is one that `BlockSafety` is about |
| WindowTheory.TailMoment | jac/native/custom_passes.cpp:530-685 | at every instruction of a tail the pruned count is the original one, but for one reference to the pair's object before the erased decref |
| WindowTheory.NeverFallsForExact | jac/native/custom_passes.cpp:530-685 | on each run an object's count never falls before the erased decref if and only if the tail runs no decref on this object before it |
| WindowTheory.WholeTailSafe | jac/native/custom_passes.cpp:530-685 | if the tail's earlier decrefs are on other objects, every object has, at every instruction of the tail, its original count or at least what it had when the head was entered |
| PassTheory.PassShrinks | jac/native/custom_passes.cpp:201-222 | a pass that erased anything left strictly fewer reference operations |
| PassTheory.PassThen | jac/native/custom_passes.cpp:201-222 | passes compose: what both erased is erased, and counts are still kept |
| PageMath.SizeFormulasAgree | jac/native/memorymanager.cpp:59-60 | the padded size asked of a free block and the one reserved are the same number |
| PageMath.RequiredSizeFits | jac/native/memorymanager.cpp:59-60 | computed in 64 bits it does not wrap while size and twice the alignment fit |
| PageMath.OverlapReaches | jac/native/memorymanager.cpp:286-305 | the start overlap takes a base exactly to the next page boundary |
| GroupLayout.CarveKeepsOk | jac/native/memorymanager.cpp:62-113 | carving keeps the layout and adds an aligned allocation apart from all others inside its pending block, whether a pending block grows or is created |
| GroupLayout.TrimExact | jac/native/memorymanager.cpp:286-305 | a block ending on a page boundary loses just its partial first page; the unsigned subtraction does not wrap |
| GroupLayout.AppliedKeepsOk | jac/native/memorymanager.cpp:307-330 | applying permissions, trimming and dropping empty blocks keeps the layout with nothing pending |
| GroupLayout.AppliedRestoresPerms | jac/native/memorymanager.cpp:307-330 | afterwards every allocation of the group lies on pages of its final permission and every free block on writable ones, even after an application that was refused half-way |
| GroupLayout.StoppedKeepsHeld | jac/native/memorymanager.cpp:307-330 | an application refused after any number of blocks keeps pages that are all free writable and what was finalized final |
| GroupLayout.CarveKeepsHeld | jac/native/memorymanager.cpp:62-113 | carving keeps them too, whatever was refused before |
| GroupLayout.StoppedExactly | jac/native/memorymanager.cpp:307-330 | stopped after some blocks, permissions are right if and only if those blocks are empty |
| GroupLayout.CarveLeavesSpace | jac/native/memorymanager.cpp:83-113 | carving for a request takes at most its padded size from what some free block holds |
| MemoryManager.AlignmentExactly | jac/native/memorymanager.cpp:53-57 | an alignment is accepted if and only if it is 0 or a power of two |
| MemoryManager.LlvmliteMemoryManager.AllocateSection | jac/native/memorymanager.cpp:42-121 | answers an address exactly if a free block is large enough, the first that is; the new state is that block carved, the invariant is kept, and while permissions are right the bytes are on writable pages |
| MemoryManager.LlvmliteMemoryManager.CheckSpace | jac/native/memorymanager.cpp:123-130 | answers exactly whether some free block is large enough |
| MemoryManager.LlvmliteMemoryManager.ReserveAllocationSpace | jac/native/memorymanager.cpp:132-251 | changes nothing if nothing is asked for or every group has room for what its section requires, and divides a fresh region in every other case; keeps the invariant and right permissions, and leaves each group with a nonzero need a block that meets it |
| MemoryManager.LlvmliteMemoryManager.Reserve | jac/native/memorymanager.cpp:186-251 | drops what was free and gives each group its page-aligned share of the fresh region |
| MemoryManager.LlvmliteMemoryManager.AllocateAll | jac/native/memorymanager.cpp:42-121 | any sequence of requests in any order of groups: what a group was promised as a whole, each of its requests gets |
| MemoryManager.ReservationIsEnough | jac/native/memorymanager.cpp:157-182 | after a reservation, requests to a group whose padded sizes sum to its required size at most find room |
| MemoryManager.LlvmliteMemoryManager.ApplyMemoryGroupPermissions | jac/native/memorymanager.cpp:307-330 | protects pending blocks in order; its state when all succeed, and when the operating system refuses one |
| MemoryManager.LlvmliteMemoryManager.FinalizeMemory | jac/native/memorymanager.cpp:253-281 | a success, whatever was refused before it, gives the state with all code executable, all constants read-only and right permissions; a failure gives the state at the refused block, and nothing else has changed |
| MemoryManager.RefusedCode | jac/native/memorymanager.cpp:253-281 | a refusal in the code group: permissions stay right if and only if the blocks protected before it are empty |
| MemoryManager.RefusedData | jac/native/memorymanager.cpp:253-281 | the same for the constants, after the code was protected |
| MemoryManager.FinalizedPermitted | jac/native/memorymanager.cpp:253-281 | from any state that calls can lead to, refused ones included, finalizing makes all permissions right |
| MemoryManager.FinalizedAllocations | jac/native/memorymanager.cpp:253-281 | after a successful finalization every allocation ever made lies only on pages of its final permission: executable, read-only or writable |
| MemoryManager.AllocationsPermitted | jac/native/memorymanager.cpp:253-330 | in every reachable state a finalized allocation lies only on pages of its final permission, and a pending one on pages that are writable or have it |
| MemoryManager.AllocationsApart | jac/native/memorymanager.cpp:42-121 | all allocations of all groups are pairwise disjoint |
| MemoryManager.PendingHoldsOnce | jac/native/memorymanager.h:183-200 | an allocation is aligned, inside reserved memory, apart from free blocks, and, until finalized, in exactly one pending block |
| MemoryManager.ReservedInOk | jac/native/memorymanager.cpp:186-251 | the state after dividing a fresh region satisfies the layout invariant |
| Lcg.FullPeriod | jac/examples/chess/other_langs/chess.cpp:124-130 | from any state every one of the 2^31 states is visited before the first repeats |
| Lcg.ReturnsExactly | jac/examples/chess/other_langs/chess.cpp:124-130 | a state comes back after n steps if and only if 2^31 divides n |
| Lcg.WrappingIsExact | jac/examples/chess/other_langs/chess.cpp:124-130 | unsigned 64-bit wrapping gives the exact recurrence for every seed |
| Lcg.OrbitBegins | jac/examples/chess/other_langs/chess.cpp:124-130 | the first three numbers from the seed 12345 |
| Lcg.RecurrenceFrom | jac/examples/chess/other_langs/chess.cpp:124-130 | the recurrence is the one settled by its values at 0 and 1 |
| Lcg.Generator.RandomInt | jac/examples/chess/other_langs/chess.cpp:126-130 | advances by the recurrence even if there is nothing to choose, and answers below the maximum |
| Lcg.Shooter.Rand01 | jac/examples/raylib_shooter/shooter.rs:370-374 | advances by the same recurrence; no product or sum leaves the signed 64-bit range; the result is in [0, 1) |
| ChessRules.RawShaped | jac/examples/chess/other_langs/chess.cpp:145-240 | every raw move leaves its own square for another on the board not held by its colour, with flags that match what it does |
| ChessGeometry.RawExactly | jac/examples/chess/other_langs/chess.cpp:144-228 | a move is generated if and only if geometry allows it: lines of empty squares up to an empty or enemy one, knight's and king's steps, a pawn's pushes, captures, en passant and promotion by colour and row |
| ChessGeometry.TakenInOrder | jac/examples/chess/other_langs/chess.cpp:144-228 | the order in which a man with enemies all round takes them |
| ChessGeometry.JumpsInOrder | jac/examples/chess/other_langs/chess.cpp:200-213 | the order in which a knight with enemies all round takes them |
| ChessGeometry.PawnInOrder | jac/examples/chess/other_langs/chess.cpp:169-198 | a pawn's moves come ahead before aside, short before long, left before right |
| ChessBoard.Board.MakeMove | jac/examples/chess/other_langs/chess.cpp:282-329 | making a fitting move leaves the board showing the position the rules give, and the move holding all that was overwritten |
| ChessBoard.Board.UndoMove | jac/examples/chess/other_langs/chess.cpp:331-358 | undoing it restores squares, every piece's square and flag, en-passant square and rights |
| ChessBoard.Board.PlayAndTakeBack | jac/examples/chess/other_langs/chess.cpp:282-358 | making any sequence of fitting moves and undoing it in reverse restores the whole board |
| ChessBoard.Board.SetUpPieces | jac/examples/chess/other_langs/chess.cpp:242-252 | sets up the initial position |
| ChessGame.LegalExactly | jac/examples/chess/other_langs/chess.cpp:380-417 | the non-castling legal moves are exactly the colour's raw moves after which its king is not attacked |
| ChessGame.LegalFits | jac/examples/chess/other_langs/chess.cpp:380-417 | every legal move, castling included, fits the board, so making and undoing apply |
| ChessGame.LegalKeepsReachable | jac/examples/chess/other_langs/chess.cpp:380-439 | what makes moves undoable is kept by every legal move |
| ChessRights.LegalInOrder | jac/examples/chess/other_langs/chess.cpp:380-417 | legal moves are listed by the square they start from, row by row, castlings last and the king's side first |
| ChessRights.CastledSquares | jac/examples/chess/other_langs/chess.cpp:399-416 | castling takes the king two columns towards an unmoved rook in that corner, which lands on the square the king crossed |
| ChessRights.RightsExactly | jac/examples/chess/other_langs/chess.cpp:298-310 | a move takes a right away if and only if it moves the king of its colour or a rook from its corner |
| ChessRights.RightsStay | jac/examples/chess/other_langs/chess.cpp:298-310 | in every game without castling a right is held only while its king stands unmoved at home |
| ChessRights.TakenRookLeavesRight | jac/examples/chess/other_langs/chess.cpp:298-310 | a rook taken on its corner leaves the right behind |
| ChessPlay.SlideMoves | jac/examples/chess/other_langs/chess.cpp:147-167 | the loops give the squares of each ray up to the first man, that one too if it is an enemy |
| ChessPlay.PawnMoves | jac/examples/chess/other_langs/chess.cpp:169-198 | single and double steps, captures, en passant and promotions, as on positions |
| ChessPlay.AttackedSquares | jac/examples/chess/other_langs/chess.cpp:274-280 | the set of targets of all raw moves of a colour |
| ChessPlay.InCheckNow | jac/examples/chess/other_langs/chess.cpp:360-378 | whether the first king found stands on an attacked square |
| ChessPlay.TryMove | jac/examples/chess/other_langs/chess.cpp:380-398 | making and undoing a move leaves the board as it was and tells whether the king was safe after it |
| ChessPlay.CastlingMoves | jac/examples/chess/other_langs/chess.cpp:399-416 | the castlings whose right, rook, empty squares and attacks allow them |
| ChessPlay.LegalMoves | jac/examples/chess/other_langs/chess.cpp:380-417 | the moves found are the legal ones in order, and squares, pieces, en-passant square and rights are unchanged |
| ChessPlay.Game.PlayAuto | jac/examples/chess/other_langs/chess.cpp:422-439 | the game ends; each move is the one that the generator's next number picks from the legal moves, the board shows the position after them, the outcome is mate, stalemate or too long a game, and if no move castles both kings are on the board at every position |
| ChessPlay.DrawnKeepsKings | jac/examples/chess/other_langs/chess.cpp:422-439 | in every such game without castling, both kings are on the board after any number of its moves |
| ChessKings.StepKeepsKings | jac/examples/chess/other_langs/chess.cpp:422-439 | a non-castling legal move keeps both kings and leaves the mover not in check |
| ChessKings.KingsStay | jac/examples/chess/other_langs/chess.cpp:422-439 | in every game without castling both kings are always on the board |
| ChessKings.InitialSafe | jac/examples/chess/other_langs/chess.cpp:242-252 | the initial position has one king each and no attacked king |
| CacheProtocol.StepInv | jac/jaclang/jac0core/cache_paths.py:73-161 | every step of every process, a crash or a failure included, keeps the protocol's invariant |
| CacheProtocol.MutualExclusion | jac/jaclang/jac0core/cache_paths.py:85-118 | at most one process is between taking the lock and releasing it |
| CacheProtocol.StepAtomic | jac/jaclang/jac0core/cache_paths.py:128-161 | a step leaves the destination alone or publishes the merge of exactly what was published before it |
| CacheProtocol.NoLostUpdate | jac/jaclang/jac0core/cache_paths.py:73-161 | at every moment of every interleaving the destination is the composition, in lock order, of all merges published |
| CacheProtocol.ReaderKeepsImage | jac/jaclang/jac0core/cache_paths.py:128-161 | an open reader keeps the complete image it opened |
| CacheProtocol.ReadersMonotone | jac/jaclang/jac0core/cache_paths.py:128-161 | readers that open later see the same image or a later one |
| CacheProtocol.ImagesChain | jac/jaclang/jac0core/cache_paths.py:128-161 | each image is what one job published over the one before |
| CacheFiles.ReplaceExactly | jac/jaclang/jac0core/cache_paths.py:123-161 | a replacement publishes the merge of what is there, with the permissions asked for, or those of what is there, or those of a new file |
| CacheFiles.PermissionsStay | jac/jaclang/jac0core/cache_paths.py:123-161 | over any number of publications without explicit permissions those of an image stay |
| CacheFiles.OnlyCrashesStray | jac/jaclang/jac0core/cache_paths.py:123-161 | no step leaves a staging name behind but a crash of the process that is staging, and that leaves just its name |
| CacheFiles.CalmLeavesNothing | jac/jaclang/jac0core/cache_paths.py:123-161 | an execution without such crashes leaves no staging file |
| Lexer.Lexer.Advance | jac/jaclang/jac0.py:140-149 | moves the position, past the end too, with line and column those of the text consumed |
| Lexer.Lexer.SkipBlanks | jac/jaclang/jac0.py:154-173 | skips blanks, line comments and block comments, closed or not |
| LexGaps.PassedExactly | jac/jaclang/jac0.py:154-173 | what is passed over is exactly a sequence of blanks, comments to the end of the line, and block comments up to their first end |
| LexForms.NameFound | jac/jaclang/jac0.py:256-275 | a name goes on as long as letters, digits and underscores do, and a backtick before it comes off |
| LexForms.DecimalFound | jac/jaclang/jac0.py:224-254 | a decimal number is digits, a point and digits, an exponent with its sign and digits, and a mark, each taken as long as it goes on and no longer |
| LexForms.RadixFound | jac/jaclang/jac0.py:226-231 | a number with a radix is `0`, one of its six letters, and letters, digits and underscores |
| LexForms.ShortFound | jac/jaclang/jac0.py:184-222 | a string between single quotes ends at the first of them that is not escaped, with any prefix letters |
| LexForms.LongFound | jac/jaclang/jac0.py:184-222 | one between triple quotes ends at the first three of them |
| LexForms.WordsApart | jac/jaclang/jac0.py:215-221 | folding puts the words of a text one space apart, whatever Unicode spaces were between them |
| LexForms.ThreeOps | jac/jaclang/jac0.py:299 | the operators of three characters |
| LexForms.TwoOps | jac/jaclang/jac0.py:278-298 | the operators of two characters |
| LexForms.OneOps | jac/jaclang/jac0.py:374-378 | the operators of one character |
| LexForms.Brackets | jac/jaclang/jac0.py:355-372 | the characters that are tokens of their own kind |
| LexForms.StringsAreLexemes | jac/jaclang/jac0.py:184-222 | strings of both forms, with any prefix, are lexemes, so that they come back when printed |
| LexForms.NumbersAreLexemes | jac/jaclang/jac0.py:224-254 | decimal numbers of all forms are lexemes |
| Lexer.Lexer.ReadString | jac/jaclang/jac0.py:184-222 | takes a short or long string with its prefix and escapes, and collapses the blanks of a short one that goes over lines |
| Lexer.Lexer.ReadNumber | jac/jaclang/jac0.py:224-254 | takes the longest number, where the end of the text counts as any mark, and a point only if no other follows |
| Lexer.Lexer.ReadToken | jac/jaclang/jac0.py:277-382 | appends the one token found by longest match, at the line and column where it starts, or refuses the character |
| Lexer.Lexer.Tokenize | jac/jaclang/jac0.py:277-385 | appends all tokens of the source and the end, or stops at the first character that starts none |
| Lexer.TokensAreLexemes | jac/jaclang/jac0.py:277-385 | kinds and values of those tokens are what the text lexes to, then the end |
| LexRoundTrip.LexingUndoesPrinting | jac/jaclang/jac0.py:624-654 | for every list of lexemes, lexing the printed text gives the same kinds and values if and only if no token clashes with those after it |
| LexRoundTrip.SafePairsComeBack | jac/jaclang/jac0.py:624-654 | in particular if no point stands beside a number, after a `?`, or before a point or ellipsis |
| LexRoundTrip.FirstFound | jac/jaclang/jac0.py:277-382 | the first printed token is found again if it does not clash, and another token in its place if it does |
| LexRoundTrip.JoinTokens | jac/jaclang/jac0.py:624-654 | the joining loop prints the tokens with the spaces of the rules |
| LexForms.SpacingRules | jac/jaclang/jac0.py:624-654 | between which two tokens there is no space, by kinds and values |
| PyLines.ReadRendered | jac/jaclang/jac0.py:2485-2489 | reading suites from indentation gives the trees that were rendered, blanks aside and a header without suite as a line |
| PyLines.ReadBackExactly | jac/jaclang/jac0.py:2485-2489 | exactly the same trees come back if and only if no suite is empty |
| PySolid.OutlineWhole | jac/jaclang/jac0.py:2542-2616 | a statement's tree has no empty suite, and stands for a line at all, exactly under a condition on the statement, wherever it stands |
| PySolid.ReadsBackExactly | jac/jaclang/jac0.py:2611-2616 | emitted statements are read back, with `pass` for an empty body, if and only if every body with statements emits a line |
| CodeGen.CodeGen.Line | jac/jaclang/jac0.py:2485-2489 | appends one line at the current indentation and changes nothing else |
| CodeGen.CodeGen.Emit | jac/jaclang/jac0.py:2542-2609 | appends exactly its statement's tree for the current context and restores indentation, class flag and archetype kind |
| CodeGen.CodeGen.EmitBody | jac/jaclang/jac0.py:2611-2616 | the same for a body, which is `pass` if it has no statement |
| CodeGen.CodeGen.EmitClass | jac/jaclang/jac0.py:2644-2727 | the same for a class, whose body is emitted as a class body of its own kind |
| CodeGen.CodeGen.EmitFunc | jac/jaclang/jac0.py:2786-2837 | the same for a function: receiver and event parameter depend on where it stands, and its body is no class body |
| CodeGen.CodeGen.EmitIf | jac/jaclang/jac0.py:3026-3040 | the same for if, elif and else |
| CodeGen.CodeGen.EmitTry | jac/jaclang/jac0.py:3055-3079 | the same for try and its clauses |
| CodeGen.CodeGen.EmitChoices | jac/jaclang/jac0.py:3098-3112 | the same for a switch, as a chain of comparisons |
| CodeGen.CodeGen.EmitFields | jac/jaclang/jac0.py:2889-2940 | the same for fields and inline property accessors |
| CodeGen.Generate | jac/jaclang/jac0.py:2506-2525 | from a new generator, the emitted lines are read back exactly under that condition, the text they are joined to if also no text of a statement holds a line end; they are read as the Python statements that the statements mean |
| PyText.TextReadsBackExactly | jac/jaclang/jac0.py:2525 | the joined text of any trees is read back if and only if no suite is empty and no text of theirs holds a line end |
| PyBack.ProgramBack | jac/jaclang/jac0.py:2542-3112 | the lines of any statements that can be told apart are read, by a reader with its own keywords and grammar, as the statements they mean: conditionals with all their branches, loops, handlers, cases, functions with receiver, parameters, decorators and result, classes with bases |
| PyBack.FuncParamsMean | jac/jaclang/jac0.py:2786-2837 | the parameters of a function are those given, after its receiver if it is a method that names none, and before the other side of its event |
| PyBack.SwitchExactly | jac/jaclang/jac0.py:3098-3112 | a switch is read as one chain of comparisons if and only if its default, if any, is the last of several cases |
| PyBack.StrayDefault | jac/jaclang/jac0.py:3098-3112 | after an `if`, a switch with only a default is read as the `else` of that `if` |
| WireReader.Reader.DottedName | jac/jaclang/jac0.py:3200-3205 | takes a dotted name and joins its parts without backticks |
| WireReader.Reader.SkipRule | jac/jaclang/jac0.py:3221-3232 | skips up to a semicolon outside braces, or the brace that closes the first one opened |
| WireReader.Reader.WireEntry | jac/jaclang/jac0.py:3234-3261 | keywords by lookahead, provider, alias, arrow and targets, or the parse error, for any tokens |
| WireReader.Reader.Target | jac/jaclang/jac0.py:3263-3298 | one fact for each alternative, in order, all with the same names and without alias if names are given |
| WireReader.Reader.Read | jac/jaclang/jac0.py:3207-3219 | ends on all tokens, with the facts of all blocks or the first parse error |
| WireRoundTrip.ReadingUndoesPrinting | jac/jaclang/jac0.py:3174-3302 | the tokens of any printed wire file are read as exactly what its wires mean: the product of targets and alternatives with scopes joined, rules skipped |
| WireRoundTrip.KeywordsBack | jac/jaclang/jac0.py:3236-3243 | keywords end where the provider starts, even one named like a keyword |
| WireRoundTrip.RuleBack | jac/jaclang/jac0.py:3221-3232 | a rule is skipped to its end and no further |
| WireRoundTrip.ProviderNamedAs | jac/jaclang/jac0.py:3234-3261 | one keyword, a provider named `as` and one target: the parse error complains about the target where an arrow is expected |
| WireExact.AsRefused | jac/jaclang/jac0.py:3234-3261 | after any keywords a wire whose unquoted provider starts with `as` is a parse error, whatever its dots, alias, arrow and targets |
| WireExact.EdgeSkipped | jac/jaclang/jac0.py:3221-3232 | without keywords a wire whose unquoted provider starts with `edge` is taken for a rule: dropped in silence with one target without names, refused with names |
| WireExact.ReadBackExactly | jac/jaclang/jac0.py:3174-3302 | a printed file whose wires all have a target is read back as what it means if and only if no provider starts like `as` after a keyword or `edge` without one |
| WireFacts.FactsComeBack | jac/jaclang/jac0.py:3174-3302 | facts written as wires, provider before the arrow and consumer after it, are read back as exactly these facts in order, with both names inside the scope if there is one, and without alias beside imported names |
| WireFacts.ReadApart | jac/jaclang/jac0.py:3263-3298 | a file is read as the one with a wire for each consumer of each wire, and without rules |

## Left out

- LLVM: dominance and postdominance are path definitions, a block's `isRaising` is a storing instruction in it, instructions are refops, definitions, allocations and others; statistics, debug output and the C exports are not modelled.
- RefPrune.RunOnFunction: net counts are stated for runs through no raising block when the raise variant is on, and only if no diamond candidate is bypassed; without that they can change, as `DiamondPrune.DiamondLoopUnsound` shows.
- FanoutPrune.FanoutPruneSafe: where a decref of a tail before the erased one is on the pair's own object, only the counts themselves are stated (`WindowTheory.TailMoment`), since the object may then die early.
- BlockPrune.PruneBlock: which of several increfs and decrefs of one pointer are erased is as in the source, the last incref with the first decref left, but the contract says only how many.
- MemoryManager.LlvmliteMemoryManager.AllocateSection: a request must have a size that fits 64 bits with twice its alignment added, as the source's unchecked arithmetic needs; alignments are rounded to multiples instead of masked, which is the same for the powers of two that `Align` allows; fewer pending blocks than the sentinel index. The comments in the header speak of a default alignment of 16; the code uses 8, and so does the model.
- MemoryManager.LlvmliteMemoryManager.FinalizeMemory: flushing the instruction cache is not modelled (the loop over pending blocks runs after they are cleared), nor is the near-block hint; the mapper returns a fresh block of whole pages and protection acts on all touched pages.
- Chess castling: attack detection gives pawn diagonals only onto occupied squares, so nothing is claimed about a castled king; printing and the benchmark are not modelled.
- CacheProtocol.NoLostUpdate: POSIX locking and rename only, staging names are fresh, a time-out is a choice to give up at any point; platform path rules are not modelled.
- Lexer.Lexer.ReadToken: letters and digits are ASCII; the source also takes those of other scripts in names and numbers.
- LexRoundTrip.LexingUndoesPrinting: letters and digits are ASCII; the backtick flag of a name is in the lexer's tokens but is lost by printing, which writes the name without it; a string lexeme is one that closes.
- Lexer.Lexer.ReadSymbol: finds the longest symbol by one function where the source slices the text three times.
- CodeGen.CodeGen.Emit: header texts that need no context (conditions as stripped of parentheses, import, field and alias lines, enum bases) are given as texts.
- CodeGen.CodeGen.EmitClass: impl blocks and their stitching into stubs are not modelled (the registry is empty, so an impl emits nothing); whether a class has a protocol among its bases is given.
- CodeGen.CodeGen.EmitFunc: an implementation from an impl block at module level is not spliced into a stub; a stub keeps its own body.
- CodeGen.CodeGen.EmitFields: the line of a field, with its default and its type, is given as a text.
- PyBack.ProgramBack: statements are told apart if every body with statements emits a line and texts are as a parser gives them: lines that are not decorators, defaults and types with balanced brackets and no comma outside them, types without ` = `, balanced type parameters, bases as a list, targets without ` in `, exception types without ` as `; brackets inside string literals count as brackets.
- CodeGen.Generate: the reader of texts knows lines, not string literals that go over several; the header imports that `generate` puts before and into the lines are not modelled.
- jac0's parser, token transformations, file discovery, import hooks and wire caching; the pattern that cuts a wire file into tokens.
- The rest of the repository: binding shims, drawing code, `osp0.py`, benchmarks.
