# Console shooter: a verified model of the frame logic

The repository is a tiny terminal shooter drawn with the ftxui library. It
comes in two variants, and each is modelled in its own Dafny module:

- **`FullScene`** (`full_scene.dfy`) models `src/Animacion.cpp`. A ship at
  (20, 24) zig-zags, reversing direction every 45 frames (a 90-frame
  cycle), and stays clamped to columns 0..60.
  It fires a missile from its nose every 10th frame, moves every missile up
  one row, and drops the missiles that have left the top of the screen. A
  formation of 15 aliens at (10 + 10 i, 3 + 5 j) zig-zags, reversing direction
  every 15 frames (a 30-frame cycle), and drops one row every 80 frames. After everything has moved, a
  collision pass kills every live alien that has some missile inside the box
  around its centre.
- **`ShipScene`** (`ship_scene.dfy`) models `src/animacion.cpp`. It has only
  a ship at (20, 20), which zig-zags, reversing direction every 50 frames (a
  100-frame cycle), and is clamped to columns 0..60. Each frame it moves its missiles, drops those outside rows
  0..80 (above or below), and only then fires every 5th frame, so the new
  missile is not moved in the frame it is fired. The file also defines an
  `Enemigo` with the same zig-zag, which the scene never places.
- **`Vectors`** (`vectors.dfy`) holds the stable filter that both ships use.
  It is the `erase(remove_if(...))` idiom on a `std::vector`, modelled as
  `RemoveIf`.

The model follows each variant's own structure:

- Every class whose fields change in place is a Dafny `class`: `Alien`,
  `Enemigo`, `Nave`, and the full scene's controller `Animacion`.
- Each class method states its new state through a pure step function over
  a state datatype, for example `State() == NaveNext(old(State()))`.
- Missiles are stored by value in the source, so they are a `datatype` held
  in a `seq`.
- The missile loop and the in-place compaction of the vector are `while`
  loops with invariants.
- The collision pass is two nested loops over the live alien objects.
- The properties are lemmas about the step functions and their iterates
  (`AlienRun`, `NaveRun`, `SceneRun`, `EnemigoRun`).

The two variants share names (`Misil`, `Nave`, `Mover`, `Disparar`), but
their constants and their order of operations differ, so the modules share
nothing except `Vectors`.

Two facts about the aliens' path that the code fixes:

- From a fresh alien, 15 moves give +13 columns, not +15. It steps right on
  frames 1..14 and left from frame 15 on (`src/Animacion.cpp:69-71`).
  `AlienSwayCadence` proves it (with `q = 0`).
- Nothing clamps the aliens horizontally. `AlienStaysNearColumn` bounds
  their drift instead.

## Model

| member | source | states |
|---|---|---|
| FullScene.Misil.Mover | src/Animacion.cpp:38 | a missile moves one row up and keeps its column |
| FullScene.FlightClimbs | src/Animacion.cpp:38 | after n moves a missile is exactly n rows higher, in the same column |
| FullScene.AlienNext | src/Animacion.cpp:67-73 | a dead alien does not change; a live one stays alive, its frame goes up by one, x moves by exactly one column and y grows by at most one row |
| FullScene.AlienRunClosedForm | src/Animacion.cpp:67-73 | after n moves a fresh alien at (x0, y0) is at x0 + Sway(n mod 30) and y0 + n div 80, on frame n, alive (14 steps right, 15 left, then repeat) |
| FullScene.AlienStaysNearColumn | src/Animacion.cpp:67-73 | a fresh alien never strays more than 1 column left or 14 columns right of its start, although nothing clamps it |
| FullScene.AlienSwayCadence | src/Animacion.cpp:69-71 | in every 30-frame period a fresh alien is 14 columns right of its start after 30q+14 moves and 13 after 30q+15; so 15 moves give +13 |
| FullScene.AlienDropCadence | src/Animacion.cpp:67-72 | a fresh alien has dropped q rows after 80q+79 moves and q+1 rows after 80q+80; so 80 moves give one row |
| FullScene.DeadAlienFrozen | src/Animacion.cpp:67-68 | however many times a dead alien moves, nothing about it changes |
| FullScene.Alien.constructor | src/Animacion.cpp:47-50 | a new alien is at its position, alive, on frame 0 |
| FullScene.Alien.Mover | src/Animacion.cpp:67-73 | the alien's new state is AlienNext of its old state |
| FullScene.Alien.Morir | src/Animacion.cpp:75 | the alien is dead afterwards and nothing else changes; a second call changes nothing more |
| FullScene.Alien.EstaVivo | src/Animacion.cpp:76 | returns whether the alien is alive |
| FullScene.NaveColumn | src/Animacion.cpp:111-116 | the ship's new column is within 0..60, and at most one column from an old column that was on screen |
| FullScene.NaveNext | src/Animacion.cpp:110-131 | after a frame the ship is within columns 0..60 on the same row, its frame is one higher, and no missile is above the screen |
| FullScene.NaveNextMissiles | src/Animacion.cpp:119-131 | the new missile vector is the old missiles moved and pruned, in order, followed by the new shot (already moved: column x+3, two rows above the ship) exactly when the frame is a multiple of 10 and the shot is still on screen |
| FullScene.NaveNextPrunes | src/Animacion.cpp:127-131 | a missile survives the frame if and only if it is a moved missile of the frame with y >= 0 |
| FullScene.NaveRunBounds | src/Animacion.cpp:110-131 | however many frames pass, the ship keeps its row; once it has moved it stays within columns 0..60 and has no missile above the screen |
| FullScene.NaveOpening | src/Animacion.cpp:110-135 | a fresh ship (the scene's at (20, 24)) holds exactly one missile after 10 frames, at (x0+13, y0-2), which is (33, 22); after 20 frames it holds that one 10 rows higher and a second at (x0+23, y0-2) |
| FullScene.Nave.constructor | src/Animacion.cpp:84-88 | a new ship is at its position on frame 0 with no missiles |
| FullScene.Nave.Mover | src/Animacion.cpp:110-132 | the ship's new state is NaveNext of its old state |
| FullScene.Nave.MovimientoLateral | src/Animacion.cpp:111-116 | the frame goes up by one and the column takes one clamped zig-zag step |
| FullScene.Nave.Disparar | src/Animacion.cpp:134-136 | appends one missile at (x+3, y-1) and keeps the others |
| FullScene.Nave.MoverMisiles | src/Animacion.cpp:123-124 | every missile in the vector is moved once, in place |
| FullScene.Nave.EliminarExpirados | src/Animacion.cpp:127-131 | the vector becomes its stable filter by y >= 0 |
| FullScene.Nave.GetMisiles | src/Animacion.cpp:138 | returns the ship's missile vector |
| FullScene.Hit | src/Animacion.cpp:191-194 | a missile is within an alien's collision box exactly when it lies on the 5 by 3 cells of the alien's drawing, columns x..x+4 and rows y..y+2 |
| FullScene.KillIfHit | src/Animacion.cpp:189-196 | one missile against one alien: the alien is alive afterwards exactly when it was alive and not hit; nothing else about it changes |
| FullScene.Resolve | src/Animacion.cpp:186-199 | the collision pass keeps the roster's length |
| FullScene.ResolveSpec | src/Animacion.cpp:186-199 | after the pass an alien is alive if and only if it was alive and no missile lies fewer than 3 columns from its column x+2 and fewer than 2 rows from its row y+1; nothing else about any alien changes |
| FullScene.ResolveOrderIndependent | src/Animacion.cpp:187-198 | the result of the pass depends only on which missiles exist, not on their order |
| FullScene.ResolvePerAlien | src/Animacion.cpp:188-197 | what happens to an alien depends only on that alien and the missiles, not on its place in the roster |
| FullScene.ResolveKeepsDead | src/Animacion.cpp:189 | the collision pass leaves every dead alien exactly as it was |
| FullScene.CollisionExamples | src/Animacion.cpp:189-196 | a missile at (23, 5) kills a live alien at (21, 4); one at (30, 5) does not; a dead alien stays as it is |
| FullScene.Animacion.ColisionesDe | src/Animacion.cpp:188-197 | one missile's inner loop kills exactly the live aliens it hits |
| FullScene.Animacion.DetectarColisiones | src/Animacion.cpp:186-199 | the roster becomes Resolve of the ship's missiles and the old roster; the ship does not change |
| FullScene.FormationLayout | src/Animacion.cpp:155-158 | the formation holds 15 live aliens on frame 0, in columns 10, 20, .., 50 and rows 3, 8, 13, no two in the same place |
| FullScene.Advance | src/Animacion.cpp:178-179 | moving every alien keeps the roster's length, kills and revives nobody, leaves the dead where they are, and ticks every live alien's clock once |
| FullScene.Animacion.constructor | src/Animacion.cpp:151-159 | the scene starts with the ship at (20, 24) and 15 distinct live aliens at (10 + 10 i, 3 + 5 j), column by column |
| FullScene.SceneNext | src/Animacion.cpp:177-182 | one frame moves the ship as NaveNext does, keeps the roster's length, and leaves every dead alien as it was |
| FullScene.SceneNextAlien | src/Animacion.cpp:177-198 | within a frame a live alien dies if and only if, after it has moved, some missile of the moved ship lies within its box |
| FullScene.Animacion.Step | src/Animacion.cpp:177-182 | the scene's new state is SceneNext of its old state, and the roster stays 15 distinct aliens |
| FullScene.SceneRun | src/Animacion.cpp:177-182 | death is final: after any number of frames the roster keeps its length and an alien dead at the start is unchanged |
| FullScene.SceneRunBounds | src/Animacion.cpp:177-182 | however long a scene runs from a ship on screen, the ship stays in columns 0..60 on its row and, after the first frame, no missile is above the screen |
| FullScene.SceneRunInvariant | src/Animacion.cpp:151-182 | the scene as created keeps 15 aliens, its ship within columns 0..60 on row 24, and no missile above the screen, forever |
| Vectors.RemoveIf | src/Animacion.cpp:127-131 | the elements the vector keeps, in order: none of them selected by the predicate, and no more of them than there were |
| Vectors.RemoveIfAppend | src/Animacion.cpp:127-131 | the pruning filter is stable: it distributes over concatenation |
| Vectors.RemoveIfMembers | src/Animacion.cpp:127-131 | an element survives if and only if it was present and the predicate rejects it |
| Vectors.RemoveIfPartition | src/animacion.cpp:144-148 | the survivors and the removed elements together are the whole vector, with multiplicity |
| Vectors.RemoveIfNone | src/animacion.cpp:144-148 | a vector in which nothing matches is left unchanged |
| ShipScene.FueraDePantalla | src/animacion.cpp:21 | an object is on screen (not "fuera") exactly when 0 <= y <= altura |
| ShipScene.Misil.Mover | src/animacion.cpp:87-89 | a missile moves one row up and keeps its column |
| ShipScene.ZigZag | src/animacion.cpp:59-66 | one zig-zag step lands within columns 0..60, at most one column from a column that was on screen |
| ShipScene.ZigZagUnclamped | src/animacion.cpp:60-66 | away from the walls the clamp does not bite: one step right in the first 50 frames of each 100, one step left in the rest |
| ShipScene.EnemigoNext | src/animacion.cpp:57-67 | an enemy's frame goes up by one; its row and liveness do not change; its column ends within 0..60 |
| ShipScene.EnemigoIgnoresVivo | src/animacion.cpp:57-67 | an enemy moves the same whether it is alive or dead |
| ShipScene.EnemigoRunBounds | src/animacion.cpp:57-69 | over any number of moves an enemy keeps its row and liveness; once it has moved it stays within columns 0..60 |
| ShipScene.EnemigoRunClosedForm | src/animacion.cpp:57-67 | a fresh enemy starting in columns 1..11 is, after n moves, at x0 + Sway(n mod 100) on the same row (49 steps right, 50 left) |
| ShipScene.EnemigoSwayCadence | src/animacion.cpp:59-63 | such an enemy is 49 columns right of its start after 100q+49 moves and one column left of it after 100q+99 |
| ShipScene.Enemigo.constructor | src/animacion.cpp:30-33 | a new enemy is at its position, alive, on frame 0 |
| ShipScene.Enemigo.Mover | src/animacion.cpp:57-67 | the enemy's new state is EnemigoNext of its old state |
| ShipScene.Enemigo.Morir | src/animacion.cpp:68 | the enemy is dead afterwards and nothing else changes; a second call changes nothing more |
| ShipScene.Enemigo.EstaVivo | src/animacion.cpp:69 | returns whether the enemy is alive |
| ShipScene.NaveNext | src/animacion.cpp:128-153 | after a frame the ship is within columns 0..60 on the same row, and its frame is one higher |
| ShipScene.NaveNextOnScreen | src/animacion.cpp:139-153 | after a frame every missile is within rows 0..80, except possibly the last one when it was just fired |
| ShipScene.NaveNextFires | src/animacion.cpp:150-159 | the vector starts with the survivors of the frame and holds one missile more exactly when the frame is a multiple of 5; that last missile is at (x+4, y-1) with the clamped x, unmoved |
| ShipScene.NaveNextMembers | src/animacion.cpp:139-159 | a missile is in the new vector if and only if it is a moved old missile within rows 0..80 or the shot of the frame |
| ShipScene.NaveNextDropsOnlyOffScreen | src/animacion.cpp:143-148 | the survivors and the dropped missiles together are the moved vector, with multiplicity, and every dropped missile is off screen |
| ShipScene.NaveRunBounds | src/animacion.cpp:128-153 | however many frames pass, the ship keeps its row; once it has moved it stays within columns 0..60 with every missile on screen except possibly a just-fired last one |
| ShipScene.NaveFirstShot | src/animacion.cpp:128-160 | a fresh ship (the scene's at (20, 20)) holds one unmoved missile at (x0+9, y0-1) after 5 frames, which is (29, 19) |
| ShipScene.NaveSecondShot | src/animacion.cpp:128-160 | after 10 frames it holds that missile five rows higher and a new one at (x0+14, y0-1): (29, 14) and (34, 19) |
| ShipScene.Nave.constructor | src/animacion.cpp:99-101 | a new ship is at its position on frame 0 with no missiles |
| ShipScene.Nave.Mover | src/animacion.cpp:128-153 | the ship's new state is NaveNext of its old state |
| ShipScene.Nave.MovimientoLateral | src/animacion.cpp:130-137 | the frame goes up by one and the column takes one clamped zig-zag step |
| ShipScene.Nave.Disparar | src/animacion.cpp:155-160 | appends one missile at (x+4, y-1) and keeps the others |
| ShipScene.Nave.MoverMisiles | src/animacion.cpp:140-141 | every missile in the vector is moved once, in place |
| ShipScene.Nave.EliminarFueraDePantalla | src/animacion.cpp:144-148 | the vector becomes its stable filter by 0 <= y <= 80 |

## Left out

- All `Dibujar` methods, the shapes (`forma`) and everything that touches
  ftxui (`Screen`, `PixelAt`, colours, `Print`, `ResetPosition`): rendering
  into a foreign library whose clipping cannot be seen.
- The endless `while (true)` loops of both `Iniciar` methods, their
  `sleep_for` pacing, `cout`, and both `main` functions: presentation I/O
  that never terminates. One pass is modelled as `Animacion.Step` in the
  full scene and as `Nave.Mover` in the ship-only scene, and any number of
  passes as `SceneRun` and `NaveRun`.
- The ship-only variant's `Animacion` class: it only builds `Nave(20, 20)`
  and calls its `Mover` in the endless loop. It is represented by the
  `NaveFirstShot` and `NaveSecondShot` lemmas at that position.
- `src/ejemplo.cpp`: it is not part of this model (a drawing demo whose
  only state is a counter inside an endless print loop).
- Fixed-width `int` overflow of the frame counters and of the rows of
  missiles that fly on: integers are unbounded here, and the source never
  guards them.
- Virtual dispatch through `ObjetoAnimado`: the concrete classes are
  modelled directly. `GetX`/`GetY` are plain field reads.
- The unused `frame` field of the full scene's `Animacion`.
- ShipScene.EnemigoRunClosedForm: it is stated only for start columns 1..11.
  From other columns the clamp at 0 or 60 bites, and the enemy's path is
  described only by `EnemigoRunBounds`.
