/** The ship-only variant of src/animacion.cpp: a ship that zig-zags on a
    50-frame period and fires every 5th frame, and an enemy class with the
    same zig-zag that the scene never places. Drawing and the paced endless
    loop are not part of this model. */
module ShipScene {
  import opened Vectors

  // ---------------------------------------------------------------------
  // ObjetoAnimado: what every animated object shares
  // ---------------------------------------------------------------------

  /** Whether row `y` lies outside a screen of rows 0..altura. */
  function FueraDePantalla(y: int, altura: int): (fuera: bool)
    ensures !fuera <==> 0 <= y <= altura
  {
    y < 0 || y > altura
  }

  /** One frame of the shared zig-zag, from column `x` on frame `f`: right
      for 50 frames, left for 50, then clamped to columns 0..60. */
  function ZigZag(x: int, f: int): (c: int)
    ensures 0 <= c <= 60
    ensures x < 0 || x > 60 || Abs(c - x) <= 1
  {
    var x := if (f / 50) % 2 == 0 then x + 1 else x - 1;
    var x := if x < 0 then 0 else x;
    if x > 60 then 60 else x
  }

  /** Away from both walls the clamp does not bite: the zig-zag is a plain
      step right during the first half of each 100-frame period and a plain
      step left during the second. */
  lemma ZigZagUnclamped(x: int, f: int)
    requires 0 <= (if (f / 50) % 2 == 0 then x + 1 else x - 1) <= 60
    ensures ZigZag(x, f) == (if (f / 50) % 2 == 0 then x + 1 else x - 1)
  {
  }

  // ---------------------------------------------------------------------
  // Misil
  // ---------------------------------------------------------------------

  datatype Misil = Misil(x: int, y: int) {
    /** One frame of flight: one row up, same column. */
    function Mover(): (m: Misil)
      ensures m.x == x && m.y == y - 1
    {
      Misil(x, y - 1)
    }
  }

  /** Every missile of a vector moved once, in place. */
  function MoveAll(ms: seq<Misil>): seq<Misil>
  {
    seq(|ms|, i requires 0 <= i < |ms| => ms[i].Mover())
  }

  /** The ship's pruning predicate: a missile is dropped once it is off a
      screen of 80 rows, above or below. */
  predicate OffScreen(m: Misil)
  {
    FueraDePantalla(m.y, 80)
  }

  // ---------------------------------------------------------------------
  // Enemigo
  // ---------------------------------------------------------------------

  datatype EnemigoState = EnemigoState(x: int, y: int, frame: nat, vivo: bool)

  function NewEnemigo(x: int, y: int): EnemigoState
  {
    EnemigoState(x, y, 0, true)
  }

  /** One frame of an enemy: the zig-zag, alive or not. */
  function EnemigoNext(e: EnemigoState): (r: EnemigoState)
    ensures r.frame == e.frame + 1 && r.y == e.y && r.vivo == e.vivo
    ensures 0 <= r.x <= 60
  {
    EnemigoState(ZigZag(e.x, e.frame + 1), e.y, e.frame + 1, e.vivo)
  }

  /** An enemy moves the same whether it is alive or dead. */
  lemma EnemigoIgnoresVivo(e: EnemigoState, vivo: bool)
    ensures EnemigoNext(e.(vivo := vivo)) == EnemigoNext(e).(vivo := vivo)
  {
  }

  /** An enemy after `n` frames. */
  function EnemigoRun(e: EnemigoState, n: nat): EnemigoState
    decreases n
  {
    if n == 0 then e else EnemigoNext(EnemigoRun(e, n - 1))
  }

  /** However many frames pass, an enemy keeps its row and its liveness, and
      once it has moved it stays within columns 0..60. */
  lemma {:induction false} EnemigoRunBounds(e: EnemigoState, n: nat)
    ensures EnemigoRun(e, n).y == e.y && EnemigoRun(e, n).vivo == e.vivo
    ensures EnemigoRun(e, n).frame == e.frame + n
    ensures n > 0 ==> 0 <= EnemigoRun(e, n).x <= 60
  {
    if n > 0 {
      EnemigoRunBounds(e, n - 1);
    }
  }

  /** Horizontal displacement relative to the start, at a given point of the
      100-frame zig-zag: 49 steps right, 50 left, then right again. */
  function Sway(r: int): int
  {
    if r < 50 then r else 98 - r
  }

  /** How one frame changes the zig-zag offset. */
  lemma SwayStep(n: nat)
    requires n > 0
    ensures Sway(n % 100) == Sway((n - 1) % 100) + (if (n / 50) % 2 == 0 then 1 else -1)
  {
    var q, r := (n - 1) / 100, (n - 1) % 100;
    if r == 99 {
      assert n == 100 * (q + 1);
      assert n % 100 == 0 && n / 50 == 2 * q + 2;
    } else {
      assert n == 100 * q + (r + 1);
      assert n % 100 == r + 1;
      assert n / 50 == 2 * q + (r + 1) / 50;
    }
  }

  /** Closed form of a fresh enemy's path when it starts far enough from
      both walls that the clamp never bites: after `n` frames it is
      `Sway(n % 100)` columns right of its start, on the same row. */
  lemma {:induction false} EnemigoRunClosedForm(x0: int, y0: int, n: nat)
    requires 1 <= x0 <= 11
    ensures EnemigoRun(NewEnemigo(x0, y0), n) == EnemigoState(x0 + Sway(n % 100), y0, n, true)
  {
    if n > 0 {
      EnemigoRunClosedForm(x0, y0, n - 1);
      SwayStep(n);
      ZigZagUnclamped(x0 + Sway((n - 1) % 100), n);
    }
  }

  /** The column half of the closed form, on its own. */
  lemma EnemigoColumn(x0: int, y0: int, n: nat)
    requires 1 <= x0 <= 11
    ensures EnemigoRun(NewEnemigo(x0, y0), n).x == x0 + Sway(n % 100)
  {
    EnemigoRunClosedForm(x0, y0, n);
  }

  lemma PeriodOffsets(q: nat)
    ensures (100 * q + 49) % 100 == 49 && (100 * q + 99) % 100 == 99
  {
  }

  /** In every period the enemy reaches 49 columns right of its start after
      100 q + 49 frames, and one column left of it after 100 q + 99. */
  lemma EnemigoSwayCadence(x0: int, y0: int, q: nat)
    requires 1 <= x0 <= 11
    ensures EnemigoRun(NewEnemigo(x0, y0), 100 * q + 49).x == x0 + 49
    ensures EnemigoRun(NewEnemigo(x0, y0), 100 * q + 99).x == x0 - 1
  {
    PeriodOffsets(q);
    EnemigoColumn(x0, y0, 100 * q + 49);
    EnemigoColumn(x0, y0, 100 * q + 99);
  }

  class Enemigo {
    var x: int
    var y: int
    var frame: nat
    var vivo: bool

    function State(): EnemigoState
      reads this
    {
      EnemigoState(x, y, frame, vivo)
    }

    constructor (posX: int, posY: int)
      ensures State() == NewEnemigo(posX, posY)
    {
      x, y := posX, posY;
      frame := 0;
      vivo := true;
    }

    method Mover()
      modifies this
      ensures State() == EnemigoNext(old(State()))
    {
      frame := frame + 1;
      if (frame / 50) % 2 == 0 {
        x := x + 1;
      } else {
        x := x - 1;
      }
      if x < 0 {
        x := 0;
      }
      if x > 60 {
        x := 60;
      }
    }

    /** Kills the enemy; a second call changes nothing more. */
    method Morir()
      modifies this
      ensures State() == old(State()).(vivo := false)
    {
      vivo := false;
    }

    method EstaVivo() returns (b: bool)
      ensures b == vivo
    {
      b := vivo;
    }
  }

  // ---------------------------------------------------------------------
  // Nave: the ship, with the vector of missiles it owns
  // ---------------------------------------------------------------------

  datatype NaveState = NaveState(x: int, y: int, frame: nat, misiles: seq<Misil>)

  function NewNave(x: int, y: int): NaveState
  {
    NaveState(x, y, 0, [])
  }

  /** The missile fired on frame `f` by a ship at column `x`, row `y`: one,
      from the ship's centre, every 5th frame. */
  function Fired(x: int, y: int, f: int): seq<Misil>
  {
    if f % 5 == 0 then [Misil(x + 4, y - 1)] else []
  }

  /** One frame of the ship: the zig-zag, every missile moved up, the ones
      off screen dropped, and only then a shot every 5th frame. Every missile
      is on screen afterwards except, possibly, the shot just fired. */
  function NaveNext(s: NaveState): (r: NaveState)
    ensures 0 <= r.x <= 60 && r.y == s.y && r.frame == s.frame + 1
  {
    var f := s.frame + 1;
    var x := ZigZag(s.x, f);
    NaveState(x, s.y, f, RemoveIf(MoveAll(s.misiles), OffScreen) + Fired(x, s.y, f))
  }

  /** After a frame every missile is on screen except, possibly, the shot
      just fired at the end of the vector. */
  lemma NaveNextOnScreen(s: NaveState)
    ensures var r := NaveNext(s);
      forall i :: 0 <= i < |r.misiles| && !(i == |r.misiles| - 1 && r.frame % 5 == 0) ==>
        0 <= r.misiles[i].y <= 80
  {
  }

  /** The survivors of a frame: the missiles present before it, moved up,
      that are still on screen, in their order. */
  function Survivors(s: NaveState): seq<Misil>
  {
    RemoveIf(MoveAll(s.misiles), OffScreen)
  }

  /** A frame fires exactly when its number is a multiple of 5; the shot
      goes at the end of the vector, from the clamped column, unmoved, after
      the survivors. */
  lemma NaveNextFires(s: NaveState)
    ensures var r := NaveNext(s);
      && |Survivors(s)| <= |r.misiles| <= |Survivors(s)| + 1
      && r.misiles[..|Survivors(s)|] == Survivors(s)
      && (r.frame % 5 == 0 <==> |r.misiles| == |Survivors(s)| + 1)
      && (r.frame % 5 == 0 ==> r.misiles[|r.misiles| - 1] == Misil(r.x + 4, s.y - 1))
  {
    var r := NaveNext(s);
    assert r.misiles == Survivors(s) + Fired(r.x, s.y, r.frame);
  }

  /** A missile is in the vector after a frame exactly when it is a moved
      missile of the frame that is still on screen, or the shot of the
      frame. */
  lemma NaveNextMembers(s: NaveState, m: Misil)
    ensures var r := NaveNext(s);
      m in r.misiles <==>
        (m in MoveAll(s.misiles) && 0 <= m.y <= 80) || (r.frame % 5 == 0 && m == Misil(r.x + 4, s.y - 1))
  {
    RemoveIfMembers(MoveAll(s.misiles), OffScreen, m);
  }

  predicate OnScreen(m: Misil)
  {
    !OffScreen(m)
  }

  /** The missiles a frame drops: the moved ones that are off screen. */
  function Dropped(s: NaveState): seq<Misil>
  {
    RemoveIf(MoveAll(s.misiles), OnScreen)
  }

  /** Pruning removes nothing but missiles off screen: the survivors and the
      dropped missiles, each of them off screen, together make up the moved
      vector, with multiplicity. */
  lemma NaveNextDropsOnlyOffScreen(s: NaveState)
    ensures multiset(MoveAll(s.misiles)) == multiset(Survivors(s)) + multiset(Dropped(s))
    ensures forall i :: 0 <= i < |Dropped(s)| ==> Dropped(s)[i].y < 0 || Dropped(s)[i].y > 80
  {
    RemoveIfPartition(MoveAll(s.misiles), OffScreen, OnScreen);
  }

  /** The ship after `n` frames. */
  function NaveRun(s: NaveState, n: nat): NaveState
    decreases n
  {
    if n == 0 then s else NaveNext(NaveRun(s, n - 1))
  }

  /** However many frames pass, the ship stays on its row, and once it has
      moved at all it stays within columns 0..60, with every missile on
      screen except, possibly, a last one fired on the latest frame. */
  lemma {:induction false} NaveRunBounds(s: NaveState, n: nat)
    ensures NaveRun(s, n).y == s.y && NaveRun(s, n).frame == s.frame + n
    ensures n > 0 ==> 0 <= NaveRun(s, n).x <= 60
    ensures n > 0 ==> var r := NaveRun(s, n);
      forall i :: 0 <= i < |r.misiles| && !(i == |r.misiles| - 1 && r.frame % 5 == 0) ==>
        0 <= r.misiles[i].y <= 80
  {
    if n > 0 {
      NaveRunBounds(s, n - 1);
      NaveNextOnScreen(NaveRun(s, n - 1));
    }
  }

  /** A frame in which the ship drifts right without touching the wall and
      no missile leaves the screen. */
  lemma NaveDriftStep(s: NaveState)
    requires ((s.frame + 1) / 50) % 2 == 0 && 0 <= s.x < 60
    requires forall i :: 0 <= i < |s.misiles| ==> 1 <= s.misiles[i].y <= 81
    ensures NaveNext(s) == NaveState(s.x + 1, s.y, s.frame + 1,
      MoveAll(s.misiles) + (if (s.frame + 1) % 5 == 0 then [Misil(s.x + 5, s.y - 1)] else []))
  {
    var f := s.frame + 1;
    ZigZagUnclamped(s.x, f);
    assert ZigZag(s.x, f) == s.x + 1;
    RemoveIfNone(MoveAll(s.misiles), OffScreen);
    assert Fired(s.x + 1, s.y, f) == (if f % 5 == 0 then [Misil(s.x + 5, s.y - 1)] else []);
  }

  /** Where a fresh ship at (x0, y0) is, frame by frame, in its first 10
      frames, when it is far enough from the right wall and both edges of
      the screen. */
  function Opening(x0: int, y0: int, k: nat): NaveState
  {
    NaveState(x0 + k, y0, k,
      if k < 5 then []
      else if k < 10 then [Misil(x0 + 9, y0 + 4 - k)]
      else [Misil(x0 + 9, y0 - 6), Misil(x0 + 14, y0 - 1)])
  }

  /** The ship's cadences during its first 10 frames: it keeps drifting
      right, and it fires on frames 5 and 10 only. */
  lemma OpeningCadence(k: nat)
    requires 0 < k <= 10
    ensures (k / 50) % 2 == 0
    ensures k % 5 == 0 <==> k == 5 || k == 10
  {
  }

  /** One frame of the opening. */
  lemma OpeningStep(x0: int, y0: int, k: nat)
    requires 0 <= x0 <= 50 && 6 <= y0 <= 81 && 0 < k <= 10
    ensures NaveNext(Opening(x0, y0, k - 1)) == Opening(x0, y0, k)
  {
    var p := Opening(x0, y0, k - 1);
    OpeningCadence(k);
    if k < 5 {
      assert p == NaveState(x0 + k - 1, y0, k - 1, []);
      NaveDriftStep(p);
      assert MoveAll([]) == [];
    } else if k == 5 {
      assert p == NaveState(x0 + 4, y0, 4, []);
      NaveDriftStep(p);
      assert MoveAll([]) == [];
    } else if k < 10 {
      assert p == NaveState(x0 + k - 1, y0, k - 1, [Misil(x0 + 9, y0 + 5 - k)]);
      NaveDriftStep(p);
      assert MoveAll([Misil(x0 + 9, y0 + 5 - k)]) == [Misil(x0 + 9, y0 + 4 - k)];
    } else {
      assert p == NaveState(x0 + 9, y0, 9, [Misil(x0 + 9, y0 - 5)]);
      NaveDriftStep(p);
      assert MoveAll([Misil(x0 + 9, y0 - 5)]) == [Misil(x0 + 9, y0 - 6)];
    }
  }

  lemma {:induction false} OpeningFrames(x0: int, y0: int, k: nat)
    requires 0 <= x0 <= 50 && 6 <= y0 <= 81 && k <= 10
    ensures NaveRun(NewNave(x0, y0), k) == Opening(x0, y0, k)
  {
    if k > 0 {
      OpeningFrames(x0, y0, k - 1);
      OpeningStep(x0, y0, k);
    }
  }

  /** A fresh ship (the scene's starts at (20, 20)) holds one missile after
      5 frames, just fired from its centre and still unmoved. */
  lemma NaveFirstShot(x0: int, y0: int)
    requires 0 <= x0 <= 50 && 6 <= y0 <= 81
    ensures NaveRun(NewNave(x0, y0), 5) == NaveState(x0 + 5, y0, 5, [Misil(x0 + 9, y0 - 1)])
  {
    OpeningFrames(x0, y0, 5);
  }

  /** After 10 frames it holds that missile, five rows higher, and a new one
      behind it. */
  lemma NaveSecondShot(x0: int, y0: int)
    requires 0 <= x0 <= 50 && 6 <= y0 <= 81
    ensures NaveRun(NewNave(x0, y0), 10) ==
      NaveState(x0 + 10, y0, 10, [Misil(x0 + 9, y0 - 6), Misil(x0 + 14, y0 - 1)])
  {
    OpeningFrames(x0, y0, 10);
  }

  /** The state `NaveNext` yields, recognised from its parts. */
  lemma NaveNextIs(s0: NaveState, s1: NaveState)
    requires s1.frame == s0.frame + 1 && s1.y == s0.y && s1.x == ZigZag(s0.x, s1.frame)
    requires s1.misiles == RemoveIf(MoveAll(s0.misiles), OffScreen) + Fired(s1.x, s0.y, s1.frame)
    ensures s1 == NaveNext(s0)
  {
  }

  class Nave {
    var x: int
    var y: int
    var frame: nat
    var misiles: seq<Misil>

    function State(): NaveState
      reads this
    {
      NaveState(x, y, frame, misiles)
    }

    constructor (posX: int, posY: int)
      ensures State() == NewNave(posX, posY)
    {
      x, y := posX, posY;
      frame := 0;
      misiles := [];
    }

    method Mover()
      modifies this
      ensures State() == NaveNext(old(State()))
    {
      ghost var s0 := State();
      MovimientoLateral();
      MoverMisiles();
      EliminarFueraDePantalla();
      ghost var kept := misiles;
      if frame % 5 == 0 {
        Disparar();
      }
      assert misiles == kept + Fired(x, y, frame);
      NaveNextIs(s0, State());
    }

    /** The zig-zag at the head of `Mover`: the frame counter goes up and
        the ship takes one step, clamped to columns 0..60. */
    method MovimientoLateral()
      modifies this`x, this`frame
      ensures frame == old(frame) + 1 && x == ZigZag(old(x), frame)
    {
      frame := frame + 1;
      if (frame / 50) % 2 == 0 {
        x := x + 1;
      } else {
        x := x - 1;
      }
      if x < 0 {
        x := 0;
      }
      if x > 60 {
        x := 60;
      }
    }

    /** Appends a missile at the ship's centre, one row above it. */
    method Disparar()
      modifies this`misiles
      ensures misiles == old(misiles) + [Misil(x + 4, y - 1)]
    {
      var posX := x + 4;
      var posY := y - 1;
      misiles := misiles + [Misil(posX, posY)];
    }

    /** The `for` loop of `Mover` that moves every missile in place. */
    method MoverMisiles()
      modifies this`misiles
      ensures misiles == MoveAll(old(misiles))
    {
      var i := 0;
      while i < |misiles|
        invariant 0 <= i <= |misiles| == |old(misiles)|
        invariant forall k :: 0 <= k < i ==> misiles[k] == old(misiles)[k].Mover()
        invariant forall k :: i <= k < |misiles| ==> misiles[k] == old(misiles)[k]
      {
        misiles := misiles[i := misiles[i].Mover()];
        i := i + 1;
      }
    }

    /** The `erase(remove_if(...))` of `Mover`: a stable in-place compaction
        of the missiles still on screen, then a truncation. */
    method EliminarFueraDePantalla()
      modifies this`misiles
      ensures misiles == RemoveIf(old(misiles), OffScreen)
    {
      ghost var src := misiles;
      var ms := misiles;
      var k, i := 0, 0;
      while i < |ms|
        invariant |ms| == |src|
        invariant 0 <= k <= i <= |src|
        invariant ms[..k] == RemoveIf(src[..i], OffScreen)
        invariant forall t :: i <= t < |ms| ==> ms[t] == src[t]
      {
        ghost var prev := ms;
        RemoveIfPrefix(src, i, OffScreen);
        if !FueraDePantalla(ms[i].y, 80) {
          ms := ms[k := ms[i]];
          assert ms[..k + 1] == prev[..k] + [src[i]];
          k := k + 1;
        }
        i := i + 1;
      }
      assert src[..i] == src;
      misiles := ms[..k];
    }
  }
}
