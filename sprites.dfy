/**
 * The sprite-animation state of c-game/game.js: which sprite is shown
 * (`sprite`, cycled by the "k" key) and which of its frames (`frame`,
 * advanced by every render tick), and the fixed table of sprite-sheet
 * cells each sprite's frames are drawn from.
 */
module Sprites {
  import opened Wrappers

  /** A cell of the sprite sheet: column `i` and row `j`. */
  type Cell = (int, int)

  /** The sheet is 7 columns wide and 4 rows high. */
  const Columns: int := 7
  const Rows: int := 4

  /** The number of sprites the "k" key cycles through. */
  const SpriteCount: int := 3

  /** The `sprites` table: for each sprite, the sheet cells of its frames, in order. */
  function Frames(): (table: seq<seq<Cell>>)
    ensures |table| == SpriteCount
    ensures |table[0]| == 7 && |table[1]| == 11 && |table[2]| == 8
    ensures forall s :: 0 <= s < |table| ==> |table[s]| > 0
    ensures forall s, f :: 0 <= s < |table| && 0 <= f < |table[s]| ==>
              0 <= table[s][f].0 < Columns && 0 <= table[s][f].1 < Rows
  {
    [ [(0, 0), (1, 0), (2, 0), (3, 0), (4, 0), (5, 0), (6, 0)],
      [(0, 1), (1, 1), (2, 1), (3, 1), (4, 1), (5, 1), (6, 1), (0, 3), (1, 3), (2, 3), (3, 3)],
      [(0, 2), (1, 2), (2, 2), (3, 2), (4, 2), (5, 2), (6, 2), (4, 3)] ]
  }

  /** The lookup `sprites[sprite][frame]` finds a cell. */
  predicate InBounds(sprite: int, frame: int)
  {
    0 <= sprite < |Frames()| && 0 <= frame < |Frames()[sprite]|
  }

  /** The column and row the texture offset is computed from: `(i % 7, j % 4)`. */
  function SheetCell(c: Cell): (cell: Cell)
  {
    (c.0 % Columns, c.1 % Rows)
  }

  /**
   * The lookup `sprites[sprite][frame]`; `None` is the `TypeError` JavaScript
   * raises when either index misses (indexing or destructuring `undefined`).
   * It succeeds exactly in bounds, and the sheet cell derived from what it
   * finds is the table cell itself.
   */
  function Lookup(sprite: int, frame: int): (r: Option<Cell>)
    ensures r.Some? <==> InBounds(sprite, frame)
    ensures r.Some? ==> SheetCell(r.value) == r.value
  {
    if InBounds(sprite, frame) then Some(Frames()[sprite][frame]) else None
  }

  /** The frame after one render tick: it stays a valid frame of the same sprite. */
  function Advance(sprite: int, frame: int): (next: int)
    requires InBounds(sprite, frame)
    ensures InBounds(sprite, next)
  {
    (frame + 1) % |Frames()[sprite]|
  }

  /** The frame after `k` render ticks with no key press in between. */
  function Ticks(sprite: int, frame: int, k: nat): (f: int)
    requires InBounds(sprite, frame)
    ensures InBounds(sprite, f)
    decreases k
  {
    if k == 0 then frame else Advance(sprite, Ticks(sprite, frame, k - 1))
  }

  /**
   * Within one round of the sprite's frames, `k` ticks move the frame `k`
   * steps forward, wrapping past the last frame back to the first.
   */
  lemma {:induction false} TicksForward(sprite: int, frame: int, k: nat)
    requires InBounds(sprite, frame)
    requires k <= |Frames()[sprite]|
    ensures var n := |Frames()[sprite]|;
            Ticks(sprite, frame, k) == if frame + k < n then frame + k else frame + k - n
  {
    if k > 0 {
      TicksForward(sprite, frame, k - 1);
      var n, p := |Frames()[sprite]|, Ticks(sprite, frame, k - 1);
      assert Ticks(sprite, frame, k) == (p + 1) % n;
      WrapStep(p, n);
    }
  }

  /** One step forward on a ring of `n` positions. */
  lemma WrapStep(p: int, n: int)
    requires 0 <= p < n
    ensures (p + 1) % n == if p + 1 < n then p + 1 else 0
  {
  }

  /**
   * With no key press, the frame comes back to where it started after exactly
   * as many ticks as the sprite has frames, and not before.
   */
  lemma TicksPeriod(sprite: int, frame: int, k: nat)
    requires InBounds(sprite, frame)
    requires 0 < k <= |Frames()[sprite]|
    ensures Ticks(sprite, frame, k) == frame <==> k == |Frames()[sprite]|
  {
    TicksForward(sprite, frame, k);
  }

  /** The module-level `sprite` and `frame` variables, with the handlers that reassign them. */
  class Animation {
    var sprite: int
    var frame: int

    /** Every lookup the next render tick makes is in range. */
    ghost predicate Valid()
      reads this
    {
      InBounds(sprite, frame)
    }

    /** `let sprite = 0; let frame = 0;` */
    constructor ()
      ensures sprite == 0 && frame == 0
      ensures Valid()
    {
      sprite, frame := 0, 0;
    }

    /** The keypress handler: "k" selects the next sprite from its first frame; other keys do nothing. */
    method KeyPress(key: string)
      requires Valid()
      modifies this
      ensures Valid()
      ensures key == "k" ==> sprite == (old(sprite) + 1) % SpriteCount && frame == 0
      ensures key != "k" ==> sprite == old(sprite) && frame == old(frame)
    {
      if key == "k" {
        sprite := (sprite + 1) % SpriteCount;
        frame := 0;
      }
    }

    /**
     * The integer part of one render tick: look up the current frame's cell,
     * derive the sheet column and row the texture offset is built from, and
     * advance the frame. The lookup never fails, and the offset cell is the
     * table cell.
     */
    method Render() returns (offset: Cell)
      requires Valid()
      modifies this
      ensures Valid()
      ensures Lookup(old(sprite), old(frame)) == Some(offset)
      ensures sprite == old(sprite) && frame == Advance(old(sprite), old(frame))
    {
      var cell := Frames()[sprite][frame];
      offset := SheetCell(cell);
      frame := (frame + 1) % |Frames()[sprite]|;
    }
  }
}
