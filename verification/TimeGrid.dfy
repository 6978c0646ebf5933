/** The window a log's time falls in (internal/aggregate/aggregate.go). Time counts nanoseconds from Go's zero time. */
module TimeGrid {

  const UNIX_EPOCH: nat := 62135596800_000_000_000
  const MINUTE: nat := 60_000_000_000

  /** Where the window of each time starts. */
  type Grid = nat -> nat

  /** Windows are intervals that tile the time line, each named by its first instant. */
  ghost predicate IsGrid(win: Grid) {
    && (forall s: nat, t: nat | s <= t :: win(s) <= win(t))
    && forall t: nat :: win(t) <= t && win(win(t)) == win(t)
  }

  /** A log at or after the start of a window lies in that window or a later one. */
  lemma WindowAtLeast(win: Grid, t: nat, start: nat)
    requires IsGrid(win) && win(start) == start
    ensures t >= start <==> win(t) >= start
  {
    assert win(t) <= t;
    assert start <= t ==> win(start) <= win(t);
  }

  lemma WindowStarts(win: Grid, t: nat)
    requires IsGrid(win)
    ensures win(t) <= t && win(win(t)) == win(t)
  {
  }

  // ---------- The grid in use ----------

  /** time.Truncate: down to the grid that starts at the zero time. */
  function Window(width: nat, t: nat): nat
    requires width > 0
  {
    t - t % width
  }

  /** floorToBucket. */
  function Truncate(width: nat): Grid
    requires width > 0
  {
    (t: nat) => Window(width, t)
  }

  /** The grid the comment in the source describes, anchored at the Unix epoch. */
  function UnixWindow(width: nat, t: nat): int
    requires width > 0
  {
    t - (t - UNIX_EPOCH) % width
  }

  lemma ModIs(x: int, q: int, r: nat, width: nat)
    requires 0 <= r < width && x == width * q + r
    ensures x % width == r
  {
    var d := q - x / width;
    assert width * d == x % width - r by {
      assert x == width * (x / width) + x % width;
      assert width * d == width * q - width * (x / width);
    }
    assert d >= 1 ==> width * d >= width;
    assert d <= -1 ==> width * d <= 0 - width;
  }

  lemma MultiplesOrder(width: nat, q: nat, a: nat, r: nat)
    requires r < width
    ensures width * q + r >= width * a <==> q >= a
  {
    if q >= a {
      assert width * q == width * a + width * (q - a);
    } else {
      assert width * a == width * q + width + width * (a - q - 1);
    }
  }

  lemma WindowIsMultiple(width: nat, t: nat)
    requires width > 0
    ensures Window(width, t) == width * (t / width) <= t && Window(width, Window(width, t)) == Window(width, t)
  {
    assert t == width * (t / width) + t % width;
    ModIs(width * (t / width), t / width, 0, width);
  }

  lemma WindowKeepsOrder(width: nat, s: nat, t: nat)
    requires width > 0 && s <= t
    ensures Window(width, s) <= Window(width, t)
  {
    WindowIsMultiple(width, s);
    WindowIsMultiple(width, t);
    assert t == width * (t / width) + t % width;
    MultiplesOrder(width, t / width, s / width, t % width);
    MultiplesOrder(width, t / width, s / width, 0);
  }

  /** The aggregator's windows are such a grid, whatever the width. */
  lemma TruncateIsGrid(width: nat)
    requires width > 0
    ensures IsGrid(Truncate(width))
    ensures forall t: nat :: Truncate(width)(t) == width * (t / width) && t < Truncate(width)(t) + width
  {
    forall s: nat, t: nat | s <= t
      ensures Truncate(width)(s) <= Truncate(width)(t)
    {
      WindowKeepsOrder(width, s, t);
    }
    forall t: nat
      ensures Truncate(width)(t) <= t && Truncate(width)(Truncate(width)(t)) == Truncate(width)(t)
      ensures Truncate(width)(t) == width * (t / width) && t < Truncate(width)(t) + width
    {
      WindowIsMultiple(width, t);
    }
  }

  /** The grids from the zero time and from the Unix epoch agree exactly for the widths that divide the span between
      the two origins; the five-minute default is one of them, seven minutes is not. */
  lemma GridAnchor(width: nat)
    requires width > 0
    ensures (forall t: nat :: Window(width, t) == UnixWindow(width, t)) <==> UNIX_EPOCH % width == 0
    ensures UNIX_EPOCH % (5 * MINUTE) == 0 && UNIX_EPOCH % (7 * MINUTE) != 0
  {
    if UNIX_EPOCH % width == 0 {
      forall t: nat
        ensures Window(width, t) == UnixWindow(width, t)
      {
        var k := UNIX_EPOCH / width;
        assert UNIX_EPOCH == width * k;
        assert t == width * (t / width) + t % width;
        assert t - UNIX_EPOCH == width * (t / width - k) + t % width by {
          assert width * (t / width - k) == width * (t / width) - width * k;
        }
        ModIs(t - UNIX_EPOCH, t / width - k, t % width, width);
      }
    } else {
      assert Window(width, UNIX_EPOCH) != UnixWindow(width, UNIX_EPOCH);
    }
  }
}
