/**
 The scroll wheels (src/input.cpp, the two scroll `passthrough` handlers). Without high-resolution scrolling
 the host emits whole ticks of 120 and keeps what is left over.
 */
module ScrollWheel {

  const WHEEL_DELTA := 120

  /** Division as the host's integers do it: towards zero. */
  function Quotient(a: int, b: int): int
    requires b > 0
  {
    if a >= 0 then a / b else -(-a / b)
  }

  datatype Wheel = Wheel(emitted: int, remainder: int)

  const STILL := Wheel(0, 0)

  function Turn(w: Wheel, highResolution: bool, amount: int): Wheel {
    if highResolution then w.(emitted := w.emitted + amount)
    else
      var ticks := Quotient(w.remainder + amount, WHEEL_DELTA);
      Wheel(w.emitted + ticks * WHEEL_DELTA, w.remainder + amount - ticks * WHEEL_DELTA)
  }

  function TurnAll(w: Wheel, amounts: seq<int>): Wheel
    decreases |amounts|
  {
    if amounts == [] then w else TurnAll(Turn(w, false, amounts[0]), amounts[1..])
  }

  function Total(amounts: seq<int>): int {
    if amounts == [] then 0 else amounts[0] + Total(amounts[1..])
  }

  predicate Inv(w: Wheel) {
    w.emitted % WHEEL_DELTA == 0 && -WHEEL_DELTA < w.remainder < WHEEL_DELTA
  }

  lemma TicksFit(w: Wheel, amount: int)
    requires Inv(w)
    ensures Inv(Turn(w, false, amount))
  {
    var ticks := Quotient(w.remainder + amount, WHEEL_DELTA);
    assert (w.emitted + ticks * WHEEL_DELTA) % WHEEL_DELTA == w.emitted % WHEEL_DELTA;
  }

  /** Nothing is lost and nothing invented: what was emitted and what is left over make up what was received. */
  lemma {:induction false} ScrollIsConserved(w: Wheel, amounts: seq<int>)
    requires Inv(w)
    ensures var after := TurnAll(w, amounts);
      Inv(after) && after.emitted + after.remainder == w.emitted + w.remainder + Total(amounts)
    decreases |amounts|
  {
    if amounts != [] {
      TicksFit(w, amounts[0]);
      ScrollIsConserved(Turn(w, false, amounts[0]), amounts[1..]);
    }
  }

  /** Two ways of batching the same scroll packets differ by at most one tick in what they have emitted. */
  lemma BatchingsDifferByOneTick(w: Wheel, some: seq<int>, others: seq<int>)
    requires Inv(w) && Total(some) == Total(others)
    ensures var difference := TurnAll(w, some).emitted - TurnAll(w, others).emitted;
      difference == -WHEEL_DELTA || difference == 0 || difference == WHEEL_DELTA
  {
    ScrollIsConserved(w, some);
    ScrollIsConserved(w, others);
    MultiplesWithinTwoTicks(TurnAll(w, some).emitted, TurnAll(w, others).emitted);
  }

  lemma MultiplesWithinTwoTicks(a: int, b: int)
    requires a % WHEEL_DELTA == 0 && b % WHEEL_DELTA == 0 && -2 * WHEEL_DELTA < a - b < 2 * WHEEL_DELTA
    ensures a - b == -WHEEL_DELTA || a - b == 0 || a - b == WHEEL_DELTA
  {
    var i, j := a / WHEEL_DELTA, b / WHEEL_DELTA;
    assert a - b == WHEEL_DELTA * (i - j);
  }

  /** The one tick is real: forwards past a tick and back again emits it, the merged packet does not. */
  lemma BatchingCanSwallowATick()
    ensures TurnAll(STILL, [130, -20]).emitted == WHEEL_DELTA
    ensures TurnAll(STILL, [130 - 20]).emitted == 0
  {
    assert TurnAll(Wheel(120, 10), [-20]) == TurnAll(Wheel(120, -10), []);
    assert [130, -20][1..] == [-20];
    assert [130 - 20][1..] == [];
  }

  /** The accumulator of one wheel; the platform sees the ticks. */
  class WheelObject {
    var emitted: int
    var accumulated: int

    constructor ()
      ensures emitted == 0 && accumulated == 0
    {
      emitted, accumulated := 0, 0;
    }

    method Passthrough(highResolution: bool, amount: int)
      modifies this
      ensures Wheel(emitted, accumulated) == Turn(old(Wheel(emitted, accumulated)), highResolution, amount)
    {
      if highResolution {
        emitted := emitted + amount;
      } else {
        accumulated := accumulated + amount;
        var fullTicks := Quotient(accumulated, WHEEL_DELTA);
        if fullTicks != 0 {
          emitted := emitted + fullTicks * WHEEL_DELTA;
          accumulated := accumulated - fullTicks * WHEEL_DELTA;
        }
      }
    }
  }
}
