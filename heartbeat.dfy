/** The `heartbeat` task: a counter that starts half-way round the colour
    wheel and advances by one (wrapping) every frame, each frame showing
    `wheel` of the counter on the LED. */
module Heartbeat {
  import opened RustU8
  import opened ColourWheel

  /** The counter's initial value. */
  const Start: u8 := 128

  /** The counter after `k` frames, in closed form. */
  function CounterAfter(k: nat): u8 {
    ((Start as int + k) % 256) as u8
  }

  /** One `wrapping_add(1)` advances the closed form by one frame. */
  lemma CounterStep(k: nat)
    ensures WrappingAdd(CounterAfter(k), 1) == CounterAfter(k + 1)
  {
  }

  /** Runs the first `frames` iterations of the task's endless loop. `n` is
      the counter afterwards and `shown` the colours handed to the LED, one
      per frame, before brightness scaling. */
  method Heartbeat(frames: nat) returns (n: u8, shown: seq<RGB8>)
    ensures n == CounterAfter(frames)
    ensures |shown| == frames
    ensures forall i :: 0 <= i < frames ==> shown[i] == Wheel(CounterAfter(i)).value
  {
    n := Start;
    shown := [];
    var i := 0;
    while i < frames
      invariant i <= frames
      invariant n == CounterAfter(i)
      invariant |shown| == i
      invariant forall j :: 0 <= j < i ==> shown[j] == Wheel(CounterAfter(j)).value
    {
      shown := shown + [Wheel(n).value];
      CounterStep(i);
      n := WrappingAdd(n, 1);
      i := i + 1;
    }
  }

  /** The counter is 255 exactly at frames 127 mod 256. There a checked
      `n + 1` would panic in a debug build, while `wrapping_add` returns to 0. */
  lemma WrapsWithoutPanic(k: nat)
    ensures CounterAfter(k) == 255 <==> k % 256 == 127
    ensures k % 256 == 127 ==> CheckedAdd(CounterAfter(k), 1).Overflow? && CounterAfter(k + 1) == 0
  {
  }

  /** The counter, and so the colour shown, repeats every 256 frames. */
  lemma Periodic(k: nat)
    ensures CounterAfter(k + 256) == CounterAfter(k)
    ensures Wheel(CounterAfter(k + 256)) == Wheel(CounterAfter(k))
  {
  }

  /** Any 256 consecutive frames visit every wheel position exactly once, so
      the LED goes once all the way round the wheel. */
  lemma FullTurn(k: nat, v: u8)
    ensures exists i :: k <= i < k + 256 && CounterAfter(i) == v
    ensures forall i, j :: k <= i < j < k + 256 ==> CounterAfter(i) != CounterAfter(j)
  {
    var i := k + (v as int - Start as int - k) % 256;
    assert CounterAfter(i) == v;
  }
}
