/** The deterministic stream combinators of scenario/generators.go (and of
    its copy, cmd/scenario-gen/generators.go). A Go stream is a closure
    over private state returning one float64 per call; here a stream is a
    value holding that state, and `Next` returns the value of one call
    together with the stream as it is afterwards. */
module Streams {

  /** The stateless wrappers around one stream: `offset`, `quantize`, `min`
      (a lower bound), `max` (an upper bound) and `limit`. */
  datatype Op =
    | Offset(amt: real)
    | Quantize(mult: real)
    | AtLeast(lo: real)
    | AtMost(hi: real)
    | Limit(lo: real, hi: real)

  datatype Stream =
    | Constant(value: real)
      /** `unit`: whether the one impulse has been emitted. */
    | Unit(amp: real, dropped: bool)
      /** `ramp`: the number of calls so far, counted up to `length`. */
    | Ramp(height: real, length: int, cycle: nat)
      /** `delay`: a ring buffer of capacity `size` that fills up first and
          is then overwritten at `next`. */
    | Delay(source: Stream, size: nat, buf: seq<real>, next: nat)
    | Vga(source: Stream, gain: Stream)
      /** `mix` of two streams; `MixAll` nests these for more. */
    | Mix(source: Stream, other: Stream)
    | Map(source: Stream, op: Op)

  /** What a stream needs so that a call is defined: no ramp of length zero
      (the first value would be 0/0), no quantization to multiples of zero,
      and a delay of at least one call whose ring index stays in the
      buffer. */
  predicate Wellformed(s: Stream) {
    match s
    case Constant(_) => true
    case Unit(_, _) => true
    case Ramp(_, length, _) => length != 0
    case Delay(f, n, buf, next) =>
      && Wellformed(f) && n > 0 && |buf| <= n && next < n
      && (|buf| < n ==> next == 0)
    case Vga(f, g) => Wellformed(f) && Wellformed(g)
    case Mix(f, g) => Wellformed(f) && Wellformed(g)
    case Map(f, op) => Wellformed(f) && (op.Quantize? ==> op.mult != 0.0)
  }

  /** `unit(amp)`: an impulse of height `amp` on the first call. */
  function MakeUnit(amp: real): (s: Stream)
    ensures Wellformed(s)
  {
    Unit(amp, false)
  }

  /** `ramp(height, length)`: climbs to `height` in `length` calls. */
  function MakeRamp(height: real, length: int): (s: Stream)
    requires length != 0
    ensures Wellformed(s)
  {
    Ramp(height, length, 0)
  }

  /** `f.delay(cycles)`: an empty buffer of capacity `cycles`. */
  function MakeDelay(f: Stream, cycles: nat): (s: Stream)
    requires Wellformed(f) && cycles > 0
    ensures Wellformed(s)
  {
    Delay(f, cycles, [], 0)
  }

  /** `f.scale(amt)`, which Go defines as a vga with a constant gain. */
  function Scale(f: Stream, amt: real): (s: Stream)
    requires Wellformed(f)
    ensures Wellformed(s)
  {
    Vga(f, Constant(amt))
  }

  /** `f.mix(fs...)`: the sum is accumulated from `f` through `fs` in order,
      which nested two-stream mixes reproduce call for call. */
  function MixAll(f: Stream, fs: seq<Stream>): (s: Stream)
    requires Wellformed(f) && forall i :: 0 <= i < |fs| ==> Wellformed(fs[i])
    ensures Wellformed(s)
  {
    if fs == [] then f else Mix(MixAll(f, fs[..|fs| - 1]), fs[|fs| - 1])
  }

  /** Rounding toward zero: Go's `math.Ceil` below zero, `math.Floor` from
      zero up. */
  function TowardZero(r: real): (k: int)
    ensures r >= 0.0 ==> 0.0 <= k as real <= r < k as real + 1.0
    ensures r < 0.0 ==> k as real - 1.0 < r <= k as real <= 0.0
  {
    if r < 0.0 then -((-r).Floor) else r.Floor
  }

  /** One stateless wrapper applied to a value `v` of the wrapped stream. */
  function Apply(op: Op, v: real): (r: real)
    requires op.Quantize? ==> op.mult != 0.0
    ensures op.Offset? ==> r - v == op.amt
    ensures op.AtLeast? ==> r >= op.lo && r >= v && (r == v || r == op.lo)
    ensures op.AtMost? ==> r <= op.hi && r <= v && (r == v || r == op.hi)
    ensures op.Limit? && op.lo <= op.hi ==> op.lo <= r <= op.hi
    ensures op.Limit? && op.lo <= v <= op.hi ==> r == v
    ensures op.Limit? && v < op.lo ==> r == op.lo
    ensures op.Limit? && op.lo <= v && v > op.hi ==> r == op.hi
  {
    match op
    case Offset(amt) => v + amt
    case Quantize(mult) => TowardZero(v / mult) as real * mult
    case AtLeast(lo) => if lo >= v then lo else v
    case AtMost(hi) => if hi <= v then hi else v
    case Limit(lo, hi) => if v < lo then lo else if v > hi then hi else v
  }

  /** `x` is a whole number. */
  predicate Whole(x: real) {
    x.Floor as real == x
  }

  /** Quantization rounds toward zero: the result is a whole number `k` of
      multiples of `mult`, and `k` is `v / mult` with its fraction dropped,
      so it has the quotient's sign and is no larger in magnitude. */
  lemma QuantizeTowardZero(mult: real, v: real)
    requires mult != 0.0
    ensures var k := Apply(Quantize(mult), v) / mult;
      && Whole(k)
      && (v / mult >= 0.0 ==> 0.0 <= k <= v / mult < k + 1.0)
      && (v / mult < 0.0 ==> k - 1.0 < v / mult <= k <= 0.0)
  {
    CancelFactor(Apply(Quantize(mult), v), TowardZero(v / mult) as real, mult);
  }

  lemma CancelFactor(q: real, k: real, m: real)
    requires m != 0.0 && q == k * m
    ensures q / m == k && Whole(k) == Whole(q / m)
  {
  }

  /** The value a ramp returns at `cycle`. */
  function RampAt(height: real, length: int, cycle: nat): real
    requires length != 0
  {
    height * cycle as real / length as real
  }

  /** One call of the stream: its value and the stream afterwards. */
  function Next(s: Stream): (out: (real, Stream))
    requires Wellformed(s)
    ensures Wellformed(out.1)
  {
    match s
    case Constant(c) => (c, s)
    case Unit(amp, dropped) =>
      if dropped then (0.0, s) else (amp, Unit(amp, true))
    case Ramp(height, length, cycle) =>
      (RampAt(height, length, cycle),
       if cycle < length then Ramp(height, length, cycle + 1) else s)
    case Delay(f, n, buf, next) =>
      var r := Next(f);
      if |buf| < n then
        (0.0, Delay(r.1, n, buf + [r.0], 0))
      else
        (buf[next], Delay(r.1, n, buf[next := r.0], if next + 1 == n then 0 else next + 1))
    case Vga(f, g) =>
      var r, t := Next(f), Next(g);
      (Product(r.0, t.0), Vga(r.1, t.1))
    case Mix(f, g) =>
      var r, t := Next(f), Next(g);
      (r.0 + t.0, Mix(r.1, t.1))
    case Map(f, op) =>
      var r := Next(f);
      (Apply(op, r.0), Map(r.1, op))
  }

  /** The value of a vga: the value of the stream times that of the gain. */
  function Product(x: real, y: real): real {
    x * y
  }

  /** The stream after `i` calls. */
  function Advance(s: Stream, i: nat): (t: Stream)
    requires Wellformed(s)
    ensures Wellformed(t)
  {
    if i == 0 then s else Next(Advance(s, i - 1)).1
  }

  /** One more call advances the stream by one step. */
  lemma AdvanceNext(s: Stream, i: nat)
    requires Wellformed(s)
    ensures Advance(s, i + 1) == Next(Advance(s, i)).1
  {
  }

  /** The value of call number `i`, counting from zero. */
  function Nth(s: Stream, i: nat): real
    requires Wellformed(s)
  {
    Next(Advance(s, i)).0
  }

  /** The first `k` values. */
  function Outputs(s: Stream, k: nat): (vs: seq<real>)
    requires Wellformed(s)
    ensures |vs| == k
    ensures forall i :: 0 <= i < k ==> vs[i] == Nth(s, i)
  {
    if k == 0 then [] else Outputs(s, k - 1) + [Nth(s, k - 1)]
  }

  /** `constant(c)` returns `c` on every call. */
  lemma {:induction false} ConstantOutputs(c: real, i: nat)
    ensures Advance(Constant(c), i) == Constant(c)
    ensures Nth(Constant(c), i) == c
  {
    if i > 0 {
      ConstantOutputs(c, i - 1);
    }
  }

  /** `unit(amp)` returns `amp` on the first call and zero on every later
      one. */
  lemma {:induction false} UnitOutputs(amp: real, i: nat)
    ensures Advance(MakeUnit(amp), i) == Unit(amp, i > 0)
    ensures Nth(MakeUnit(amp), i) == if i == 0 then amp else 0.0
  {
    if i > 0 {
      UnitOutputs(amp, i - 1);
    }
  }

  function Min(a: nat, b: nat): nat {
    if a <= b then a else b
  }

  /** `ramp(height, length)` returns height * min(i, length) / length on
      call `i`: it climbs in equal steps and then stays at `height`. */
  lemma RampOutputs(height: real, length: nat, i: nat)
    requires length > 0
    ensures Nth(MakeRamp(height, length), i) == height * Min(i, length) as real / length as real
    ensures i >= length ==> Nth(MakeRamp(height, length), i) == height
  {
    RampNth(height, length, i);
    if i >= length {
      CancelFactor(height * length as real, height, length as real);
      assert RampAt(height, length, length) == height;
    }
  }

  /** Call `i` of a ramp returns the ramp's value at the capped count. */
  lemma RampNth(height: real, length: nat, i: nat)
    requires length > 0
    ensures Nth(MakeRamp(height, length), i) == RampAt(height, length, Min(i, length))
  {
    RampAdvance(height, length, i);
  }

  /** A ramp counts its calls up to `length` and then stops counting. */
  lemma {:induction false} RampAdvance(height: real, length: nat, i: nat)
    requires length > 0
    ensures Advance(MakeRamp(height, length), i) == Ramp(height, length, Min(i, length))
  {
    if i > 0 {
      RampAdvance(height, length, i - 1);
    }
  }

  /** A ramp of negative length never counts (its counter starts at zero,
      which is not below the length), so every call returns zero. */
  lemma RampNegative(height: real, length: int, i: nat)
    requires length < 0
    ensures Nth(MakeRamp(height, length), i) == 0.0
  {
    RampNegativeAdvance(height, length, i);
  }

  lemma {:induction false} RampNegativeAdvance(height: real, length: int, i: nat)
    requires length < 0
    ensures Advance(MakeRamp(height, length), i) == MakeRamp(height, length)
  {
    if i > 0 {
      RampNegativeAdvance(height, length, i - 1);
    }
  }

  /** A wrapper acts on each value separately. */
  lemma {:induction false} MapOutputs(f: Stream, op: Op, i: nat)
    requires Wellformed(Map(f, op))
    ensures Advance(Map(f, op), i) == Map(Advance(f, i), op)
    ensures Nth(Map(f, op), i) == Apply(op, Nth(f, i))
  {
    if i > 0 {
      MapOutputs(f, op, i - 1);
    }
  }

  /** `vga` multiplies the two streams call by call. */
  lemma VgaOutputs(f: Stream, g: Stream, i: nat)
    requires Wellformed(f) && Wellformed(g)
    ensures Nth(Vga(f, g), i) == Product(Nth(f, i), Nth(g, i))
  {
    VgaAdvance(f, g, i);
    var a, b := Advance(f, i), Advance(g, i);
    NextVga(a, b);
  }

  lemma {:induction false} VgaAdvance(f: Stream, g: Stream, i: nat)
    requires Wellformed(f) && Wellformed(g)
    ensures Advance(Vga(f, g), i) == Vga(Advance(f, i), Advance(g, i))
  {
    if i > 0 {
      VgaAdvance(f, g, i - 1);
      NextVga(Advance(f, i - 1), Advance(g, i - 1));
    }
  }

  lemma NextVga(f: Stream, g: Stream)
    requires Wellformed(f) && Wellformed(g)
    ensures Next(Vga(f, g)) == (Product(Next(f).0, Next(g).0), Vga(Next(f).1, Next(g).1))
  {
  }

  /** `scale(amt)` multiplies every value by `amt`. */
  lemma {:induction false} ScaleOutputs(f: Stream, amt: real, i: nat)
    requires Wellformed(f)
    ensures Nth(Scale(f, amt), i) == Product(Nth(f, i), amt)
  {
    VgaOutputs(f, Constant(amt), i);
    ConstantOutputs(amt, i);
  }

  /** `mix` adds the two streams call by call. */
  lemma MixOutputs(f: Stream, g: Stream, i: nat)
    requires Wellformed(f) && Wellformed(g)
    ensures Nth(Mix(f, g), i) == Nth(f, i) + Nth(g, i)
  {
    MixAdvance(f, g, i);
    NextMix(Advance(f, i), Advance(g, i));
  }

  lemma {:induction false} MixAdvance(f: Stream, g: Stream, i: nat)
    requires Wellformed(f) && Wellformed(g)
    ensures Advance(Mix(f, g), i) == Mix(Advance(f, i), Advance(g, i))
  {
    if i > 0 {
      MixAdvance(f, g, i - 1);
      NextMix(Advance(f, i - 1), Advance(g, i - 1));
    }
  }

  lemma NextMix(f: Stream, g: Stream)
    requires Wellformed(f) && Wellformed(g)
    ensures Next(Mix(f, g)) == (Next(f).0 + Next(g).0, Mix(Next(f).1, Next(g).1))
  {
  }

  /** The sum of call `i` of every stream in `fs`. */
  function SumAt(fs: seq<Stream>, i: nat): real
    requires forall j :: 0 <= j < |fs| ==> Wellformed(fs[j])
  {
    if fs == [] then 0.0 else SumAt(fs[..|fs| - 1], i) + Nth(fs[|fs| - 1], i)
  }

  /** `f.mix(fs...)` returns the value of `f` plus those of all of `fs`. */
  lemma {:induction false} MixAllOutputs(f: Stream, fs: seq<Stream>, i: nat)
    requires Wellformed(f) && forall j :: 0 <= j < |fs| ==> Wellformed(fs[j])
    ensures Nth(MixAll(f, fs), i) == Nth(f, i) + SumAt(fs, i)
  {
    if fs != [] {
      MixAllOutputs(f, fs[..|fs| - 1], i);
      MixOutputs(MixAll(f, fs[..|fs| - 1]), fs[|fs| - 1], i);
    }
  }

  /** The values a delay holds back, oldest first. */
  function Queue(buf: seq<real>, next: nat): seq<real>
    requires next <= |buf|
  {
    buf[next..] + buf[..next]
  }

  /** Overwriting the oldest slot and moving on drops the head of the queue
      and appends the new value. */
  lemma QueueRotate(buf: seq<real>, next: nat, x: real)
    requires next < |buf|
    ensures Queue(buf[next := x], if next + 1 == |buf| then 0 else next + 1) == Queue(buf, next)[1..] + [x]
  {
    var b := buf[next := x];
    if next + 1 == |buf| {
      assert b == buf[..next] + [x];
    } else {
      assert b[next + 1..] == buf[next + 1..];
      assert b[..next + 1] == buf[..next] + [x];
    }
  }

  /** One call of a delay: while the buffer fills it returns zero and
      queues the source's value; once full it returns the head of the queue
      and queues the source's value behind the rest. */
  lemma DelayStep(d: Stream)
    requires Wellformed(d) && d.Delay?
    ensures var out := Next(d);
      && out.1.Delay? && out.1.source == Next(d.source).1 && out.1.size == d.size
      && |out.1.buf| == (if |d.buf| < d.size then |d.buf| + 1 else d.size)
      && out.1.next <= |out.1.buf|
      && (|d.buf| < d.size ==>
            out.0 == 0.0 && Queue(out.1.buf, out.1.next) == Queue(d.buf, d.next) + [Next(d.source).0])
      && (|d.buf| == d.size ==>
            out.0 == Queue(d.buf, d.next)[0]
            && Queue(out.1.buf, out.1.next) == Queue(d.buf, d.next)[1..] + [Next(d.source).0])
  {
    var x := Next(d.source).0;
    if |d.buf| < d.size {
      assert Queue(d.buf, d.next) == d.buf;
      assert Queue(d.buf + [x], 0) == d.buf + [x];
    } else {
      QueueRotate(d.buf, d.next, x);
    }
  }

  /** The `len` values a source returned just before call `i`, oldest
      first. */
  function Window(f: Stream, i: nat, len: nat): (w: seq<real>)
    requires Wellformed(f) && len <= i
    ensures |w| == len
  {
    if len == 0 then [] else Window(f, i - 1, len - 1) + [Nth(f, i - 1)]
  }

  /** Dropping the oldest value of a window leaves the next smaller one. */
  lemma {:induction false} WindowTail(f: Stream, i: nat, len: nat)
    requires Wellformed(f) && 1 <= len <= i
    ensures Window(f, i, len)[1..] == Window(f, i, len - 1)
  {
    if len > 1 {
      WindowTail(f, i - 1, len - 1);
    }
  }

  /** The oldest value of a window. */
  lemma {:induction false} WindowHead(f: Stream, i: nat, len: nat)
    requires Wellformed(f) && 1 <= len <= i
    ensures Window(f, i, len)[0] == Nth(f, i - len)
  {
    if len > 1 {
      WindowHead(f, i - 1, len - 1);
    }
  }

  /** `d` is a delay of `n` over `f` after `i` calls: it holds the last
      min(i, n) values of its source, oldest first. */
  predicate DelayHolds(d: Stream, f: Stream, n: nat, i: nat)
    requires Wellformed(f)
  {
    && d.Delay? && d.source == Advance(f, i) && d.size == n
    && |d.buf| == Min(i, n) && d.next <= |d.buf|
    && Queue(d.buf, d.next) == Window(f, i, Min(i, n))
  }

  lemma DelayHoldsStep(d: Stream, f: Stream, n: nat, i: nat)
    requires Wellformed(f) && Wellformed(d) && DelayHolds(d, f, n, i)
    ensures DelayHolds(Next(d).1, f, n, i + 1)
  {
    DelayStep(d);
    assert Next(d.source) == (Nth(f, i), Advance(f, i + 1));
    if i >= n {
      WindowTail(f, i, n);
    }
  }

  /** After `i` calls a delay of `n` holds the last min(i, n) values of its
      source. */
  lemma {:induction false} DelayState(f: Stream, n: nat, i: nat)
    requires Wellformed(f) && n > 0
    ensures DelayHolds(Advance(MakeDelay(f, n), i), f, n, i)
  {
    if i > 0 {
      DelayState(f, n, i - 1);
      DelayHoldsStep(Advance(MakeDelay(f, n), i - 1), f, n, i - 1);
    }
  }

  /** `f.delay(n)` returns zero on its first `n` calls and afterwards the
      value `f` returned `n` calls earlier. */
  lemma {:induction false} DelayOutputs(f: Stream, n: nat, i: nat)
    requires Wellformed(f) && n > 0
    ensures Nth(MakeDelay(f, n), i) == if i < n then 0.0 else Nth(f, i - n)
  {
    DelayState(f, n, i);
    DelayStep(Advance(MakeDelay(f, n), i));
    if i >= n {
      WindowHead(f, i, n);
    }
  }
}
