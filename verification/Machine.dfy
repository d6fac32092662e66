/** Fixed-width integers of the engine, and the result type of its fallible operations. */
module Machine {
  const U32_LIMIT := 0x1_0000_0000
  const U64_LIMIT := 0x1_0000_0000_0000_0000

  type i16 = x: int | -0x8000 <= x < 0x8000
  type i32 = x: int | -0x8000_0000 <= x < 0x8000_0000
  type i64 = x: int | -0x8000_0000_0000_0000 <= x < 0x8000_0000_0000_0000
  type u32 = x: int | 0 <= x < U32_LIMIT
  type u64 = x: int | 0 <= x < U64_LIMIT

  datatype Option<+T> = None | Some(value: T)

  datatype Result<+T, +E> = Ok(value: T) | Err(error: E)

  /** Division truncating toward zero, as the engine's signed division does. */
  function TruncDiv(a: int, b: int): (q: int)
    requires b != 0
  {
    if a >= 0 then
      if b > 0 then a / b else -(a / -b)
    else
      if b > 0 then -(-a / b) else -a / -b
  }

  function Min(a: int, b: int): int {
    if a <= b then a else b
  }

  function Max(a: int, b: int): int {
    if a >= b then a else b
  }

  /** Two's-complement narrowing (`as i16`). */
  function WrapI16(x: int): i16 {
    (x + 0x8000) % 0x1_0000 - 0x8000
  }

  function WrapI32(x: int): i32 {
    (x + 0x8000_0000) % U32_LIMIT - 0x8000_0000
  }

  function WrapI64(x: int): i64 {
    (x + 0x8000_0000_0000_0000) % U64_LIMIT - 0x8000_0000_0000_0000
  }

  /** Narrowing keeps a number modulo its width, and every number that fits. */
  lemma NarrowingIsModular(x: int)
    ensures (WrapI16(x) - x) % 0x1_0000 == 0 && (WrapI32(x) - x) % U32_LIMIT == 0 && (WrapI64(x) - x) % U64_LIMIT == 0
    ensures -0x8000 <= x < 0x8000 ==> WrapI16(x) == x
    ensures -0x8000_0000 <= x < 0x8000_0000 ==> WrapI32(x) == x
    ensures -0x8000_0000_0000_0000 <= x < 0x8000_0000_0000_0000 ==> WrapI64(x) == x
  {
  }

  /** The length of time that consecutive spans cover. */
  function Total(spans: seq<nat>): nat {
    if spans == [] then 0 else spans[0] + Total(spans[1..])
  }

  /** The stream that consecutive spans carry. */
  function Joined<T>(spans: seq<seq<T>>): seq<T> {
    if spans == [] then [] else spans[0] + Joined(spans[1..])
  }

  lemma Ordered(a: nat, b: nat, period: nat)
    requires a <= b
    ensures a * period <= b * period
  {
  }

  lemma Quotient(a: nat, b: nat, q: nat)
    requires 1 <= b && q * b <= a < q * b + b
    ensures a / b == q
  {
    var other := a / b;
    assert other * b <= a < other * b + b;
    if q < other {
      Ordered(q + 1, other, b);
    } else if other < q {
      Ordered(other + 1, q, b);
    }
  }

  lemma Remainder(a: nat, b: nat, q: nat, rest: nat)
    requires rest < b && a == q * b + rest
    ensures a % b == rest
  {
    Quotient(a, b, q);
  }
}
