/** pkg/disruptors/replica.go: replica change faults, with Go's int32 arithmetic. */
module Replica {
  import opened Common

  type int32 = x: int | MIN_INT32 <= x <= MAX_INT32

  /** Conversion to int32 keeps the low 32 bits. */
  function Wrap(x: int): int32 {
    var low := x % 0x1_0000_0000;
    if low <= MAX_INT32 then low else low - 0x1_0000_0000
  }

  /** Go's integer division rounds toward zero. */
  function Quotient(a: int, b: int): int
    requires b > 0
  {
    if a >= 0 then a / b else -((-a) / b)
  }

  datatype Fault = Fault(replicas: Option<int32>, delta: Option<int32>, percentage: Option<int32>, autoRevert: bool)

  predicate Validate(f: Fault, duration: int) {
    var count := (if f.replicas.Some? then 1 else 0)
                 + (if f.delta.Some? then 1 else 0)
                 + (if f.percentage.Some? then 1 else 0);
    && count == 1
    && !(f.percentage.Some? && f.percentage.value < 0)
    && !(f.autoRevert && duration <= 0)
  }

  /** A fault is valid exactly if it sets one of the three counts and no more, a percentage not negative, and there is a
      duration to wait before a revert. */
  lemma ValidateIff(f: Fault, duration: int)
    ensures Validate(f, duration) <==>
            && (|| (f.replicas.Some? && f.delta.None? && f.percentage.None?)
                || (f.replicas.None? && f.delta.Some? && f.percentage.None?)
                || (f.replicas.None? && f.delta.None? && f.percentage.Some? && f.percentage.value >= 0))
            && (f.autoRevert ==> duration > 0)
  {
  }

  function Resolve(f: Fault, current: int32): (target: int32)
    ensures target >= 0
    ensures f.replicas.Some? ==> target == f.replicas.value || (f.replicas.value < 0 && target == 0)
  {
    var target :=
      if f.replicas.Some? then f.replicas.value
      else if f.delta.Some? then Wrap(current + f.delta.value)
      else if f.percentage.Some? then Wrap(Quotient(current * f.percentage.value, 100))
      else 0;
    if target < 0 then 0 else target
  }

  lemma WrapExact(x: int)
    requires x >= MIN_INT32
    ensures Wrap(x) == x <==> x <= MAX_INT32
  {
    if x < 0 {
      assert x % 0x1_0000_0000 == x + 0x1_0000_0000;
    } else if x <= MAX_INT32 {
      assert x % 0x1_0000_0000 == x;
    }
  }

  /** A relative change is the exact sum, floored at zero, exactly when the sum is an int32: beyond that, scaling up
      wraps around and scales to zero. */
  lemma ResolveDelta(f: Fault, current: int32, duration: int)
    requires Validate(f, duration) && f.delta.Some? && current >= 0
    ensures var sum := current + f.delta.value;
            && (Resolve(f, current) == (if sum < 0 then 0 else sum) <==> sum <= MAX_INT32)
            && (sum > MAX_INT32 ==> Resolve(f, current) == 0)
  {
    var sum := current + f.delta.value;
    WrapExact(sum);
    if sum > MAX_INT32 {
      assert sum % 0x1_0000_0000 == sum;
    }
  }

  lemma PercentageBound(current: nat, p: nat)
    ensures p <= 100 ==> current * p / 100 <= current
    ensures current * p >= 0
  {
    if p <= 100 {
      assert current * p <= current * 100;
    }
  }

  /** A percentage of the current count is the exact floor exactly when that fits an int32; up to 100 percent it
      always does, and never exceeds the current count. */
  lemma ResolvePercentage(f: Fault, current: int32, duration: int)
    requires Validate(f, duration) && f.percentage.Some? && current >= 0
    ensures var exact := current * f.percentage.value / 100;
            && (Resolve(f, current) == exact <==> exact <= MAX_INT32)
            && (f.percentage.value <= 100 ==> exact <= current)
  {
    PercentageBound(current, f.percentage.value);
    var exact := Quotient(current * f.percentage.value, 100);
    assert exact >= 0;
    WrapExact(exact);
  }
}
