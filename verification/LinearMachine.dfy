/** Machines whose transition is linear over GF(2): runs, and the polynomials that jumps evaluate. */
module LinearMachine {
  /** A transition with its inverse, on states that can be xor-ed. */
  datatype Machine<!S> = Machine(step: S -> S, back: S -> S, xor: (S, S) -> S, zero: S)

  ghost predicate Group<S(!new)>(m: Machine<S>) {
    && (forall s, t, u :: m.xor(m.xor(s, t), u) == m.xor(s, m.xor(t, u)))
    && (forall s, t :: m.xor(s, t) == m.xor(t, s))
    && (forall s :: m.xor(s, m.zero) == s)
    && (forall s :: m.xor(s, s) == m.zero)
  }

  ghost predicate Linear<S(!new)>(m: Machine<S>) {
    && Group(m)
    && (forall s, t :: m.step(m.xor(s, t)) == m.xor(m.step(s), m.step(t)))
    && (forall s :: m.back(m.step(s)) == s)
    && (forall s :: m.step(m.back(s)) == s)
  }

  /** The state after n steps. */
  ghost function Run<S>(m: Machine<S>, s: S, n: nat): S {
    if n == 0 then s else m.step(Run(m, s, n - 1))
  }

  /** The sum of the states at those of the first n positions where the bit is set: the polynomial
      with these coefficients, applied to the transition, applied to s. */
  ghost function Sum<S>(m: Machine<S>, s: S, bits: seq<bool>, n: nat): S
    requires n <= |bits|
  {
    if n == 0 then m.zero else
      var rest := Sum(m, s, bits, n - 1);
      if bits[n - 1] then m.xor(rest, Run(m, s, n - 1)) else rest
  }

  ghost function Jump<S>(m: Machine<S>, s: S, bits: seq<bool>): S {
    Sum(m, s, bits, |bits|)
  }

  lemma StepOfZero<S(!new)>(m: Machine<S>)
    requires Linear(m)
    ensures m.step(m.zero) == m.zero
  {
    assert m.xor(m.zero, m.zero) == m.zero;
    assert m.step(m.xor(m.zero, m.zero)) == m.xor(m.step(m.zero), m.step(m.zero));
  }

  lemma {:induction false} RunIsLinear<S(!new)>(m: Machine<S>, s: S, t: S, n: nat)
    requires Linear(m)
    ensures Run(m, m.xor(s, t), n) == m.xor(Run(m, s, n), Run(m, t, n))
  {
    if n > 0 { RunIsLinear(m, s, t, n - 1); }
  }

  lemma {:induction false} RunOfRun<S>(m: Machine<S>, s: S, n: nat, k: nat)
    ensures Run(m, Run(m, s, n), k) == Run(m, s, n + k)
  {
    if k > 0 { RunOfRun(m, s, n, k - 1); }
  }

  lemma Exchange<S(!new)>(m: Machine<S>, a: S, b: S, c: S, d: S)
    requires Group(m)
    ensures m.xor(m.xor(a, b), m.xor(c, d)) == m.xor(m.xor(a, c), m.xor(b, d))
  {
    assert m.xor(m.xor(a, b), m.xor(c, d)) == m.xor(a, m.xor(b, m.xor(c, d)));
    assert m.xor(b, m.xor(c, d)) == m.xor(m.xor(b, c), d);
    assert m.xor(b, c) == m.xor(c, b);
    assert m.xor(m.xor(c, b), d) == m.xor(c, m.xor(b, d));
  }

  lemma {:induction false} SumIsLinear<S(!new)>(m: Machine<S>, s: S, t: S, bits: seq<bool>, n: nat)
    requires Linear(m) && n <= |bits|
    ensures Sum(m, m.xor(s, t), bits, n) == m.xor(Sum(m, s, bits, n), Sum(m, t, bits, n))
  {
    if n > 0 {
      SumIsLinear(m, s, t, bits, n - 1);
      RunIsLinear(m, s, t, n - 1);
      Exchange(m, Sum(m, s, bits, n - 1), Sum(m, t, bits, n - 1), Run(m, s, n - 1), Run(m, t, n - 1));
    }
  }

  /** A jump is linear. */
  lemma JumpIsLinear<S(!new)>(m: Machine<S>, s: S, t: S, bits: seq<bool>)
    requires Linear(m)
    ensures Jump(m, m.xor(s, t), bits) == m.xor(Jump(m, s, bits), Jump(m, t, bits))
  {
    SumIsLinear(m, s, t, bits, |bits|);
  }

  lemma {:induction false} StepOfSum<S(!new)>(m: Machine<S>, s: S, bits: seq<bool>, n: nat)
    requires Linear(m) && n <= |bits|
    ensures m.step(Sum(m, s, bits, n)) == Sum(m, m.step(s), bits, n)
  {
    if n == 0 {
      StepOfZero(m);
    } else {
      StepOfSum(m, s, bits, n - 1);
      RunOfRun(m, s, 1, n - 1);
      assert Run(m, s, 1) == m.step(Run(m, s, 0)) == m.step(s);
      RunOfRun(m, s, n - 1, 1);
      assert Run(m, Run(m, s, n - 1), 1) == m.step(Run(m, Run(m, s, n - 1), 0));
    }
  }

  /** Jumping and then running is running and then jumping. */
  lemma {:induction false} JumpCommutesWithRun<S(!new)>(m: Machine<S>, s: S, bits: seq<bool>, n: nat)
    requires Linear(m)
    ensures Run(m, Jump(m, s, bits), n) == Jump(m, Run(m, s, n), bits)
  {
    if n > 0 {
      JumpCommutesWithRun(m, s, bits, n - 1);
      StepOfSum(m, Run(m, s, n - 1), bits, |bits|);
    }
  }

  lemma {:induction false} SumCommutes<S(!new)>(m: Machine<S>, s: S, a: seq<bool>, b: seq<bool>, n: nat)
    requires Linear(m) && n <= |b|
    ensures Jump(m, Sum(m, s, b, n), a) == Sum(m, Jump(m, s, a), b, n)
  {
    if n == 0 {
      JumpOfZero(m, a, |a|);
    } else {
      SumCommutes(m, s, a, b, n - 1);
      if b[n - 1] {
        JumpIsLinear(m, Sum(m, s, b, n - 1), Run(m, s, n - 1), a);
        JumpCommutesWithRun(m, s, a, n - 1);
      }
    }
  }

  /** Two jumps may be taken in either order. */
  lemma JumpsCommute<S(!new)>(m: Machine<S>, s: S, a: seq<bool>, b: seq<bool>)
    requires Linear(m)
    ensures Jump(m, Jump(m, s, b), a) == Jump(m, Jump(m, s, a), b)
  {
    SumCommutes(m, s, a, b, |b|);
  }

  lemma {:induction false} RunOfZero<S(!new)>(m: Machine<S>, n: nat)
    requires Linear(m)
    ensures Run(m, m.zero, n) == m.zero
  {
    StepOfZero(m);
    if n > 0 { RunOfZero(m, n - 1); }
  }

  lemma {:induction false} JumpOfZero<S(!new)>(m: Machine<S>, bits: seq<bool>, n: nat)
    requires Linear(m) && n <= |bits|
    ensures Sum(m, m.zero, bits, n) == m.zero
  {
    if n > 0 {
      JumpOfZero(m, bits, n - 1);
      RunOfZero(m, n - 1);
    }
  }

  /** No two states run into each other; in particular only the zero state runs into zero. */
  lemma {:induction false} RunIsInjective<S(!new)>(m: Machine<S>, s: S, t: S, n: nat)
    requires Linear(m)
    ensures Run(m, s, n) == Run(m, t, n) ==> s == t
  {
    if n > 0 {
      assert m.back(Run(m, s, n)) == Run(m, s, n - 1) && m.back(Run(m, t, n)) == Run(m, t, n - 1);
      RunIsInjective(m, s, t, n - 1);
    }
  }

  lemma NeverZero<S(!new)>(m: Machine<S>, s: S, n: nat)
    requires Linear(m) && s != m.zero
    ensures Run(m, s, n) != m.zero
  {
    RunOfZero(m, n);
    RunIsInjective(m, s, m.zero, n);
  }
}
