/** Exact river call EV: reduced fractions, the model built from them and the validator that recomputes it. */
module ExactCallEv {

  /** A fraction; the denominator is positive. */
  datatype Q = Q(n: int, d: int)

  predicate Proper(q: Q) { q.d > 0 }

  predicate SameQ(q: Q, r: Q) { q.n * r.d == r.n * q.d }

  function Abs(x: int): nat { if x < 0 then -x else x }

  // ------------------------------------------------------------------ greatest common divisors

  function Gcd(a: nat, b: nat): nat
    decreases b
  {
    if b == 0 then a else Gcd(b, a % b)
  }

  lemma {:induction false} GcdDivides(a: nat, b: nat) returns (x: nat, y: nat)
    ensures a == Gcd(a, b) * x && b == Gcd(a, b) * y
    ensures a + b > 0 ==> Gcd(a, b) > 0
    decreases b
  {
    if b == 0 {
      x, y := 1, 0;
    } else {
      var p, q := GcdDivides(b, a % b);
      x := GcdStep(a, b, Gcd(b, a % b), p, q);
      y := p;
    }
  }

  lemma {:induction false} GcdStep(a: nat, b: nat, g: nat, p: nat, q: nat) returns (x: nat)
    requires b > 0 && b == g * p && a % b == g * q
    ensures a == g * x
  {
    var k := a / b;
    assert a == k * b + a % b;
    Swap(k, g, p);
    assert g * (k * p + q) == g * (k * p) + g * q;
    x := k * p + q;
  }

  lemma {:induction false} Swap(a: int, b: int, c: int)
    ensures a * (b * c) == b * (a * c)
  {
  }

  lemma {:induction false} Bezout(a: nat, b: nat) returns (x: int, y: int)
    ensures a * x + b * y == Gcd(a, b)
    decreases b
  {
    if b == 0 {
      x, y := 1, 0;
    } else {
      var p, q := Bezout(b, a % b);
      x, y := q, p - (a / b) * q;
      calc {
        a * x + b * y;
        a * q + (b * p - b * ((a / b) * q));
        { Swap(b, a / b, q); }
        a * q + (b * p - (a / b) * (b * q));
        { Distribute(a, b, q); }
        b * p + (a % b) * q;
      }
    }
  }

  lemma {:induction false} Distribute(a: nat, b: nat, q: int)
    requires b > 0
    ensures a * q - (a / b) * (b * q) == (a % b) * q
  {
    var k, r := a / b, a % b;
    assert a == k * b + r;
    assert (k * b + r) * q == (k * b) * q + r * q;
    assert (k * b) * q == k * (b * q);
  }

  // ------------------------------------------------------------------ reduced fractions

  predicate Reduced(q: Q) { Proper(q) && Gcd(Abs(q.n), q.d) == 1 }

  /** A number prime to `n` that divides `n * k` divides `k`. */
  lemma {:induction false} Euclid(n: nat, d: nat, k: int, m: int) returns (t: int)
    requires d > 0 && Gcd(n, d) == 1 && n * k == d * m
    ensures k == d * t
  {
    var x, y := Bezout(n, d);
    t := m * x + k * y;
    BezoutTimes(n, d, k, m, x, y);
  }

  lemma {:induction false} BezoutTimes(n: int, d: int, k: int, m: int, x: int, y: int)
    requires n * x + d * y == 1 && n * k == d * m
    ensures k == d * (m * x + k * y)
  {
    var u, v := n * x, d * y;
    assert k * (u + v) == k * u + k * v;
    Regroup(k, n, x);
    Regroup(m, d, x);
    Swap(k, d, y);
    assert d * (m * x + k * y) == d * (m * x) + d * (k * y);
  }

  lemma {:induction false} Regroup(a: int, b: int, c: int)
    ensures a * (b * c) == (b * a) * c == b * (a * c)
  {
  }

  lemma {:induction false} MulSign(a: int, b: int)
    requires b > 0
    ensures a > 0 ==> a * b >= a && a * b >= b
    ensures a == 0 ==> a * b == 0
    ensures a < 0 ==> a * b <= -b
  {
  }

  lemma {:induction false} Factor(g: int, x: int, y: int, p: int, q: int)
    ensures (g * x) * p + (g * y) * q == g * (x * p + y * q)
  {
    assert (g * x) * p == g * (x * p) && (g * y) * q == g * (y * q);
  }

  lemma {:induction false} DividesEachOther(a: int, b: int, s: int, t: int)
    requires a > 0 && b > 0 && a == b * s && b == a * t
    ensures a == b
  {
    MulSign(s, b);
    MulSign(t, a);
  }

  lemma {:induction false} AbsCross(q: Q, r: Q)
    requires Proper(q) && Proper(r) && SameQ(q, r)
    ensures Abs(q.n) * r.d == Abs(r.n) * q.d
  {
    MulSign(q.n, r.d);
    MulSign(r.n, q.d);
    assert (-q.n) * r.d == -(q.n * r.d) && (-r.n) * q.d == -(r.n * q.d);
  }

  /** A value has one reduced fraction: comparing pairs is comparing values. */
  lemma {:induction false} ReducedIsUnique(q: Q, r: Q)
    requires Reduced(q) && Reduced(r)
    ensures SameQ(q, r) <==> q == r
  {
    if SameQ(q, r) {
      AbsCross(q, r);
      var s := Euclid(Abs(q.n), q.d, r.d, Abs(r.n));
      var t := Euclid(Abs(r.n), r.d, q.d, Abs(q.n));
      DividesEachOther(r.d, q.d, s, t);
      SameProduct(q.n, r.n, q.d);
    }
  }

  lemma {:induction false} SameProduct(a: int, b: int, d: int)
    requires d > 0 && a * d == b * d
    ensures a == b
  {
  }

  /** Division of both parts by the greatest common divisor. */
  function Reduce(q: Q): (r: Q)
    requires Proper(q)
  {
    var g := Gcd(Abs(q.n), q.d);
    if g == 0 then q else if q.n < 0 then Q(-(Abs(q.n) / g), q.d / g) else Q(Abs(q.n) / g, q.d / g)
  }

  lemma {:induction false} ExactDivision(g: nat, x: nat)
    requires g > 0
    ensures (g * x) / g == x
  {
    var k := (g * x) / g;
    assert g * x == g * k + (g * x) % g;
    var e := x - k;
    assert g * e == (g * x) % g by { assert g * e == g * x - g * k; }
    MulSign(e, g);
  }

  lemma {:induction false} UnitDivisor(h: nat, k: int)
    requires h * k == 1
    ensures h == 1
  {
    if h > 0 {
      MulSign(k, h);
    }
  }

  lemma {:induction false} CommonFactorIsOne(g: int, x: int, y: int, p: int, q: int, h: nat, u: int, v: int)
    requires g > 0 && (g * x) * p + (g * y) * q == g && x == h * u && y == h * v
    ensures h == 1
  {
    Factor(g, x, y, p, q);
    SameProduct(x * p + y * q, 1, g);
    Factor(h, u, v, p, q);
    UnitDivisor(h, u * p + v * q);
  }

  lemma {:induction false} QuotientsCoprime(a: nat, b: nat, x: nat, y: nat)
    requires a + b > 0 && a == Gcd(a, b) * x && b == Gcd(a, b) * y
    ensures Gcd(x, y) == 1
  {
    hide Gcd;
    var _, _ := GcdDivides(a, b);
    var p, q := Bezout(a, b);
    var u, v := GcdDivides(x, y);
    CommonFactorIsOne(Gcd(a, b), x, y, p, q, Gcd(x, y), u, v);
  }

  lemma {:induction false} CrossEqual(g: int, x: int, y: int)
    ensures x * (g * y) == (g * x) * y
  {
  }

  lemma {:induction false} ReducedParts(a: nat, d: nat) returns (x: nat, y: nat)
    requires d > 0
    ensures var g := Gcd(a, d);
            g > 0 && a / g == x && d / g == y && y > 0 && (x == 0 <==> a == 0) && Gcd(x, y) == 1 && x * d == a * y
  {
    hide Gcd;
    var g := Gcd(a, d);
    x, y := GcdDivides(a, d);
    ExactDivision(g, x);
    ExactDivision(g, y);
    QuotientsCoprime(a, d, x, y);
    MulSign(x, g);
    MulSign(y, g);
    CrossEqual(g, x, y);
  }

  lemma {:induction false} Negated(a: int, b: int)
    ensures (-a) * b == -(a * b)
  {
  }

  lemma {:induction false} ReduceIsReduced(q: Q)
    requires Proper(q)
    ensures Reduced(Reduce(q)) && SameQ(Reduce(q), q)
    ensures Reduce(q).n > 0 <==> q.n > 0
    ensures Reduce(q).n < 0 <==> q.n < 0
  {
    var x, y := ReducedParts(Abs(q.n), q.d);
    Negated(x, q.d);
    Negated(Abs(q.n), y);
  }

  lemma {:induction false} SameQTransitive(q: Q, r: Q, s: Q)
    requires Proper(q) && Proper(r) && Proper(s) && SameQ(q, r) && SameQ(r, s)
    ensures SameQ(q, s)
  {
    calc {
      (q.n * s.d) * r.d;
      (q.n * r.d) * s.d;
      (r.n * q.d) * s.d;
      (r.n * s.d) * q.d;
      (s.n * r.d) * q.d;
      (s.n * q.d) * r.d;
    }
    SameProduct(q.n * s.d, s.n * q.d, r.d);
  }

  /** Equal values reduce to the same pair. */
  lemma {:induction false} ReduceDecides(q: Q, r: Q)
    requires Proper(q) && Proper(r)
    ensures Reduce(q) == Reduce(r) <==> SameQ(q, r)
  {
    ReduceIsReduced(q);
    ReduceIsReduced(r);
    if Reduce(q) == Reduce(r) {
      SameQTransitive(q, Reduce(q), r);
    }
    if SameQ(q, r) {
      SameQTransitive(Reduce(q), q, r);
      SameQTransitive(Reduce(q), r, Reduce(r));
      ReducedIsUnique(Reduce(q), Reduce(r));
    }
  }

  // ------------------------------------------------------------------ the call-EV model

  datatype Verdict = CallIt | FoldIt | Tie

  datatype Plan = Plan(potBefore: int, bet: int, callCost: int, contestable: int)

  datatype EvModel = EvModel(chip: Q, plan: Plan, potAfter: int, equity: Q, required: Q, callEv: Q, amount: Q,
                             foldEv: Q, difference: Q, verdict: Verdict)

  function VerdictOf(ev: Q): Verdict { if ev.n > 0 then CallIt else if ev.n < 0 then FoldIt else Tie }

  function RequiredEquity(p: Plan): Q
    requires p.contestable > 0
  {
    Reduce(Q(p.callCost, p.contestable))
  }

  function CallEv(equity: Q, p: Plan): Q
    requires Proper(equity)
  {
    Reduce(Q(equity.n * p.contestable - p.callCost * equity.d, equity.d))
  }

  function Times(q: Q, r: Q): Q
    requires Proper(q) && Proper(r)
  {
    assert q.d * r.d > 0;
    Reduce(Q(q.n * r.n, q.d * r.d))
  }

  predicate PlanOk(p: Plan) { p.potBefore >= 0 && p.bet > 0 && p.callCost > 0 && p.contestable > 0 }

  /** Built from the oracle's equity, the chip unit and the bounded tool plan. */
  function Build(equity: Q, chip: Q, p: Plan): EvModel
    requires Proper(equity) && Proper(chip) && p.contestable > 0
  {
    ReduceIsReduced(Q(equity.n * p.contestable - p.callCost * equity.d, equity.d));
    var ev := CallEv(equity, p);
    EvModel(Reduce(chip), p, p.potBefore + p.bet, Reduce(equity), RequiredEquity(p), ev, Times(ev, chip), Q(0, 1), ev,
            VerdictOf(ev))
  }

  /** The validator: field ranges, reduced fractions, and every derived field recomputed. */
  predicate Validates(m: EvModel) {
    && PlanOk(m.plan) && m.potAfter > 0
    && Reduced(m.chip) && Reduced(m.equity) && Reduced(m.required) && Reduced(m.callEv) && Reduced(m.amount)
    && Reduced(m.foldEv) && Reduced(m.difference)
    && m.potAfter == m.plan.potBefore + m.plan.bet
    && m.plan.contestable == m.potAfter + m.plan.callCost
    && m.required == RequiredEquity(m.plan)
    && m.callEv == CallEv(m.equity, m.plan)
    && m.amount == Times(m.callEv, m.chip)
    && m.foldEv == Q(0, 1)
    && m.difference == m.callEv
    && m.verdict == VerdictOf(m.callEv)
  }

  lemma {:induction false} CallEvOfEqual(q: Q, r: Q, p: Plan)
    requires Proper(q) && Proper(r) && SameQ(q, r)
    ensures CallEv(q, p) == CallEv(r, p)
  {
    var x, y := Q(q.n * p.contestable - p.callCost * q.d, q.d), Q(r.n * p.contestable - p.callCost * r.d, r.d);
    calc {
      x.n * y.d;
      (q.n * p.contestable) * r.d - (p.callCost * q.d) * r.d;
      p.contestable * (q.n * r.d) - (p.callCost * r.d) * q.d;
      p.contestable * (r.n * q.d) - (p.callCost * r.d) * q.d;
      (r.n * p.contestable) * q.d - (p.callCost * r.d) * q.d;
      y.n * x.d;
    }
    ReduceDecides(x, y);
  }

  lemma {:induction false} TimesOfEqual(ev: Q, q: Q, r: Q)
    requires Proper(ev) && Proper(q) && Proper(r) && SameQ(q, r)
    ensures Times(ev, q) == Times(ev, r)
  {
    assert ev.d * q.d > 0 && ev.d * r.d > 0;
    var x, y := Q(ev.n * q.n, ev.d * q.d), Q(ev.n * r.n, ev.d * r.d);
    calc {
      x.n * y.d;
      (ev.n * ev.d) * (q.n * r.d);
      (ev.n * ev.d) * (r.n * q.d);
      y.n * x.d;
    }
    ReduceDecides(x, y);
  }

  /** The built model passes its own validator exactly when the plan's pots add up. */
  lemma {:induction false} BuildValidates(equity: Q, chip: Q, p: Plan)
    requires Proper(equity) && Proper(chip) && PlanOk(p)
    ensures Validates(Build(equity, chip, p)) <==> p.contestable == p.potBefore + p.bet + p.callCost
  {
    var m := Build(equity, chip, p);
    ReduceIsReduced(equity);
    ReduceIsReduced(chip);
    ReduceIsReduced(Q(p.callCost, p.contestable));
    ReduceIsReduced(Q(equity.n * p.contestable - p.callCost * equity.d, equity.d));
    assert m.callEv.d * chip.d > 0;
    ReduceIsReduced(Q(m.callEv.n * chip.n, m.callEv.d * chip.d));
    CallEvOfEqual(Reduce(equity), equity, p);
    TimesOfEqual(m.callEv, Reduce(chip), chip);
    assert Gcd(0, 1) == Gcd(1, 0) == 1;
  }

  /** The validator leaves no freedom: what it accepts is determined by equity, chip unit and plan. */
  lemma {:induction false} ValidatorPinsModel(m: EvModel, m': EvModel)
    requires Validates(m) && Validates(m')
    requires SameQ(m.equity, m'.equity) && SameQ(m.chip, m'.chip) && m.plan == m'.plan
    ensures m == m'
  {
    ReducedIsUnique(m.equity, m'.equity);
    ReducedIsUnique(m.chip, m'.chip);
  }

  /** The verdict compares equity with the price: call above, fold below, tie at `cost / contestable`. */
  lemma {:induction false} VerdictComparesEquity(m: EvModel)
    requires Validates(m)
    ensures m.verdict == CallIt <==> m.equity.n * m.plan.contestable > m.plan.callCost * m.equity.d
    ensures m.verdict == FoldIt <==> m.equity.n * m.plan.contestable < m.plan.callCost * m.equity.d
    ensures m.verdict == Tie <==> m.equity == m.required
  {
    var e, p := m.equity, m.plan;
    ReduceIsReduced(Q(e.n * p.contestable - p.callCost * e.d, e.d));
    ReduceIsReduced(Q(p.callCost, p.contestable));
    ReducedIsUnique(e, m.required);
    if e.n * p.contestable == p.callCost * e.d {
      SameQTransitive(e, Q(p.callCost, p.contestable), m.required);
    }
    if e == m.required {
      assert SameQ(e, Q(p.callCost, p.contestable));
    }
  }

  /** Pricing in money instead of chip units never changes the sign. */
  lemma {:induction false} ChipUnitKeepsSign(m: EvModel)
    requires Validates(m) && m.chip.n > 0
    ensures VerdictOf(m.amount) == m.verdict
  {
    assert m.callEv.d * m.chip.d > 0;
    ReduceIsReduced(Q(m.callEv.n * m.chip.n, m.callEv.d * m.chip.d));
    MulSign(m.callEv.n, m.chip.n);
  }

  // ------------------------------------------------------------------ what the figures mean

  /** What calling wins less what it loses, scaled by the denominator of the equity. */
  function Wager(equity: Q, p: Plan): int {
    equity.n * (p.potBefore + p.bet) - (equity.d - equity.n) * p.callCost
  }

  lemma {:induction false} WinLessLoss(n: int, d: int, pot: int, cost: int)
    ensures n * (pot + cost) - cost * d == n * pot - (d - n) * cost
  {
    assert n * (pot + cost) == n * pot + n * cost;
    assert (d - n) * cost == d * cost - n * cost;
  }

  lemma {:induction false} Exchange(a: int, b: int, c: int, d: int)
    ensures (a * (b * c)) * d == (a * (d * c)) * b
  {
    assert a * (b * c) == (a * c) * b && a * (d * c) == (a * c) * d;
    assert ((a * c) * b) * d == ((a * c) * d) * b;
  }

  /** The call EV in chip units is equity times the pot after the bet, less the cost times the rest. */
  lemma {:induction false} CallEvIsTheWager(m: EvModel)
    requires Validates(m)
    ensures SameQ(m.callEv, Q(Wager(m.equity, m.plan), m.equity.d)) && Reduced(m.callEv)
    ensures SameQ(m.difference, m.callEv) && m.foldEv.n == 0
  {
    var e, p := m.equity, m.plan;
    ReduceIsReduced(Q(e.n * p.contestable - p.callCost * e.d, e.d));
    WinLessLoss(e.n, e.d, p.potBefore + p.bet, p.callCost);
  }

  lemma {:induction false} Chained(a: Q, v: Q, c: Q, worth: int, d: int)
    requires v.d > 0 && v.n * d == worth * v.d && a.n * (v.d * c.d) == (v.n * c.n) * a.d
    ensures a.n * (d * c.d) == (worth * c.n) * a.d
  {
    calc {
      (a.n * (d * c.d)) * v.d;
      { Exchange(a.n, d, c.d, v.d); }
      (a.n * (v.d * c.d)) * d;
      ((v.n * c.n) * a.d) * d;
      { Exchange(a.d, v.n, c.n, d); Regroup(a.d, v.n, c.n); }
      ((v.n * d) * c.n) * a.d;
      ((worth * v.d) * c.n) * a.d;
      { Exchange(a.d, worth, c.n, v.d); Regroup(a.d, worth, c.n); }
      ((worth * c.n) * a.d) * v.d;
    }
    SameProduct(a.n * (d * c.d), (worth * c.n) * a.d, v.d);
  }

  /** The amount is that value times the chip unit. */
  lemma {:induction false} AmountIsTheWager(m: EvModel)
    requires Validates(m)
    ensures SameQ(m.amount, Q(Wager(m.equity, m.plan) * m.chip.n, m.equity.d * m.chip.d)) && Reduced(m.amount)
  {
    CallEvIsTheWager(m);
    assert m.callEv.d * m.chip.d > 0;
    ReduceIsReduced(Q(m.callEv.n * m.chip.n, m.callEv.d * m.chip.d));
    Chained(m.amount, m.callEv, m.chip, Wager(m.equity, m.plan), m.equity.d);
  }

  /** The price is the cost over all pots together. */
  lemma {:induction false} RequiredIsThePrice(m: EvModel)
    requires Validates(m)
    ensures SameQ(m.required, Q(m.plan.callCost, m.plan.potBefore + m.plan.bet + m.plan.callCost)) && Reduced(m.required)
  {
    ReduceIsReduced(Q(m.plan.callCost, m.plan.contestable));
  }

  /** Reduced means a positive denominator and no common factor but one. */
  lemma {:induction false} ReducedMeans(q: Q)
    ensures Reduced(q) <==> q.d > 0 && forall k, a, b :: k > 1 ==> !(q.n == k * a && q.d == k * b)
  {
    if Reduced(q) {
      forall k, a, b | k > 1
        ensures !(q.n == k * a && q.d == k * b)
      {
        if q.n == k * a && q.d == k * b { NoCommonFactor(q, k, a, b); }
      }
    }
    if q.d > 0 && !Reduced(q) {
      var x, y := GcdDivides(Abs(q.n), q.d);
      var g := Gcd(Abs(q.n), q.d);
      var a: int := x;
      if q.n < 0 { a := -a; }
      Negated(x, g);
      assert q.n == g * a && q.d == g * y;
    }
  }

  lemma {:induction false} NoCommonFactor(q: Q, k: int, a: int, b: int)
    requires Reduced(q) && k > 1
    ensures !(q.n == k * a && q.d == k * b)
  {
    if q.n == k * a && q.d == k * b {
      var x, y := Bezout(Abs(q.n), q.d);
      var s: int := if q.n < 0 then -a else a;
      Negated(a, k);
      assert Abs(q.n) == k * s;
      Factor(k, s, b, x, y);
      var t := s * x + b * y;
      assert k * t == 1;
      MulSign(t, k);
      assert false;
    }
  }

  lemma {:induction false} WagerOf(e: Q, p: Plan)
    requires Proper(e) && p.contestable == p.potBefore + p.bet + p.callCost
    ensures e.n * p.contestable - p.callCost * e.d == Wager(e, p)
  {
    WinLessLoss(e.n, e.d, p.potBefore + p.bet, p.callCost);
  }

  /** The amount in money, from the call EV or from the wager itself, is the same value. */
  lemma {:induction false} SameAmount(ev: Q, c: Q, worth: int, d: int)
    requires Proper(ev) && Proper(c) && d > 0 && SameQ(ev, Q(worth, d))
    ensures d * c.d > 0 && SameQ(Times(ev, c), Q(worth * c.n, d * c.d))
  {
    assert ev.d * c.d > 0 && d * c.d > 0;
    ReduceIsReduced(Q(ev.n * c.n, ev.d * c.d));
    Chained(Times(ev, c), ev, c, worth, d);
  }

  /** The validator accepts exactly the models whose plan is well formed and whose pots add up, and whose figures,
      all reduced, are the price, the wager in units and in money, zero, the wager again, and its sign. */
  lemma {:induction false} ValidatesExactlyWhen(m: EvModel)
    ensures Validates(m) <==>
      && m.plan.potBefore >= 0 && m.plan.bet > 0 && m.plan.callCost > 0
      && m.potAfter == m.plan.potBefore + m.plan.bet
      && m.plan.contestable == m.plan.potBefore + m.plan.bet + m.plan.callCost
      && Reduced(m.chip) && Reduced(m.equity)
      && Reduced(m.required) && SameQ(m.required, Q(m.plan.callCost, m.plan.contestable))
      && Reduced(m.callEv) && SameQ(m.callEv, Q(Wager(m.equity, m.plan), m.equity.d))
      && Reduced(m.amount) && SameQ(m.amount, Q(Wager(m.equity, m.plan) * m.chip.n, m.equity.d * m.chip.d))
      && m.foldEv == Q(0, 1) && m.difference == m.callEv
      && m.verdict == (if Wager(m.equity, m.plan) > 0 then CallIt else if Wager(m.equity, m.plan) < 0 then FoldIt else Tie)
  {
    var e, p, c := m.equity, m.plan, m.chip;
    assert Gcd(0, 1) == Gcd(1, 0) == 1;
    if PlanOk(p) && p.contestable == p.potBefore + p.bet + p.callCost && Reduced(c) && Reduced(e) {
      WagerOf(e, p);
      var worth := Q(Wager(e, p), e.d);
      ReduceIsReduced(Q(p.callCost, p.contestable));
      ReduceIsReduced(worth);
      assert CallEv(e, p) == Reduce(worth);
      SameAmount(Reduce(worth), c, Wager(e, p), e.d);
      ReduceIsReduced(Q(Reduce(worth).n * c.n, Reduce(worth).d * c.d));
      Determined(m.required, Q(p.callCost, p.contestable));
      Determined(m.callEv, worth);
      AmountDetermined(m.amount, Times(Reduce(worth), c), Q(Wager(e, p) * c.n, e.d * c.d));
    }
  }

  lemma {:induction false} Determined(q: Q, r: Q)
    requires Proper(r)
    ensures q == Reduce(r) <==> Reduced(q) && SameQ(q, r)
  {
    ReduceIsReduced(r);
    if Reduced(q) && SameQ(q, r) {
      SameQTransitive(q, r, Reduce(r));
      ReducedIsUnique(q, Reduce(r));
    }
  }

  lemma {:induction false} AmountDetermined(q: Q, t: Q, r: Q)
    requires Proper(r) && Reduced(t) && SameQ(t, r)
    ensures q == t <==> Reduced(q) && SameQ(q, r)
  {
    if Reduced(q) && SameQ(q, r) {
      SameQTransitive(q, r, t);
      ReducedIsUnique(q, t);
    }
  }
}
