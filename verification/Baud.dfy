/** Baud rate divisors (ftdi_to_clkbits, ftdi_to_clkbits_AM, ftdi_convert_baudrate) and ftdi_set_baudrate. */
module Baud {
  import opened Bits
  import opened Division
  import opened EepromLayout

  /** A clock and its predivisor. */
  datatype Clock = Clock(clk: int, div: int)

  const H_CLOCK := Clock(120000000, 10)
  const C_CLOCK := Clock(48000000, 16)

  predicate Known(c: Clock) { c == H_CLOCK || c == C_CLOCK }

  /** Sixteen times the fastest rate: the clock in units of half an eighth. */
  function Sixteenths(c: Clock): int
    requires Known(c)
  {
    c.clk * 16 / c.div
  }

  /** The code of an eighth. */
  function FracCode(k: int): int {
    if k == 0 then 0 else if k == 1 then 3 else if k == 2 then 2 else if k == 3 then 4 else if k == 4 then 1
    else if k == 5 then 5 else if k == 6 then 6 else 7
  }

  /** A divisor in eighths as the chip wants it. */
  function Encode(q: int): int { q / 8 + 0x4000 * FracCode(q % 8) }

  function FracOf(code: int): int {
    if code == 0 then 0 else if code == 3 then 1 else if code == 2 then 2 else if code == 4 then 3
    else if code == 1 then 4
    else if code == 5 then 5 else if code == 6 then 6 else 7
  }

  /** The divisor, in eighths, that an encoded one stands for; 0 and 1 mean one and one and a half. */
  function Divisor(e: int): int {
    if e == 0 then 8 else if e == 1 then 12 else 8 * (e % 0x4000) + FracOf(e / 0x4000 % 8)
  }

  /** Divisors of at least two that fit 17 bits can be recovered. */
  lemma Encoded(q: int)
    requires 16 <= q < 0x20000
    ensures 2 <= Encode(q) < 0x20000 && Divisor(Encode(q)) == q
  {
    var e := Encode(q);
    DivUnique(e, 0x4000, FracCode(q % 8), q / 8);
  }

  /** The result of a rounded division: at most half a unit off. */
  predicate Nearest(n: int, d: int, r: int) { -d <= 2 * d * r - n <= d }

  /** The divisor for a rate below half the fastest. */
  function Half(n: int): int { if n % 2 == 1 then n / 2 + 1 else n / 2 }

  lemma Halves(n: int, d: int)
    requires d > 0 && n >= 0
    ensures Nearest(n, d, Half(n / d))
  {
    var x := n / d;
    assert n == d * x + n % d;
    if x % 2 == 1 {
      assert 2 * Half(x) == x + 1;
      assert 2 * d * Half(x) == d * (2 * Half(x)) == d * x + d;
    } else {
      assert 2 * Half(x) == x;
      assert 2 * d * Half(x) == d * (2 * Half(x)) == d * x;
    }
  }

  method ToClkbits(baudrate: int, c: Clock) returns (best: int, encoded: int)
    requires baudrate > 0 && Known(c)
    ensures baudrate >= c.clk / c.div ==> encoded == 0 && best == c.clk / c.div
    ensures c.clk / (c.div + c.div / 2) <= baudrate < c.clk / c.div ==>
      encoded == 1 && best == c.clk / (c.div + c.div / 2)
    ensures c.clk / (2 * c.div) <= baudrate < c.clk / (c.div + c.div / 2) ==>
      encoded == 2 && best == c.clk / (2 * c.div)
    ensures baudrate < c.clk / (2 * c.div) ==>
      && 2 <= encoded < 0x20000 && 16 <= Divisor(encoded) && Nearest(Sixteenths(c), Divisor(encoded), best)
      && (if Clamped(baudrate, c) then Divisor(encoded) == 0x1FFFF
        else Nearest(Sixteenths(c), baudrate, Divisor(encoded)))
  {
    if baudrate >= c.clk / c.div {
      encoded := 0;
      best := c.clk / c.div;
    } else if baudrate >= c.clk / (c.div + c.div / 2) {
      encoded := 1;
      best := c.clk / (c.div + c.div / 2);
    } else if baudrate >= c.clk / (2 * c.div) {
      encoded := 2;
      best := c.clk / (2 * c.div);
    } else {
      best, encoded := Divide(baudrate, Sixteenths(c), c);
    }
  }

  /** The general case; `n` is the clock in sixteenths of the fastest rate. */
  method Divide(baudrate: int, n: int, c: Clock) returns (best: int, encoded: int)
    requires Known(c) && n == Sixteenths(c) && 0 < baudrate < c.clk / (2 * c.div)
    ensures 2 <= encoded < 0x20000 && 16 <= Divisor(encoded) && Nearest(n, Divisor(encoded), best)
    ensures if Clamped(baudrate, c) then Divisor(encoded) == 0x1FFFF else Nearest(n, baudrate, Divisor(encoded))
  {
    DivisorRange(baudrate, c);
    assert n > 0;
    hide *;
    Halves(n, baudrate);
    var divisor := n / baudrate;
    var bestDivisor := RoundedHalf(divisor);
    if bestDivisor > 0x20000 {
      bestDivisor := 0x1FFFF;
    }
    Halves(n, bestDivisor);
    best := n / bestDivisor;
    best := RoundedHalf(best);
    encoded := bestDivisor / 8 + 0x4000 * FracCode(bestDivisor % 8);
    Encoded(bestDivisor);
    EncodedIs(bestDivisor);
  }

  lemma EncodedIs(q: int)
    ensures Encode(q) == q / 8 + 0x4000 * FracCode(q % 8)
  {
  }

  /** Half a number, rounded up. */
  method RoundedHalf(x: int) returns (h: int)
    ensures h == Half(x)
  {
    if x % 2 == 1 {
      h := x / 2 + 1;
    } else {
      h := x / 2;
    }
  }

  /** The rates that need more than the largest divisor. */
  predicate Clamped(baudrate: int, c: Clock) { if c == C_CLOCK then baudrate <= 183 else baudrate <= 732 }

  /** No rate gives the divisor 0x20000, which the clamping lets through and which does not fit its field. */
  lemma DivisorRange(baudrate: int, c: Clock)
    requires Known(c) && 0 < baudrate < c.clk / (2 * c.div)
    ensures var q := Half(Sixteenths(c) / baudrate);
      if Clamped(baudrate, c) then q > 0x20000 else 16 <= q < 0x20000
  {
    var n := Sixteenths(c);
    if Clamped(baudrate, c) {
      AtLeast(n, baudrate, 262145);
    } else {
      Below(n, baudrate, 262143);
      AtLeast(n, baudrate, 32);
    }
  }

  lemma AtLeast(n: int, d: int, k: int)
    requires d > 0 && n >= d * k
    ensures n / d >= k
  {
    var x := n / d;
    if x < k { Ordered(d, x + 1, k); }
  }

  lemma Below(n: int, d: int, k: int)
    requires d > 0 && n < d * k
    ensures n / d < k
  {
    var x := n / d;
    if x >= k { Ordered(d, k, x); }
  }

  lemma Ordered(d: int, a: int, b: int)
    requires d > 0 && a <= b
    ensures d * a <= d * b
  {
  }

  // The AM chip

  /** The divisors of the AM chip, in eighths: one, and from two on every half, quarter and eighth. */
  predicate SupportedAM(d: int) {
    d == 8 || (16 <= d <= 0x1FFF8 && (d % 8 == 0 || d % 8 == 1 || d % 8 == 2 || d % 8 == 4))
  }

  /** The rate of a divisor, rounded. */
  function EstimateAM(d: int): int
    requires d > 0
  {
    (24000000 + d / 2) / d
  }

  function Distance(a: int, b: int): int { if a < b then b - a else a - b }

  function AdjustDown(k: int): int
  {
    if k == 3 then 1 else if k == 5 then 1 else if k == 6 then 2 else if k == 7 then 3 else 0
  }

  function AdjustUp(k: int): int
  {
    if k == 3 then 1 else if k == 5 then 3 else if k == 6 then 2 else if k == 7 then 1 else 0
  }

  /** A divisor to try: made a supported one, usually by rounding up. */
  function Tried(divisor: int, d: int): int {
    if d <= 8 then 8
    else if divisor < 16 then 16
    else if d + AdjustUp(d % 8) > 0x1FFF8 then 0x1FFF8
    else d + AdjustUp(d % 8)
  }

  /** The rates for which the next lower divisor, one, would be nearer than the two that is chosen. */
  predicate Skipped(baudrate: int) { 2250000 < baudrate <= 2666666 }

  /** The divisor of a rate, rounded down to a supported fraction. */
  function Start(baudrate: int): int
    requires baudrate > 0
  {
    var d := 24000000 / baudrate;
    d - AdjustDown(d % 8)
  }

  function Off(d: int, baudrate: int): int
    requires d > 0
  {
    Distance(EstimateAM(d), baudrate)
  }

  /** No supported divisor gives a rate nearer to the wanted one. */
  ghost predicate NearestAM(d: int, baudrate: int)
    requires d > 0
  {
    forall e :: SupportedAM(e) ==> Off(d, baudrate) <= Off(e, baudrate)
  }

  /** The better of the divisor below and the one above. */
  method ToClkbitsAM(baudrate: int) returns (best: int, encoded: int, ghost chosen: int)
    requires baudrate > 0
    ensures SupportedAM(chosen) && best == EstimateAM(chosen)
    ensures (NearestAM(chosen, baudrate) <==> !Skipped(baudrate)) && (Skipped(baudrate) ==> chosen == 16)
    ensures 0 <= encoded < 0x20000 && Divisor(encoded) == chosen
  {
    hide Tried, SupportedAM, NearestAM, Skipped, Divisor, FracCode, EstimateAM, Distance;
    var divisor := 24000000 / baudrate;
    divisor := divisor - AdjustDown(divisor % 8);
    assert divisor == Start(baudrate);
    TriedSupported(divisor, divisor);
    TriedSupported(divisor, divisor + 1);
    hide AdjustDown, Start;
    var bestDivisor, bestDiff := 0, 0;
    best := 0;
    for i := 0 to 2
      invariant i > 0 ==>
        bestDivisor == Tried(divisor, divisor) || (i == 2 && bestDivisor == Tried(divisor, divisor + 1))
      invariant i > 0 ==> bestDivisor > 0 && best == EstimateAM(bestDivisor) && bestDiff == Off(bestDivisor, baudrate)
      invariant i > 0 ==> bestDiff <= Off(Tried(divisor, divisor), baudrate)
      invariant i == 2 ==> bestDiff <= Off(Tried(divisor, divisor + 1), baudrate)
    {
      var d := Tried(divisor, divisor + i);
      var estimate := Estimated(d);
      var diff := Distance(estimate, baudrate);
      if i == 0 || diff < bestDiff {
        bestDivisor := d;
        best := estimate;
        bestDiff := diff;
        if diff == 0 { break; }
      }
    }
    chosen := bestDivisor;
    BetterOfTwo(baudrate, chosen);
    encoded := bestDivisor / 8 + 0x4000 * FracCode(bestDivisor % 8);
    if encoded == 1 {
      encoded := 0;
    } else if encoded == 0x4001 {
      encoded := 1;
    }
    EncodedAM(bestDivisor);
  }

  /** The rate of a divisor, to the nearest integer. */
  method Estimated(d: int) returns (estimate: int)
    requires d > 0
    ensures estimate == EstimateAM(d)
  {
    estimate := (24000000 + d / 2) / d;
  }

  lemma TriedSupported(divisor: int, d: int)
    requires d == divisor || d == divisor + 1
    ensures SupportedAM(Tried(divisor, d)) && Tried(divisor, d) > 0
  {
  }

  lemma EncodedAM(d: int)
    requires SupportedAM(d)
    ensures var e := d / 8 + 0x4000 * FracCode(d % 8);
      e != 0x4001 && 0 < e < 0x20000 && Divisor(if e == 1 then 0 else e) == d
  {
    if d >= 16 { Encoded(d); }
  }

  lemma EstimateFalls(d: int, e: int)
    requires 0 < d <= e
    ensures EstimateAM(d) >= EstimateAM(e)
  {
    var n, y := 24000000, EstimateAM(e);
    Quotient(n + e / 2, e);
    if d == e { return; }
    if y >= 1 {
      Distribute(y, e, d);
      Ordered(e - d, 1, y);
    } else {
      Ordered(d, y, 0);
    }
    AtLeast(n + d / 2, d, y);
  }

  lemma Quotient(n: int, d: int)
    requires d > 0
    ensures d * (n / d) <= n < d * (n / d) + d
  {
  }

  /** A divisor not above the exact one gives a rate not below the wanted one. */
  lemma FastEnough(d: int, baudrate: int)
    requires baudrate > 0 && 0 < d <= 24000000 / baudrate
    ensures EstimateAM(d) >= baudrate
  {
    Quotient(24000000, baudrate);
    Ordered(baudrate, d, 24000000 / baudrate);
    AtLeast(24000000 + d / 2, d, baudrate);
  }

  lemma SlowEnough(d: int, baudrate: int)
    requires baudrate > 0 && d > 24000000 / baudrate
    ensures d > 0 && EstimateAM(d) <= baudrate
  {
    AtLeast(24000000, baudrate, 0);
    Quotient(24000000, baudrate);
    Ordered(baudrate, 24000000 / baudrate + 1, d);
    Below(24000000 + d / 2, d, baudrate + 1);
  }

  /** The two divisors that are tried lie on both sides of the exact one, with no supported one between them. */
  lemma Neighbours(baudrate: int)
    requires baudrate > 0 && 24000000 / baudrate >= 16
    ensures var exact, below, above :=
        24000000 / baudrate, Tried(Start(baudrate), Start(baudrate)), Tried(Start(baudrate), Start(baudrate) + 1);
      && 16 <= below <= exact
      && (below == above == 0x1FFF8 || above > exact)
      && forall e :: SupportedAM(e) ==> e <= below || e >= above
  {
    var exact := 24000000 / baudrate;
    var start := exact - AdjustDown(exact % 8);
    BothSides(exact);
    hide AdjustUp, AdjustDown, Tried, SupportedAM;
    assert Start(baudrate) == start;
    forall e | SupportedAM(e) ensures e <= Tried(start, start) || e >= Tried(start, start + 1) {
      NoneBetween(exact, e);
    }
  }

  lemma BothSides(exact: int)
    requires exact >= 16
    ensures var start := exact - AdjustDown(exact % 8);
      var below, above := Tried(start, start), Tried(start, start + 1);
      16 <= below <= exact && (below == above == 0x1FFF8 || above > exact)
  {
  }

  lemma NoneBetween(exact: int, e: int)
    requires exact >= 16 && SupportedAM(e)
    ensures var start := exact - AdjustDown(exact % 8); e <= Tried(start, start) || e >= Tried(start, start + 1)
  {
    var q, r, down := exact / 8, exact % 8, exact % 8 - AdjustDown(exact % 8);
    Eighths(q, down);
    Eighths(q, down + 1);
    var f, g := e / 8, e % 8;
    assert exact == 8 * q + r && e == 8 * f + g;
  }

  lemma Eighths(q: int, r: int)
    requires 0 <= r < 8
    ensures (8 * q + r) % 8 == r
  {
  }

  lemma BetterOfTwo(baudrate: int, chosen: int)
    requires baudrate > 0
    requires var below, above := Tried(Start(baudrate), Start(baudrate)), Tried(Start(baudrate), Start(baudrate) + 1);
      && below > 0 && above > 0 && (chosen == below || chosen == above) && chosen > 0
      && (Off(chosen, baudrate) <= Off(below, baudrate))
      && (Off(chosen, baudrate) <= Off(above, baudrate) || Off(chosen, baudrate) == 0)
    ensures (NearestAM(chosen, baudrate) <==> !Skipped(baudrate)) && (Skipped(baudrate) ==> chosen == 16)
  {
    var exact := 24000000 / baudrate;
    Quotient(24000000, baudrate);
    if exact >= 16 {
      AmongMany(baudrate, chosen);
      Ordered(baudrate, 16, exact);
    } else {
      FewDivisors(baudrate, chosen, exact);
    }
  }

  lemma AmongMany(baudrate: int, chosen: int)
    requires baudrate > 0 && 24000000 / baudrate >= 16 && chosen > 0
    requires var below, above := Tried(Start(baudrate), Start(baudrate)), Tried(Start(baudrate), Start(baudrate) + 1);
      && below > 0 && above > 0 && (Off(chosen, baudrate) <= Off(below, baudrate))
      && (Off(chosen, baudrate) <= Off(above, baudrate) || Off(chosen, baudrate) == 0)
    ensures NearestAM(chosen, baudrate)
  {
    Neighbours(baudrate);
    var exact, below, above := 24000000 / baudrate, Tried(Start(baudrate), Start(baudrate)),
      Tried(Start(baudrate), Start(baudrate) + 1);
    forall e | SupportedAM(e) ensures Off(chosen, baudrate) <= Off(e, baudrate) {
      hide Tried, Start, EstimateAM;
      if e <= below {
        FastEnough(below, baudrate);
        EstimateFalls(e, below);
      } else {
        SlowEnough(above, baudrate);
        EstimateFalls(above, e);
      }
    }
  }

  /** Above 1500000 baud there are only two divisors to choose from, and the code chooses by the exact one. */
  lemma FewDivisors(baudrate: int, chosen: int, exact: int)
    requires baudrate > 0 && exact == 24000000 / baudrate < 16 && chosen > 0
    requires var below, above := Tried(Start(baudrate), Start(baudrate)), Tried(Start(baudrate), Start(baudrate) + 1);
      && below > 0 && above > 0 && (chosen == below || chosen == above)
      && (Off(chosen, baudrate) <= Off(below, baudrate))
      && (Off(chosen, baudrate) <= Off(above, baudrate) || Off(chosen, baudrate) == 0)
    ensures (NearestAM(chosen, baudrate) <==> !Skipped(baudrate)) && (Skipped(baudrate) ==> chosen == 16)
  {
    AtLeast(24000000, baudrate, 0);
    RateRange(baudrate, exact);
    TriedFew(baudrate);
    assert EstimateAM(8) == 3000000 && EstimateAM(16) == 1500000;
    forall e | SupportedAM(e) ensures e == 8 || EstimateAM(e) <= 1500000 {
      if e != 8 { EstimateFalls(16, e); }
    }
    assert SupportedAM(8) && SupportedAM(16);
    hide EstimateAM, Tried, Start, SupportedAM;
  }

  lemma TriedFew(baudrate: int)
    requires baudrate > 0 && 0 <= 24000000 / baudrate < 16
    ensures Tried(Start(baudrate), Start(baudrate)) == if 24000000 / baudrate <= 8 then 8 else 16
    ensures Tried(Start(baudrate), Start(baudrate) + 1) == if 24000000 / baudrate < 8 then 8 else 16
  {
  }

  lemma RateRange(baudrate: int, exact: int)
    requires baudrate > 0 && exact == 24000000 / baudrate < 16
    ensures baudrate > 1500000
    ensures if exact < 8 then baudrate > 3000000
      else if exact == 8 then 2666666 < baudrate <= 3000000
      else baudrate <= 2666666
  {
    if baudrate <= 1500000 { AtLeast(24000000, baudrate, 16); }
    if baudrate <= 3000000 { AtLeast(24000000, baudrate, 8); } else { Below(24000000, baudrate, 8); }
    if baudrate <= 2666666 { AtLeast(24000000, baudrate, 9); } else { Below(24000000, baudrate, 9); }
  }

  // Conversion

  /** What the request for a rate carries, chip by chip. The divisor is in the value and, for its top bit, in bit 8 of
      the index of the newer chips, whose bit 9 switches to the clock of 12 MHz and whose low byte is the port, or in
      bit 0 of the index of the others. */
  ghost predicate Requested(baudrate: int, chip: ChipType, port: int, best: int, value: int, index: int) {
    && 0 <= value < 0x10000
    && match chip
       case Type2232H | Type4232H | Type232H | Type230X =>
         && 0 <= index < 0x400 && index % 0x100 == port && (index >= 0x200 <==> baudrate >= 733)
         && Serves(baudrate, if baudrate >= 733 then 12000000 else 3000000, best,
           value + 0x10000 * (index / 0x100 % 2))
       case TypeBM | Type2232C | TypeR =>
         0 <= index < 2 && Serves(baudrate, 3000000, best, value + 0x10000 * index)
       case TypeAM =>
         index == 0 && ServesAM(baudrate, best, Divisor(value))
  }

  /** What the divisor and the reported rate have to do with the wanted rate: the special divisors by rate, and
      otherwise the divisor is the nearest one and the reported rate the nearest to what it gives. */
  ghost predicate Serves(baudrate: int, top: int, best: int, e: int) {
    if baudrate >= top then e == 0 && best == top
    else if baudrate >= top / 3 * 2 then e == 1 && best == top / 3 * 2
    else if baudrate >= top / 2 then e == 2 && best == top / 2
    else
      && 2 <= e && 16 <= Divisor(e) && Nearest(16 * top, Divisor(e), best)
      && (if top == 3000000 && baudrate <= 183 then Divisor(e) == 0x1FFFF else Nearest(16 * top, baudrate, Divisor(e)))
  }

  /** The AM chip gets the nearest of its divisors, but for the rates that are nearer to the one it is not given. */
  ghost predicate ServesAM(baudrate: int, best: int, divisor: int) {
    && SupportedAM(divisor) && best == EstimateAM(divisor)
    && (NearestAM(divisor, baudrate) <==> !Skipped(baudrate)) && (Skipped(baudrate) ==> divisor == 16)
  }

  method ConvertBaudrate(baudrate: int, chip: ChipType, port: int) returns (best: int, value: int, index: int)
    requires 0 <= port < 0x100
    ensures baudrate <= 0 ==> best == -1
    ensures baudrate > 0 ==> Requested(baudrate, chip, port, best, value, index)
  {
    if baudrate <= 0 { return -1, 0, 0; }
    hide Nearest, Divisor, SupportedAM, NearestAM, Skipped, EstimateAM, Requested, Serves, ServesAM;
    var encoded;
    ghost var fast := false;
    if chip == Type2232H || chip == Type4232H || chip == Type232H || chip == Type230X {
      if baudrate * 10 > 120000000 / 0x3FFF {
        best, encoded := Clkbits(baudrate, H_CLOCK);
        encoded, fast := encoded + 0x20000, true;
      } else {
        best, encoded := Clkbits(baudrate, C_CLOCK);
      }
    } else if chip == TypeBM || chip == Type2232C || chip == TypeR {
      best, encoded := Clkbits(baudrate, C_CLOCK);
    } else {
      best, encoded := ClkbitsAM(baudrate);
    }
    value := encoded % 0x10000;
    if chip == Type2232H || chip == Type4232H || chip == Type232H || chip == Type230X {
      index := encoded / 0x100 / 0x100 % 0x100 * 0x100;
      index := index + port;
      CarriedFast(baudrate, chip, port, best, encoded, fast);
    } else {
      index := encoded / 0x10000;
      CarriedSlow(baudrate, chip, port, best, encoded);
    }
  }

  method Clkbits(baudrate: int, c: Clock) returns (best: int, encoded: int)
    requires baudrate > 0 && Known(c) && (c == H_CLOCK ==> baudrate >= 733)
    ensures 0 <= encoded < 0x20000
    ensures Serves(baudrate, if c == H_CLOCK then 12000000 else 3000000, best, encoded)
  {
    hide Nearest, Divisor;
    Rates(c);
    best, encoded := ToClkbits(baudrate, c);
    hide Sixteenths;
  }

  method ClkbitsAM(baudrate: int) returns (best: int, encoded: int)
    requires baudrate > 0
    ensures 0 <= encoded < 0x10000 && ServesAM(baudrate, best, Divisor(encoded))
  {
    hide SupportedAM, NearestAM, Skipped, EstimateAM, Divisor;
    ghost var chosen;
    best, encoded, chosen := ToClkbitsAM(baudrate);
    FourFractions(encoded);
  }

  /** The fractions of the AM chip have codes below four. */
  lemma FourFractions(e: int)
    requires 0 <= e < 0x20000 && SupportedAM(Divisor(e))
    ensures e < 0x10000
  {
  }

  /** The requests for some rates, in full. */
  lemma SomeRequests(chip: ChipType, port: int, best: int, value: int, index: int)
    ensures Requested(9600, Type2232H, port, best, value, index) ==>
      best == 9600 && value == 0x04E2 && index == 0x0200 + port
    ensures Requested(9600, TypeR, port, best, value, index) ==> best == 9600 && value == 0x4138 && index == 0
    ensures Requested(115200, TypeBM, port, best, value, index) ==> best == 115385 && value == 0x001A && index == 0
    ensures chip in {Type2232H, Type4232H, Type232H, Type230X} && Requested(300, chip, port, best, value, index) ==>
      best == 300 && value == 0x2710 && index == port
  {
    assert Encode(10000) == 0x04E2 && Encode(2500) == 0x4138 && Encode(208) == 0x001A && Encode(80000) == 0x2710;
    hide *;
    if Requested(9600, Type2232H, port, best, value, index) {
      NewerRequest(9600, 12000000, Type2232H, port, best, value, index, 10000, 9600);
    }
    if Requested(9600, TypeR, port, best, value, index) {
      OlderRequest(9600, TypeR, port, best, value, index, 2500, 9600);
    }
    if Requested(115200, TypeBM, port, best, value, index) {
      OlderRequest(115200, TypeBM, port, best, value, index, 208, 115385);
    }
    if chip in {Type2232H, Type4232H, Type232H, Type230X} && Requested(300, chip, port, best, value, index) {
      NewerRequest(300, 3000000, chip, port, best, value, index, 80000, 300);
    }
  }

  lemma NewerRequest(baudrate: int, top: int, chip: ChipType, port: int, best: int, value: int, index: int, q: int,
                     r: int)
    requires chip in {Type2232H, Type4232H, Type232H, Type230X} && top == if baudrate >= 733 then 12000000 else 3000000
    requires Requested(baudrate, chip, port, best, value, index)
    requires 183 < baudrate < top / 2 && 16 <= q < 0x20000 && 0 <= Encode(q) < 0x10000
    requires -baudrate < 2 * baudrate * q - 16 * top < baudrate && -q < 2 * q * r - 16 * top < q
    ensures best == r && value == Encode(q) && index == (if top == 12000000 then 0x200 else 0) + port
  {
    hide Serves, Encode;
    OneRequest(baudrate, top, best, value + 0x10000 * (index / 0x100 % 2), q, r);
  }

  lemma OlderRequest(baudrate: int, chip: ChipType, port: int, best: int, value: int, index: int, q: int, r: int)
    requires chip in {TypeBM, Type2232C, TypeR} && Requested(baudrate, chip, port, best, value, index)
    requires 183 < baudrate < 1500000 && 16 <= q < 0x20000 && 0 <= Encode(q) < 0x10000
    requires -baudrate < 2 * baudrate * q - 48000000 < baudrate && -q < 2 * q * r - 48000000 < q
    ensures best == r && value == Encode(q) && index == 0
  {
    hide Serves, Encode;
    OneRequest(baudrate, 3000000, best, value + 0x10000 * index, q, r);
  }

  /** The divisor `q` and the rate `r` are the only nearest ones. */
  lemma OneRequest(baudrate: int, top: int, best: int, e: int, q: int, r: int)
    requires 183 < baudrate < top / 2 && 16 <= q < 0x20000 && 0 <= e < 0x20000 && Serves(baudrate, top, best, e)
    requires -baudrate < 2 * baudrate * q - 16 * top < baudrate && -q < 2 * q * r - 16 * top < q
    ensures e == Encode(q) && best == r
  {
    var d := Divisor(e);
    OneNearest(16 * top, baudrate, q, d);
    OneCode(e);
    OneNearest(16 * top, q, r, best);
  }

  lemma OneNearest(n: int, d: int, a: int, b: int)
    requires d > 0 && -d < 2 * d * a - n < d && Nearest(n, d, b)
    ensures a == b
  {
    Twice(d, a);
    Twice(d, b);
    if a < b { Ordered(d, a + 1, b); } else if b < a { Ordered(d, b + 1, a); }
  }

  lemma OneCode(e: int)
    requires 2 <= e < 0x20000 && 16 <= Divisor(e)
    ensures Encode(Divisor(e)) == e
  {
    var c := e / 0x4000;
    assert 0 <= c < 8 && c % 8 == c;
    assert FracCode(FracOf(c)) == c && 0 <= FracOf(c) < 8;
    DivUnique(Divisor(e), 8, e % 0x4000, FracOf(c));
  }

  lemma Rates(c: Clock)
    requires Known(c)
    ensures var top := if c == H_CLOCK then 12000000 else 3000000;
      && c.clk / c.div == top && c.clk / (c.div + c.div / 2) == top / 3 * 2 && c.clk / (2 * c.div) == top / 2
      && Sixteenths(c) == 16 * top
  {
  }

  lemma CarriedFast(baudrate: int, chip: ChipType, port: int, best: int, encoded: int, fast: bool)
    requires chip in {Type2232H, Type4232H, Type232H, Type230X} && 0 <= port < 0x100 && (fast <==> baudrate >= 733)
    requires if fast then 0x20000 <= encoded < 0x40000 else 0 <= encoded < 0x20000
    requires Serves(baudrate, if fast then 12000000 else 3000000, best, if fast then encoded - 0x20000 else encoded)
    ensures Requested(baudrate, chip, port, best, encoded % 0x10000, encoded / 0x100 / 0x100 % 0x100 * 0x100 + port)
  {
    hide Serves;
    assert encoded / 0x100 / 0x100 == encoded / 0x10000 && encoded / 0x10000 % 0x100 == encoded / 0x10000;
  }

  lemma CarriedSlow(baudrate: int, chip: ChipType, port: int, best: int, encoded: int)
    requires chip in {TypeAM, TypeBM, Type2232C, TypeR} && 0 <= encoded < 0x20000
    requires if chip == TypeAM then encoded < 0x10000 && ServesAM(baudrate, best, Divisor(encoded))
      else Serves(baudrate, 3000000, best, encoded)
    ensures Requested(baudrate, chip, port, best, encoded % 0x10000, encoded / 0x10000)
  {
    hide Serves, ServesAM, Divisor;
  }

  // The test

  /** The rates that are accepted. */
  predicate Accepted(baudrate: int, chip: ChipType) {
    match chip
    case Type2232H | Type4232H | Type232H | Type230X =>
      175 <= baudrate <= 6300000 || 8000000 <= baudrate <= 8400000 || 12000000 <= baudrate <= 12600000
    case TypeBM | Type2232C | TypeR =>
      175 <= baudrate <= 1575000 || 2000000 <= baudrate <= 2100000 || 3000000 <= baudrate <= 3150000
    case TypeAM => AcceptedAM(baudrate)
  }

  /** The AM chip lacks most fractions, which leaves gaps between its fastest rates. */
  predicate AcceptedAM(baudrate: int) {
    || 175 <= baudrate <= 630000 || 634921 <= baudrate <= 787500 || 816327 <= baudrate <= 1050000
    || 1142858 <= baudrate <= 1260000 || 1269841 <= baudrate <= 1575000 || 2857143 <= baudrate <= 3150000
  }

  /** The test for a difference of about 5 percent. */
  predicate TooFar(actual: int, baudrate: int) {
    actual * 2 < baudrate || if actual < baudrate then actual * 21 < baudrate * 20 else baudrate * 21 < actual * 20
  }

  lemma Close(n: int, q: int, baudrate: int, best: int)
    requires q >= 16 && baudrate >= 184 && Nearest(n, baudrate, q) && Nearest(n, q, best)
    ensures !TooFar(best, baudrate)
  {
    var diff := best - baudrate;
    var x, y, z := q * baudrate, q * best, q * diff;
    Distribute(q, best, baudrate);
    assert -q <= 2 * y - n <= q by { Twice(q, best); }
    assert -baudrate <= 2 * x - n <= baudrate by { Twice(baudrate, q); }
    assert -(q + baudrate) <= 2 * z <= q + baudrate;
    Stretched(q, baudrate, diff);
  }

  lemma Twice(a: int, b: int)
    ensures 2 * a * b == 2 * (a * b)
  {
  }

  /** The distance cannot be as much as a twentieth of the rate. */
  lemma Stretched(q: int, baudrate: int, diff: int)
    requires q >= 16 && baudrate >= 184 && -(q + baudrate) <= 2 * (q * diff) <= q + baudrate
    ensures 21 * -diff <= baudrate && 20 * diff <= baudrate
  {
    var x := q * baudrate;
    assert 2 * x - 21 * baudrate >= 368 * q - 3864 by { Shifted(q, baudrate); }
    if 21 * -diff > baudrate {
      Ordered(q, baudrate + 1, 21 * -diff);
    }
    if 20 * diff > baudrate {
      Ordered(q, baudrate + 1, 20 * diff);
    }
  }

  lemma Shifted(q: int, baudrate: int)
    requires q >= 16 && baudrate >= 184
    ensures 2 * (q * baudrate) - 21 * baudrate >= 368 * q - 3864
  {
    Ordered(2 * q - 21, 184, baudrate);
    assert (2 * q - 21) * baudrate == 2 * (q * baudrate) - 21 * baudrate;
  }

  /** Which rates pass the test, for every rate and chip. */
  lemma AcceptedRates(baudrate: int, chip: ChipType, port: int, best: int, value: int, index: int)
    requires baudrate > 0 && Requested(baudrate, chip, port, best, value, index)
    ensures best > 0 && (!TooFar(best, baudrate) <==> Accepted(baudrate, chip))
  {
    hide Divisor, TooFar, Serves, SupportedAM, NearestAM, Skipped, EstimateAM, AcceptedAM;
    match chip
    case Type2232H | Type4232H | Type232H | Type230X =>
      ServedRates(baudrate, if baudrate >= 733 then 12000000 else 3000000, best,
        value + 0x10000 * (index / 0x100 % 2));
    case TypeBM | Type2232C | TypeR => ServedRates(baudrate, 3000000, best, value + 0x10000 * index);
    case TypeAM => AcceptedRatesAM(baudrate, Divisor(value));
  }

  /** The bands of rates that a clock serves well enough. */
  predicate InBand(baudrate: int, top: int) {
    if top == 12000000 then
      733 <= baudrate <= 6300000 || 8000000 <= baudrate <= 8400000 || 12000000 <= baudrate <= 12600000
    else
      175 <= baudrate <= 1575000 || 2000000 <= baudrate <= 2100000 || 3000000 <= baudrate <= 3150000
  }

  lemma ServedRates(baudrate: int, top: int, best: int, e: int)
    requires baudrate > 0 && (top == 12000000 || top == 3000000) && (top == 12000000 ==> baudrate >= 733)
    requires Serves(baudrate, top, best, e)
    ensures best > 0 && (!TooFar(best, baudrate) <==> InBand(baudrate, top))
  {
    hide Divisor, Nearest;
    if top == 12000000 {
      if baudrate < 6000000 { Close(192000000, Divisor(e), baudrate, best); }
    } else if baudrate < 1500000 {
      if baudrate <= 183 {
        LargestDivisor(best);
      } else {
        Close(48000000, Divisor(e), baudrate, best);
      }
    }
  }

  lemma LargestDivisor(best: int)
    requires Nearest(48000000, 0x1FFFF, best)
    ensures best == 183
  {
  }

  /** Which rates the AM chip accepts, for every rate. */
  lemma AcceptedRatesAM(baudrate: int, chosen: int)
    requires baudrate > 0 && SupportedAM(chosen) && (!Skipped(baudrate) ==> NearestAM(chosen, baudrate))
    requires Skipped(baudrate) ==> chosen == 16
    ensures EstimateAM(chosen) > 0 && (!TooFar(EstimateAM(chosen), baudrate) <==> AcceptedAM(baudrate))
  {
    AtLeast(24000000 + chosen / 2, chosen, 183);
    assert EstimateAM(8) == 3000000 && EstimateAM(16) == 1500000 && EstimateAM(0x1FFF8) == 183;
    assert SupportedAM(8) && SupportedAM(16) && SupportedAM(0x1FFF8);
    if baudrate > 1500000 {
      if chosen != 8 { EstimateFalls(16, chosen); }
      hide EstimateAM, SupportedAM;
      assert !Skipped(baudrate) ==>
        Off(chosen, baudrate) <= Off(8, baudrate) && Off(chosen, baudrate) <= Off(16, baudrate);
    } else if baudrate <= 183 {
      EstimateFalls(chosen, 0x1FFF8);
      hide EstimateAM, SupportedAM;
      assert Off(chosen, baudrate) <= Off(0x1FFF8, baudrate);
    } else {
      MiddleRates(baudrate, chosen);
    }
  }

  lemma MiddleRates(baudrate: int, chosen: int)
    requires 184 <= baudrate <= 1500000 && SupportedAM(chosen) && NearestAM(chosen, baudrate)
    ensures !TooFar(EstimateAM(chosen), baudrate) <==> AcceptedAM(baudrate)
  {
    var lo, hi := Around(baudrate);
    BestOfTwo(baudrate, chosen, lo, hi);
    hide NearestAM, SupportedAM;
    if 2 * lo - 21 * (hi - lo) >= 4 {
      CloseRates(baudrate, lo, hi, EstimateAM(chosen));
      WideEnough(baudrate, lo, hi);
    } else {
      GapRates(baudrate, lo, hi, EstimateAM(chosen));
    }
  }

  /** The supported divisors on both sides of the exact one. */
  lemma Around(baudrate: int) returns (lo: int, hi: int)
    requires 184 <= baudrate <= 1500000
    ensures 16 <= lo < hi <= 0x1FFF8 && SupportedAM(lo) && SupportedAM(hi)
    ensures lo * baudrate <= 24000000 < hi * baudrate
    ensures forall e :: SupportedAM(e) ==> e <= lo || e >= hi
    ensures hi - lo == if lo % 8 == 4 then 4 else if lo % 8 == 2 then 2 else 1
  {
    var exact := 24000000 / baudrate;
    AtLeast(24000000, baudrate, 16);
    Below(24000000, baudrate, 0x1FFF8);
    Quotient(24000000, baudrate);
    hide *;
    var k := exact % 8;
    lo := if k >= 4 then exact - k + 4 else if k >= 2 then exact - k + 2 else exact;
    hi := if k >= 4 then lo + 4 else if k >= 2 then lo + 2 else lo + 1;
    NextSteps(exact, lo, hi);
    Ordered(baudrate, lo, exact);
    Ordered(baudrate, exact + 1, hi);
  }

  lemma NextSteps(exact: int, lo: int, hi: int)
    requires 16 <= exact < 0x1FFF8
    requires
      lo == if exact % 8 >= 4 then exact - exact % 8 + 4 else if exact % 8 >= 2 then exact - exact % 8 + 2 else exact
    requires hi == if exact % 8 >= 4 then lo + 4 else if exact % 8 >= 2 then lo + 2 else lo + 1
    ensures SupportedAM(lo) && SupportedAM(hi) && lo <= exact < hi
    ensures forall e :: SupportedAM(e) ==> e <= lo || e >= hi
    ensures hi - lo == if lo % 8 == 4 then 4 else if lo % 8 == 2 then 2 else 1
  {
  }

  lemma BestOfTwo(baudrate: int, chosen: int, lo: int, hi: int)
    requires baudrate > 0 && SupportedAM(chosen) && NearestAM(chosen, baudrate)
    requires 0 < lo < hi && SupportedAM(lo) && SupportedAM(hi) && lo * baudrate <= 24000000 < hi * baudrate
    requires forall e :: SupportedAM(e) ==> e <= lo || e >= hi
    ensures EstimateAM(lo) >= baudrate >= EstimateAM(hi)
    ensures EstimateAM(chosen) == EstimateAM(lo) || EstimateAM(chosen) == EstimateAM(hi)
    ensures Off(chosen, baudrate) <= Off(lo, baudrate) && Off(chosen, baudrate) <= Off(hi, baudrate)
  {
    assert Off(chosen, baudrate) <= Off(lo, baudrate) && Off(chosen, baudrate) <= Off(hi, baudrate);
    assert chosen > 0 && (chosen <= lo || chosen >= hi);
    hide EstimateAM, SupportedAM, NearestAM;
    AtLeast(24000000, baudrate, lo);
    Below(24000000, baudrate, hi);
    FastEnough(lo, baudrate);
    SlowEnough(hi, baudrate);
    if chosen <= lo { EstimateFalls(chosen, lo); } else { EstimateFalls(hi, chosen); }
  }

  /** When the divisors lie close together, the nearer rate is near enough. */
  lemma CloseRates(baudrate: int, lo: int, hi: int, best: int)
    requires baudrate > 0 && 16 <= lo < hi <= 0x1FFF8 && hi - lo <= 4 && 2 * lo - 21 * (hi - lo) >= 4
    requires lo * baudrate <= 24000000 < hi * baudrate && EstimateAM(lo) >= baudrate >= EstimateAM(hi)
    requires Distance(best, baudrate) <= EstimateAM(lo) - baudrate
    requires Distance(best, baudrate) <= baudrate - EstimateAM(hi)
    ensures !TooFar(best, baudrate)
  {
    var n, fast, slow := 24000000, EstimateAM(lo), EstimateAM(hi);
    Quotient(n + lo / 2, lo);
    Quotient(n + hi / 2, hi);
    hide EstimateAM;
    Spread(n, lo, hi, fast, slow);
    Enough(n, lo, hi);
    Scaled(n, lo, hi, baudrate);
    Distribute21(n, lo, hi - lo);
    hide *;
    Total(lo * hi * (fast - slow), n * (hi - lo), lo * hi, lo * n, lo * hi * (2 * baudrate));
    Cancelled(lo, hi, 21 * (fast - slow), 2 * baudrate);
    Near(best, baudrate, fast, slow);
  }

  lemma Total(pd: int, ng: int, p: int, lon: int, pb: int)
    requires pd <= ng + 2 * p && 2 * lon - 21 * ng >= 42 * p && 2 * lon <= pb
    ensures 21 * pd <= pb
  {
  }

  lemma Near(best: int, baudrate: int, fast: int, slow: int)
    requires Distance(best, baudrate) <= fast - baudrate && Distance(best, baudrate) <= baudrate - slow
    requires 21 * (fast - slow) <= 2 * baudrate && baudrate > 0
    ensures !TooFar(best, baudrate)
  {
  }

  lemma Distribute21(n: int, lo: int, g: int)
    ensures n * (2 * lo - 21 * g) == 2 * (lo * n) - 21 * (n * g)
  {
  }

  lemma Cancelled(lo: int, hi: int, a: int, b: int)
    requires 0 < lo < hi && 21 * (lo * hi * (a / 21)) <= lo * hi * b && a % 21 == 0
    ensures a <= b
  {
    var p, d := lo * hi, a / 21;
    Ordered(lo, 1, hi);
    assert p * a == 21 * (p * d);
    if a > b { Ordered(p, b + 1, a); }
  }

  /** The distance of the two rates. */
  lemma Spread(n: int, lo: int, hi: int, fast: int, slow: int)
    requires 0 < lo < hi && lo * fast <= n + lo && n - hi <= hi * slow
    ensures lo * hi * (fast - slow) <= n * (hi - lo) + 2 * (lo * hi)
  {
    Ordered(hi, lo * fast, n + lo);
    Ordered(lo, n - hi, hi * slow);
    assert hi * (lo * fast) - lo * (hi * slow) == lo * hi * (fast - slow);
    assert hi * (n + lo) - lo * (n - hi) == n * (hi - lo) + 2 * (lo * hi);
  }

  lemma Enough(n: int, lo: int, hi: int)
    requires n == 24000000 && 16 <= lo < hi <= 0x1FFF8 && hi - lo <= 4 && 2 * lo - 21 * (hi - lo) >= 4
    ensures n * (2 * lo - 21 * (hi - lo)) >= 42 * (lo * hi)
  {
    var x, p := 2 * lo - 21 * (hi - lo), lo * hi;
    if lo >= 84 {
      Ordered(n, lo, x);
      assert lo * n >= 42 * p by { Ordered(lo, 42 * hi, n); Thus(lo, hi); }
      Swap(n, lo);
    } else {
      Ordered(n, 4, x);
      Ordered(lo, hi, 88);
    }
  }

  lemma Thus(lo: int, hi: int)
    ensures lo * (42 * hi) == 42 * (lo * hi)
  {
  }

  lemma Swap(a: int, b: int)
    ensures a * b == b * a
  {
  }

  lemma Scaled(n: int, lo: int, hi: int, baudrate: int)
    requires 0 < lo && n < hi * baudrate
    ensures 2 * (lo * n) <= lo * hi * (2 * baudrate)
  {
    Ordered(lo, n, hi * baudrate);
    assert lo * (hi * baudrate) * 2 == lo * hi * (2 * baudrate);
  }

  /** The rates whose divisors lie close together are those outside the gaps. */
  lemma WideEnough(baudrate: int, lo: int, hi: int)
    requires 184 <= baudrate <= 1500000 && 16 <= lo < hi && lo * baudrate <= 24000000 < hi * baudrate
    requires hi - lo == (if lo % 8 == 4 then 4 else if lo % 8 == 2 then 2 else 1) && SupportedAM(lo)
    requires 2 * lo - 21 * (hi - lo) >= 4
    ensures AcceptedAM(baudrate)
  {
    if 1260000 < baudrate < 1269841 { Between(baudrate, lo, hi, 18, 20); }
    if 1050000 < baudrate < 1142858 { Between(baudrate, lo, hi, 20, 24); }
    if 787500 < baudrate < 816327 { Between(baudrate, lo, hi, 28, 32); }
    if 630000 < baudrate < 634921 { Between(baudrate, lo, hi, 36, 40); }
  }

  lemma Between(baudrate: int, lo: int, hi: int, a: int, b: int)
    requires 0 < baudrate && lo * baudrate <= 24000000 < hi * baudrate && a * baudrate <= 24000000 < b * baudrate
    ensures lo < b && hi > a
  {
    if lo >= b { Ordered(baudrate, b, lo); }
    if hi <= a { Ordered(baudrate, hi, a); }
  }

  /** The four places where they do not. */
  lemma GapRates(baudrate: int, lo: int, hi: int, best: int)
    requires 184 <= baudrate <= 1500000 && 16 <= lo < hi && lo * baudrate <= 24000000 < hi * baudrate
    requires hi - lo == if lo % 8 == 4 then 4 else if lo % 8 == 2 then 2 else 1
    requires SupportedAM(lo) && 2 * lo - 21 * (hi - lo) < 4
    requires best == EstimateAM(lo) || best == EstimateAM(hi)
    requires Distance(best, baudrate) <= EstimateAM(lo) - baudrate
    requires Distance(best, baudrate) <= baudrate - EstimateAM(hi)
    ensures !TooFar(best, baudrate) <==> AcceptedAM(baudrate)
  {
    assert (lo == 18 && hi == 20) || (lo == 20 && hi == 24) || (lo == 28 && hi == 32) || (lo == 36 && hi == 40);
    assert EstimateAM(18) == 1333333 && EstimateAM(20) == 1200000 && EstimateAM(24) == 1000000;
    assert EstimateAM(28) == 857143 && EstimateAM(32) == 750000 && EstimateAM(36) == 666667 && EstimateAM(40) == 600000;
    hide EstimateAM, SupportedAM;
  }

  /** ftdi_set_baudrate; `sent` is whether the control transfer works. */
  method SetBaudrate(open: bool, bitbang: bool, baudrate: int, chip: ChipType, port: int, sent: bool)
    returns (r: int, request: Option<(int, int)>, ghost best: int)
    requires 0 <= port < 0x100
    ensures !open ==> r == -3
    ensures open ==>
      r == if !Accepted(if bitbang then 4 * baudrate else baudrate, chip) then -1 else if sent then 0 else -2
    ensures request.Some? <==> r == 0 || r == -2
    ensures request.Some? ==>
      Requested(if bitbang then 4 * baudrate else baudrate, chip, port, best, request.value.0, request.value.1)
  {
    best := 0;
    if !open { return -3, None, best; }
    hide Requested, TooFar, NearestAM, SupportedAM, EstimateAM, AcceptedAM;
    var rate := if bitbang then baudrate * 4 else baudrate;
    var actual, value, index := ConvertBaudrate(rate, chip, port);
    best := actual;
    if rate <= 0 {
      NotAccepted(rate);
    } else {
      AcceptedRates(rate, chip, port, actual, value, index);
    }
    if actual <= 0 { return -1, None, best; }
    if TooFar(actual, rate) { return -1, None, best; }
    request := Some((value, index));
    r := if sent then 0 else -2;
  }

  lemma NotAccepted(rate: int)
    requires rate <= 0
    ensures !AcceptedAM(rate)
  {
  }
}
