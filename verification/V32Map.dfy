/** The V.32bis constellations of src/v32bis_map.c: no two labels share a point. */
module V32Map {
  type Pair = (int, int)

  datatype Rate = R7200 | R9600 | R12000 | R14400

  /** Label bits below the three subset bits. */
  function ExtraBits(rate: Rate): (n: nat) {
    match rate
    case R7200 => 1
    case R9600 => 2
    case R12000 => 3
    case R14400 => 4
  }

  /** Labels in each of the eight subsets. */
  function PerSubset(rate: Rate): nat {
    match rate
    case R7200 => 2
    case R9600 => 4
    case R12000 => 8
    case R14400 => 16
  }

  function Pick4(k: int, a: Pair, b: Pair, c: Pair, d: Pair): Pair {
    if k == 0 then a else if k == 1 then b else if k == 2 then c else d
  }

  function Pick16(k: int, a: Pair, b: Pair, c: Pair, d: Pair, e: Pair, f: Pair, g: Pair, h: Pair,
                  i: Pair, j: Pair, l: Pair, m: Pair, n: Pair, o: Pair, p: Pair, q: Pair): Pair {
    if k < 4 then Pick4(k, a, b, c, d)
    else if k < 8 then Pick4(k - 4, e, f, g, h)
    else if k < 12 then Pick4(k - 8, i, j, l, m)
    else Pick4(k - 12, n, o, p, q)
  }

  /** The table for 7200 bit/s. */
  function Map7200(code: nat): Pair {
    Pick16(code,
      (3, -3), (-1, 1), (-3, 3), (1, -1), (3, 1), (-1, -3), (-3, -1), (1, 3),
      (-1, 3), (3, -1), (1, -3), (-3, 1), (-3, -3), (1, 1), (3, 3), (-1, -1))
  }

  /** The table for 9600 bit/s. */
  function Map9600(code: nat): Pair {
    if code < 16 then Pick16(code,
      (-4, 1), (0, -3), (0, 1), (4, 1), (4, -1), (0, 3), (0, -1), (-4, -1),
      (-2, 3), (-2, -1), (2, 3), (2, -1), (2, -3), (2, 1), (-2, -3), (-2, 1))
    else Pick16(code - 16,
      (-3, -2), (1, -2), (-3, 2), (1, 2), (3, 2), (-1, 2), (3, -2), (-1, -2),
      (1, 4), (-3, 0), (1, 0), (1, -4), (-1, -4), (3, 0), (-1, 0), (-1, 4))
  }

  /** The table for 12000 bit/s. */
  function Map12000(code: nat): Pair {
    if code < 16 then Pick16(code,
      (7, 1), (3, 5), (7, -7), (-5, 5), (3, -3), (-1, 1), (-1, -7), (-5, -3),
      (-7, -1), (-3, -5), (-7, 7), (5, -5), (-3, 3), (1, -1), (1, 7), (5, 3))
    else if code < 32 then Pick16(code - 16,
      (-1, 5), (-5, 1), (7, 5), (-5, -7), (3, 1), (-1, -3), (7, -3), (3, -7),
      (1, -5), (5, -1), (-7, -5), (5, 7), (-3, -1), (1, 3), (-7, 3), (-3, 7))
    else if code < 48 then Pick16(code - 32,
      (-5, -1), (-1, -5), (-5, 7), (7, -5), (-1, 3), (3, -1), (3, 7), (7, 3),
      (5, 1), (1, 5), (5, -7), (-7, 5), (1, -3), (-3, 1), (-3, -7), (-7, -3))
    else Pick16(code - 48,
      (1, -7), (5, -3), (-7, -7), (5, 5), (-3, -3), (1, 1), (-7, 1), (-3, 5),
      (-1, 7), (-5, 3), (7, 7), (-5, -5), (3, 3), (-1, -1), (7, -1), (3, -5))
  }

  /** The table for 14400 bit/s. */
  function Map14400(code: nat): Pair {
    if code < 16 then Pick16(code,
      (-8, -1), (8, -1), (4, -1), (4, -5), (-4, -1), (-4, -5), (0, -1), (0, -5),
      (-8, 3), (8, 3), (4, 3), (4, 7), (-4, 3), (-4, 7), (0, 3), (0, 7))
    else if code < 32 then Pick16(code - 16,
      (8, 5), (-8, 5), (-4, 5), (-4, 9), (4, 5), (4, 9), (0, 5), (0, 9),
      (8, 1), (-8, 1), (-4, 1), (-4, -3), (4, 1), (4, -3), (0, 1), (0, -3))
    else if code < 48 then Pick16(code - 32,
      (2, -7), (2, 9), (2, 5), (6, 5), (2, -3), (6, -3), (2, 1), (6, 1),
      (-2, -7), (-2, 9), (-2, 5), (-6, 5), (-2, -3), (-6, -3), (-2, 1), (-6, 1))
    else if code < 64 then Pick16(code - 48,
      (-2, 11), (-2, -5), (-2, -1), (-6, -1), (-2, 7), (-6, 7), (-2, 3), (-6, 3),
      (2, 11), (2, -5), (2, -1), (6, -1), (2, 7), (6, 7), (2, 3), (6, 3))
    else if code < 80 then Pick16(code - 64,
      (9, 4), (-7, 4), (-3, 4), (-3, 8), (5, 4), (5, 8), (1, 4), (1, 8),
      (9, 0), (-7, 0), (-3, 0), (-3, -4), (5, 0), (5, -4), (1, 0), (1, -4))
    else if code < 96 then Pick16(code - 80,
      (-9, 0), (7, 0), (3, 0), (3, -4), (-5, 0), (-5, -4), (-1, 0), (-1, -4),
      (-9, 4), (7, 4), (3, 4), (3, 8), (-5, 4), (-5, 8), (-1, 4), (-1, 8))
    else if code < 112 then Pick16(code - 96,
      (-3, 10), (-3, -6), (-3, -2), (-7, -2), (-3, 6), (-7, 6), (-3, 2), (-7, 2),
      (1, 10), (1, -6), (1, -2), (5, -2), (1, 6), (5, 6), (1, 2), (5, 2))
    else Pick16(code - 112,
      (3, -6), (3, 10), (3, 6), (7, 6), (3, -2), (7, -2), (3, 2), (7, 2),
      (-1, -6), (-1, 10), (-1, 6), (-5, 6), (-1, -2), (-5, -2), (-1, 2), (-5, 2))
  }

  /** v32bis_map_point, for a label below eight times `PerSubset(rate)`. */
  function MapPoint(rate: Rate, code: nat): Pair {
    match rate
    case R7200 => Map7200(code)
    case R9600 => Map9600(code)
    case R12000 => Map12000(code)
    case R14400 => Map14400(code)
  }

  lemma Distinct7200(a: nat, b: nat)
    requires a < 16 && b < 16 && Map7200(a) == Map7200(b)
    ensures a == b
  {
  }

  lemma Distinct9600(a: nat, b: nat)
    requires a < 32 && b < 32 && Map9600(a) == Map9600(b)
    ensures a == b
  {
  }

  /** Points of different subsets lie in different classes modulo 4 or 8. */
  function Class12000(p: Pair): int {
    var i, q := p.0 % 8, p.1 % 8;
    if q == 1 then (if i == 1 then 6 else if i == 3 then 2 else if i == 5 then 5 else 0)
    else if q == 3 then (if i == 1 then 3 else if i == 3 then 7 else if i == 5 then 1 else 4)
    else if q == 5 then (if i == 1 then 5 else if i == 3 then 0 else if i == 5 then 6 else 2)
    else (if i == 1 then 1 else if i == 3 then 4 else if i == 5 then 3 else 7)
  }

  function Class14400(p: Pair): int {
    var i, q := p.0 % 4, p.1 % 4;
    if i == 0 then (if q == 1 then 1 else 0)
    else if i == 1 then (if q == 0 then 4 else 6)
    else if i == 2 then (if q == 1 then 2 else 3)
    else (if q == 0 then 5 else 7)
  }

  lemma SubsetClass12000(code: nat)
    requires code < 64
    ensures Class12000(Map12000(code)) == code / 8
  {
  }

  lemma SubsetClass14400(code: nat)
    requires code < 128
    ensures Class14400(Map14400(code)) == code / 16
  {
  }

  lemma WithinSubset12000(a: nat, b: nat)
    requires a < 64 && b < 64 && a / 8 == b / 8 && Map12000(a) == Map12000(b)
    ensures a == b
  {
  }

  lemma WithinQuarter0(a: nat, b: nat)
    requires 0 <= a < 32 && 0 <= b < 32 && a / 16 == b / 16 && Map14400(a) == Map14400(b)
    ensures a == b
  {
  }

  lemma WithinQuarter1(a: nat, b: nat)
    requires 32 <= a < 64 && 32 <= b < 64 && a / 16 == b / 16 && Map14400(a) == Map14400(b)
    ensures a == b
  {
  }

  lemma WithinQuarter2(a: nat, b: nat)
    requires 64 <= a < 96 && 64 <= b < 96 && a / 16 == b / 16 && Map14400(a) == Map14400(b)
    ensures a == b
  {
  }

  lemma WithinQuarter3(a: nat, b: nat)
    requires 96 <= a < 128 && 96 <= b < 128 && a / 16 == b / 16 && Map14400(a) == Map14400(b)
    ensures a == b
  {
  }

  lemma WithinSubset14400(a: nat, b: nat)
    requires a < 128 && b < 128 && a / 16 == b / 16 && Map14400(a) == Map14400(b)
    ensures a == b
  {
    if a < 32 {
      WithinQuarter0(a, b);
    } else if a < 64 {
      WithinQuarter1(a, b);
    } else if a < 96 {
      WithinQuarter2(a, b);
    } else {
      WithinQuarter3(a, b);
    }
  }

  /** Every label has its own point, at every rate. */
  lemma MapInjective(rate: Rate, a: nat, b: nat)
    requires a < 8 * PerSubset(rate) && b < 8 * PerSubset(rate) && MapPoint(rate, a) == MapPoint(rate, b)
    ensures a == b
  {
    match rate
    case R7200 => Distinct7200(a, b);
    case R9600 => Distinct9600(a, b);
    case R12000 =>
      SubsetClass12000(a);
      SubsetClass12000(b);
      WithinSubset12000(a, b);
    case R14400 =>
      SubsetClass14400(a);
      SubsetClass14400(b);
      WithinSubset14400(a, b);
  }
}
