/** Time buckets, with the truncating integer division of SQLite and Go. */
module Buckets {

  function TruncDiv(a: int, b: int): int
    requires b > 0
  {
    if a >= 0 then a / b else -((-a) / b)
  }

  /** `ts / b * b` */
  function Bucket(ts: int, b: int): int
    requires b > 0
  {
    TruncDiv(ts, b) * b
  }

  lemma DivMonotone(x: nat, y: nat, b: int)
    requires b > 0 && x <= y
    ensures x / b <= y / b
  {
    var qx, qy := x / b, y / b;
    DivBounds(x, b);
    DivBounds(y, b);
    if qx > qy { MulMonotone(qy + 1, qx, b); }
  }

  lemma DivBounds(n: nat, b: int)
    requires b > 0
    ensures 0 <= (n / b) * b <= n < (n / b) * b + b
  {
    var q, r := n / b, n % b;
    assert n == q * b + r && 0 <= r < b;
  }

  lemma DivNonNegative(n: nat, b: int)
    requires b > 0
    ensures n / b >= 0
  {
  }

  lemma TruncDivMonotone(x: int, y: int, b: int)
    requires b > 0 && x <= y
    ensures TruncDiv(x, b) <= TruncDiv(y, b)
  {
    if x >= 0 {
      DivMonotone(x, y, b);
    } else if y < 0 {
      DivMonotone(-y, -x, b);
    } else {
      DivNonNegative(-x, b);
      DivNonNegative(y, b);
    }
  }

  /** Buckets follow time, on both sides of zero. */
  lemma BucketMonotone(x: int, y: int, b: int)
    requires b > 0 && x <= y
    ensures Bucket(x, b) <= Bucket(y, b)
  {
    TruncDivMonotone(x, y, b);
    MulMonotone(TruncDiv(x, b), TruncDiv(y, b), b);
  }

  lemma MulMonotone(x: int, y: int, b: int)
    requires b > 0 && x <= y
    ensures x * b <= y * b
  {
  }

  /** Where a time lies in its bucket. */
  lemma BucketBounds(ts: int, b: int)
    requires b > 0
    ensures ts >= 0 ==> Bucket(ts, b) <= ts < Bucket(ts, b) + b && Bucket(ts, b) >= 0
    ensures ts < 0 ==> Bucket(ts, b) - b < ts <= Bucket(ts, b) <= 0
  {
    if ts >= 0 {
      DivBounds(ts, b);
    } else {
      DivBounds(-ts, b);
      NegMul((-ts) / b, b);
    }
  }

  lemma NegMul(q: int, b: int)
    ensures (-q) * b == -(q * b)
  {
  }

  /** A bucket start is its own bucket. */
  lemma BucketOfMultiple(k: int, b: int)
    requires b > 0
    ensures Bucket(k * b, b) == k * b
  {
    BucketBounds(k * b, b);
    var q := TruncDiv(k * b, b);
    if q < k { MulMonotone(q + 1, k, b); }
    if q > k { MulMonotone(k + 1, q, b); }
  }
}
