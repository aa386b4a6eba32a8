/** What a rate is, in bytes and milliseconds, and that rates give back the bytes moved. */
module RateLaws {
  import opened LiveRows
  import opened Sums
  import opened ClientHistory

  lemma {:induction false} Cleared(a: real, n: real, unit: real)
    requires n > 0.0 && unit > 0.0
    ensures a / n / unit * n * unit == a
  {
    var q := a / n;
    assert q * n == a;
    var r := q / unit;
    assert r * unit == q;
    assert (r * n) * unit == (r * unit) * n;
  }

  /** A rate in MiB/s, times the milliseconds and 1048576, is a thousand times the bytes. */
  lemma {:induction false} RateMeaning(bytes: int, elapsedMs: int)
    requires elapsedMs > 0
    ensures MiBPerSecond(bytes, elapsedMs) * elapsedMs as real * 1048576.0 == bytes as real * 1000.0
  {
    Cleared(bytes as real * 1000.0, elapsedMs as real, 1048576.0);
  }

  /** The rates of a client over the intervals after `u` up to `t`, each times its milliseconds. */
  ghost function RateTime(iv: seq<Interval>, u: int, t: int, c: ClientId): real
    requires 0 <= u <= t < |iv| && forall k :: u < k <= t ==> RateAt(iv, k, c).Some?
    decreases t
  {
    if t == u then 0.0
    else
      RateTime(iv, u, t - 1, c)
      + Mul(RateAt(iv, t, c).value, (iv[t].runtimeMs - iv[t - 1].runtimeMs) as real)
  }

  lemma {:induction false} OneInterval(iv: seq<Interval>, t: int, c: ClientId)
    requires 0 < t < |iv| && RateAt(iv, t, c).Some?
    ensures c in iv[t - 1].samples && c in iv[t].samples && iv[t - 1].runtimeMs < iv[t].runtimeMs
    ensures Mul(RateAt(iv, t, c).value, (iv[t].runtimeMs - iv[t - 1].runtimeMs) as real) * 1048576.0
            == (iv[t].samples[c] - iv[t - 1].samples[c]) as real * 1000.0
  {
    RateMeaning(iv[t].samples[c] - iv[t - 1].samples[c], iv[t].runtimeMs - iv[t - 1].runtimeMs);
  }

  /** Where every interval of a stretch has a rate, the rates times their milliseconds add up to
      the bytes the client moved over the stretch. */
  lemma {:induction false} RatesGiveBytes(iv: seq<Interval>, u: int, t: int, c: ClientId)
    requires 0 <= u <= t < |iv| && c in iv[u].samples && forall k :: u < k <= t ==> RateAt(iv, k, c).Some?
    ensures c in iv[t].samples
    ensures RateTime(iv, u, t, c) * 1048576.0 == (iv[t].samples[c] - iv[u].samples[c]) as real * 1000.0
    decreases t
  {
    if u < t {
      RatesGiveBytes(iv, u, t - 1, c);
      OneInterval(iv, t, c);
      var before, step := RateTime(iv, u, t - 1, c),
                          Mul(RateAt(iv, t, c).value, (iv[t].runtimeMs - iv[t - 1].runtimeMs) as real);
      assert (before + step) * 1048576.0 == before * 1048576.0 + step * 1048576.0;
    }
  }

  /** A client has a rate over an interval exactly when it has samples there and in the interval
      before, time has advanced and its counter has not gone back. */
  lemma {:induction false} HasRate(iv: seq<Interval>, t: int, c: ClientId)
    requires 0 < t < |iv|
    ensures RateAt(iv, t, c).Some? <==>
            && c in iv[t - 1].samples && c in iv[t].samples
            && iv[t - 1].runtimeMs < iv[t].runtimeMs && iv[t - 1].samples[c] <= iv[t].samples[c]
  {}
}
