/** The windows of `transcribe_audio_in_chunks` in utils/whisper_utils.py:
    `range(0, math.ceil(duration), chunk_seconds)`, each window cut out of the
    waveform by sample index. Audio is `samples` samples at `rate` per second,
    so the duration is `samples / rate` seconds. */
module Windows {

  /** `math.ceil(x / d)` for whole numbers. */
  function CeilDiv(x: nat, d: nat): (r: nat)
    requires d > 0
    ensures r * d >= x
    ensures r == 0 || (r - 1) * d < x
  {
    (x + d - 1) / d
  }

  /** The least multiple bound: `m` is below `ceil(x / d)` exactly when `m`
      times `d` is below `x`. */
  lemma LtCeilDiv(m: nat, x: nat, d: nat)
    requires d > 0
    ensures m < CeilDiv(x, d) <==> m * d < x
  {
    var c := CeilDiv(x, d);
    if m < c {
      assert m <= c - 1;
      MulMono(m, c - 1, d);
    } else {
      MulMono(c, m, d);
    }
  }

  lemma MulMono(a: nat, b: nat, d: nat)
    requires a <= b
    ensures a * d <= b * d
  {
  }

  /** `math.ceil(samples / rate)`: the whole seconds the loop ranges over. */
  function CeilSeconds(samples: nat, rate: nat): nat
    requires rate > 0
  {
    CeilDiv(samples, rate)
  }

  /** How many windows `range(0, ceil(duration), width)` yields. */
  function WindowCount(samples: nat, rate: nat, width: nat): nat
    requires rate > 0 && width > 0
  {
    CeilDiv(CeilSeconds(samples, rate), width)
  }

  /** First sample of window `k`: `int(start * sr)` with `start = k * width`. */
  function WindowStart(k: nat, rate: nat, width: nat): nat {
    k * width * rate
  }

  /** One past the last sample of window `k`: `int(min(start + width, duration) * sr)`. */
  function WindowEnd(k: nat, samples: nat, rate: nat, width: nat): nat {
    var e := (k + 1) * width * rate;
    if e < samples then e else samples
  }

  /** Window `k` exists exactly when it starts before the last sample. */
  lemma WindowExists(k: nat, samples: nat, rate: nat, width: nat)
    requires rate > 0 && width > 0
    ensures k < WindowCount(samples, rate, width) <==> WindowStart(k, rate, width) < samples
  {
    LtCeilDiv(k, CeilSeconds(samples, rate), width);
    LtCeilDiv(k * width, samples, rate);
  }

  /** Rounding up twice is rounding up once: `ceil(ceil(D) / W) == ceil(D / W)`. */
  lemma WindowCountIsCeilOfDuration(samples: nat, rate: nat, width: nat)
    requires rate > 0 && width > 0
    ensures WindowCount(samples, rate, width) == CeilDiv(samples, width * rate)
  {
    var a, b := WindowCount(samples, rate, width), CeilDiv(samples, width * rate);
    WindowExists(a, samples, rate, width);
    LtCeilDiv(a, samples, width * rate);
    MulAssoc(a, width, rate);
    WindowExists(b, samples, rate, width);
    LtCeilDiv(b, samples, width * rate);
    MulAssoc(b, width, rate);
  }

  lemma MulAssoc(a: nat, b: nat, c: nat)
    ensures a * (b * c) == a * b * c
  {
  }

  lemma NextStart(k: nat, rate: nat, width: nat)
    ensures WindowStart(k + 1, rate, width) == WindowStart(k, rate, width) + width * rate
    ensures rate > 0 && width > 0 ==> width * rate > 0
  {
    assert (k + 1) * width == k * width + width;
  }

  /** Every window holds at least one sample. */
  lemma WindowNonEmpty(k: nat, samples: nat, rate: nat, width: nat)
    requires rate > 0 && width > 0
    requires k < WindowCount(samples, rate, width)
    ensures WindowStart(k, rate, width) < WindowEnd(k, samples, rate, width)
  {
    WindowExists(k, samples, rate, width);
    NextStart(k, rate, width);
  }

  /** Each window ends where the next one starts. */
  lemma WindowsContiguous(k: nat, samples: nat, rate: nat, width: nat)
    requires rate > 0 && width > 0
    requires k + 1 < WindowCount(samples, rate, width)
    ensures WindowEnd(k, samples, rate, width) == WindowStart(k + 1, rate, width)
  {
    WindowExists(k + 1, samples, rate, width);
  }

  /** The last window ends at the last sample. */
  lemma LastWindowEndsAtEnd(samples: nat, rate: nat, width: nat)
    requires rate > 0 && width > 0 && samples > 0
    ensures WindowCount(samples, rate, width) > 0
    ensures WindowEnd(WindowCount(samples, rate, width) - 1, samples, rate, width) == samples
  {
    var c := WindowCount(samples, rate, width);
    WindowExists(0, samples, rate, width);
    WindowExists(c, samples, rate, width);
    assert (c - 1 + 1) * width * rate == c * width * rate;
  }

  /** The windows cover every sample, each in exactly one window: sample `s`
      lies in window `s / (width * rate)` and in no other. */
  lemma WindowsPartition(s: nat, k: nat, samples: nat, rate: nat, width: nat)
    requires rate > 0 && width > 0 && s < samples
    ensures s / (width * rate) < WindowCount(samples, rate, width)
    ensures k < WindowCount(samples, rate, width) &&
            WindowStart(k, rate, width) <= s < WindowEnd(k, samples, rate, width)
        <==> k == s / (width * rate)
  {
    var size := width * rate;
    var q := s / size;
    assert size > 0 by { NextStart(0, rate, width); }
    assert q * size <= s < (q + 1) * size by { DivBounds(s, size); }
    assert WindowStart(q, rate, width) == q * size by { MulAssoc(q, width, rate); }
    assert (q + 1) * width * rate == (q + 1) * size by { MulAssoc(q + 1, width, rate); }
    WindowExists(q, samples, rate, width);
    if k < WindowCount(samples, rate, width) && WindowStart(k, rate, width) <= s < WindowEnd(k, samples, rate, width) {
      assert k * size <= s < (k + 1) * size by {
        MulAssoc(k, width, rate);
        MulAssoc(k + 1, width, rate);
      }
      UniqueQuotient(k, q, s, size);
    }
  }

  /** Only one multiple of `d` lies in each interval of length `d`. */
  lemma UniqueQuotient(k: nat, q: nat, x: nat, d: nat)
    requires k * d <= x < (k + 1) * d
    requires q * d <= x < (q + 1) * d
    ensures k == q
  {
    if k < q {
      MulMono(k + 1, q, d);
    } else if q < k {
      MulMono(q + 1, k, d);
    }
  }

  /** The quotient brackets the dividend. */
  lemma DivBounds(x: nat, d: nat)
    requires d > 0
    ensures (x / d) * d <= x < (x / d + 1) * d
  {
  }

  /** Division undoes multiplication when the remainder is below the divisor. */
  lemma DivOfMultiplePlus(q: nat, m: nat, d: nat)
    requires m < d
    ensures (q * d + m) / d == q
  {
    var x := q * d + m;
    DivBounds(x, d);
    var p := x / d;
    if p < q {
      MulMono(p + 1, q, d);
    } else if q < p {
      MulMono(q + 1, p, d);
    }
  }

  /** 90 seconds in windows of 30 give three full windows. */
  lemma NinetySecondsInThirties(rate: nat)
    requires rate > 0
    ensures WindowCount(90 * rate, rate, 30) == 3
    ensures forall k :: 0 <= k < 3 ==>
      WindowEnd(k, 90 * rate, rate, 30) - WindowStart(k, rate, 30) == 30 * rate
  {
    var d := 30 * rate;
    WindowCountIsCeilOfDuration(90 * rate, rate, 30);
    assert 90 * rate + 30 * rate - 1 == 3 * d + (d - 1);
    DivOfMultiplePlus(3, d - 1, d);
  }

  /** 100 seconds in windows of 30 give four windows, the last of ten seconds. */
  lemma HundredSecondsInThirties(rate: nat)
    requires rate > 0
    ensures WindowCount(100 * rate, rate, 30) == 4
    ensures WindowEnd(3, 100 * rate, rate, 30) - WindowStart(3, rate, 30) == 10 * rate
  {
    var d := 30 * rate;
    WindowCountIsCeilOfDuration(100 * rate, rate, 30);
    assert 100 * rate + 30 * rate - 1 == 4 * d + (10 * rate - 1);
    DivOfMultiplePlus(4, 10 * rate - 1, d);
    assert WindowStart(3, rate, 30) == 90 * rate;
    assert (3 + 1) * 30 * rate == 120 * rate;
  }
}
