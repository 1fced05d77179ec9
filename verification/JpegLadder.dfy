/** The search for a JPEG quality whose encoding fits a size threshold (images/Compress.go). */
module JpegLadder {
  import opened Wrappers

  datatype Compressor = Compressor(qualityStep: int, minQuality: int, maxQuality: int, thresholdKB: int)

  /** The encoder as a function of the quality; None stands for an encoding error. */
  type Encoder = int -> Option<string>

  /** The quality of the k-th attempt. */
  function Quality(c: Compressor, k: nat): int {
    if k == 0 then c.maxQuality
    else
      var q := Quality(c, k - 1) - c.qualityStep;
      if q < c.minQuality then c.minQuality else q
  }

  predicate Fits(c: Compressor, data: string) {
    |data| <= c.thresholdKB * 1024
  }

  /** The k-th attempt neither fails nor fits nor is the last. */
  predicate GoesOn(c: Compressor, enc: Encoder, k: nat) {
    var q := Quality(c, k);
    enc(q).Some? && !Fits(c, enc(q).value) && q > c.minQuality
  }

  predicate FitsAt(c: Compressor, enc: Encoder, k: nat) {
    enc(Quality(c, k)).Some? && Fits(c, enc(Quality(c, k)).value)
  }

  function CeilDiv(a: int, b: int): int
    requires b > 0
  {
    (a + b - 1) / b
  }

  /** The most attempts the search can need. */
  function AttemptBound(c: Compressor): int
    requires c.qualityStep > 0 || c.maxQuality <= c.minQuality
  {
    if c.maxQuality <= c.minQuality then 1 else CeilDiv(c.maxQuality - c.minQuality, c.qualityStep) + 1
  }

  /**
   * Stops at the first attempt that fails, fits, or is at the minimum. `enough` numbers an attempt that would
   * stop; without one the original loops for ever.
   */
  method CompressJPEG(c: Compressor, enc: Encoder, ghost enough: nat) returns (r: Option<string>, attempts: nat)
    requires !GoesOn(c, enc, enough)
    ensures 1 <= attempts <= enough + 1
    ensures forall k :: 0 <= k < attempts - 1 ==> GoesOn(c, enc, k)
    ensures !GoesOn(c, enc, attempts - 1) && r == enc(Quality(c, attempts - 1))
    ensures r.Some? ==> |r.value| <= c.thresholdKB * 1024 || Quality(c, attempts - 1) <= c.minQuality
  {
    var quality := c.maxQuality;
    attempts := 0;
    while true
      invariant quality == Quality(c, attempts)
      invariant forall k :: 0 <= k < attempts ==> GoesOn(c, enc, k)
      decreases enough - attempts
    {
      r := enc(quality);
      attempts := attempts + 1;
      if r.None? {
        return;
      }
      if Fits(c, r.value) || quality <= c.minQuality {
        return;
      }
      quality := quality - c.qualityStep;
      if quality < c.minQuality {
        quality := c.minQuality;
      }
    }
  }

  lemma {:induction false} RungsDescend(c: Compressor, k: nat)
    requires c.qualityStep > 0 && c.maxQuality >= c.minQuality
    ensures var q := c.maxQuality - k * c.qualityStep;
            Quality(c, k) == if q < c.minQuality then c.minQuality else q
  {
    if k > 0 {
      RungsDescend(c, k - 1);
      assert k * c.qualityStep == (k - 1) * c.qualityStep + c.qualityStep;
    }
  }

  lemma MulMonotone(a: int, b: int, c: nat)
    requires a <= b
    ensures a * c <= b * c
  {
  }

  lemma QuotientAtLeast(x: int, b: nat, q: int)
    requires b > 0 && q * b <= x
    ensures q <= x / b
  {
    assert (x / b + 1) * b == (x / b) * b + b > x;
    if x / b + 1 <= q {
      MulMonotone(x / b + 1, q, b);
    }
  }

  /** While the quality is above the minimum another attempt is within the bound. */
  lemma RungsLeft(c: Compressor, k: nat)
    requires c.qualityStep > 0 || c.maxQuality <= c.minQuality
    requires Quality(c, k) > c.minQuality && (k > 0 ==> c.maxQuality > c.minQuality)
    ensures c.maxQuality > c.minQuality && k + 1 < AttemptBound(c)
  {
    RungsDescend(c, k);
    var span := c.maxQuality - c.minQuality;
    assert (k + 1) * c.qualityStep == k * c.qualityStep + c.qualityStep;
    QuotientAtLeast(span + c.qualityStep - 1, c.qualityStep, k + 1);
  }

  /** With a positive step, or no ladder to descend, an attempt within the bound stops, whatever the encoder does. */
  lemma StopsWithinBound(c: Compressor, enc: Encoder)
    requires c.qualityStep > 0 || c.maxQuality <= c.minQuality
    ensures AttemptBound(c) >= 1 && !GoesOn(c, enc, AttemptBound(c) - 1)
  {
    if c.maxQuality > c.minQuality {
      RungsLeft(c, 0);
    }
    if GoesOn(c, enc, AttemptBound(c) - 1) {
      RungsLeft(c, AttemptBound(c) - 1);
    }
  }

  ghost predicate Stops(c: Compressor, enc: Encoder) {
    exists k: nat :: !GoesOn(c, enc, k)
  }

  /** The search ends for every encoder if and only if the step is positive or the maximum is not above the minimum. */
  lemma EndsExactly(c: Compressor)
    ensures (forall enc: Encoder :: Stops(c, enc)) <==> c.qualityStep > 0 || c.maxQuality <= c.minQuality
  {
    if c.qualityStep > 0 || c.maxQuality <= c.minQuality {
      forall enc: Encoder ensures Stops(c, enc) {
        StopsWithinBound(c, enc);
        var k: nat := AttemptBound(c) - 1;
        assert !GoesOn(c, enc, k);
      }
    } else {
      var size: nat := if c.thresholdKB < 0 then 0 else c.thresholdKB * 1024 + 1;
      var data := seq(size, _ => '.');
      var enc: Encoder := _ => Some(data);
      assert !Stops(c, enc) by {
        forall k: nat ensures GoesOn(c, enc, k) {
          NoStepNeverEnds(c, enc, k);
        }
      }
    }
  }

  /** The ladder never rises, and stays at the minimum once there. */
  lemma {:induction false} LadderDescends(c: Compressor, i: nat, k: nat)
    requires c.qualityStep > 0 && c.maxQuality >= c.minQuality && i <= k
    ensures c.minQuality <= Quality(c, k) <= Quality(c, i)
  {
    if i < k {
      LadderDescends(c, i, k - 1);
    } else if k > 0 {
      LadderDescends(c, k - 1, k - 1);
    }
  }

  /**
   * The result is the encoding at the highest quality of the ladder that fits, or, when none fits, the one at
   * the minimum; an encoding error is reported only if it comes before any fit.
   */
  lemma ResultIsHighestFit(c: Compressor, enc: Encoder, attempts: nat, k: nat)
    requires c.qualityStep > 0 && c.maxQuality >= c.minQuality && attempts >= 1
    requires (forall j :: 0 <= j < attempts - 1 ==> GoesOn(c, enc, j)) && !GoesOn(c, enc, attempts - 1)
    ensures var last := Quality(c, attempts - 1);
            && (FitsAt(c, enc, k) ==> Quality(c, k) <= last)
            && (enc(last).Some? && !FitsAt(c, enc, attempts - 1) ==> last == c.minQuality && !FitsAt(c, enc, k))
  {
    LadderDescends(c, 0, attempts - 1);
    if k >= attempts - 1 {
      LadderDescends(c, attempts - 1, k);
    } else {
      assert GoesOn(c, enc, k);
    }
  }

  /** An attempt is the last if and only if it fails, is within 1024 bytes a kilobyte, or is at the minimum. */
  lemma GoesOnExactly(c: Compressor, enc: Encoder, k: nat)
    ensures GoesOn(c, enc, k) <==>
              var r := enc(Quality(c, k));
              r.Some? && |r.value| > c.thresholdKB * 1024 && Quality(c, k) > c.minQuality
    ensures FitsAt(c, enc, k) <==> enc(Quality(c, k)).Some? && |enc(Quality(c, k)).value| <= c.thresholdKB * 1024
  {
  }

  /** Without a positive step the ladder never comes down, so an encoder that never fits is called for ever. */
  lemma {:induction false} NoStepNeverEnds(c: Compressor, enc: Encoder, k: nat)
    requires c.qualityStep <= 0 && c.maxQuality > c.minQuality
    requires forall q :: enc(q).Some? && !Fits(c, enc(q).value)
    ensures GoesOn(c, enc, k) && Quality(c, k) >= c.maxQuality
  {
    if k > 0 {
      NoStepNeverEnds(c, enc, k - 1);
    }
  }
}
