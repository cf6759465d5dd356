/** Progress accounting; drawing and timing are not part of this model. */
module Progress {
  import opened Common

  const U64_LIMIT: nat := 0x1_0000_0000_0000_0000
  const U128_LIMIT: nat := 0x1_0000_0000_0000_0000_0000_0000_0000_0000

  class Meter {
    const total: Option<nat>
    var processed: nat

    constructor (total: Option<nat>)
      ensures this.total == total && processed == 0
    {
      this.total := total;
      processed := 0;
    }

    method Advance(amount: nat)
      modifies this`processed
      ensures processed == old(processed) + amount
    {
      processed := processed + amount;
    }
  }

  /** State and percentage reported to the terminal, with the casts of the source: the product is
      a 128-bit number and the percentage an 8-bit one. */
  function TerminalProgress(total: Option<nat>, processed: nat): (r: (nat, nat)) {
    match total
    case None => (4, 0)
    case Some(t) =>
      if t == 0 then (1, 0)
      else
        var done := if processed < t then processed else t;
        (1, Quotient(done * 100 % U128_LIMIT, t) % 256)
  }

  /** What is reported without a total, or when there is nothing to process. */
  lemma ProgressWithoutShare(processed: nat)
    ensures TerminalProgress(None, processed) == (4, 0) && TerminalProgress(Some(0), processed) == (1, 0)
  {
  }

  /** Neither cast loses anything: the percentage is the exact rounded-down share. */
  lemma PercentageIsExact(total: nat, processed: nat)
    requires 0 < total < U64_LIMIT
    ensures var done := if processed < total then processed else total;
            TerminalProgress(Some(total), processed) == (1, Quotient(done * 100, total))
              && Quotient(done * 100, total) <= 100
  {
    var done := if processed < total then processed else total;
    hide Quotient;
    assert done * 100 < 0x64_0000_0000_0000_0000;
    QuotientMonotone(done * 100, total * 100, total);
    FullShare(total, total);
  }

  function Quotient(n: nat, d: nat): (q: nat)
    requires d > 0
    ensures d * q <= n < d * (q + 1)
  {
    n / d
  }

  lemma MulMonotone(d: nat, x: nat, y: nat)
    requires x <= y
    ensures d * x <= d * y
  {
  }

  lemma MulCancels(d: nat, x: nat, y: nat)
    requires d * x < d * y
    ensures x < y
  {
    if y <= x {
      MulMonotone(d, y, x);
    }
  }

  lemma QuotientMonotone(m: nat, n: nat, d: nat)
    requires d > 0 && m <= n
    ensures Quotient(m, d) <= Quotient(n, d)
  {
    hide Quotient;
    MulCancels(d, Quotient(m, d), Quotient(n, d) + 1);
  }

  /** The percentage never falls, never exceeds 100, and reaches 100 exactly when everything has
      been processed. */
  lemma PercentageBehaves(total: nat, earlier: nat, later: nat)
    requires 0 < total < U64_LIMIT && earlier <= later
    ensures TerminalProgress(Some(total), earlier).1 <= TerminalProgress(Some(total), later).1 <= 100
    ensures TerminalProgress(Some(total), later).1 == 100 <==> later >= total
  {
    hide TerminalProgress, Quotient;
    PercentageIsExact(total, earlier);
    PercentageIsExact(total, later);
    var a, b := if earlier < total then earlier else total, if later < total then later else total;
    QuotientMonotone(a * 100, b * 100, total);
    FullShare(b, total);
  }

  lemma FullShare(done: nat, total: nat)
    requires done <= total && total > 0
    ensures Quotient(done * 100, total) == 100 <==> done == total
  {
    hide Quotient;
    if done == total {
      MulCancels(total, 100, Quotient(done * 100, total) + 1);
      MulCancels(total, Quotient(done * 100, total), 101);
    }
  }
}
