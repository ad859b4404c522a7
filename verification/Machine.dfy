/** The 64-bit machine words of the service. */
module Machine {

  const TWO63: int := 0x8000_0000_0000_0000
  const TWO64: int := 0x1_0000_0000_0000_0000

  /** uint64 arithmetic. */
  function Wrap(n: int): (w: int)
    ensures 0 <= w < TWO64
  {
    n % TWO64
  }

  /** int(x) for a uint64 x. */
  function ToInt(n: int): int
  {
    if n < TWO63 then n else n - TWO64
  }

  /** A number survives both conversions exactly if a signed word can hold it. */
  lemma {:induction false} SurvivesIffSigned(n: nat)
    ensures ToInt(Wrap(n)) == n <==> n < TWO63
  {
  }
}
