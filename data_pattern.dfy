/** `DataPattern`: one immutable training example, the net input, the desired
    net output, and how many times training replays it. */
module DataPatterns {
  import LinAlg

  datatype DataPattern = DataPattern(input: LinAlg.Vec, output: LinAlg.Vec, priority: int)

  /** The two-argument constructor: the pattern is replayed once per epoch. */
  function WithDefaultPriority(input: LinAlg.Vec, output: LinAlg.Vec): (p: DataPattern)
    ensures p.input == input && p.output == output && p.priority == 1
  {
    DataPattern(input, output, 1)
  }

  /** How many times `train()` replays `p`: its priority, or none at all when the
      priority is not positive (the replay loop does not run). */
  function Replays(p: DataPattern): (n: nat)
    ensures n > 0 <==> p.priority > 0
    ensures p.priority > 0 ==> n == p.priority
  {
    if p.priority > 0 then p.priority else 0
  }
}
