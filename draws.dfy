/** The ranges of the values .NET's System.Random hands out. Every random
    draw of the generation step is a parameter of the model that carries
    the range of the call it replaces. */
module Draws {

  /** r is a possible result of Random.Next(maxValue): a value in
      [0, maxValue), or 0 when maxValue is 0; a negative maxValue throws,
      so no value is possible. */
  predicate IsNext(r: nat, maxValue: int)
  {
    maxValue >= 0 && (if maxValue == 0 then r == 0 else r < maxValue)
  }

  /** d is a possible result of Random.NextDouble(). */
  predicate IsNextDouble(d: real)
  {
    0.0 <= d < 1.0
  }

}
