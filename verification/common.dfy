/** Small shared vocabulary: an optional value (Ruby's `nil` versus a value),
    the model of Ruby's `Array#sample`, and decimal digit characters. */
module Options {

  /** `None` stands for Ruby's `nil`/`false` result, `Some` for a value. */
  datatype Option<+T> = None | Some(value: T)
}

module Choice {

  /** `xs.sample`: the random draw is supplied by the caller as a natural
      number and reduced modulo the number of elements, so every element
      can be drawn and nothing outside the list can. */
  function Sample<T>(xs: seq<T>, draw: nat): (r: T)
    requires |xs| > 0
    ensures r in xs
  {
    xs[draw % |xs|]
  }

  /** Every element can be drawn: the draw `i` picks the `i`-th element. */
  lemma SampleAt<T>(xs: seq<T>, i: nat)
    requires i < |xs|
    ensures Sample(xs, i) == xs[i]
  {
  }

}

module Chars {

  /** A decimal digit character, `/[0-9]/`. */
  predicate IsDigit(c: char)
  {
    '0' <= c <= '9'
  }
}
