/** The validation modifier: a decorated view evaluates its validation closure
    once per render and publishes the result, as a one-element array, under the
    validation preference key. */
module ValidationModifier {
  import opened PreferenceKey

  /** The preference value a decorated view publishes. */
  function Contribution(validation: () -> bool): (r: Value)
    ensures |r| == 1
    ensures r[0] == validation()
  {
    [validation()]
  }

  /** What a list of decorated sibling views publishes, in view order. */
  function Emitted(validations: seq<() -> bool>): (r: seq<Value>)
    ensures |r| == |validations|
  {
    seq(|validations|, i requires 0 <= i < |validations| => Contribution(validations[i]))
  }

  /** The closures' results, in view order. */
  function Evaluated(validations: seq<() -> bool>): (r: seq<bool>)
    ensures |r| == |validations|
  {
    seq(|validations|, i requires 0 <= i < |validations| => validations[i]())
  }

  lemma {:induction false} ConcatEmitted(validations: seq<() -> bool>)
    ensures Concat(Emitted(validations)) == Evaluated(validations)
  {
    if validations != [] {
      var rest := validations[1..];
      assert Emitted(validations)[1..] == Emitted(rest);
      assert Evaluated(validations) == [validations[0]()] + Evaluated(rest);
      ConcatEmitted(rest);
    }
  }

  /** n decorated views aggregate to an array of exactly n elements, the i-th
      being the i-th view's closure result. */
  lemma FieldsAggregate(validations: seq<() -> bool>)
    ensures Aggregate(Emitted(validations)) == Evaluated(validations)
    ensures |Aggregate(Emitted(validations))| == |validations|
  {
    ConcatEmitted(validations);
  }
}
