/** The collecting form view: it keeps the latest aggregated validation array in
    its state and reports the form valid when no element of that array is false. */
module TextForm {
  import opened PreferenceKey

  /** Reference meaning of "valid": every element is true. */
  predicate AllTrue(seeds: Value) {
    forall i :: 0 <= i < |seeds| ==> seeds[i]
  }

  /** The validity check on an array of seeds: it does not contain `false`. */
  function ContainsNoFalse(seeds: Value): (r: bool)
    ensures r <==> AllTrue(seeds)
  {
    !(false in seeds)
  }

  class TextFormView {
    /** The latest aggregated array delivered by the preference change. */
    var validationSeeds: Value

    /** A form starts with no seeds (the empty array). */
    constructor ()
      ensures validationSeeds == DefaultValue()
    {
      validationSeeds := [];
    }

    /** The validity closure handed to the content: no seed is false. */
    function IsValid(): (r: bool)
      reads this
      ensures r <==> AllTrue(validationSeeds)
    {
      ContainsNoFalse(validationSeeds)
    }

    /** The preference-change handler: the delivered value replaces the seeds. */
    method OnPreferenceChange(value: Value)
      modifies this
      ensures validationSeeds == value
    {
      validationSeeds := value;
    }
  }

  /** The initial (empty) seeds report valid. */
  lemma EmptyIsValid()
    ensures AllTrue(DefaultValue())
  {
  }

  /** Validity of a reduced pair is the conjunction of both parts' validity. */
  lemma AllTrueCombine(a: Value, b: Value)
    ensures AllTrue(Combine(a, b)) <==> AllTrue(a) && AllTrue(b)
  {
    var c := Combine(a, b);
    if AllTrue(a) && AllTrue(b) {
      forall i | 0 <= i < |c| ensures c[i] {
        if i < |a| { assert c[i] == c[..|a|][i]; } else { assert c[i] == c[|a|..][i - |a|]; }
      }
    }
    if AllTrue(c) {
      forall i | 0 <= i < |a| ensures a[i] { assert c[..|a|][i] == c[i]; }
      forall i | 0 <= i < |b| ensures b[i] { assert c[|a|..][i] == c[|a| + i]; }
    }
  }

  lemma {:induction false} AllTrueConcat(children: seq<Value>)
    ensures AllTrue(Concat(children)) <==> forall i :: 0 <= i < |children| ==> AllTrue(children[i])
  {
    if children != [] {
      AllTrueConcat(children[1..]);
      AllTrueCombine(children[0], Concat(children[1..]));
      assert forall i :: 1 <= i < |children| ==> children[i] == children[1..][i - 1];
    }
  }

  /** The aggregate is valid exactly when every child's contribution is. */
  lemma AllTrueAggregate(children: seq<Value>)
    ensures AllTrue(Aggregate(children)) <==> forall i :: 0 <= i < |children| ==> AllTrue(children[i])
  {
    AllTrueConcat(children);
  }

  /** The reported validity does not depend on the order of the children. */
  lemma ValidityOrderIndependent(a: seq<Value>, b: seq<Value>)
    requires multiset(a) == multiset(b)
    ensures AllTrue(Aggregate(a)) <==> AllTrue(Aggregate(b))
  {
    AllTrueAggregate(a);
    AllTrueAggregate(b);
    forall i | 0 <= i < |a| ensures a[i] in b {
      assert a[i] in multiset(a);
    }
    forall i | 0 <= i < |b| ensures b[i] in a {
      assert b[i] in multiset(b);
    }
  }
}
