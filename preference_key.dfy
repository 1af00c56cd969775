/** The validation preference key: the channel along which every decorated field
    sends its validity upwards, its default value and its reduce rule, and the
    fold of that rule over the ordered contributions of a subtree. */
module PreferenceKey {

  /** The key's value type: an array of field validities. */
  type Value = seq<bool>

  /** What a subtree that contributes nothing produces: the empty array. */
  function DefaultValue(): (d: Value)
    ensures |d| == 0
  {
    []
  }

  /** The reduce rule as a value: the accumulated array followed by the next one. */
  function Combine(value: Value, next: Value): (r: Value)
    ensures |r| == |value| + |next|
    ensures r[..|value|] == value
    ensures r[|value|..] == next
  {
    value + next
  }

  /** `reduce(value:nextValue:)`: appends the next contribution to the
      accumulated array; the `inout` parameter becomes the pair value/updated. */
  method Reduce(value: Value, nextValue: () -> Value) returns (updated: Value)
    ensures |updated| == |value| + |nextValue()|
    ensures updated[..|value|] == value
    ensures updated[|value|..] == nextValue()
  {
    updated := value;
    updated := updated + nextValue();
  }

  /** Left fold of the reduce rule over `children`, starting from `acc`. */
  function FoldFrom(acc: Value, children: seq<Value>): Value
    decreases |children|
  {
    if children == [] then acc else FoldFrom(Combine(acc, children[0]), children[1..])
  }

  /** The aggregated value of an ordered list of contributions: the fold from the
      default, which is the children's arrays concatenated in order. */
  function Aggregate(children: seq<Value>): (r: Value)
    ensures r == Concat(children)
  {
    FoldFromIsConcat(DefaultValue(), children);
    FoldFrom(DefaultValue(), children)
  }

  /** Reference definition: plain concatenation of a list of sequences. */
  function Concat<T>(xss: seq<seq<T>>): seq<T> {
    if xss == [] then [] else xss[0] + Concat(xss[1..])
  }

  /** The partial aggregates that intermediate relays would pass up, one per group. */
  function Relayed(groups: seq<seq<Value>>): (r: seq<Value>)
    ensures |r| == |groups|
    ensures forall i :: 0 <= i < |groups| ==> r[i] == Aggregate(groups[i])
  {
    if groups == [] then [] else [Aggregate(groups[0])] + Relayed(groups[1..])
  }

  /** Folding the children by hand: the framework calls `reduce` once per child, in order. */
  method Collect(children: seq<Value>) returns (value: Value)
    ensures value == Concat(children)
    ensures value == Aggregate(children)
  {
    value := DefaultValue();
    for i := 0 to |children|
      invariant value == Concat(children[..i])
    {
      var next := children[i];
      value := Reduce(value, () => next);
      ConcatAppend(children[..i], [next]);
      assert children[..i + 1] == children[..i] + [next];
    }
    assert children[..|children|] == children;
  }

  /** The default contribution is a neutral element of the reduce rule. */
  lemma CombineIdentity(v: Value)
    ensures Combine(DefaultValue(), v) == v
    ensures Combine(v, DefaultValue()) == v
  {
  }

  /** The reduce rule is associative. */
  lemma CombineAssociative(a: Value, b: Value, c: Value)
    ensures Combine(Combine(a, b), c) == Combine(a, Combine(b, c))
  {
  }

  /** With no children the aggregate is the key's default value. */
  lemma AggregateEmpty()
    ensures Aggregate([]) == DefaultValue()
  {
  }

  /** A single contribution aggregates to itself. */
  lemma AggregateSingle(v: Value)
    ensures Aggregate([v]) == v
  {
    calc {
      Aggregate([v]);
      { assert [v] != [] && [v][0] == v && [v][1..] == []; }
      FoldFrom(Combine(DefaultValue(), v), []);
      Combine(DefaultValue(), v);
      { CombineIdentity(v); }
      v;
    }
  }

  lemma {:induction false} ConcatAppend<T>(a: seq<seq<T>>, b: seq<seq<T>>)
    ensures Concat(a + b) == Concat(a) + Concat(b)
  {
    if a == [] {
      assert a + b == b;
    } else {
      assert (a + b)[1..] == a[1..] + b;
      ConcatAppend(a[1..], b);
    }
  }

  /** Folding from any starting value appends the concatenation of the children to it. */
  lemma {:induction false} FoldFromIsConcat(acc: Value, children: seq<Value>)
    ensures FoldFrom(acc, children) == acc + Concat(children)
    decreases |children|
  {
    if children != [] {
      FoldFromIsConcat(Combine(acc, children[0]), children[1..]);
      assert (acc + children[0]) + Concat(children[1..]) == acc + (children[0] + Concat(children[1..]));
    }
  }

  /** Splitting the children anywhere and reducing the two partial aggregates
      gives the same result as folding them all at once. */
  lemma AggregateSplit(a: seq<Value>, b: seq<Value>)
    ensures Aggregate(a + b) == Combine(Aggregate(a), Aggregate(b))
  {
    ConcatAppend(a, b);
  }

  /** However the children are grouped behind relays, folding the groups'
      partial aggregates gives the same value as folding all children flat. */
  lemma {:induction false} AggregateRegrouped(groups: seq<seq<Value>>)
    ensures Aggregate(Concat(groups)) == Aggregate(Relayed(groups))
  {
    if groups != [] {
      var rest := groups[1..];
      AggregateRegrouped(rest);
      calc {
        Aggregate(Concat(groups));
        Aggregate(groups[0] + Concat(rest));
        { AggregateSplit(groups[0], Concat(rest)); }
        Combine(Aggregate(groups[0]), Aggregate(Concat(rest)));
        Combine(Aggregate(groups[0]), Aggregate(Relayed(rest)));
        { AggregateSingle(Aggregate(groups[0]));
          AggregateSplit([Aggregate(groups[0])], Relayed(rest)); }
        Aggregate([Aggregate(groups[0])] + Relayed(rest));
        Aggregate(Relayed(groups));
      }
    }
  }
}
