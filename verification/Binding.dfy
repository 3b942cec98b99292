/** Positional binding of a prepared statement. */
module Binding {
  import opened Basics
  import opened SqlEval

  datatype Outcome = Bound | CountMismatch | EngineError

  class Statement {
    /** One slot per parameter; an unbound one reads as NULL. */
    var slots: seq<Value>

    constructor (parameterCount: nat)
      ensures |slots| == parameterCount && forall i :: 0 <= i < parameterCount ==> slots[i] == Null
    {
      slots := seq(parameterCount, _ => Null);
    }

    /** The number of values is checked before anything is bound; success puts the
        k-th value in the k-th slot, and an engine error leaves no value behind.
        `refuses` says which slots the engine refuses to bind. */
    method BindAll(values: seq<Value>, refuses: nat -> bool) returns (r: Outcome)
      modifies this
      ensures |slots| == |old(slots)|
      ensures r == CountMismatch <==> |values| != |old(slots)|
      ensures r == EngineError <==> |values| == |old(slots)| && exists i :: 0 <= i < |values| && refuses(i)
      ensures r == CountMismatch ==> slots == old(slots)
      ensures r == Bound ==> slots == values
      ensures r == EngineError ==> forall i :: 0 <= i < |slots| ==> slots[i] == Null
    {
      if |values| != |slots| { return CountMismatch; }
      for i := 0 to |values|
        invariant |slots| == |values|
        invariant slots[..i] == values[..i]
        invariant forall j :: 0 <= j < i ==> !refuses(j)
      {
        if refuses(i) {
          slots := seq(|slots|, _ => Null);
          return EngineError;
        }
        slots := slots[i := values[i]];
      }
      assert slots[..|values|] == slots && values[..|values|] == values;
      r := Bound;
    }
  }
}
