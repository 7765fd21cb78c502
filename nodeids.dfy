/** `NodeIdGenerator`: hands out node ids 1, 2, 3, … in order. */
module NodeIds {

  class NodeIdGenerator {
    /** The id the next call returns. */
    var value: nat

    constructor ()
      ensures value == 1
    {
      value := 1;
    }

    /** `next`: the current value, and the counter moves past it. */
    method Next() returns (id: nat)
      modifies this
      ensures id == old(value) && value == old(value) + 1
    {
      id := value;
      value := value + 1;
    }
  }

  /** A fresh generator hands out 1, 2 and 3 on its first three calls. */
  method FirstThreeIds() returns (a: nat, b: nat, c: nat)
    ensures a == 1 && b == 2 && c == 3
  {
    var g := new NodeIdGenerator();
    a := g.Next();
    b := g.Next();
    c := g.Next();
  }
}
