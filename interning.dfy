/** The string interner the parser hands identifier text to: each distinct
    string gets one symbol, and a symbol gives its string back. */
module Interning {

  /** No string occurs twice. */
  ghost predicate Distinct(names: seq<string>) {
    forall i, j :: 0 <= i < j < |names| ==> names[i] != names[j]
  }

  class Interner {
    /** `names[s]` is the string of symbol `s`. */
    var names: seq<string>

    constructor ()
      ensures names == [] && Distinct(names)
    {
      names := [];
    }

    /** `intern`: the string's symbol, allocating the next one for a string
        not seen before. */
    method Intern(s: string) returns (sym: nat)
      modifies this
      ensures sym < |names| && names[sym] == s
      ensures s in old(names) ==> names == old(names)
      ensures s !in old(names) ==> names == old(names) + [s] && sym == |old(names)|
      ensures Distinct(old(names)) ==> Distinct(names)
    {
      var i := 0;
      while i < |names|
        invariant 0 <= i <= |names|
        invariant forall k :: 0 <= k < i ==> names[k] != s
      {
        if names[i] == s {
          return i;
        }
        i := i + 1;
      }
      sym := |names|;
      names := names + [s];
    }

    /** `str`: the string of a symbol; while no string is interned twice,
        that symbol is the only one naming it. */
    function Str(sym: nat): (s: string)
      reads this
      requires sym < |names|
      ensures Distinct(names) ==> forall k :: 0 <= k < |names| && names[k] == s ==> k == sym
    {
      names[sym]
    }
  }
}
