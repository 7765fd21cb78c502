/** Annotations (`@inline`, `@synthesis`) and the checks that reject them
    where a declaration does not allow them. */
module Annotations {
  import opened Wrappers
  import opened Tokens
  import opened Syntax
  import opened Errors

  /** The modifier an annotation name denotes. */
  function ModifierNamed(s: string): (m: Option<Modifier>)
    ensures m == Some(Inline) <==> s == "inline"
    ensures m == Some(Synthesis) <==> s == "synthesis"
  {
    if s == "inline" then Some(Inline)
    else if s == "synthesis" then Some(Synthesis)
    else None
  }

  /** `Modifier::name`, the text of the annotation. */
  function ModifierName(m: Modifier): (s: string)
    ensures ModifierNamed(s) == Some(m)
  {
    match m
    case Inline => "inline"
    case Synthesis => "synthesis"
  }

  predicate Contains(mods: seq<ModifierEntry>, m: Modifier) {
    exists i :: 0 <= i < |mods| && mods[i].modifier == m
  }

  /** No modifier occurs twice: what `parse_annotations` guarantees. */
  predicate Distinct(mods: seq<ModifierEntry>) {
    forall i, j :: 0 <= i < j < |mods| ==> mods[i].modifier != mods[j].modifier
  }

  /** The token at index `i` is an `@`. */
  predicate AtSign(toks: seq<Token>, i: nat) {
    i < |toks| && toks[i].kind == Sym(At)
  }

  /** What `parse_annotations` reads from index `i` on, having read `acc`:
      `@name` pairs while the token is `@`. An unknown or repeated name is
      reported with the token after it. Each entry keeps the span of the
      token after its name, which is what `Modifiers::add` is given. */
  function ReadAnnotations(toks: seq<Token>, i: nat, acc: seq<ModifierEntry>): Result<seq<ModifierEntry>, ParseError>
    requires |toks| > 0
    decreases |toks| - i
  {
    if !AtSign(toks, i) then Ok(acc)
    else
      var name := TokenAt(toks, i + 1).kind;
      if !name.Identifier? then Err(ExpectedIdentifier(name))
      else match ModifierNamed(name.text)
        case None => Err(UnknownAnnotation(TokenAt(toks, i + 2).kind))
        case Some(m) =>
          if Contains(acc, m) then Err(RedundantAnnotation(TokenAt(toks, i + 2).kind))
          else ReadAnnotations(toks, i + 2, acc + [ModifierEntry(m, TokenAt(toks, i + 2).span)])
  }

  /** From index `i` on, the tokens spell `@name` for each of `mods` in
      turn, followed by a token that is not `@`. */
  ghost predicate Spelled(toks: seq<Token>, i: nat, mods: seq<ModifierEntry>)
    requires |toks| > 0
    decreases |mods|
  {
    if mods == [] then !AtSign(toks, i)
    else
      && AtSign(toks, i)
      && TokenAt(toks, i + 1).kind == Identifier(ModifierName(mods[0].modifier))
      && TokenAt(toks, i + 2).span == mods[0].span
      && Spelled(toks, i + 2, mods[1..])
  }

  /** The annotations `parse_annotations` returns never repeat a
      modifier. */
  lemma {:induction false} AnnotationsDistinct(toks: seq<Token>, i: nat, acc: seq<ModifierEntry>)
    requires |toks| > 0 && Distinct(acc) && ReadAnnotations(toks, i, acc).Ok?
    ensures Distinct(ReadAnnotations(toks, i, acc).value)
    decreases |toks| - i
  {
    if AtSign(toks, i) {
      var name := TokenAt(toks, i + 1).kind;
      var m := ModifierNamed(name.text).value;
      var acc' := acc + [ModifierEntry(m, TokenAt(toks, i + 2).span)];
      forall j | 0 <= j < |acc|
        ensures acc'[j].modifier != m
      {
        assert acc'[j] == acc[j];
      }
      AnnotationsDistinct(toks, i + 2, acc');
    }
  }

  /** Spelled-out distinct annotations are read back as they are. */
  lemma {:induction false} SpelledAnnotationsRead(toks: seq<Token>, i: nat, acc: seq<ModifierEntry>, mods: seq<ModifierEntry>)
    requires |toks| > 0 && Spelled(toks, i, mods) && Distinct(acc + mods)
    ensures ReadAnnotations(toks, i, acc) == Ok(acc + mods)
    decreases |mods|
  {
    if mods != [] {
      var m := mods[0].modifier;
      var acc' := acc + [mods[0]];
      assert acc + mods == acc' + mods[1..];
      forall j | 0 <= j < |acc|
        ensures acc[j].modifier != m
      {
        assert (acc + mods)[j] == acc[j] && (acc + mods)[|acc|] == mods[0];
      }
      assert ModifierNamed(ModifierName(m)) == Some(m);
      assert ModifierEntry(m, TokenAt(toks, i + 2).span) == mods[0];
      assert Distinct(acc' + mods[1..]);
      SpelledAnnotationsRead(toks, i + 2, acc', mods[1..]);
    } else {
      assert acc + mods == acc;
    }
  }

  /** What `parse_annotations` accepts is exactly what is spelled out:
      the annotations it returns after `acc` are the ones the tokens spell. */
  lemma {:induction false} ReadAnnotationsSpelled(toks: seq<Token>, i: nat, acc: seq<ModifierEntry>)
    requires |toks| > 0 && ReadAnnotations(toks, i, acc).Ok?
    ensures var mods := ReadAnnotations(toks, i, acc).value;
      |acc| <= |mods| && mods[..|acc|] == acc && Spelled(toks, i, mods[|acc|..])
    decreases |toks| - i
  {
    var mods := ReadAnnotations(toks, i, acc).value;
    if AtSign(toks, i) {
      var name := TokenAt(toks, i + 1).kind;
      var m := ModifierNamed(name.text).value;
      var e := ModifierEntry(m, TokenAt(toks, i + 2).span);
      var acc' := acc + [e];
      ReadAnnotationsSpelled(toks, i + 2, acc');
      assert mods[..|acc'|][..|acc|] == mods[..|acc|];
      assert mods[|acc|..][1..] == mods[|acc'|..];
      assert mods[|acc|..][0] == e;
    } else {
      assert mods[|acc|..] == [];
    }
  }

  /** The modifiers a `function` may carry. */
  const FunctionModifiers: seq<Modifier> := [Synthesis]

  /** The modifiers a `procedure` may carry. */
  const ProcedureModifiers: seq<Modifier> := [Inline]

  /** `restrict_modifiers`: succeed when every modifier is allowed, else
      report the first one that is not. */
  method RestrictModifiers(mods: seq<ModifierEntry>, allowed: seq<Modifier>) returns (r: Result<(), ParseError>)
    ensures r.Ok? <==> forall i :: 0 <= i < |mods| ==> mods[i].modifier in allowed
    ensures r.Err? ==> exists i :: (0 <= i < |mods|
      && mods[i].modifier !in allowed
      && r.error == MisplacedAnnotation(mods[i].modifier)
      && (forall j :: 0 <= j < i ==> mods[j].modifier in allowed))
  {
    for i := 0 to |mods|
      invariant forall j :: 0 <= j < i ==> mods[j].modifier in allowed
    {
      if mods[i].modifier !in allowed {
        return Err(MisplacedAnnotation(mods[i].modifier));
      }
    }
    return Ok(());
  }

  /** `ban_modifiers`: no annotation is allowed at all. */
  method BanModifiers(mods: seq<ModifierEntry>) returns (r: Result<(), ParseError>)
    ensures r.Ok? <==> mods == []
    ensures r.Err? ==> r.error == MisplacedAnnotation(mods[0].modifier)
  {
    r := RestrictModifiers(mods, []);
    if mods != [] {
      assert mods[0].modifier !in [];
    }
  }
}
