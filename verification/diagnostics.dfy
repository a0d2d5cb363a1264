/** The messages the semantic pass writes to the console, kept as data. */
module Diagnostics {

  datatype Diagnostic =
    | GlobalRedeclared(name: string)        // a global variable name declared a second time
    | IntGetsString(name: string)           // an `int` global initialised with a string literal
    | DuplicateFunction(name: string)       // same name and parameter types as an earlier function
    | StructFound(name: string)             // informational note for every struct declaration
  {
    predicate IsSemanticError() {
      !StructFound?
    }
  }

  const SemanticTag := "[Eroare semantica]"

  predicate OccursAt(text: string, part: string, i: nat) {
    i + |part| <= |text| && text[i..i + |part|] == part
  }

  /** The console line for a diagnostic: semantic errors carry the tag, the note does
      not, and every message quotes the name it is about. */
  function Message(d: Diagnostic): (r: string)
    ensures d.IsSemanticError() <==> SemanticTag <= r
    ensures exists i :: OccursAt(r, d.name, i)
  {
    match d
    case GlobalRedeclared(n) =>
      Quote(SemanticTag + " Variabila globală '", n, "' este deja declarată.")
    case IntGetsString(n) =>
      Quote(SemanticTag + " Variabila '", n, "' (int) nu poate primi un string.")
    case DuplicateFunction(n) =>
      Quote(SemanticTag + " Funcția '", n, "' cu această listă de parametri există deja.")
    case StructFound(n) =>
      var r := Quote("Am găsit struct: ", n, "");
      assert r[0] != SemanticTag[0];
      r
  }

  function Quote(before: string, name: string, after: string): (r: string)
    ensures before <= r && OccursAt(r, name, |before|)
  {
    var r := before + name + after;
    assert r[|before|..|before| + |name|] == name;
    r
  }
}
