/** The reports of a whole run, from an empty state, stated against the tree. */
module PassReports {
  import opened Wrappers
  import opened Tokens
  import opened Globals
  import opened Functions
  import opened Visitor
  import opened VisitorProperties
  import opened Reports

  /** The token report has one line per non-suppressed terminal, in document order. */
  lemma TokenReport(root: Node)
    ensures var kept := Kept(Terminals(root));
            var lines := TokenLines(Visit(root, Initial).tokens);
            |lines| == |kept| && forall i :: 0 <= i < |kept| ==> lines[i] == TokenLine(kept[i])
  {
    VisitTokenLog(root, Initial);
    assert Visit(root, Initial).tokens == Kept(Terminals(root));
  }

  /** The global report lists each declared name once, in order of its first
      declaration, with the type and initializer of that first declaration. */
  lemma GlobalReport(root: Node)
    ensures var decls := GlobalDecls(root);
            var names := FreshNames(decls, {});
            var lines := GlobalLines(Visit(root, Initial).globals);
            && |lines| == |names|
            && forall i :: 0 <= i < |names| ==>
                 FirstDeclaration(decls, names[i]).Some?
                 && lines[i] == GlobalLine(names[i], FirstDeclaration(decls, names[i]).value)
  {
    var t := Visit(root, Initial).globals;
    var decls := GlobalDecls(root);
    assert t.keys == FreshNames(decls, {}) by {
      VisitGlobalKeys(root, Initial);
      assert Initial.globals.entries.Keys == {};
    }
    forall i | 0 <= i < |t.keys|
      ensures FirstDeclaration(decls, t.keys[i]) == Some(t.entries[t.keys[i]])
    {
      VisitGlobalEntry(root, Initial, t.keys[i]);
      assert Lookup(Initial.globals, t.keys[i]) == None;
    }
  }

  /** The function report has three lines for every function-declaration node. */
  lemma FunctionReport(root: Node)
    ensures |FunctionLines(Visit(root, Initial).functions)| == 3 * FunctionDeclCount(root)
  {
    FunctionListLength(root, Initial);
  }
}
