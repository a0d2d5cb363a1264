/** Small programs, each pinning down one behaviour of the pass. */
module Scenarios {
  import opened Wrappers
  import opened Diagnostics
  import opened Tokens
  import opened Globals
  import opened Functions
  import opened Visitor

  /** `int x = 5; int x = 6;` keeps the first declaration and reports the second once. */
  lemma RedeclaredGlobalKeepsFirst()
    ensures var r := Visit(Other([GlobalVarDecl("int", "x", Some("5"), []),
                                  GlobalVarDecl("int", "x", Some("6"), [])]), Initial);
            && r.diags == [GlobalRedeclared("x")]
            && r.globals.keys == ["x"]
            && Lookup(r.globals, "x") == Some(GlobalEntry("int", Some("5")))
  {
  }

  /** `int x = "hello";` is reported once and inserted all the same. */
  lemma StringIntoIntStillInserted()
    ensures var r := Visit(Other([GlobalVarDecl("int", "x", Some("\"hello\""), [])]), Initial);
            && r.diags == [IntGetsString("x")]
            && Lookup(r.globals, "x") == Some(GlobalEntry("int", Some("\"hello\"")))
  {
  }

  /** `int f(int a)` then `int f(int b)`: one duplicate report, and both are recorded. */
  lemma SameTypesDifferentNamesIsDuplicate()
    ensures var r := Visit(Other([FunctionDecl("int", "f", [ParameterInfo("a", "int")], []),
                                  FunctionDecl("int", "f", [ParameterInfo("b", "int")], [])]), Initial);
            && r.diags == [DuplicateFunction("f")]
            && r.functions == [FunctionInfo("f", "int", [ParameterInfo("a", "int")]),
                               FunctionInfo("f", "int", [ParameterInfo("b", "int")])]
  {
  }

  /** `int f(int a)` then `int f(float a)`: different signatures, nothing reported. */
  lemma DifferentTypesIsOverload()
    ensures var r := Visit(Other([FunctionDecl("int", "f", [ParameterInfo("a", "int")], []),
                                  FunctionDecl("int", "f", [ParameterInfo("a", "float")], [])]), Initial);
            && r.diags == []
            && r.functions == [FunctionInfo("f", "int", [ParameterInfo("a", "int")]),
                               FunctionInfo("f", "int", [ParameterInfo("a", "float")])]
  {
    var first := [ParameterInfo("a", "int")];
    var second := [ParameterInfo("a", "float")];
    assert first[0].paramType != second[0].paramType by {
      assert "int"[0] != "float"[0];
    }
    assert !HasSameParameters(first, second);
  }

  /** A function is recorded only after its body, so a same-signature function nested
      in its own body is not reported, and the nested one is listed first. */
  lemma NestedTwinNotReported()
    ensures var r := Visit(FunctionDecl("void", "f", [], [FunctionDecl("int", "f", [], [])]), Initial);
            && r.diags == []
            && r.functions == [FunctionInfo("f", "int", []), FunctionInfo("f", "void", [])]
  {
  }

  /** Whitespace and a line comment leave the token log empty. */
  lemma CommentsOnlyEmptyLog()
    ensures Visit(Other([Terminal("WS", " ", 1), Terminal("LINE_COMMENT", "// note", 1),
                         Terminal("WS", "\n", 1)]), Initial).tokens == []
  {
  }

  /** Nothing stops a second run over the same tree from the state the first one left:
      every declaration is then reported again and every function recorded twice. */
  lemma SecondRunReportsAgain()
    ensures var p := Other([GlobalVarDecl("int", "x", Some("5"), []),
                            FunctionDecl("int", "f", [ParameterInfo("a", "int")], [])]);
            var first := Visit(p, Initial);
            var second := Visit(p, first);
            && first.diags == []
            && second.diags == [GlobalRedeclared("x"), DuplicateFunction("f")]
            && second.functions == [FunctionInfo("f", "int", [ParameterInfo("a", "int")]),
                                    FunctionInfo("f", "int", [ParameterInfo("a", "int")])]
            && Lookup(second.globals, "x") == Some(GlobalEntry("int", Some("5")))
  {
    var x := GlobalVarDecl("int", "x", Some("5"), []);
    var f := FunctionDecl("int", "f", [ParameterInfo("a", "int")], []);
    var first := Visit(Other([x, f]), Initial);
    FirstRunOfPair(first);
    SecondRunOfPair(first);
  }

  /** The first run over `int x = 5; int f(int a)`: nothing to report. */
  lemma FirstRunOfPair(first: State)
    requires first == Visit(Other([GlobalVarDecl("int", "x", Some("5"), []),
                                   FunctionDecl("int", "f", [ParameterInfo("a", "int")], [])]), Initial)
    ensures first.diags == []
    ensures first.functions == [FunctionInfo("f", "int", [ParameterInfo("a", "int")])]
    ensures Lookup(first.globals, "x") == Some(GlobalEntry("int", Some("5")))
  {
    var x := GlobalVarDecl("int", "x", Some("5"), []);
    var f := FunctionDecl("int", "f", [ParameterInfo("a", "int")], []);
    var a := Visit(x, Initial);
    assert a.diags == [] && a.functions == [] by {
      assert [x][1..] == [];
    }
    assert Lookup(a.globals, "x") == Some(GlobalEntry("int", Some("5")));
    VisitPair(x, f, Initial);
    assert first.globals == a.globals;
  }

  /** A run over `int x = 5; int f(int a)` from a state that already holds both. */
  lemma SecondRunOfPair(s: State)
    requires Valid(s.globals)
    requires s.functions == [FunctionInfo("f", "int", [ParameterInfo("a", "int")])]
    requires Lookup(s.globals, "x") == Some(GlobalEntry("int", Some("5")))
    ensures var r := Visit(Other([GlobalVarDecl("int", "x", Some("5"), []),
                                  FunctionDecl("int", "f", [ParameterInfo("a", "int")], [])]), s);
            && r.diags == s.diags + [GlobalRedeclared("x"), DuplicateFunction("f")]
            && r.functions == s.functions + s.functions
            && r.globals == s.globals
  {
    var x := GlobalVarDecl("int", "x", Some("5"), []);
    var params := [ParameterInfo("a", "int")];
    var f := FunctionDecl("int", "f", params, []);
    var info := FunctionInfo("f", "int", params);
    var b := Visit(x, s);
    assert b.diags == s.diags + [GlobalRedeclared("x")] && b.functions == s.functions
        && b.globals == s.globals;
    assert DuplicateReports([info], "f", params) == [DuplicateFunction("f")] by {
      assert Clashes(info, "f", params);
    }
    VisitPair(x, f, s);
  }

  /** Two siblings are visited one after the other. */
  lemma VisitPair(x: Node, y: Node, s: State)
    requires Valid(s.globals)
    ensures Visit(Other([x, y]), s) == Visit(y, Visit(x, s))
  {
    var s1 := Visit(x, s);
    var s2 := Visit(y, s1);
    assert VisitAll([x, y], s) == VisitAll([y], s1) by {
      assert [x, y][1..] == [y];
    }
    assert VisitAll([y], s1) == s2 by {
      assert [y][1..] == [];
    }
  }
}
