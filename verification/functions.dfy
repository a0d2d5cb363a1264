/** The function list: every declared function with its return type and ordered
    parameters, and the signature comparison used to spot duplicates. */
module Functions {
  import opened Diagnostics

  datatype ParameterInfo = ParameterInfo(paramName: string, paramType: string)

  datatype FunctionInfo = FunctionInfo(funcName: string, returnType: string, parameters: seq<ParameterInfo>)

  /** Two parameter lists have the same signature when they are equally long and agree
      on the type at every position; parameter names do not take part. */
  predicate HasSameParameters(mine: seq<ParameterInfo>, other: seq<ParameterInfo>) {
    && |mine| == |other|
    && forall i :: 0 <= i < |mine| ==> mine[i].paramType == other[i].paramType
  }

  /** The comparison loop of the source: unequal counts fail at once, otherwise the
      first position whose types differ fails, and reaching the end succeeds. */
  method CompareParameters(f: FunctionInfo, otherParams: seq<ParameterInfo>) returns (same: bool)
    ensures same <==> HasSameParameters(f.parameters, otherParams)
  {
    if |f.parameters| != |otherParams| {
      return false;
    }
    var i := 0;
    while i < |f.parameters|
      invariant 0 <= i <= |f.parameters|
      invariant forall j :: 0 <= j < i ==> f.parameters[j].paramType == otherParams[j].paramType
    {
      if f.parameters[i].paramType != otherParams[i].paramType {
        return false;
      }
      i := i + 1;
    }
    return true;
  }

  function ParamTypes(ps: seq<ParameterInfo>): seq<string> {
    seq(|ps|, i requires 0 <= i < |ps| => ps[i].paramType)
  }

  /** The signature is exactly the sequence of parameter types. */
  lemma SignatureIsTypeSequence(a: seq<ParameterInfo>, b: seq<ParameterInfo>)
    ensures HasSameParameters(a, b) <==> ParamTypes(a) == ParamTypes(b)
  {
    if ParamTypes(a) == ParamTypes(b) {
      assert |a| == |ParamTypes(a)|;
      forall i | 0 <= i < |a|
        ensures a[i].paramType == b[i].paramType
      {
        assert ParamTypes(a)[i] == ParamTypes(b)[i];
      }
    }
  }

  lemma SameParametersReflexive(a: seq<ParameterInfo>)
    ensures HasSameParameters(a, a)
  {
  }

  lemma SameParametersSymmetric(a: seq<ParameterInfo>, b: seq<ParameterInfo>)
    ensures HasSameParameters(a, b) <==> HasSameParameters(b, a)
  {
  }

  lemma SameParametersTransitive(a: seq<ParameterInfo>, b: seq<ParameterInfo>, c: seq<ParameterInfo>)
    requires HasSameParameters(a, b) && HasSameParameters(b, c)
    ensures HasSameParameters(a, c)
  {
  }

  /** Renaming parameters never changes the outcome of the comparison. */
  lemma ParameterNamesIgnored(a: seq<ParameterInfo>, renamed: seq<ParameterInfo>, b: seq<ParameterInfo>)
    requires |renamed| == |a|
    requires forall i :: 0 <= i < |a| ==> renamed[i].paramType == a[i].paramType
    ensures HasSameParameters(renamed, b) <==> HasSameParameters(a, b)
  {
  }

  /** An existing entry that a new declaration `name(params)` duplicates. */
  predicate Clashes(existing: FunctionInfo, name: string, params: seq<ParameterInfo>) {
    existing.funcName == name && HasSameParameters(existing.parameters, params)
  }

  /** The duplicate scan over the entries recorded so far: one report per existing entry
      with the same name and signature (so none at all exactly when nothing clashes), each
      naming the function. */
  function DuplicateReports(existing: seq<FunctionInfo>, name: string, params: seq<ParameterInfo>): (r: seq<Diagnostic>)
    ensures forall d :: d in r ==> d == DuplicateFunction(name)
    ensures |r| == |set i | 0 <= i < |existing| && Clashes(existing[i], name, params)|
    ensures r == [] <==> forall i :: 0 <= i < |existing| ==> !Clashes(existing[i], name, params)
    decreases |existing|
  {
    if |existing| == 0 then []
    else
      var n := |existing| - 1;
      var earlier := DuplicateReports(existing[..n], name, params);
      ClashIndicesStep(existing, name, params);
      earlier + (if Clashes(existing[n], name, params) then [DuplicateFunction(name)] else [])
  }

  lemma ClashIndicesStep(existing: seq<FunctionInfo>, name: string, params: seq<ParameterInfo>)
    requires |existing| > 0
    ensures var n := |existing| - 1;
            var before := set i | 0 <= i < n && Clashes(existing[..n][i], name, params);
            var after := set i | 0 <= i < |existing| && Clashes(existing[i], name, params);
            after == before + (if Clashes(existing[n], name, params) then {n} else {})
            && n !in before
  {
  }

  /** The return type takes no part in duplicate detection: lists that differ only in
      the return types of their entries draw the same reports. */
  lemma {:induction false} ReturnTypeIgnored(a: seq<FunctionInfo>, b: seq<FunctionInfo>, name: string, params: seq<ParameterInfo>)
    requires |a| == |b|
    requires forall i :: 0 <= i < |a| ==> a[i].funcName == b[i].funcName && a[i].parameters == b[i].parameters
    ensures DuplicateReports(a, name, params) == DuplicateReports(b, name, params)
  {
    if |a| > 0 {
      var n := |a| - 1;
      ReturnTypeIgnored(a[..n], b[..n], name, params);
    }
  }
}
