/**
 * deepimagej.tools.DijVariable: a named variable of a headless macro call
 * (its type, its flag and its value, which is often the name of the data it
 * stands for), with static searches over a list of them. Type and flag are
 * null until set; a search that compares a null type fails, which the
 * model reports as None.
 */
module DijVariable {
  import opened Wrappers

  class Variable {
    var argumentName: Option<string>
    var varType: Option<string>
    var flag: Option<string>
    var value: string

    constructor (value: string)
      ensures this.value == value && varType.None? && flag.None? && argumentName.None?
    {
      this.value := value;
      varType := None;
      flag := None;
      argumentName := None;
    }

    method SetType(t: string)
      modifies this
      ensures varType == Some(t)
      ensures value == old(value) && flag == old(flag) && argumentName == old(argumentName)
    {
      varType := Some(t);
    }

    method SetFlag(f: string)
      modifies this
      ensures flag == Some(f)
      ensures value == old(value) && varType == old(varType) && argumentName == old(argumentName)
    {
      flag := Some(f);
    }

    method SetVal(v: string)
      modifies this
      ensures value == v
      ensures varType == old(varType) && flag == old(flag) && argumentName == old(argumentName)
    {
      value := v;
    }
  }

  /** The values of the variables whose type is t, in list order. */
  function TypedValues(vars: seq<Variable>, t: string): (r: seq<string>)
    reads vars
    ensures |r| <= |vars|
    ensures forall x :: x in r <==> exists k :: 0 <= k < |vars| && vars[k].varType == Some(t) && vars[k].value == x
  {
    if vars == [] then []
    else
      var rest := TypedValues(vars[1..], t);
      assert forall k :: 1 <= k < |vars| ==> vars[k] == vars[1..][k - 1];
      if vars[0].varType == Some(t) then [vars[0].value] + rest else rest
  }

  /** The values of all the variables, in list order. */
  function AllValues(vars: seq<Variable>): (r: seq<string>)
    reads vars
    ensures |r| == |vars|
    ensures forall i :: 0 <= i < |vars| ==> r[i] == vars[i].value
  {
    if vars == [] then [] else [vars[0].value] + AllValues(vars[1..])
  }

  /** The position of the first variable whose value is the name, or -1. */
  function FirstNamed(vars: seq<Variable>, name: string): (i: int)
    reads vars
    ensures -1 <= i < |vars|
    ensures i == -1 <==> forall k :: 0 <= k < |vars| ==> vars[k].value != name
    ensures i != -1 ==> vars[i].value == name && forall k :: 0 <= k < i ==> vars[k].value != name
  {
    if vars == [] then -1
    else if vars[0].value == name then 0
    else
      var j := FirstNamed(vars[1..], name);
      if j == -1 then -1 else j + 1
  }

  /**
   * retrieveTypes: the values of the variables of the given type, or the one
   * empty string when there are none; None when a variable the loop reaches
   * has no type (Java dereferences the null type).
   */
  method RetrieveTypes(allVars: seq<Variable>, t: string) returns (r: Option<seq<string>>)
    ensures r.None? <==> exists k :: 0 <= k < |allVars| && allVars[k].varType.None?
    ensures r.Some? ==> r.value == if TypedValues(allVars, t) == [] then [""] else TypedValues(allVars, t)
  {
    var argsType: seq<string> := [];
    var i := 0;
    while i < |allVars|
      invariant 0 <= i <= |allVars|
      invariant forall k :: 0 <= k < i ==> allVars[k].varType.Some?
      invariant argsType + TypedValues(allVars[i..], t) == TypedValues(allVars, t)
    {
      assert allVars[i..][1..] == allVars[i + 1..];
      if allVars[i].varType.None? {
        return None;
      }
      if allVars[i].varType.value == t {
        argsType := argsType + [allVars[i].value];
      }
      i := i + 1;
    }
    assert allVars[i..] == [];
    if argsType == [] {
      argsType := [""];
    }
    r := Some(argsType);
  }

  /** retrieveByName: the first variable whose value equals the name, or null. */
  method RetrieveByName(name: string, vars: seq<Variable>) returns (wanted: Option<Variable>)
    ensures wanted.None? <==> FirstNamed(vars, name) == -1
    ensures wanted.Some? ==> wanted.value == vars[FirstNamed(vars, name)]
  {
    wanted := None;
    var i := 0;
    while i < |vars|
      invariant 0 <= i <= |vars|
      invariant forall k :: 0 <= k < i ==> vars[k].value != name
    {
      if vars[i].value == name {
        wanted := Some(vars[i]);
        return;
      }
      i := i + 1;
    }
  }

  /**
   * retrieveIndByName: the index of the first variable whose value equals
   * the name; with no match the counter has run to the last index
   * (size - 1, so -1 for an empty list).
   */
  method RetrieveIndByName(name: string, vars: seq<Variable>) returns (ind: int)
    ensures FirstNamed(vars, name) != -1 ==> ind == FirstNamed(vars, name)
    ensures FirstNamed(vars, name) == -1 ==> ind == |vars| - 1
  {
    ind := -1;
    var i := 0;
    while i < |vars|
      invariant 0 <= i <= |vars|
      invariant ind == i - 1
      invariant forall k :: 0 <= k < i ==> vars[k].value != name
    {
      ind := ind + 1;
      if vars[i].value == name {
        return;
      }
      i := i + 1;
    }
  }

  /** retrieveNameInd: 0 when some variable's value is the name, -1 otherwise. */
  method RetrieveNameInd(name: string, vars: seq<Variable>) returns (count: int)
    ensures count == 0 <==> exists k :: 0 <= k < |vars| && vars[k].value == name
    ensures count == -1 <==> forall k :: 0 <= k < |vars| ==> vars[k].value != name
  {
    count := -1;
    var i := 0;
    while i < |vars|
      invariant 0 <= i <= |vars|
      invariant count == -1
      invariant forall k :: 0 <= k < i ==> vars[k].value != name
    {
      if vars[i].value == name {
        count := count + 1;
        return;
      }
      i := i + 1;
    }
  }

  /** retrieveNames: all the values in order, or the one empty string for an empty list. */
  method RetrieveNames(allVars: seq<Variable>) returns (names: seq<string>)
    ensures allVars == [] ==> names == [""]
    ensures allVars != [] ==> names == AllValues(allVars)
  {
    names := [];
    var i := 0;
    while i < |allVars|
      invariant 0 <= i <= |allVars|
      invariant names == AllValues(allVars[..i])
    {
      assert allVars[..i + 1] == allVars[..i] + [allVars[i]];
      names := names + [allVars[i].value];
      i := i + 1;
    }
    assert allVars[..i] == allVars;
    if names == [] {
      names := [""];
    }
  }
}
