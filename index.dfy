/**
 * deepimagej.tools.Index: linear searches over String[] and int[].
 * Each Java overload pair for String[] and int[] runs the same loop with
 * `equals` or `==`; one generic method stands for both.
 */
module Index {
  import opened Wrappers

  /** The exceptions the start-offset searches can raise. */
  datatype Failure = ArrayIndexOutOfBounds | StringIndexOutOfBounds

  /** Position of the first `x` in `s`, or -1. */
  function FirstIndex<T(==)>(s: seq<T>, x: T): (r: int)
    ensures -1 <= r < |s|
    ensures r == -1 <==> x !in s
    ensures r != -1 ==> s[r] == x && x !in s[..r]
  {
    if s == [] then -1
    else if s[0] == x then 0
    else
      var k := FirstIndex(s[1..], x);
      assert s[1..][..if k == -1 then 0 else k] == s[1..if k == -1 then 1 else k + 1];
      if k == -1 then -1 else k + 1
  }

  /** Position of the last `x` in `s`, or -1. */
  function LastIndex<T(==)>(s: seq<T>, x: T): (r: int)
    ensures -1 <= r < |s|
    ensures r == -1 <==> x !in s
    ensures r != -1 ==> s[r] == x && x !in s[r + 1..]
  {
    if s == [] then -1
    else if s[|s| - 1] == x then |s| - 1
    else
      var k := LastIndex(s[..|s| - 1], x);
      assert k != -1 ==> s[k + 1..] == s[..|s| - 1][k + 1..] + [s[|s| - 1]];
      k
  }

  /** The first and last positions are determined by the match and what lies before or after it. */
  lemma FirstIndexIs<T>(s: seq<T>, x: T, i: int)
    requires i == -1 ==> x !in s
    requires i != -1 ==> 0 <= i < |s| && s[i] == x && forall j :: 0 <= j < i ==> s[j] != x
    ensures FirstIndex(s, x) == i
  {
  }

  lemma LastIndexIs<T>(s: seq<T>, x: T, i: int)
    requires i == -1 ==> x !in s
    requires i != -1 ==> 0 <= i < |s| && s[i] == x && forall j :: i < j < |s| ==> s[j] != x
    ensures LastIndex(s, x) == i
  {
  }

  /** indexOf(String[], String) and indexOf(int[], int): the first matching position, or -1. */
  method IndexOf<T(==)>(a: array<T>, element: T) returns (index: int)
    ensures index == FirstIndex(a[..], element)
    ensures index == -1 <==> element !in a[..]
    ensures index != -1 ==> 0 <= index < a.Length && a[index] == element
    ensures forall j :: 0 <= j < a.Length && (index == -1 || j < index) ==> a[j] != element
  {
    var found := false;
    var counter := 0;
    index := -1;
    while counter < a.Length && !found
      invariant 0 <= counter <= a.Length
      invariant found <==> index != -1
      invariant found ==> 0 <= index == counter - 1 < a.Length && a[index] == element
      invariant forall j :: 0 <= j < counter && (index == -1 || j < index) ==> a[j] != element
    {
      if a[counter] == element {
        found := true;
        index := counter;
      }
      counter := counter + 1;
    }
    assert forall j :: 0 <= j < a.Length ==> a[..][j] == a[j];
    FirstIndexIs(a[..], element, index);
  }

  /** indexOf(int[], int, start): the first match at or after `start`; a negative start throws. */
  method IndexOfFrom(a: array<int>, element: int, start: int) returns (r: Result<int, Failure>)
    ensures r.Err? <==> start < 0
    ensures r.Ok? ==> r.value == -1 || (start <= r.value < a.Length && a[r.value] == element)
    ensures r.Ok? ==> forall j :: start <= j < a.Length && (r.value == -1 || j < r.value) ==> a[j] != element
  {
    if start < 0 {
      // the first iteration reads array[start]
      return Err(ArrayIndexOutOfBounds);
    }
    var found := false;
    var counter := start;
    var index := -1;
    while counter < a.Length && !found
      invariant start <= counter
      invariant counter > start ==> counter <= a.Length
      invariant found <==> index != -1
      invariant found ==> start <= index == counter - 1 < a.Length && a[index] == element
      invariant forall j :: start <= j < counter && j < a.Length && (index == -1 || j < index) ==> a[j] != element
    {
      if a[counter] == element {
        found := true;
        index := counter;
      }
      counter := counter + 1;
    }
    r := Ok(index);
  }

  /** The String[] start variant compares first characters only. */
  predicate SameFirstChar(entry: string, element: string)
  {
    entry != "" && element != "" && entry[0] == element[0]
  }

  /**
   * indexOf(String[], String, start): the first entry at or after `start`
   * whose first character is the element's first character. A negative start,
   * an empty entry met before the match, or an empty element throw.
   */
  method IndexOfFirstChar(a: array<string>, element: string, start: int) returns (r: Result<int, Failure>)
    ensures start < 0 ==> r == Err(ArrayIndexOutOfBounds)
    ensures start >= a.Length ==> r == Ok(-1)
    ensures 0 <= start < a.Length && element == "" ==> r == Err(StringIndexOutOfBounds)
    ensures r.Ok? ==> r.value == -1 || (start <= r.value < a.Length && SameFirstChar(a[r.value], element))
    ensures r.Ok? ==> forall j :: start <= j < a.Length && (r.value == -1 || j < r.value) ==>
                        a[j] != "" && element != "" && !SameFirstChar(a[j], element)
    ensures r.Err? ==> start < 0 || element == "" || exists j :: start <= j < a.Length && a[j] == ""
  {
    if start < 0 {
      return Err(ArrayIndexOutOfBounds);
    }
    var found := false;
    var counter := start;
    var index := -1;
    while counter < a.Length && !found
      invariant start <= counter
      invariant counter > start ==> counter <= a.Length && element != ""
      invariant found <==> index != -1
      invariant found ==> start <= index == counter - 1 < a.Length && SameFirstChar(a[index], element)
      invariant forall j :: start <= j < counter && j < a.Length && (index == -1 || j < index) ==>
                  a[j] != "" && !SameFirstChar(a[j], element)
    {
      if a[counter] == "" || element == "" {
        return Err(StringIndexOutOfBounds);
      }
      if a[counter][0] == element[0] {
        found := true;
        index := counter;
      }
      counter := counter + 1;
    }
    r := Ok(index);
  }

  /** lastIndexOf(int[], int) and lastIndexOf(String[], String): the last matching position, or -1. */
  method LastIndexOf<T(==)>(a: array<T>, element: T) returns (index: int)
    ensures index == LastIndex(a[..], element)
    ensures index == -1 <==> element !in a[..]
    ensures index != -1 ==> 0 <= index < a.Length && a[index] == element
    ensures forall j :: 0 <= j < a.Length && index < j ==> a[j] != element
  {
    var found := false;
    var counter := a.Length - 1;
    index := -1;
    while counter > -1 && !found
      invariant -1 <= counter < a.Length
      invariant found <==> index != -1
      invariant found ==> index == counter + 1 && index < a.Length && a[index] == element
      invariant forall j :: counter < j < a.Length && index < j ==> a[j] != element
    {
      if a[counter] == element {
        found := true;
        index := counter;
      }
      counter := counter - 1;
    }
    assert forall j :: 0 <= j < a.Length ==> a[..][j] == a[j];
    LastIndexIs(a[..], element, index);
  }

  /** Two different positions holding `x` make it occur at least twice. */
  lemma {:induction false} TwoPositions<T>(s: seq<T>, i: int, j: int)
    requires 0 <= i < j < |s| && s[i] == s[j]
    ensures multiset(s)[s[i]] >= 2
  {
    assert s == s[..i] + [s[i]] + s[i + 1..j] + [s[j]] + s[j + 1..];
  }

  /** An element present exactly once is found at the same place from either end. */
  lemma {:induction false} UniqueFirstIsLast<T>(s: seq<T>, x: T)
    requires multiset(s)[x] == 1
    ensures FirstIndex(s, x) == LastIndex(s, x) != -1
  {
    var i, j := FirstIndex(s, x), LastIndex(s, x);
    assert x in multiset(s);
    if i < j {
      TwoPositions(s, i, j);
    }
  }
}
