/** The list helpers: membership of one or several elements in a list, and
    order-preserving filtering by a predicate. */
module ListHelper {
  import opened Wrappers
  import opened PyValue

  /** `elements` as the function scans it: a list as it is, anything else
      wrapped as a one-element list. */
  function Candidates(elements: Value): (cs: seq<Value>)
    ensures elements.List? ==> cs == elements.items
    ensures !elements.List? ==> cs == [elements]
  {
    if elements.List? then elements.items else [elements]
  }

  /** `x in items`: Python's `in` on a list, which compares with `==`. */
  function Contains(items: seq<Value>, x: Value): (r: bool)
    ensures r <==> exists j | 0 <= j < |items| :: PyEq(x, items[j])
  {
    if items == [] then false
    else if PyEq(x, items[0]) then true
    else
      var r := Contains(items[1..], x);
      assert forall j | 1 <= j < |items| :: items[1..][j - 1] == items[j];
      r
  }

  /** What `is_element_in_list` promises: a `TypeError` when the second
      argument is not a list, otherwise whether some candidate equals, in
      Python's sense, some item of the list. */
  ghost function ElementInList(elements: Value, listObj: Value): Result<bool, Error>
  {
    if !listObj.List? then
      Failure(TypeError("The second argument must be a list but is " + TypeName(listObj)))
    else
      var cs := Candidates(elements);
      Success(exists k, j | 0 <= k < |cs| && 0 <= j < |listObj.items| :: PyEq(cs[k], listObj.items[j]))
  }

  /** `is_element_in_list`: scans the candidates in order and stops at the
      first one found in the list. */
  method IsElementInList(elements: Value, listObj: Value) returns (r: Result<bool, Error>)
    ensures r == ElementInList(elements, listObj)
  {
    var cs := if elements.List? then elements.items else [elements];
    if !listObj.List? {
      return Failure(TypeError("The second argument must be a list but is " + TypeName(listObj)));
    }
    assert cs == Candidates(elements);
    var i := 0;
    while i < |cs|
      invariant 0 <= i <= |cs|
      invariant forall k | 0 <= k < i :: !Contains(listObj.items, cs[k])
    {
      if Contains(listObj.items, cs[i]) {
        return Success(true);
      }
      i := i + 1;
    }
    return Success(false);
  }

  /** A single element is looked up exactly as the one-element list
      holding it. */
  lemma SingleAsList(x: Value, listObj: Value)
    requires !x.List?
    ensures ElementInList(x, listObj) == ElementInList(List([x]), listObj)
  {
    assert Candidates(List([x])) == Candidates(x);
  }

  /** A candidate that is one of the list's items is found. */
  lemma ElementInListFound(elements: Value, listObj: Value, k: nat, j: nat)
    requires listObj.List? && k < |Candidates(elements)| && j < |listObj.items|
    requires Candidates(elements)[k] == listObj.items[j]
    ensures ElementInList(elements, listObj) == Success(true)
  {
    PyEqRefl(listObj.items[j]);
  }

  /** Dictionaries are found whatever the order of their keys, and `True`
      is found among integers as `1`. */
  lemma ElementInListPyEquality()
    ensures ElementInList(Dict([("a", Int(1)), ("b", Int(2))]),
                          List([Dict([("b", Int(2)), ("a", Int(1))])])) == Success(true)
    ensures ElementInList(Bool(true), List([Int(0), Int(1)])) == Success(true)
  {
    var d1 := Dict([("a", Int(1)), ("b", Int(2))]);
    var d2 := Dict([("b", Int(2)), ("a", Int(1))]);
    assert KeysOf(d1.entries) == ["a", "b"];
    assert KeysOf(d2.entries) == ["b", "a"];
    assert PyEq(d1, d2);
    assert PyEq(Candidates(d1)[0], List([d2]).items[0]);
    assert PyEq(Candidates(Bool(true))[0], List([Int(0), Int(1)]).items[1]);
  }

  /** Nothing is found in an empty list, and an empty list of elements
      finds nothing; the type check still comes first. */
  lemma ElementInListEmpty(elements: Value, listObj: Value)
    ensures ElementInList(elements, List([])) == Success(false)
    ensures listObj.List? ==> ElementInList(List([]), listObj) == Success(false)
    ensures !listObj.List? ==> ElementInList(List([]), listObj).Failure?
  {
  }

  /** The examples of the docstring: `3` in `[1, 2, 3, 4, 5]`; `1` not in
      `[]`; `['apple', 'banana']` meets `['orange', 'pear', 'apple']`; `'cat'`
      not in `['dog', 'rabbit', 'mouse']`. */
  lemma ElementInListExamples()
    ensures ElementInList(Int(3), List([Int(1), Int(2), Int(3), Int(4), Int(5)])) == Success(true)
    ensures ElementInList(Int(1), List([])) == Success(false)
    ensures ElementInList(List([Str("apple"), Str("banana")]),
                          List([Str("orange"), Str("pear"), Str("apple")])) == Success(true)
    ensures ElementInList(Str("cat"), List([Str("dog"), Str("rabbit"), Str("mouse")])) == Success(false)
  {
    assert Candidates(Int(3))[0] == List([Int(1), Int(2), Int(3), Int(4), Int(5)]).items[2];
    assert Candidates(List([Str("apple"), Str("banana")]))[0]
        == List([Str("orange"), Str("pear"), Str("apple")]).items[2];
  }

  /** `filter_objects`: the objects satisfying `criteria`, in their order. */
  function Filter<T>(objects: seq<T>, criteria: T -> bool): (r: seq<T>)
    ensures |r| <= |objects|
    ensures forall k | 0 <= k < |r| :: criteria(r[k])
  {
    if objects == [] then []
    else if criteria(objects[0]) then [objects[0]] + Filter(objects[1..], criteria)
    else Filter(objects[1..], criteria)
  }

  /** `sub` is `s` with some elements dropped, the rest kept in order. */
  predicate IsSubsequence<T(==)>(sub: seq<T>, s: seq<T>)
    decreases |s|
  {
    if sub == [] then true
    else if s == [] then false
    else if sub[0] == s[0] then IsSubsequence(sub[1..], s[1..])
    else IsSubsequence(sub, s[1..])
  }

  /** Filtering keeps the order of the objects it keeps. */
  lemma {:induction false} FilterIsSubsequence<T>(objects: seq<T>, criteria: T -> bool)
    ensures IsSubsequence(Filter(objects, criteria), objects)
  {
    if objects != [] {
      FilterIsSubsequence(objects[1..], criteria);
      var rest := Filter(objects[1..], criteria);
      if criteria(objects[0]) {
        assert ([objects[0]] + rest)[1..] == rest;
      }
    }
  }

  /** Filtering keeps every occurrence of an object that satisfies
      `criteria` and none of one that does not. */
  lemma {:induction false} FilterCount<T>(objects: seq<T>, criteria: T -> bool, x: T)
    ensures multiset(Filter(objects, criteria))[x] == if criteria(x) then multiset(objects)[x] else 0
  {
    if objects != [] {
      FilterCount(objects[1..], criteria, x);
      assert objects == [objects[0]] + objects[1..];
      assert multiset(objects) == multiset([objects[0]]) + multiset(objects[1..]);
    }
  }

  /** An object is kept exactly when it is among the objects and satisfies
      `criteria`. */
  lemma FilterMembership<T>(objects: seq<T>, criteria: T -> bool, x: T)
    ensures x in Filter(objects, criteria) <==> x in objects && criteria(x)
  {
    FilterCount(objects, criteria, x);
    assert x in Filter(objects, criteria) <==> x in multiset(Filter(objects, criteria));
    assert x in objects <==> x in multiset(objects);
  }

  /** Filtering twice by the same criteria is filtering once. */
  lemma {:induction false} FilterIdempotent<T>(objects: seq<T>, criteria: T -> bool)
    ensures Filter(Filter(objects, criteria), criteria) == Filter(objects, criteria)
  {
    if objects != [] {
      FilterIdempotent(objects[1..], criteria);
      var rest := Filter(objects[1..], criteria);
      if criteria(objects[0]) {
        assert ([objects[0]] + rest)[0] == objects[0];
        assert ([objects[0]] + rest)[1..] == rest;
      }
    }
  }

  /** The docstring's example: the even numbers of 1..10. */
  lemma FilterEvens()
    ensures Filter([1, 2, 3, 4, 5, 6, 7, 8, 9, 10], (n: int) => n % 2 == 0) == [2, 4, 6, 8, 10]
  {
    var even := (n: int) => n % 2 == 0;
    var s := [1, 2, 3, 4, 5, 6, 7, 8, 9, 10];
    assert Filter(s[10..], even) == [];
    assert Filter(s[9..], even) == [10] by { assert s[9..][1..] == s[10..]; }
    assert Filter(s[8..], even) == [10] by { assert s[8..][1..] == s[9..]; }
    assert Filter(s[7..], even) == [8, 10] by { assert s[7..][1..] == s[8..]; }
    assert Filter(s[6..], even) == [8, 10] by { assert s[6..][1..] == s[7..]; }
    assert Filter(s[5..], even) == [6, 8, 10] by { assert s[5..][1..] == s[6..]; }
    assert Filter(s[4..], even) == [6, 8, 10] by { assert s[4..][1..] == s[5..]; }
    assert Filter(s[3..], even) == [4, 6, 8, 10] by { assert s[3..][1..] == s[4..]; }
    assert Filter(s[2..], even) == [4, 6, 8, 10] by { assert s[2..][1..] == s[3..]; }
    assert Filter(s[1..], even) == [2, 4, 6, 8, 10] by { assert s[1..][1..] == s[2..]; }
    assert s[0..] == s;
  }
}
