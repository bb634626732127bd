/** Duplicate and overlap checks on arrays, as the files' validators use them. */
module ArrayMethods {

  predicate NoDuplicates<T(==)>(s: seq<T>) {
    forall i, j :: 0 <= i < j < |s| ==> s[i] != s[j]
  }

  predicate NothingShared<T(==)>(s: seq<T>, t: seq<T>) {
    forall i, j :: 0 <= i < |s| && 0 <= j < |t| ==> s[i] != t[j]
  }

  method HasDuplicates<T(==)>(values: seq<T>) returns (r: bool)
    ensures r <==> !NoDuplicates(values)
  {
    var uniqueValues := {};
    for i := 0 to |values|
      invariant forall x :: x in uniqueValues <==> exists k :: 0 <= k < i && values[k] == x
      invariant NoDuplicates(values[..i])
    {
      var value := values[i];
      if value in uniqueValues {
        return true;
      }
      uniqueValues := uniqueValues + {value};
    }
    assert values[..|values|] == values;
    return false;
  }

  method AreMutuallyExclusive<T(==)>(first: seq<T>, second: seq<T>) returns (r: bool)
    ensures r <==> NothingShared(first, second)
  {
    var valuesInFirst := set x | x in first;
    for i := 0 to |second|
      invariant NothingShared(first, second[..i])
    {
      if second[i] in valuesInFirst {
        return false;
      }
    }
    assert second[..|second|] == second;
    return true;
  }

  /** A concatenation has no duplicates exactly if neither part has any and the parts share nothing. */
  lemma NoDuplicatesInConcatenation<T>(s: seq<T>, t: seq<T>)
    ensures NoDuplicates(s + t) <==> NoDuplicates(s) && NoDuplicates(t) && NothingShared(s, t)
  {
    if NoDuplicates(s + t) {
      assert forall i :: 0 <= i < |t| ==> (s + t)[|s| + i] == t[i];
      assert forall i :: 0 <= i < |s| ==> (s + t)[i] == s[i];
    }
  }
}
