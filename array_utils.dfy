/**
 * The generic slice helpers of array-utils/array-utils.go. The same four loops
 * appear again, character for character, in utils/utils.go (Every, Some, Includes,
 * FilterEmptyStrings) and in commands/play/array-methods.go (every, some); this
 * module is the model of all of those copies.
 */
module ArrayUtils {

  /** The entries of `arr` that are not "", in their original order. */
  function NonEmpty(arr: seq<string>): seq<string> {
    if arr == [] then []
    else (if arr[0] != "" then [arr[0]] else []) + NonEmpty(arr[1..])
  }

  lemma {:induction false} NonEmptyAppend(a: seq<string>, b: seq<string>)
    ensures NonEmpty(a + b) == NonEmpty(a) + NonEmpty(b)
  {
    if a == [] {
      assert a + b == b;
    } else {
      assert (a + b)[0] == a[0];
      assert (a + b)[1..] == a[1..] + b;
      NonEmptyAppend(a[1..], b);
    }
  }

  /** Exactly the "" entries are dropped: nothing else is lost and nothing is added. */
  lemma {:induction false} NonEmptyMembers(arr: seq<string>)
    ensures forall s :: s in NonEmpty(arr) <==> s in arr && s != ""
  {
    if arr != [] {
      NonEmptyMembers(arr[1..]);
      assert arr == [arr[0]] + arr[1..];
    }
  }

  /** Every entry that is kept is kept in order, and the count is what remains
      once the "" entries are removed. */
  lemma {:induction false} NonEmptyLength(arr: seq<string>)
    ensures |NonEmpty(arr)| == |arr| - multiset(arr)[""]
  {
    if arr != [] {
      NonEmptyLength(arr[1..]);
      assert arr == [arr[0]] + arr[1..];
      assert multiset(arr) == multiset([arr[0]]) + multiset(arr[1..]);
    }
  }

  /** A slice without "" entries is returned as it is. */
  lemma {:induction false} NonEmptyIdentity(arr: seq<string>)
    requires "" !in arr
    ensures NonEmpty(arr) == arr
  {
    if arr != [] {
      assert arr[0] in arr;
      assert forall s :: s in arr[1..] ==> s in arr;
      NonEmptyIdentity(arr[1..]);
    }
  }

  /** Filtering twice is filtering once. */
  lemma NonEmptyIdempotent(arr: seq<string>)
    ensures NonEmpty(NonEmpty(arr)) == NonEmpty(arr)
  {
    NonEmptyMembers(arr);
    NonEmptyIdentity(NonEmpty(arr));
  }

  /** Every (array-utils/array-utils.go:3-11): true on an empty slice, false as
      soon as one element fails the validator. */
  method Every<T>(arr: seq<T>, validator: T -> bool) returns (r: bool)
    ensures r <==> forall i :: 0 <= i < |arr| ==> validator(arr[i])
  {
    var i := 0;
    while i < |arr|
      invariant 0 <= i <= |arr|
      invariant forall j :: 0 <= j < i ==> validator(arr[j])
    {
      if !validator(arr[i]) {
        return false;
      }
      i := i + 1;
    }
    return true;
  }

  /** Some (array-utils/array-utils.go:13-21): false on an empty slice, true as
      soon as one element satisfies the validator. */
  method Some<T>(arr: seq<T>, validator: T -> bool) returns (r: bool)
    ensures r <==> exists i :: 0 <= i < |arr| && validator(arr[i])
  {
    var i := 0;
    while i < |arr|
      invariant 0 <= i <= |arr|
      invariant forall j :: 0 <= j < i ==> !validator(arr[j])
    {
      if validator(arr[i]) {
        return true;
      }
      i := i + 1;
    }
    return false;
  }

  /** Includes (array-utils/array-utils.go:23-27), built on Some. */
  method Includes<T(==)>(arr: seq<T>, item: T) returns (r: bool)
    ensures r <==> item in arr
  {
    r := Some(arr, (i: T) => i == item);
  }

  /** FilterEmptyStrings (array-utils/array-utils.go:29-39). */
  method FilterEmptyStrings(arr: seq<string>) returns (output: seq<string>)
    ensures output == NonEmpty(arr)
  {
    output := [];
    var i := 0;
    while i < |arr|
      invariant 0 <= i <= |arr|
      invariant output == NonEmpty(arr[..i])
    {
      assert arr[..i + 1] == arr[..i] + [arr[i]];
      NonEmptyAppend(arr[..i], [arr[i]]);
      if arr[i] != "" {
        output := output + [arr[i]];
      }
      i := i + 1;
    }
    assert arr[..i] == arr;
  }
}
