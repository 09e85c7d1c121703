/** The JavaScript array operations the reducer builds its snapshots with:
    `find` and `filter` over a list of records keyed by an id. */
module Arrays {

  /** What `Array.prototype.find` returns: an element, or `undefined`. */
  datatype Option<T> = None | Some(value: T)

  /** `k` is the position of the first element of `s` whose key is `id`. */
  predicate IsFirst<T>(s: seq<T>, key: T -> string, id: string, k: int) {
    0 <= k < |s| && key(s[k]) == id && forall j :: 0 <= j < k ==> key(s[j]) != id
  }

  /** `s.find(x => key(x) === id)`: the first element with that id, if any. */
  function Find<T(==)>(s: seq<T>, key: T -> string, id: string): (r: Option<T>)
    ensures r.None? <==> forall i :: 0 <= i < |s| ==> key(s[i]) != id
    ensures r.Some? ==> exists k :: IsFirst(s, key, id, k) && s[k] == r.value
    ensures forall k :: IsFirst(s, key, id, k) ==> r == Some(s[k])
  {
    if s == [] then None
    else if key(s[0]) == id then
      assert IsFirst(s, key, id, 0);
      Some(s[0])
    else
      var r := Find(s[1..], key, id);
      if r.Some? then
        var k :| IsFirst(s[1..], key, id, k) && s[1..][k] == r.value;
        assert IsFirst(s, key, id, k + 1);
        r
      else
        r
  }

  /** `s.filter(x => key(x) !== id)`: every element whose key is not `id`,
      each as often as it occurs in `s`. */
  function WithoutId<T(==,!new)>(s: seq<T>, key: T -> string, id: string): (r: seq<T>)
    ensures |r| <= |s|
    ensures forall x :: multiset(r)[x] == if key(x) == id then 0 else multiset(s)[x]
    ensures forall x :: x in r <==> x in s && key(x) != id
  {
    if s == [] then []
    else
      var rest := WithoutId(s[1..], key, id);
      assert s == [s[0]] + s[1..];
      if key(s[0]) == id then rest else [s[0]] + rest
  }

  /** `filter` keeps the relative order of what it keeps: it distributes over
      concatenation. */
  lemma {:induction false} WithoutIdConcat<T(!new)>(a: seq<T>, b: seq<T>, key: T -> string, id: string)
    ensures WithoutId(a + b, key, id) == WithoutId(a, key, id) + WithoutId(b, key, id)
  {
    if a == [] {
      assert a + b == b;
    } else {
      assert (a + b)[1..] == a[1..] + b;
      WithoutIdConcat(a[1..], b, key, id);
    }
  }

  /** Filtering out an id that no element carries returns the list as it was. */
  lemma {:induction false} WithoutAbsentId<T(!new)>(s: seq<T>, key: T -> string, id: string)
    requires forall i :: 0 <= i < |s| ==> key(s[i]) != id
    ensures WithoutId(s, key, id) == s
  {
    if s != [] {
      WithoutAbsentId(s[1..], key, id);
      assert s == [s[0]] + s[1..];
    }
  }
}
