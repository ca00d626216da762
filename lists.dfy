/** The two list updates the front end performs on an owned collection:
    `xs.filter(x => x.id !== id)` and `xs.map(x => x.id === y.id ? y : x)`.
    They are written once, over any element type with an integer key. */
module Lists {

  /** The elements of `s` whose key differs from `id`, in their original order. */
  function WithoutKey<T>(s: seq<T>, id: int, key: T -> int): (r: seq<T>)
    ensures |r| <= |s|
  {
    if s == [] then []
    else if key(s[0]) == id then WithoutKey(s[1..], id, key)
    else [s[0]] + WithoutKey(s[1..], id, key)
  }

  /** `s` with every element whose key equals `key(x)` replaced by `x`. */
  function ReplaceKey<T>(s: seq<T>, x: T, key: T -> int): (r: seq<T>)
    ensures |r| == |s|
  {
    if s == [] then []
    else [if key(s[0]) == key(x) then x else s[0]] + ReplaceKey(s[1..], x, key)
  }

  /** The number of elements of `s` whose key is `id`. */
  function KeyCount<T>(s: seq<T>, id: int, key: T -> int): nat {
    if s == [] then 0 else (if key(s[0]) == id then 1 else 0) + KeyCount(s[1..], id, key)
  }

  /** Filtering keeps exactly the elements with another key. */
  lemma {:induction false} WithoutKeyMembers<T>(s: seq<T>, id: int, key: T -> int, y: T)
    ensures y in WithoutKey(s, id, key) <==> y in s && key(y) != id
  {
    if s != [] {
      WithoutKeyMembers(s[1..], id, key, y);
      assert s == [s[0]] + s[1..];
    }
  }

  /** Filtering distributes over concatenation, so the kept elements keep
      their relative order. */
  lemma {:induction false} WithoutKeyAppend<T>(a: seq<T>, b: seq<T>, id: int, key: T -> int)
    ensures WithoutKey(a + b, id, key) == WithoutKey(a, id, key) + WithoutKey(b, id, key)
  {
    if a == [] {
      assert a + b == b;
    } else {
      assert (a + b)[1..] == a[1..] + b;
      WithoutKeyAppend(a[1..], b, id, key);
    }
  }

  /** Exactly the elements carrying the key are dropped. */
  lemma {:induction false} WithoutKeyLength<T>(s: seq<T>, id: int, key: T -> int)
    ensures |WithoutKey(s, id, key)| == |s| - KeyCount(s, id, key)
  {
    if s != [] {
      WithoutKeyLength(s[1..], id, key);
    }
  }

  /** When no element carries the key, filtering changes nothing. */
  lemma {:induction false} WithoutAbsentKey<T>(s: seq<T>, id: int, key: T -> int)
    requires forall i :: 0 <= i < |s| ==> key(s[i]) != id
    ensures WithoutKey(s, id, key) == s
  {
    if s != [] {
      assert forall i :: 0 <= i < |s[1..]| ==> key(s[1..][i]) == key(s[i + 1]);
      WithoutAbsentKey(s[1..], id, key);
      assert s == [s[0]] + s[1..];
    }
  }

  /** Replacing is positionwise: a matching position holds `x`, any other
      position holds what it held before. */
  lemma {:induction false} ReplaceKeyAt<T>(s: seq<T>, x: T, key: T -> int, i: nat)
    requires i < |s|
    ensures ReplaceKey(s, x, key)[i] == if key(s[i]) == key(x) then x else s[i]
  {
    if i > 0 {
      ReplaceKeyAt(s[1..], x, key, i - 1);
    }
  }

  /** Replacing touches nothing outside the replaced key: once that key is
      filtered out, the list is the one before the replacement. */
  lemma {:induction false} ReplaceKeyKeepsOthers<T>(s: seq<T>, x: T, key: T -> int)
    ensures WithoutKey(ReplaceKey(s, x, key), key(x), key) == WithoutKey(s, key(x), key)
  {
    if s != [] {
      ReplaceKeyKeepsOthers(s[1..], x, key);
      assert ReplaceKey(s, x, key)[1..] == ReplaceKey(s[1..], x, key);
    }
  }
}
