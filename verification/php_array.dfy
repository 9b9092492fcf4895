/**
 * String-keyed PHP arrays as ordered association lists: reading a key,
 * assigning `$a[$k] = $v` (in place when the key is present, appended
 * otherwise) and `unset($a[$k])`.
 */
module PhpArray {

  import opened Wrappers

  type Assoc<V> = seq<(string, V)>

  /** The keys, in array order. */
  function Keys<V>(a: Assoc<V>): seq<string>
  {
    if a == [] then [] else [a[0].0] + Keys(a[1..])
  }

  /** A PHP array never holds a key twice. */
  predicate DistinctKeys<V>(a: Assoc<V>)
  {
    a == [] || (a[0].0 !in Keys(a[1..]) && DistinctKeys(a[1..]))
  }

  /** `$a[$k]` guarded by array_key_exists: the value stored under `k`, if any. */
  function Lookup<V>(a: Assoc<V>, k: string): (r: Option<V>)
    ensures r.None? <==> forall i :: 0 <= i < |a| ==> a[i].0 != k
    ensures r.Some? ==> exists i :: 0 <= i < |a| && a[i] == (k, r.value) && forall j :: 0 <= j < i ==> a[j].0 != k
  {
    if a == [] then None
    else if a[0].0 == k then Some(a[0].1)
    else Lookup(a[1..], k)
  }

  /** A key reads a value exactly when it is one of the array's keys. */
  lemma {:induction false} LookupFound<V>(a: Assoc<V>, k: string)
    ensures Lookup(a, k).Some? <==> k in Keys(a)
  {
    if a != [] {
      LookupFound(a[1..], k);
    }
  }

  /**
   * `$a[$k] = $v`: afterwards `k` reads `v` and every other key reads as
   * before; a present key keeps its place, a new one is appended.
   */
  function Put<V>(a: Assoc<V>, k: string, v: V): (r: Assoc<V>)
    ensures Lookup(r, k) == Some(v)
    ensures forall j :: j != k ==> Lookup(r, j) == Lookup(a, j)
    ensures Keys(r) == if k in Keys(a) then Keys(a) else Keys(a) + [k]
    ensures DistinctKeys(a) ==> DistinctKeys(r)
  {
    if a == [] then [(k, v)]
    else if a[0].0 == k then [(k, v)] + a[1..]
    else [a[0]] + Put(a[1..], k, v)
  }

  /**
   * `unset($a[$k])`: the entry of `k` goes, the others stay in order;
   * unsetting an absent key changes nothing.
   */
  function Remove<V>(a: Assoc<V>, k: string): (r: Assoc<V>)
    ensures k !in Keys(a) ==> r == a
    ensures DistinctKeys(a) ==> Lookup(r, k).None? && DistinctKeys(r)
    ensures forall j :: j != k ==> Lookup(r, j) == Lookup(a, j)
  {
    if a == [] then []
    else if a[0].0 == k then
      LookupFound(a[1..], k);
      a[1..]
    else
      var rest := Remove(a[1..], k);
      LookupFound(a[1..], a[0].0);
      LookupFound(rest, a[0].0);
      [a[0]] + rest
  }

  /** The position of `k` in the array. */
  function IndexOf<V>(a: Assoc<V>, k: string): (i: nat)
    requires k in Keys(a)
    ensures i < |a| && a[i].0 == k
  {
    if a[0].0 == k then 0 else 1 + IndexOf(a[1..], k)
  }

  /** unset removes exactly one entry, the one of `k`, and keeps the rest in order. */
  lemma {:induction false} RemoveDropsOneEntry<V>(a: Assoc<V>, k: string)
    requires k in Keys(a)
    ensures Remove(a, k) == a[..IndexOf(a, k)] + a[IndexOf(a, k) + 1..]
  {
    if a[0].0 != k {
      var rest := a[1..];
      var i := IndexOf(rest, k);
      RemoveDropsOneEntry(rest, k);
      calc {
        Remove(a, k);
        [a[0]] + Remove(rest, k);
        [a[0]] + (rest[..i] + rest[i + 1..]);
        { assert a[..i + 1] == [a[0]] + rest[..i] && a[i + 2..] == rest[i + 1..]; }
        a[..i + 1] + a[i + 2..];
      }
    }
  }
}
