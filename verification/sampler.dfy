/** The sampling primitives of src/utils/shuffleArray.js. Every call of
    `Math.random()` becomes one number read from an explicit oracle sequence:
    `Math.floor(Math.random() * n)` is the next oracle value reduced mod `n`
    (0 once the oracle is exhausted), so the result of a shuffle is a function
    of its input and the oracle. */
module Sampler {
  import opened Wrappers

  /** `Math.floor(Math.random() * n)`: an index in `[0, n)`. */
  function Draw(rs: seq<nat>, n: nat): (j: nat)
    requires n > 0
    ensures j < n
  {
    if |rs| == 0 then 0 else rs[0] % n
  }

  /** The oracle after one draw. */
  function Next(rs: seq<nat>): seq<nat> {
    if |rs| == 0 then [] else rs[1..]
  }

  /** `[s[i], s[j]] = [s[j], s[i]]`. */
  function Swap<T>(s: seq<T>, i: nat, j: nat): (r: seq<T>)
    requires i < |s| && j < |s|
    ensures |r| == |s|
    ensures multiset(r) == multiset(s)
    ensures r[i] == s[j] && r[j] == s[i]
    ensures forall k :: 0 <= k < |s| && k != i && k != j ==> r[k] == s[k]
  {
    s[i := s[j]][j := s[i]]
  }

  /** The Fisher-Yates loop from index `i` down to 1: each step swaps
      position `i` with a drawn `j` in `[0, i]`, so every access is in bounds. */
  function ShuffleFrom<T>(s: seq<T>, i: nat, rs: seq<nat>): (r: seq<T>)
    requires i < |s|
    ensures |r| == |s|
    ensures multiset(r) == multiset(s)
    decreases i
  {
    if i == 0 then s
    else ShuffleFrom(Swap(s, i, Draw(rs, i + 1)), i - 1, Next(rs))
  }

  /** `shuffleArray`: works on a copy and returns a permutation of the input. */
  function Shuffle<T>(s: seq<T>, rs: seq<nat>): (r: seq<T>)
    ensures |r| == |s|
    ensures multiset(r) == multiset(s)
  {
    if |s| <= 1 then s else ShuffleFrom(s, |s| - 1, rs)
  }

  /** A shuffle holds the same elements as its input. */
  lemma ShuffleMembers<T>(s: seq<T>, rs: seq<nat>)
    ensures forall x :: x in Shuffle(s, rs) <==> x in s
  {
    var r := Shuffle(s, rs);
    forall x ensures x in r <==> x in s {
      assert x in r <==> x in multiset(r);
      assert x in s <==> x in multiset(s);
    }
  }

  /** Length of `s.slice(0, end)`: a negative `end` counts from the back. */
  function SliceLength(len: nat, end: int): (n: nat)
    ensures n <= len
  {
    if end >= 0 then (if end < len then end else len)
    else if len + end > 0 then len + end else 0
  }

  /** `s.slice(0, end)`. */
  function SliceTo<T>(s: seq<T>, end: int): (r: seq<T>)
    ensures |r| == SliceLength(|s|, end)
    ensures r == s[..|r|]
  {
    s[..SliceLength(|s|, end)]
  }

  /** A prefix of a sequence holds a sub-multiset of its elements. */
  lemma PrefixSubMultiset<T>(s: seq<T>, k: nat)
    requires k <= |s|
    ensures multiset(s[..k]) <= multiset(s)
  {
    assert s == s[..k] + s[k..];
  }

  /** `getRandomItems(array, count)`: `shuffleArray(array).slice(0, Math.min(count, array.length))`. */
  function GetRandomItems<T>(s: seq<T>, count: int, rs: seq<nat>): (r: seq<T>)
    ensures multiset(r) <= multiset(s)
    ensures 0 <= count ==> |r| == (if count < |s| then count else |s|)
    ensures |s| <= count ==> multiset(r) == multiset(s)
    ensures count < 0 ==> |r| == (if |s| + count > 0 then |s| + count else 0)
  {
    var shuffled := Shuffle(s, rs);
    var r := SliceTo(shuffled, if count < |s| then count else |s|);
    PrefixSubMultiset(shuffled, |r|);
    assert |s| <= count ==> r == shuffled;
    r
  }

  /** `getRandomItem(array)`: `undefined` (here `None`) on an empty array,
      otherwise one of its elements. */
  function GetRandomItem<T>(s: seq<T>, pick: nat): (r: Option<T>)
    ensures r.None? <==> |s| == 0
    ensures r.Some? ==> r.value in s
  {
    if |s| == 0 then None else Some(s[pick % |s|])
  }
}
