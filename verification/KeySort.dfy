/** Sorting positions by key, the earlier position first among equal keys. */
module KeySort {
  import opened Permutations

  ghost predicate KeyOrdered(keys: seq<nat>, order: seq<nat>)
    requires forall i :: 0 <= i < |order| ==> order[i] < |keys|
  {
    forall i, j :: 0 <= i < j < |order| ==>
      keys[order[i]] < keys[order[j]] || (keys[order[i]] == keys[order[j]] && order[i] < order[j])
  }

  /** Where a new last position goes among sorted earlier ones: after every key not above its own. */
  function Slot(keys: seq<nat>, order: seq<nat>, key: nat): (slot: nat)
    requires forall i :: 0 <= i < |order| ==> order[i] < |keys|
    ensures slot <= |order|
    ensures forall i :: 0 <= i < slot ==> keys[order[i]] <= key
    ensures slot < |order| ==> key < keys[order[slot]]
  {
    if |order| == 0 || key < keys[order[0]] then 0 else 1 + Slot(keys, order[1..], key)
  }

  lemma InsertKeepsPermutation(order: seq<nat>, n: nat, slot: nat)
    requires IsPermutation(order, n) && slot <= n
    ensures IsPermutation(order[..slot] + [n] + order[slot..], n + 1)
  {
    var next := order[..slot] + [n] + order[slot..];
    forall k | 0 <= k < n + 1
      ensures k in next
    {
      if k == n {
        assert next[slot] == n;
      } else {
        assert k in order;
        var i :| 0 <= i < n && order[i] == k;
        assert next[if i < slot then i else i + 1] == k;
      }
    }
  }

  lemma InsertKeepsOrder(keys: seq<nat>, order: seq<nat>, n: nat, slot: nat)
    requires IsPermutation(order, n) && n < |keys| && slot <= n
    requires KeyOrdered(keys, order)
    requires forall i :: 0 <= i < slot ==> keys[order[i]] <= keys[n]
    requires slot < n ==> keys[n] < keys[order[slot]]
    ensures forall i :: 0 <= i < n + 1 ==> (order[..slot] + [n] + order[slot..])[i] < |keys|
    ensures KeyOrdered(keys, order[..slot] + [n] + order[slot..])
  {
    var next := order[..slot] + [n] + order[slot..];
    forall i, j | 0 <= i < j < n + 1
      ensures keys[next[i]] < keys[next[j]] || (keys[next[i]] == keys[next[j]] && next[i] < next[j])
    {
      if i == slot {
        assert next[j] == order[j - 1];
      } else if j == slot {
        assert next[i] == order[i];
      } else {
        var i', j' := if i < slot then i else i - 1, if j < slot then j else j - 1;
        assert next[i] == order[i'] && next[j] == order[j'];
      }
    }
  }

  /** `order` lists the first `n` positions by key. */
  ghost predicate SortedBy(keys: seq<nat>, order: seq<nat>, n: nat) {
    n <= |keys| && IsPermutation(order, n) && KeyOrdered(keys, order)
  }

  function Insert(keys: seq<nat>, earlier: seq<nat>, n: nat): (order: seq<nat>)
    requires SortedBy(keys, earlier, n) && n < |keys|
    ensures SortedBy(keys, order, n + 1)
  {
    var slot := Slot(keys, earlier, keys[n]);
    InsertKeepsPermutation(earlier, n, slot);
    InsertKeepsOrder(keys, earlier, n, slot);
    earlier[..slot] + [n] + earlier[slot..]
  }

  /** `sorted(range(n), key=lambda index: (keys[index], index))`. */
  function SortedRange(keys: seq<nat>, n: nat): (order: seq<nat>)
    requires n <= |keys|
    ensures SortedBy(keys, order, n)
  {
    if n == 0 then [] else Insert(keys, SortedRange(keys, n - 1), n - 1)
  }

  /** Keys and positions leave one order only. */
  lemma {:induction false} SortedUnique(keys: seq<nat>, p: seq<nat>, q: seq<nat>, n: nat, k: nat)
    requires SortedBy(keys, p, n) && SortedBy(keys, q, n) && k <= n
    ensures p[..k] == q[..k]
  {
    if k > 0 {
      SortedUnique(keys, p, q, n, k - 1);
      forall i | 0 <= i < k - 1
        ensures p[i] == q[i]
      {
        assert p[..k - 1][i] == q[..k - 1][i];
      }
      var i := Comes(p, n, q[k - 1]);
      var j := Comes(q, n, p[k - 1]);
      assert i >= k - 1 && j >= k - 1;
    }
  }

  /** Where a position comes in an order. */
  lemma Comes(order: seq<nat>, n: nat, position: nat) returns (i: nat)
    requires IsPermutation(order, n) && position < n
    ensures i < n && order[i] == position
  {
    assert position in order;
    i :| 0 <= i < n && order[i] == position;
  }
}
