// The array heap under the execution queue: each parent is not behind its
// children, so the least entry sits at the root.
module BinaryHeap {
  import opened Collections

  datatype Entry = Entry(priority: int, sequence: nat, id: int)

  // The order of the dataclass fields: priority, then sequence.
  predicate Before(a: Entry, b: Entry) {
    a.priority < b.priority || (a.priority == b.priority && a.sequence < b.sequence)
  }

  // t holds the entries of s, each once, in some order.
  ghost predicate Rearranged<T(!new)>(s: seq<T>, t: seq<T>) {
    |s| == |t| && (forall x :: x in s <==> x in t) && (Distinct(s) ==> Distinct(t))
  }

  function Parent(i: nat): nat
    requires i > 0
  {
    (i - 1) / 2
  }

  predicate InOrder(s: seq<Entry>, i: nat)
    requires 0 < i < |s|
  {
    !Before(s[i], s[Parent(i)])
  }

  ghost predicate IsHeap(s: seq<Entry>) {
    forall i :: 0 < i < |s| ==> InOrder(s, i)
  }

  // A heap below lo.
  ghost predicate HeapFrom(s: seq<Entry>, lo: nat) {
    forall i :: 0 < i < |s| && Parent(i) >= lo ==> InOrder(s, i)
  }

  lemma {:induction false} RootIsLeast(s: seq<Entry>, i: nat)
    requires IsHeap(s) && i < |s|
    ensures !Before(s[i], s[0])
  {
    if i > 0 {
      assert InOrder(s, i);
      RootIsLeast(s, Parent(i));
    }
  }

  function Swapped<T(!new)>(s: seq<T>, i: nat, j: nat): seq<T>
    requires i < |s| && j < |s|
  {
    s[i := s[j]][j := s[i]]
  }

  lemma SwapRearranges<T(!new)>(s: seq<T>, i: nat, j: nat)
    requires i < |s| && j < |s|
    ensures Rearranged(s, Swapped(s, i, j))
  {
    var t := Swapped(s, i, j);
    forall x | x in s ensures x in t {
      var k :| 0 <= k < |s| && s[k] == x;
      assert t[if k == i then j else if k == j then i else k] == x;
    }
    forall x | x in t ensures x in s {
      var k :| 0 <= k < |t| && t[k] == x;
      assert s[if k == i then j else if k == j then i else k] == x;
    }
  }

  // ------------------------------------------------------------------
  // Moving an entry up
  // ------------------------------------------------------------------

  // A heap, but for the entry at k, which may belong higher up.
  ghost predicate Rising(s: seq<Entry>, k: nat) {
    && k < |s|
    && (forall i :: 0 < i < |s| && i != k ==> InOrder(s, i))
    && (forall i :: 0 < i < |s| && Parent(i) == k && k > 0 ==> !Before(s[i], s[Parent(k)]))
  }

  lemma RisesOnce(s: seq<Entry>, k: nat)
    requires Rising(s, k) && k > 0 && Before(s[k], s[Parent(k)])
    ensures Rising(Swapped(s, k, Parent(k)), Parent(k))
  {
    var p := Parent(k);
    var t := Swapped(s, k, p);
    forall i | 0 < i < |t| && i != p ensures InOrder(t, i) {
      assert i != k ==> InOrder(s, i);
    }
    forall i | 0 < i < |t| && Parent(i) == p && p > 0 ensures !Before(t[i], t[Parent(p)]) {
      assert InOrder(s, p);
      assert i != k ==> InOrder(s, i);
    }
  }

  method SiftUp(a: array<Entry>, n: nat, start: nat)
    requires n <= a.Length && Rising(a[..n], start)
    modifies a
    ensures IsHeap(a[..n]) && Rearranged(old(a[..n]), a[..n])
  {
    var k := start;
    while k > 0 && Before(a[k], a[Parent(k)])
      invariant Rising(a[..n], k)
      invariant Rearranged(old(a[..n]), a[..n])
    {
      var p := Parent(k);
      ghost var s := a[..n];
      RisesOnce(s, k);
      SwapRearranges(s, k, p);
      a[k], a[p] := a[p], a[k];
      assert a[..n] == Swapped(s, k, p);
      k := p;
    }
    ghost var s := a[..n];
    forall i | 0 < i < |s| ensures InOrder(s, i) {
    }
  }

  // ------------------------------------------------------------------
  // Moving an entry down
  // ------------------------------------------------------------------

  // A heap below lo, but for the entry at k, which may belong further down.
  ghost predicate Sinking(s: seq<Entry>, lo: nat, k: nat) {
    && lo <= k < |s|
    && (forall i :: 0 < i < |s| && Parent(i) >= lo && Parent(i) != k ==> InOrder(s, i))
    && (forall i :: 0 < i < |s| && Parent(i) == k && k > lo && Parent(k) >= lo ==> !Before(s[i], s[Parent(k)]))
  }

  // c is the child of k that comes first.
  predicate FirstChild(s: seq<Entry>, k: nat, c: nat) {
    && (c == 2 * k + 1 || c == 2 * k + 2) && c < |s|
    && (2 * k + 1 < |s| ==> !Before(s[2 * k + 1], s[c]))
    && (2 * k + 2 < |s| ==> !Before(s[2 * k + 2], s[c]))
  }

  lemma SinksOnce(s: seq<Entry>, lo: nat, k: nat, c: nat)
    requires Sinking(s, lo, k) && FirstChild(s, k, c) && Before(s[c], s[k])
    ensures Sinking(Swapped(s, k, c), lo, c)
  {
    var t := Swapped(s, k, c);
    forall i | 0 < i < |t| && Parent(i) >= lo && Parent(i) != c ensures InOrder(t, i) {
      if Parent(i) == k {
        assert i == 2 * k + 1 || i == 2 * k + 2;
      } else if i == k {
        assert t[k] == s[c] && Parent(c) == k;
      } else {
        assert InOrder(s, i);
      }
    }
    forall i | 0 < i < |t| && Parent(i) == c ensures !Before(t[i], t[Parent(c)]) {
      assert InOrder(s, i);
    }
  }

  lemma Settled(s: seq<Entry>, lo: nat, k: nat)
    requires Sinking(s, lo, k)
    requires forall c: nat :: FirstChild(s, k, c) ==> !Before(s[c], s[k])
    ensures HeapFrom(s, lo)
  {
    forall i | 0 < i < |s| && Parent(i) >= lo ensures InOrder(s, i) {
      if Parent(i) == k {
        assert i == 2 * k + 1 || i == 2 * k + 2;
        var c := if 2 * k + 2 < |s| && Before(s[2 * k + 2], s[2 * k + 1]) then 2 * k + 2 else 2 * k + 1;
        assert FirstChild(s, k, c);
      }
    }
  }

  method PickChild(a: array<Entry>, n: nat, k: nat) returns (c: nat)
    requires n <= a.Length && 2 * k + 1 < n
    ensures FirstChild(a[..n], k, c)
  {
    c := 2 * k + 1;
    if c + 1 < n && Before(a[c + 1], a[c]) {
      c := c + 1;
    }
  }

  method SiftDown(a: array<Entry>, n: nat, lo: nat)
    requires n <= a.Length && Sinking(a[..n], lo, lo)
    modifies a
    ensures HeapFrom(a[..n], lo) && Rearranged(old(a[..n]), a[..n])
  {
    var k := lo;
    while 2 * k + 1 < n
      invariant Sinking(a[..n], lo, k)
      invariant Rearranged(old(a[..n]), a[..n])
      decreases n - k
    {
      ghost var s := a[..n];
      var c := PickChild(a, n, k);
      if !Before(a[c], a[k]) {
        Settled(s, lo, k);
        return;
      }
      SinksOnce(s, lo, k, c);
      SwapRearranges(s, k, c);
      a[k], a[c] := a[c], a[k];
      assert a[..n] == Swapped(s, k, c);
      k := c;
    }
    Settled(a[..n], lo, k);
  }

  method Heapify(a: array<Entry>, n: nat)
    requires n <= a.Length
    modifies a
    ensures IsHeap(a[..n]) && Rearranged(old(a[..n]), a[..n])
  {
    var k: nat := n / 2;
    while k > 0
      invariant k <= n / 2
      invariant HeapFrom(a[..n], k)
      invariant Rearranged(old(a[..n]), a[..n])
    {
      k := k - 1;
      SiftDown(a, n, k);
    }
  }
}
