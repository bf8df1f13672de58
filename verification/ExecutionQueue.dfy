// The execution queue over its array heap. Every operation does to the heap
// what WaitingLine says it does to the line.
module ExecutionQueue {
  import opened Collections
  import opened BinaryHeap
  import opened WaitingLine

  lemma RiseFromTheEnd(s: seq<Entry>, t: seq<Entry>)
    requires IsHeap(s) && |t| == |s| + 1 && t[..|s|] == s
    ensures Rising(t, |s|)
  {
    forall i | 0 < i < |t| && i != |s| ensures InOrder(t, i) {
      assert InOrder(s, i) && t[i] == s[i] && t[Parent(i)] == s[Parent(i)];
    }
  }

  // The last entry takes the root's place.
  lemma RootReplaced(s: seq<Entry>, t: seq<Entry>)
    requires IsHeap(s) && Distinct(s) && |s| > 1 && t == [s[|s| - 1]] + s[1..|s| - 1]
    ensures Sinking(t, 0, 0) && Distinct(t) && forall x :: x in t <==> x in s && x != s[0]
  {
    forall i | 0 < i < |t| && Parent(i) != 0 ensures InOrder(t, i) {
      assert InOrder(s, i);
      assert t[i] == s[i];
      assert t[Parent(i)] == s[Parent(i)];
    }
    forall x | x in s && x != s[0] ensures x in t {
      var i :| 0 <= i < |s| && s[i] == x;
      assert i < |s| - 1 ==> t[i] == x;
    }
  }

  lemma RootIsFirstInLine(s: seq<Entry>, line: seq<Entry>)
    requires IsHeap(s) && InLine(line) && s != [] && forall x :: x in s <==> x in line
    ensures line != [] && s[0] == line[0]
  {
    assert s[0] in line;
    assert line[0] in s;
    var i :| 0 <= i < |s| && s[i] == line[0];
    RootIsLeast(s, i);
    var j :| 0 <= j < |line| && line[j] == s[0];
  }

  // Two collections of distinct entries with the same members are as long.
  lemma {:induction false} SameLength(s: seq<Entry>, t: seq<Entry>)
    requires Distinct(s) && Distinct(t) && forall x :: x in s <==> x in t
    ensures |s| == |t|
  {
    assert s == [] ==> t == [] by { if t != [] { assert t[0] in s; } }
    if s != [] {
      var e := s[0];
      assert e in t;
      var i :| 0 <= i < |t| && t[i] == e;
      var rest := t[..i] + t[i + 1..];
      forall x ensures x in s[1..] <==> x in rest {
        if x in s[1..] {
          var k :| 0 <= k < |s[1..]| && s[1..][k] == x;
          assert s[k + 1] == x && x in t;
          var m :| 0 <= m < |t| && t[m] == x;
          assert rest[if m < i then m else m - 1] == x;
        }
        if x in rest {
          var k :| 0 <= k < |rest| && rest[k] == x;
          assert t[if k < i then k else k + 1] == x;
          assert x in s && x != e;
          var m :| 0 <= m < |s| && s[m] == x;
          assert s[1..][m - 1] == x;
        }
      }
      SameLength(s[1..], rest);
    }
  }

  class ExecutionQueue {
    const maximum: nat
    var heap: array<Entry>
    var size: nat
    var counter: nat
    var queuedIds: set<int>
    var cancelled: set<int>
    ghost var queue: Queue

    ghost predicate Mirrors(line: seq<Entry>)
      reads this, heap
    {
      size == |line| <= heap.Length && Distinct(heap[..size]) && forall x :: x in heap[..size] <==> x in line
    }

    // The heap holds the line, and _queued_ids its ids.
    ghost predicate Intact()
      reads this, heap
    {
      && heap.Length == maximum && Sound(queue, maximum)
      && Mirrors(queue.line) && IsHeap(heap[..size])
      && counter == |queue.admitted|
      && (forall id :: id in queuedIds <==> Waiting(queue.line, id))
    }

    // Between calls nothing is marked as cancelled either.
    ghost predicate Valid()
      reads this, heap
    {
      Intact() && cancelled == {}
    }

    constructor (configured: int)
      ensures Valid() && queue == EMPTY && fresh(heap)
      ensures maximum == if configured < 1 then 1 else configured
    {
      var cap := if configured < 1 then 1 else configured;
      maximum := cap;
      heap := new Entry[cap](_ => Entry(0, 0, 0));
      size, counter, queuedIds, cancelled := 0, 0, {}, {};
      queue := EMPTY;
    }

    method Put(id: int, priority: int) returns (result: PutResult)
      requires Valid()
      modifies this, heap
      ensures Valid() && heap == old(heap)
      ensures (queue, result) == WaitingLine.Put(old(queue), maximum, id, priority)
    {
      if size >= maximum {
        return Full;
      }
      if id in queuedIds {
        var item := Find(id);
        return Entered(item);
      }
      var item := Entry(priority, counter, id);
      ghost var line := queue.line;
      PutKeepsSound(queue, maximum, id, priority);
      EnqueueMembers(line, item);
      Push(item);
      counter := counter + 1;
      queuedIds := queuedIds + {id};
      cancelled := cancelled - {id};
      queue := WaitingLine.Put(queue, maximum, id, priority).0;
      result := Entered(item);
      WaitingAfterEnqueue(line, item);
    }

    // The waiting entry of an id.
    method Find(id: int) returns (item: Entry)
      requires Valid() && Waiting(queue.line, id)
      ensures item == EntryOf(queue.line, id)
    {
      EntryOfIs(queue.line, id);
      ghost var target := EntryOf(queue.line, id);
      ghost var at :| 0 <= at < size && heap[..size][at] == target;
      var k := 0;
      while heap[k].id != id
        invariant k <= at < size
        decreases at - k
      {
        k := k + 1;
      }
      assert heap[..size][k] in queue.line;
      item := heap[k];
    }

    method Push(item: Entry)
      requires Valid() && size < maximum && item !in queue.line
      modifies this`size, heap
      ensures size == old(size) + 1 && IsHeap(heap[..size]) && Distinct(heap[..size])
      ensures forall x :: x in heap[..size] <==> x == item || x in queue.line
    {
      ghost var before := heap[..size];
      heap[size] := item;
      size := size + 1;
      ghost var after := heap[..size];
      assert after[..|before|] == before;
      RiseFromTheEnd(before, after);
      SiftUp(heap, size, size - 1);
    }

    method PopRoot() returns (item: Entry)
      requires Intact() && size > 0
      modifies this`size, heap
      ensures size == old(size) - 1
      ensures queue.line != [] && item == queue.line[0]
      ensures IsHeap(heap[..size]) && Mirrors(queue.line[1..])
    {
      ghost var before := heap[..size];
      RootIsFirstInLine(before, queue.line);
      InLineTail(queue.line);
      item := heap[0];
      size := size - 1;
      if size > 0 {
        heap[0] := heap[size];
        ghost var after := heap[..size];
        assert after == [before[size]] + before[1..size];
        RootReplaced(before, after);
        SiftDown(heap, size, 0);
      }
    }

    // Entries found to be marked are passed over; with no marks, the first in
    // line is taken.
    method PopReady() returns (result: Option<Entry>)
      requires Intact()
      modifies this, heap
      ensures Intact() && heap == old(heap)
      ensures result.None? ==> queue.line == []
      ensures old(cancelled) == {} ==> Valid() && (queue, result) == Pop(old(queue))
    {
      while size > 0
        invariant Intact() && heap == old(heap)
        invariant old(cancelled) == {} ==> cancelled == {} && queue == old(queue)
      {
        PopKeepsSound(queue, maximum);
        DropKeepsSound(queue, maximum);
        WaitingAfterPop(queue, maximum);
        var item := PopRoot();
        queuedIds := queuedIds - {item.id};
        if item.id in cancelled {
          cancelled := cancelled - {item.id};
          queue := Drop(queue);
          continue;
        }
        queue := Pop(queue).0;
        return Some(item);
      }
      return None;
    }

    method Cancel(id: int) returns (found: bool)
      requires Valid()
      modifies this
      ensures Valid() && (heap == old(heap) || fresh(heap))
      ensures (queue, found) == WaitingLine.Cancel(old(queue), id)
    {
      if id !in queuedIds {
        return false;
      }
      CancelKeepsSound(queue, maximum, id);
      WaitingAfterCancel(queue.line, id);
      cancelled := cancelled + {id};
      heap, size := Rebuild(id);
      queuedIds := queuedIds - {id};
      cancelled := cancelled - {id};
      queue := WaitingLine.Cancel(queue, id).0;
      found := true;
    }

    // A new heap of the other entries.
    method Rebuild(id: int) returns (kept: array<Entry>, count: nat)
      requires Intact()
      ensures fresh(kept) && kept.Length == maximum
      ensures count == |Without(queue.line, id)| <= maximum
      ensures IsHeap(kept[..count]) && Distinct(kept[..count])
      ensures forall x :: x in kept[..count] <==> x in Without(queue.line, id)
    {
      WithoutMembers(queue.line, id);
      WithoutKeepsLine(queue.line, id);
      kept, count := Keep(id);
      Heapify(kept, count);
      SameLength(kept[..count], Without(queue.line, id));
    }

    // A new list of the other entries.
    method Keep(id: int) returns (kept: array<Entry>, count: nat)
      requires heap.Length == maximum && Mirrors(queue.line)
      ensures fresh(kept) && kept.Length == maximum && count <= maximum
      ensures Distinct(kept[..count])
      ensures forall x :: x in kept[..count] <==> x in queue.line && x.id != id
    {
      kept := new Entry[maximum](_ => Entry(0, 0, 0));
      count := 0;
      for k := 0 to size
        invariant count <= k
        invariant Distinct(kept[..count])
        invariant forall x :: x in kept[..count] <==> x in heap[..k] && x.id != id
      {
        ghost var before := kept[..count];
        assert heap[..k + 1] == heap[..k] + [heap[k]];
        assert heap[k] !in heap[..k];
        if heap[k].id != id {
          kept[count] := heap[k];
          count := count + 1;
          assert kept[..count][..count - 1] == before;
        }
      }
    }

    method Contains(id: int) returns (waiting: bool)
      requires Valid()
      ensures waiting <==> Waiting(queue.line, id)
    {
      waiting := id in queuedIds;
    }

    // Sorting the heap gives the line.
    method Sorted() returns (ordered: seq<Entry>)
      requires Valid()
      ensures ordered == queue.line
    {
      ordered := [];
      for k := 0 to size
        invariant InLine(ordered)
        invariant forall x :: x in ordered <==> x in heap[..k]
      {
        var e := heap[k];
        assert heap[..k + 1] == heap[..k] + [e];
        forall x | x in ordered ensures x.sequence != e.sequence {
          SequencesDiffer(queue, heap[..size], k, x);
        }
        EnqueueKeepsLine(ordered, e);
        EnqueueMembers(ordered, e);
        ordered := Enqueue(ordered, e);
      }
      LineIsUnique(ordered, queue.line);
    }

    method Position(id: int) returns (position: Option<nat>)
      requires Valid()
      ensures position == PositionIn(queue.line, id)
    {
      var ordered := Sorted();
      var k := 0;
      while k < |ordered|
        invariant k <= |ordered|
        invariant forall i :: 0 <= i < k ==> ordered[i].id != id
      {
        if ordered[k].id == id {
          FirstAt(ordered, id, k);
          return Some(k + 1);
        }
        k := k + 1;
      }
      PositionIs(ordered, id);
      return None;
    }

    method Clear()
      requires Valid()
      modifies this
      ensures Valid() && heap == old(heap)
      ensures queue == WaitingLine.Clear(old(queue))
    {
      ClearKeepsSound(queue, maximum);
      size, queuedIds, cancelled := 0, {}, {};
      queue := WaitingLine.Clear(queue);
    }
  }
}
