// The execution queue as its callers see it: a sorted line of waiting entries,
// beside the history of who was admitted and how they left.
module WaitingLine {
  import opened Collections
  import opened BinaryHeap

  ghost predicate InLine(line: seq<Entry>) {
    forall i, j :: 0 <= i < j < |line| ==> Before(line[i], line[j])
  }

  // ------------------------------------------------------------------
  // The line, and what the operations do to it
  // ------------------------------------------------------------------

  // Where an entry goes: behind everything that is before it.
  function Enqueue(line: seq<Entry>, e: Entry): seq<Entry> {
    if line == [] || Before(e, line[0]) then [e] + line else [line[0]] + Enqueue(line[1..], e)
  }

  function Without(line: seq<Entry>, id: int): seq<Entry> {
    if line == [] then []
    else (if line[0].id == id then [] else [line[0]]) + Without(line[1..], id)
  }

  predicate Waiting(line: seq<Entry>, id: int) {
    exists i :: 0 <= i < |line| && line[i].id == id
  }

  // The history of the queue beside the line: who was admitted, and how the
  // admitted entries left.
  datatype Queue = Queue(line: seq<Entry>, admitted: seq<Entry>, dequeued: seq<Entry>,
                         cancelled: seq<Entry>, cleared: seq<Entry>)

  datatype PutResult = Full | Entered(entry: Entry)

  function EntryOf(line: seq<Entry>, id: int): Entry
    requires Waiting(line, id)
  {
    if line[0].id == id then line[0]
    else
      assert Waiting(line[1..], id) by {
        var i :| 0 <= i < |line| && line[i].id == id;
        assert line[1..][i - 1].id == id;
      }
      EntryOf(line[1..], id)
  }

  // Capacity is checked before the duplicate.
  function Put(q: Queue, maximum: nat, id: int, priority: int): (Queue, PutResult) {
    if |q.line| >= maximum then (q, Full)
    else if Waiting(q.line, id) then (q, Entered(EntryOf(q.line, id)))
    else
      var e := Entry(priority, |q.admitted|, id);
      (q.(line := Enqueue(q.line, e), admitted := q.admitted + [e]), Entered(e))
  }

  function Pop(q: Queue): (Queue, Option<Entry>) {
    if q.line == [] then (q, None)
    else (q.(line := q.line[1..], dequeued := q.dequeued + [q.line[0]]), Some(q.line[0]))
  }

  // The first in line turns out to be cancelled.
  function Drop(q: Queue): Queue
    requires q.line != []
  {
    q.(line := q.line[1..], cancelled := q.cancelled + [q.line[0]])
  }

  function Cancel(q: Queue, id: int): (Queue, bool) {
    if Waiting(q.line, id) then
      (q.(line := Without(q.line, id), cancelled := q.cancelled + [EntryOf(q.line, id)]), true)
    else (q, false)
  }

  function Clear(q: Queue): Queue {
    q.(line := [], cleared := q.cleared + q.line)
  }

  datatype Operation = DoPut(id: int, priority: int) | DoPop | DoCancel(id: int) | DoClear

  function Perform(q: Queue, maximum: nat, op: Operation): Queue {
    match op
    case DoPut(id, priority) => Put(q, maximum, id, priority).0
    case DoPop => Pop(q).0
    case DoCancel(id) => Cancel(q, id).0
    case DoClear => Clear(q)
  }

  const EMPTY := Queue([], [], [], [], [])

  function After(maximum: nat, ops: seq<Operation>): Queue {
    if ops == [] then EMPTY
    else Perform(After(maximum, ops[..|ops| - 1]), maximum, ops[|ops| - 1])
  }

  // ------------------------------------------------------------------
  // Facts about the line
  // ------------------------------------------------------------------

  lemma {:induction false} EnqueueMembers(line: seq<Entry>, e: Entry)
    ensures forall x :: x in Enqueue(line, e) <==> x == e || x in line
    ensures |Enqueue(line, e)| == |line| + 1
  {
    if !(line == [] || Before(e, line[0])) {
      assert line == [line[0]] + line[1..];
      EnqueueMembers(line[1..], e);
    }
  }

  lemma InLineTail(line: seq<Entry>)
    requires InLine(line) && line != []
    ensures InLine(line[1..]) && forall x :: x in line[1..] ==> Before(line[0], x)
    ensures forall x :: x in line[1..] <==> x in line && x != line[0]
  {
    forall x | x in line[1..] ensures Before(line[0], x) && x in line {
      var i :| 0 <= i < |line[1..]| && line[1..][i] == x;
      assert line[i + 1] == x;
    }
    forall x | x in line && x != line[0] ensures x in line[1..] {
      var i :| 0 <= i < |line| && line[i] == x;
      assert line[1..][i - 1] == x;
    }
  }

  lemma {:induction false} EnqueueKeepsLine(line: seq<Entry>, e: Entry)
    requires InLine(line) && forall x :: x in line ==> x.sequence != e.sequence
    ensures InLine(Enqueue(line, e))
  {
    if line == [] {
    } else if Before(e, line[0]) {
      InLineTail(line);
      forall x | x in line ensures Before(e, x) {
        assert x == line[0] || x in line[1..];
      }
    } else {
      InLineTail(line);
      EnqueueKeepsLine(line[1..], e);
      EnqueueMembers(line[1..], e);
      assert line[0] in line;
    }
  }

  lemma {:induction false} WithoutMembers(line: seq<Entry>, id: int)
    ensures forall x :: x in Without(line, id) <==> x in line && x.id != id
    ensures |Without(line, id)| <= |line|
  {
    if line != [] {
      assert line == [line[0]] + line[1..];
      WithoutMembers(line[1..], id);
    }
  }

  lemma {:induction false} WithoutKeepsLine(line: seq<Entry>, id: int)
    requires InLine(line)
    ensures InLine(Without(line, id))
  {
    if line != [] {
      InLineTail(line);
      WithoutKeepsLine(line[1..], id);
      WithoutMembers(line[1..], id);
    }
  }

  // Two lines of the same entries are the same line.
  lemma {:induction false} LineIsUnique(s: seq<Entry>, t: seq<Entry>)
    requires InLine(s) && InLine(t) && forall x :: x in s <==> x in t
    ensures s == t
  {
    assert s != [] ==> s[0] in t;
    assert t != [] ==> t[0] in s;
    if s != [] {
      InLineTail(s);
      InLineTail(t);
      assert s[0] == t[0];
      LineIsUnique(s[1..], t[1..]);
      assert s == [s[0]] + s[1..] && t == [t[0]] + t[1..];
    }
  }

  lemma {:induction false} EntryOfIs(line: seq<Entry>, id: int)
    requires Waiting(line, id)
    ensures EntryOf(line, id) in line && EntryOf(line, id).id == id
  {
    if line[0].id != id {
      assert Waiting(line[1..], id) by {
        var i :| 0 <= i < |line| && line[i].id == id;
        assert line[1..][i - 1].id == id;
      }
      EntryOfIs(line[1..], id);
    }
  }

  // ------------------------------------------------------------------
  // Every run of the queue
  // ------------------------------------------------------------------

  // Each admitted entry is in exactly one place, once.
  ghost predicate Accounted(q: Queue) {
    && (forall k :: 0 <= k < |q.admitted| ==> q.admitted[k].sequence == k)
    && (forall x :: x in q.admitted <==> x in q.line || x in q.dequeued || x in q.cancelled || x in q.cleared)
    && (forall x :: x in q.line ==> x !in q.dequeued && x !in q.cancelled && x !in q.cleared)
    && (forall x :: x in q.dequeued ==> x !in q.cancelled && x !in q.cleared)
    && (forall x :: x in q.cancelled ==> x !in q.cleared)
    && Distinct(q.dequeued) && Distinct(q.cancelled) && Distinct(q.cleared)
  }

  // An entry never leaves for a worker ahead of an earlier admission of equal
  // or smaller priority value.
  ghost predicate InTurn(q: Queue) {
    && (forall i, x :: 0 <= i < |q.dequeued| && x in q.line && x.sequence < q.dequeued[i].sequence ==>
          x.priority > q.dequeued[i].priority)
    && (forall i, j :: 0 <= i < j < |q.dequeued| && q.dequeued[j].sequence < q.dequeued[i].sequence ==>
          q.dequeued[j].priority > q.dequeued[i].priority)
  }

  ghost predicate OneEach(line: seq<Entry>) {
    forall x, y :: x in line && y in line && x.id == y.id ==> x == y
  }

  ghost predicate Sound(q: Queue, maximum: nat) {
    |q.line| <= maximum && InLine(q.line) && OneEach(q.line) && Accounted(q) && InTurn(q)
  }

  lemma AdmittedBefore(q: Queue, x: Entry)
    requires Accounted(q) && x in q.admitted
    ensures x.sequence < |q.admitted| && q.admitted[x.sequence] == x
  {
  }

  lemma PutKeepsSound(q: Queue, maximum: nat, id: int, priority: int)
    requires Sound(q, maximum)
    ensures Sound(Put(q, maximum, id, priority).0, maximum)
  {
    if |q.line| < maximum && !Waiting(q.line, id) {
      var e := Entry(priority, |q.admitted|, id);
      forall x | x in q.admitted ensures x.sequence < e.sequence {
        AdmittedBefore(q, x);
      }
      assert forall x :: x in q.line ==> x in q.admitted;
      EnqueueKeepsLine(q.line, e);
      EnqueueMembers(q.line, e);
      forall x | x in q.line ensures x.id != id {
        var i :| 0 <= i < |q.line| && q.line[i] == x;
      }
    }
  }

  lemma PopKeepsSound(q: Queue, maximum: nat)
    requires Sound(q, maximum)
    ensures Sound(Pop(q).0, maximum)
  {
    if q.line != [] {
      InLineTail(q.line);
      assert q.line[0] in q.line;
      DistinctAppend(q.dequeued, [q.line[0]]);
    }
  }

  lemma DropKeepsSound(q: Queue, maximum: nat)
    requires Sound(q, maximum) && q.line != []
    ensures Sound(Drop(q), maximum)
  {
    InLineTail(q.line);
    assert q.line[0] in q.line;
    DistinctAppend(q.cancelled, [q.line[0]]);
  }

  lemma CancelKeepsSound(q: Queue, maximum: nat, id: int)
    requires Sound(q, maximum)
    ensures Sound(Cancel(q, id).0, maximum)
  {
    if Waiting(q.line, id) {
      var e := EntryOf(q.line, id);
      EntryOfIs(q.line, id);
      WithoutMembers(q.line, id);
      WithoutKeepsLine(q.line, id);
      assert forall x :: x in q.line && x.id == id ==> x == e;
      DistinctAppend(q.cancelled, [e]);
    }
  }

  lemma ClearKeepsSound(q: Queue, maximum: nat)
    requires Sound(q, maximum)
    ensures Sound(Clear(q), maximum)
  {
    DistinctAppend(q.cleared, q.line);
  }

  // The line is sorted, holds one entry an id and never exceeds the cap; each
  // admission is waiting, dequeued, cancelled or cleared, exactly once; and
  // nobody is overtaken. Over every sequence of operations.
  lemma {:induction false} EveryRunIsSound(maximum: nat, ops: seq<Operation>)
    ensures Sound(After(maximum, ops), maximum)
  {
    if ops != [] {
      var front := ops[..|ops| - 1];
      EveryRunIsSound(maximum, front);
      var q := After(maximum, front);
      match ops[|ops| - 1]
      case DoPut(id, priority) => PutKeepsSound(q, maximum, id, priority);
      case DoPop => PopKeepsSound(q, maximum);
      case DoCancel(id) => CancelKeepsSound(q, maximum, id);
      case DoClear => ClearKeepsSound(q, maximum);
    }
  }

  // put is idempotent below capacity, and only there.
  lemma PutTwice(q: Queue, maximum: nat, id: int, p1: int, p2: int)
    requires Sound(q, maximum) && Put(q, maximum, id, p1).1.Entered?
    ensures var once := Put(q, maximum, id, p1);
      Put(once.0, maximum, id, p2) == once <==> |once.0.line| < maximum
  {
    var once := Put(q, maximum, id, p1);
    if !Waiting(q.line, id) {
      var e := once.1.entry;
      EnqueueMembers(q.line, e);
      assert e in once.0.line;
      var i :| 0 <= i < |once.0.line| && once.0.line[i] == e;
      assert once.0.line[i].id == id;
      PutKeepsSound(q, maximum, id, p1);
      EntryOfIs(once.0.line, id);
    }
  }

  // ------------------------------------------------------------------
  // Positions
  // ------------------------------------------------------------------

  function PopMany(q: Queue, k: nat): (result: (Queue, seq<Entry>))
    requires k <= |q.line|
    ensures |result.1| == k
    decreases k
  {
    if k == 0 then (q, [])
    else
      var first := Pop(q);
      var rest := PopMany(first.0, k - 1);
      (rest.0, [first.1.value] + rest.1)
  }

  lemma {:induction false} PopManyTakesTheFront(q: Queue, k: nat)
    requires k <= |q.line|
    decreases k
    ensures PopMany(q, k).1 == q.line[..k] && PopMany(q, k).0.line == q.line[k..]
  {
    if k > 0 {
      PopManyTakesTheFront(Pop(q).0, k - 1);
      assert q.line[..k] == [q.line[0]] + q.line[1..][..k - 1];
    }
  }

  // 1-based place in the line, or None.
  function PositionIn(line: seq<Entry>, id: int): Option<nat> {
    if line == [] then None
    else if line[0].id == id then Some(1)
    else match PositionIn(line[1..], id)
      case Some(k) => Some(k + 1)
      case None => None
  }

  lemma {:induction false} PositionIs(line: seq<Entry>, id: int)
    ensures PositionIn(line, id).Some? <==> Waiting(line, id)
    ensures PositionIn(line, id).Some? ==>
              var k := PositionIn(line, id).value; 1 <= k <= |line| && line[k - 1].id == id
  {
    if line != [] {
      PositionIs(line[1..], id);
      if Waiting(line, id) && line[0].id != id {
        var i :| 0 <= i < |line| && line[i].id == id;
        assert line[1..][i - 1].id == id;
      }
      if Waiting(line[1..], id) {
        var i :| 0 <= i < |line[1..]| && line[1..][i].id == id;
        assert line[i + 1].id == id;
      }
    }
  }

  // The position of an id is k exactly when k pops on the unchanged queue return
  // it last.
  lemma PositionCountsPops(q: Queue, maximum: nat, id: int, k: nat)
    requires Sound(q, maximum) && 1 <= k <= |q.line|
    ensures PositionIn(q.line, id) == Some(k) <==> PopMany(q, k).1[k - 1].id == id
  {
    PopManyTakesTheFront(q, k);
    PositionIs(q.line, id);
    assert q.line[..k][k - 1] == q.line[k - 1];
    if q.line[k - 1].id == id {
      assert Waiting(q.line, id);
      var m := PositionIn(q.line, id).value;
      assert q.line[m - 1] in q.line && q.line[k - 1] in q.line;
      assert q.line[m - 1] == q.line[k - 1];
    }
  }

  // ------------------------------------------------------------------
  // Who is waiting after each operation
  // ------------------------------------------------------------------

  lemma WaitingIs(line: seq<Entry>, id: int)
    ensures Waiting(line, id) <==> exists x :: x in line && x.id == id
  {
    if x :| x in line && x.id == id {
      var i :| 0 <= i < |line| && line[i] == x;
    }
  }

  lemma WaitingAfterEnqueue(line: seq<Entry>, e: Entry)
    ensures forall id :: Waiting(Enqueue(line, e), id) <==> id == e.id || Waiting(line, id)
  {
    EnqueueMembers(line, e);
    forall id ensures Waiting(Enqueue(line, e), id) <==> id == e.id || Waiting(line, id) {
      WaitingIs(Enqueue(line, e), id);
      WaitingIs(line, id);
      assert e in Enqueue(line, e);
    }
  }

  lemma WaitingAfterPop(q: Queue, maximum: nat)
    requires Sound(q, maximum) && q.line != []
    ensures forall id :: Waiting(q.line[1..], id) <==> id != q.line[0].id && Waiting(q.line, id)
  {
    var line := q.line;
    InLineTail(line);
    forall id ensures Waiting(line[1..], id) <==> id != line[0].id && Waiting(line, id) {
      WaitingIs(line[1..], id);
      WaitingIs(line, id);
      assert line[0] in line;
    }
  }

  lemma WaitingAfterCancel(line: seq<Entry>, id: int)
    ensures forall other :: Waiting(Without(line, id), other) <==> other != id && Waiting(line, other)
  {
    WithoutMembers(line, id);
    forall other ensures Waiting(Without(line, id), other) <==> other != id && Waiting(line, other) {
      WaitingIs(Without(line, id), other);
      WaitingIs(line, other);
    }
  }

  lemma SequencesDiffer(q: Queue, entries: seq<Entry>, k: nat, x: Entry)
    requires Accounted(q) && Distinct(entries) && (forall e :: e in entries ==> e in q.line)
    requires k < |entries| && x in entries[..k]
    ensures x.sequence != entries[k].sequence
  {
    var i :| 0 <= i < k && entries[i] == x;
    AdmittedBefore(q, x);
    AdmittedBefore(q, entries[k]);
  }

  lemma {:induction false} FirstAt(line: seq<Entry>, id: int, k: nat)
    requires k < |line| && line[k].id == id && forall i :: 0 <= i < k ==> line[i].id != id
    ensures PositionIn(line, id) == Some(k + 1)
  {
    if k > 0 {
      FirstAt(line[1..], id, k - 1);
    }
  }
}
