/** One user's schedule: the Python dict user_tasks[user_id], from time
    key to description. A dict keeps its keys in insertion order and the
    edit menu shows that order, so the schedule is a sequence of entries
    with pairwise different times: assigning to an existing key keeps its
    place, a new key goes to the end, deleting closes the gap. */
module Schedule {
  import opened Wrappers
  import opened Digits
  import opened Lexicographic
  import opened TimeFormat

  datatype Entry = Entry(time: string, task: string)

  /** No time key occurs twice. */
  predicate UniqueTimes(s: seq<Entry>) {
    forall i, j | 0 <= i < j < |s| :: s[i].time != s[j].time
  }

  /** The position of the first entry with this time, or -1. */
  function IndexOf(s: seq<Entry>, time: string): (i: int)
    ensures -1 <= i < |s|
    ensures i >= 0 ==> s[i].time == time
    ensures forall j | 0 <= j < |s| && (i < 0 || j < i) :: s[j].time != time
  {
    if s == [] then -1
    else if s[0].time == time then 0
    else
      var j := IndexOf(s[1..], time);
      assert forall k | 1 <= k < |s| :: s[k] == s[1..][k - 1];
      if j < 0 then -1 else j + 1
  }

  /** d.get(time): the description stored under time, if any. */
  function Lookup(s: seq<Entry>, time: string): (r: Option<string>)
    ensures r.None? <==> forall i | 0 <= i < |s| :: s[i].time != time
    ensures r.Some? ==> exists i | 0 <= i < |s| :: s[i] == Entry(time, r.value)
    ensures UniqueTimes(s) ==> forall i | 0 <= i < |s| && s[i].time == time :: r == Some(s[i].task)
  {
    var i := IndexOf(s, time);
    if i < 0 then None else Some(s[i].task)
  }

  /** d[time] = task: a key already present keeps its place and gets the
      new description; a new key goes to the end. */
  function Upsert(s: seq<Entry>, time: string, task: string): (r: seq<Entry>)
    ensures Lookup(s, time).None? ==> r == s + [Entry(time, task)]
    ensures UniqueTimes(s) ==> forall i | 0 <= i < |s| && s[i].time == time :: r == s[i := Entry(time, task)]
  {
    var i := IndexOf(s, time);
    if i < 0 then s + [Entry(time, task)] else s[i := Entry(time, task)]
  }

  /** if time in d: del d[time]. The entries after the removed one move up
      one place; the others keep their order. */
  function Remove(s: seq<Entry>, time: string): (r: seq<Entry>)
    ensures Lookup(s, time).None? ==> r == s
    ensures UniqueTimes(s) ==> forall i | 0 <= i < |s| && s[i].time == time :: r == s[..i] + s[i + 1..]
  {
    var i := IndexOf(s, time);
    if i < 0 then s else s[..i] + s[i + 1..]
  }

  /** After d[time] = task, time maps to task, every other key maps to what
      it did before, no key is duplicated, and the size grows by one
      exactly when time was new. */
  lemma UpsertSpec(s: seq<Entry>, time: string, task: string)
    requires UniqueTimes(s)
    ensures var r := Upsert(s, time, task);
      && Lookup(r, time) == Some(task)
      && (forall t | t != time :: Lookup(r, t) == Lookup(s, t))
      && UniqueTimes(r)
      && |r| == if Lookup(s, time).Some? then |s| else |s| + 1
  {
    var r := Upsert(s, time, task);
    var i := IndexOf(s, time);
    var at := if i < 0 then |s| else i;
    assert r[at] == Entry(time, task);
    assert forall x | 0 <= x < |r| && x != at :: r[x] == s[x] && s[x].time != time;
    assert UniqueTimes(r);
    forall t | t != time
      ensures Lookup(r, t) == Lookup(s, t)
    {
      if Lookup(s, t).Some? {
        var j :| 0 <= j < |s| && s[j].time == t;
        assert r[j] == s[j];
      }
    }
  }

  /** Dropping position i: the entries before it stay put, the ones after
      it move up one place. */
  lemma DropShift(s: seq<Entry>, i: nat)
    requires i < |s|
    ensures var r := s[..i] + s[i + 1..];
      && |r| == |s| - 1
      && (forall x | 0 <= x < i :: r[x] == s[x])
      && (forall x | i <= x < |r| :: r[x] == s[x + 1])
  {
  }

  /** The entries left by a delete at position i, in terms of the old ones. */
  lemma RemovedShift(s: seq<Entry>, time: string)
    requires IndexOf(s, time) >= 0
    ensures var (r, i) := (Remove(s, time), IndexOf(s, time));
      && |r| == |s| - 1
      && (forall x | 0 <= x < i :: r[x] == s[x])
      && (forall x | i <= x < |r| :: r[x] == s[x + 1])
  {
    DropShift(s, IndexOf(s, time));
  }

  /** After del d[time], time is gone, every other key maps to what it did
      before, and the size drops by one exactly when time was present. */
  lemma RemoveSpec(s: seq<Entry>, time: string)
    requires UniqueTimes(s)
    ensures var r := Remove(s, time);
      && Lookup(r, time) == None
      && (forall t | t != time :: Lookup(r, t) == Lookup(s, t))
      && UniqueTimes(r)
      && |r| == if Lookup(s, time).Some? then |s| - 1 else |s|
  {
    var r := Remove(s, time);
    var i := IndexOf(s, time);
    if i >= 0 {
      RemovedShift(s, time);
      assert UniqueTimes(r) by {
        forall x, y | 0 <= x < y < |r| ensures r[x].time != r[y].time {
          var x', y' := if x < i then x else x + 1, if y < i then y else y + 1;
          assert r[x] == s[x'] && r[y] == s[y'];
        }
      }
      forall t | t != time
        ensures Lookup(r, t) == Lookup(s, t)
      {
        if Lookup(s, t).Some? {
          var j :| 0 <= j < |s| && s[j].time == t;
          assert j < i ==> r[j] == s[j];
          assert j > i ==> r[j - 1] == s[j];
        }
      }
    }
  }

  /** A delete keeps only entries that were there, none with the deleted
      key when keys are unique. */
  lemma RemoveKeepsOthers(s: seq<Entry>, time: string)
    ensures forall e | e in Remove(s, time) :: e in s && (UniqueTimes(s) ==> e.time != time)
  {
    var i := IndexOf(s, time);
    if i >= 0 {
      var r := Remove(s, time);
      DropShift(s, i);
      forall e | e in r ensures e in s && (UniqueTimes(s) ==> e.time != time) {
        var x :| 0 <= x < |r| && r[x] == e;
        var y := if x < i then x else x + 1;
        assert r[x] == s[y] && y != i;
      }
    }
  }

  /** An assignment stores its entry and keeps only entries that were
      there besides it. */
  lemma UpsertKeepsOthers(s: seq<Entry>, time: string, task: string)
    ensures Entry(time, task) in Upsert(s, time, task)
    ensures forall e | e in Upsert(s, time, task) && e != Entry(time, task) :: e in s
  {
    var i := IndexOf(s, time);
    var r := Upsert(s, time, task);
    assert r[if i < 0 then |s| else i] == Entry(time, task);
    forall e | e in r && e != Entry(time, task) ensures e in s {
      var x :| 0 <= x < |r| && r[x] == e;
      assert r[x] == s[x];
    }
  }

  /** The commit of the edit flow: if old_time in d: del d[old_time], then
      d[new_time] = new_task. */
  function EditCommit(s: seq<Entry>, oldTime: string, newTime: string, newTask: string): (r: seq<Entry>)
    ensures Entry(newTime, newTask) in r
    ensures forall e | e in r && e != Entry(newTime, newTask) :: e in s
    ensures UniqueTimes(s) ==> forall e | e in r && e != Entry(newTime, newTask) :: e.time != oldTime
  {
    RemoveKeepsOthers(s, oldTime);
    UpsertKeepsOthers(Remove(s, oldTime), newTime, newTask);
    Upsert(Remove(s, oldTime), newTime, newTask)
  }

  /** After the edit commit the old key is gone unless it is the new key,
      the new key holds the new description, every other key is as before,
      and (when the old key was present, as the edit flow ensures) the size
      is kept, or drops by one when the new time overwrote another entry. */
  lemma EditCommitSpec(s: seq<Entry>, oldTime: string, newTime: string, newTask: string)
    requires UniqueTimes(s)
    ensures var r := EditCommit(s, oldTime, newTime, newTask);
      && UniqueTimes(r)
      && Lookup(r, newTime) == Some(newTask)
      && (oldTime != newTime ==> Lookup(r, oldTime) == None)
      && (forall t | t != oldTime && t != newTime :: Lookup(r, t) == Lookup(s, t))
      && (Lookup(s, oldTime).Some? ==>
            |r| == if oldTime != newTime && Lookup(s, newTime).Some? then |s| - 1 else |s|)
  {
    RemoveSpec(s, oldTime);
    UpsertSpec(Remove(s, oldTime), newTime, newTask);
  }

  /** Deleting and re-inserting moves the entry: an edit that keeps the
      time still puts the task last in insertion order, which is the order
      the next edit menu shows. */
  lemma EditKeepingTimeMovesToEnd(s: seq<Entry>, time: string, newTask: string)
    requires UniqueTimes(s) && Lookup(s, time).Some?
    ensures EditCommit(s, time, time, newTask) == Remove(s, time) + [Entry(time, newTask)]
  {
    RemoveSpec(s, time);
  }

  /** Entries in ascending order of their time keys. */
  predicate SortedByTime(s: seq<Entry>) {
    forall i, j | 0 <= i < j < |s| :: LessEq(s[i].time, s[j].time)
  }

  /** A head no later than any entry of a sorted list keeps it sorted. */
  lemma PrependSorted(h: Entry, s: seq<Entry>)
    requires SortedByTime(s) && forall x | x in s :: LessEq(h.time, x.time)
    ensures SortedByTime([h] + s)
  {
    var r := [h] + s;
    forall i, j | 0 <= i < j < |r|
      ensures LessEq(r[i].time, r[j].time)
    {
      assert r[j] == s[j - 1];
      if i > 0 {
        assert r[i] == s[i - 1];
      }
    }
  }

  /** An entry no later than the head of a sorted list is no later than
      any of its entries. */
  lemma BelowHead(e: Entry, s: seq<Entry>)
    requires SortedByTime(s) && s != [] && LessEq(e.time, s[0].time)
    ensures forall x | x in s :: LessEq(e.time, x.time)
  {
    forall x | x in s ensures LessEq(e.time, x.time) {
      if x != s[0] { LessEqTransitive(e.time, s[0].time, x.time); }
    }
  }

  /** The head of a sorted list is no later than any entry of its tail. */
  lemma HeadBelowTail(s: seq<Entry>)
    requires SortedByTime(s) && s != []
    ensures forall x | x in s[1..] :: LessEq(s[0].time, x.time)
  {
    forall x | x in s[1..] ensures LessEq(s[0].time, x.time) {
      var j :| 0 <= j < |s[1..]| && s[1..][j] == x;
      assert s[j + 1] == x;
    }
  }

  /** A lower bound of a list and of e bounds any rearrangement of the list
      with e added. */
  lemma BoundKept(h: string, e: Entry, s: seq<Entry>, r: seq<Entry>)
    requires multiset(r) == multiset(s) + multiset{e}
    requires LessEq(h, e.time) && forall x | x in s :: LessEq(h, x.time)
    ensures forall x | x in r :: LessEq(h, x.time)
  {
    forall x | x in r ensures LessEq(h, x.time) {
      assert x in multiset(r);
      if x != e { assert x in multiset(s); }
    }
  }

  function InsertByTime(e: Entry, s: seq<Entry>): (r: seq<Entry>)
    requires SortedByTime(s)
    ensures SortedByTime(r) && multiset(r) == multiset(s) + multiset{e}
  {
    if s == [] then [e]
    else if LessEq(e.time, s[0].time) then
      BelowHead(e, s);
      PrependSorted(e, s);
      [e] + s
    else
      var rest := InsertByTime(e, s[1..]);
      assert s == [s[0]] + s[1..];
      LessEqTotal(e.time, s[0].time);
      HeadBelowTail(s);
      BoundKept(s[0].time, e, s[1..], rest);
      PrependSorted(s[0], rest);
      [s[0]] + rest
  }

  /** sorted(d.items()): the entries in ascending order of their time keys,
      as a rearrangement of the stored entries. */
  function SortedView(s: seq<Entry>): (r: seq<Entry>)
    ensures SortedByTime(r) && multiset(r) == multiset(s)
  {
    if s == [] then []
    else
      assert s == [s[0]] + s[1..];
      InsertByTime(s[0], SortedView(s[1..]))
  }

  lemma SortedHeadsAgree(a: seq<Entry>, b: seq<Entry>)
    requires UniqueTimes(a) && multiset(a) == multiset(b)
    requires SortedByTime(a) && SortedByTime(b)
    requires a != []
    ensures b != [] && a[0] == b[0]
  {
    assert b != [] by { assert |multiset(b)| == |a|; }
    assert a[0] in multiset(b) && b[0] in multiset(a);
    var k :| 0 <= k < |b| && b[k] == a[0];
    var j :| 0 <= j < |a| && a[j] == b[0];
    LessEqReflexive(a[0].time);
    assert LessEq(a[0].time, b[0].time) by { if j > 0 {} }
    assert LessEq(b[0].time, a[0].time) by { if k > 0 {} }
    LessEqAntisymmetric(a[0].time, b[0].time);
  }

  lemma MultisetTails(a: seq<Entry>, b: seq<Entry>)
    requires a != [] && b != [] && a[0] == b[0] && multiset(a) == multiset(b)
    ensures multiset(a[1..]) == multiset(b[1..])
  {
    assert a == [a[0]] + a[1..] && b == [b[0]] + b[1..];
    assert multiset(a[1..]) == multiset(a) - multiset{a[0]};
    assert multiset(b[1..]) == multiset(b) - multiset{b[0]};
  }

  /** With unique keys there is only one ascending arrangement of a
      schedule, so the view does not depend on how it was computed. */
  lemma {:induction false} SortedArrangementIsUnique(a: seq<Entry>, b: seq<Entry>)
    requires UniqueTimes(a) && multiset(a) == multiset(b)
    requires SortedByTime(a) && SortedByTime(b)
    ensures a == b
  {
    if a == [] {
      assert |multiset(b)| == 0;
    } else {
      SortedHeadsAgree(a, b);
      MultisetTails(a, b);
      SortedArrangementIsUnique(a[1..], b[1..]);
      assert a == [a[0]] + a[1..] && b == [b[0]] + b[1..];
    }
  }

  lemma LessEqTwoDigits(x: nat, y: nat, p: string, q: string)
    requires x < 100 && y < 100
    ensures LessEq(TwoDigits(x) + p, TwoDigits(y) + q) == (x < y || (x == y && LessEq(p, q)))
  {
    var a, b := TwoDigits(x) + p, TwoDigits(y) + q;
    assert a[1..] == [DigitChar(x % 10)] + p && b[1..] == [DigitChar(y % 10)] + q;
    assert a[1..][1..] == p && b[1..][1..] == q;
  }

  /** For zero-padded keys ("09:30") the view's text order is the order of
      the times of day. */
  lemma PaddedTimesSortChronologically(h1: nat, m1: nat, h2: nat, m2: nat)
    requires h1 < 24 && m1 < 60 && h2 < 24 && m2 < 60
    ensures LessEq(TimeText(h1, m1, true), TimeText(h2, m2, true)) <==> h1 * 60 + m1 <= h2 * 60 + m2
  {
    var rest1, rest2 := ":" + TwoDigits(m1), ":" + TwoDigits(m2);
    assert TimeText(h1, m1, true) == TwoDigits(h1) + rest1;
    assert TimeText(h2, m2, true) == TwoDigits(h2) + rest2;
    LessEqTwoDigits(h1, h2, rest1, rest2);
    assert rest1[1..] == TwoDigits(m1) + [] && rest2[1..] == TwoDigits(m2) + [];
    LessEqTwoDigits(m1, m2, [], []);
  }

  /** Keys with a one-digit hour are not padded, so "9:30" is listed after
      "10:00" and after "23:00". */
  lemma UnpaddedHourSortsLate()
    ensures LessEq("10:00", "9:30") && !LessEq("9:30", "10:00")
    ensures LessEq("23:00", "9:30") && !LessEq("9:30", "23:00")
  {
  }
}
