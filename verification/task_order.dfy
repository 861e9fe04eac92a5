/** A day's task list and the order the reminder screen keeps it in:
    ascending by the picked time, with ties left in insertion order, as
    `Array.prototype.sort` with the comparator `(a, b) => a.time - b.time`
    does (the sort is stable from the 2019 edition of ECMA-262 on). */
module TaskOrder {
  import opened EventTime

  /** The stored task, `{ title, time }`: the title as typed and the `Date`
      the time picker returned. */
  datatype Task = Task(title: string, time: Instant)

  /** Ascending by `time`: an earlier task never stands after a later one. */
  predicate SortedByTime(s: seq<Task>) {
    forall i, j :: 0 <= i < j < |s| ==> s[i].time <= s[j].time
  }

  /** The tasks of `s` whose time is exactly `t`, in the order of `s`. A sort
      is stable when it keeps this subsequence for every `t`. */
  function WithTime(s: seq<Task>, t: Instant): (r: seq<Task>)
    ensures |r| <= |s|
    ensures forall i :: 0 <= i < |r| ==> r[i].time == t
  {
    if s == [] then []
    else (if s[0].time == t then [s[0]] else []) + WithTime(s[1..], t)
  }

  /** The number of tasks of `s` due no later than `t`. */
  function CountUpTo(s: seq<Task>, t: Instant): (n: nat)
    ensures n <= |s|
  {
    if s == [] then 0
    else (if s[0].time <= t then 1 else 0) + CountUpTo(s[1..], t)
  }

  /** Places `x` in front of the first task due strictly later than it, so
      that `x` follows every task of equal time. */
  function Insert(s: seq<Task>, x: Task): (r: seq<Task>)
    ensures |r| == |s| + 1
    ensures multiset(r) == multiset(s) + multiset{x}
  {
    if s == [] then [x]
    else if x.time < s[0].time then [x] + s
    else
      assert s == [s[0]] + s[1..];
      [s[0]] + Insert(s[1..], x)
  }

  /** Inserting keeps a sorted list sorted. */
  lemma {:induction false} InsertKeepsSorted(s: seq<Task>, x: Task)
    requires SortedByTime(s)
    ensures SortedByTime(Insert(s, x))
  {
    if s != [] && x.time >= s[0].time {
      assert SortedByTime(s[1..]);
      InsertKeepsSorted(s[1..], x);
      var rest := Insert(s[1..], x);
      assert forall k :: 0 <= k < |rest| ==> s[0].time <= rest[k].time by {
        forall k | 0 <= k < |rest|
          ensures s[0].time <= rest[k].time
        {
          assert rest[k] in multiset(rest);
          if rest[k] != x {
            var j :| 0 <= j < |s[1..]| && s[1..][j] == rest[k];
            assert s[j + 1] == rest[k];
          }
        }
      }
      assert Insert(s, x) == [s[0]] + rest;
    }
  }

  /** A stable sort by time: insertion sort that inserts each task, from
      first to last, after the ties already placed. */
  function SortByTime(s: seq<Task>): (r: seq<Task>)
    ensures |r| == |s|
    ensures multiset(r) == multiset(s)
    ensures SortedByTime(r)
  {
    if s == [] then []
    else
      assert s == s[..|s| - 1] + [s[|s| - 1]];
      var sorted := SortByTime(s[..|s| - 1]);
      InsertKeepsSorted(sorted, s[|s| - 1]);
      Insert(sorted, s[|s| - 1])
  }

  lemma SortSingle(x: Task)
    ensures SortByTime([] + [x]) == [x]
  {
    assert ([] + [x])[..0] == [];
  }

  lemma {:induction false} WithTimeConcat(a: seq<Task>, b: seq<Task>, t: Instant)
    ensures WithTime(a + b, t) == WithTime(a, t) + WithTime(b, t)
  {
    if a == [] {
      assert a + b == b;
    } else {
      assert (a + b)[1..] == a[1..] + b;
      WithTimeConcat(a[1..], b, t);
    }
  }

  lemma {:induction false} WithTimeNone(s: seq<Task>, t: Instant)
    requires forall i :: 0 <= i < |s| ==> s[i].time != t
    ensures WithTime(s, t) == []
  {
    if s != [] {
      WithTimeNone(s[1..], t);
    }
  }

  lemma ConcatAssociates(a: seq<Task>, b: seq<Task>, c: seq<Task>)
    ensures a + (b + c) == (a + b) + c
  {
  }

  lemma WithTimeCons(y: Task, rest: seq<Task>, t: Instant)
    ensures WithTime([y] + rest, t) == (if y.time == t then [y] else []) + WithTime(rest, t)
  {
    assert ([y] + rest)[1..] == rest;
  }

  /** Inserting into a sorted list keeps, for every time, the tasks of that
      time in their old order and puts the inserted one last among them. */
  lemma {:induction false} InsertIsStable(s: seq<Task>, x: Task, t: Instant)
    requires SortedByTime(s)
    ensures WithTime(Insert(s, x), t) == WithTime(s, t) + WithTime([x], t)
  {
    if s == [] {
      assert Insert(s, x) == [x];
    } else if x.time < s[0].time {
      InsertInFront(s, x, t);
    } else {
      var y, tail := s[0], s[1..];
      assert SortedByTime(tail);
      InsertIsStable(tail, x, t);
      InsertBehind(s, x, t);
    }
  }

  lemma InsertInFront(s: seq<Task>, x: Task, t: Instant)
    requires SortedByTime(s) && s != [] && x.time < s[0].time
    ensures WithTime(Insert(s, x), t) == WithTime(s, t) + WithTime([x], t)
  {
    assert Insert(s, x) == [x] + s;
    WithTimeCons(x, s, t);
    WithTimeCons(x, [], t);
    assert [x] + [] == [x];
    if x.time == t {
      WithTimeNone(s, t);
    }
  }

  lemma InsertBehind(s: seq<Task>, x: Task, t: Instant)
    requires s != [] && x.time >= s[0].time
    requires WithTime(Insert(s[1..], x), t) == WithTime(s[1..], t) + WithTime([x], t)
    ensures WithTime(Insert(s, x), t) == WithTime(s, t) + WithTime([x], t)
  {
    var y, tail := s[0], s[1..];
    var rest := Insert(tail, x);
    var front := if y.time == t then [y] else [];
    calc {
      WithTime(Insert(s, x), t);
      { assert Insert(s, x) == [y] + rest; }
      WithTime([y] + rest, t);
      { WithTimeCons(y, rest, t); }
      front + WithTime(rest, t);
      front + (WithTime(tail, t) + WithTime([x], t));
      { ConcatAssociates(front, WithTime(tail, t), WithTime([x], t)); }
      (front + WithTime(tail, t)) + WithTime([x], t);
      { WithTimeCons(y, tail, t); assert [y] + tail == s; }
      WithTime(s, t) + WithTime([x], t);
    }
  }

  /** The sort is stable: for every time, the tasks of that time appear in
      the same relative order before and after sorting. */
  lemma {:induction false} SortIsStable(s: seq<Task>, t: Instant)
    ensures WithTime(SortByTime(s), t) == WithTime(s, t)
  {
    if s != [] {
      var init, last := s[..|s| - 1], s[|s| - 1];
      assert s == init + [last];
      SortIsStable(init, t);
      InsertIsStable(SortByTime(init), last, t);
      WithTimeConcat(init, [last], t);
    }
  }

  /** A non-empty list holds a task of its first task's time. */
  lemma HeadHasTime(s: seq<Task>)
    ensures s != [] ==> WithTime(s, s[0].time) != []
  {
  }

  /** In a sorted list no task is due before the first one. */
  lemma WithTimeFront(s: seq<Task>, t: Instant)
    requires SortedByTime(s)
    ensures WithTime(s, t) != [] ==> s != [] && s[0].time <= t
  {
    if s != [] && t < s[0].time {
      WithTimeNone(s, t);
    }
  }

  /** A list sorted by time is fixed by its tasks of each time: two sorted
      lists that hold the same tasks of every time, in the same order, are
      equal. */
  lemma {:induction false} SortedByTimeUnique(a: seq<Task>, b: seq<Task>)
    requires SortedByTime(a) && SortedByTime(b)
    requires forall t :: WithTime(a, t) == WithTime(b, t)
    ensures a == b
  {
    HeadHasTime(a);
    HeadHasTime(b);
    if a != [] {
      SameHead(a, b);
      SameTails(a, b);
      assert SortedByTime(a[1..]) && SortedByTime(b[1..]);
      SortedByTimeUnique(a[1..], b[1..]);
      assert a == [a[0]] + a[1..] && b == [b[0]] + b[1..];
    }
  }

  lemma SameHead(a: seq<Task>, b: seq<Task>)
    requires SortedByTime(a) && SortedByTime(b) && a != []
    requires forall t :: WithTime(a, t) == WithTime(b, t)
    ensures b != [] && a[0] == b[0]
  {
    var t := a[0].time;
    assert WithTime(a, t) == WithTime(b, t);
    WithTimeFront(b, t);
    assert WithTime(a, b[0].time) == WithTime(b, b[0].time);
    WithTimeFront(a, b[0].time);
    assert WithTime(a, t)[0] == a[0];
    assert WithTime(b, t)[0] == b[0];
  }

  lemma SameTails(a: seq<Task>, b: seq<Task>)
    requires a != [] && b != [] && a[0] == b[0]
    requires forall t :: WithTime(a, t) == WithTime(b, t)
    ensures forall u :: WithTime(a[1..], u) == WithTime(b[1..], u)
  {
    forall u
      ensures WithTime(a[1..], u) == WithTime(b[1..], u)
    {
      assert WithTime(a, u) == WithTime(b, u);
      var head := if a[0].time == u then [a[0]] else [];
      assert WithTime(a, u) == head + WithTime(a[1..], u);
      assert WithTime(b, u) == head + WithTime(b[1..], u);
      assert WithTime(a[1..], u) == WithTime(a, u)[|head|..];
      assert WithTime(b[1..], u) == WithTime(b, u)[|head|..];
    }
  }

  /** Every stable sort by time returns what `SortByTime` returns: a sorted
      list that keeps each time's tasks of `s` in their order is unique. */
  lemma SortIsUnique(s: seq<Task>, r: seq<Task>)
    requires SortedByTime(r)
    requires forall t :: WithTime(r, t) == WithTime(s, t)
    ensures r == SortByTime(s)
  {
    forall t
      ensures WithTime(SortByTime(s), t) == WithTime(s, t)
    {
      SortIsStable(s, t);
    }
    SortedByTimeUnique(r, SortByTime(s));
  }

  /** Inserting a task that is due no earlier than any task of `s` appends it. */
  lemma {:induction false} InsertLast(s: seq<Task>, x: Task)
    requires forall i :: 0 <= i < |s| ==> s[i].time <= x.time
    ensures Insert(s, x) == s + [x]
  {
    if s != [] {
      InsertLast(s[1..], x);
      assert s == [s[0]] + s[1..];
    }
  }

  /** Sorting an already sorted list changes nothing. */
  lemma {:induction false} SortSortedIsIdentity(s: seq<Task>)
    requires SortedByTime(s)
    ensures SortByTime(s) == s
  {
    if s != [] {
      var init := s[..|s| - 1];
      assert SortedByTime(init);
      SortSortedIsIdentity(init);
      InsertLast(init, s[|s| - 1]);
      assert init + [s[|s| - 1]] == s;
    }
  }

  /** Sorting a list with one task appended is inserting that task into the
      sorted rest. */
  lemma SortAppend(s: seq<Task>, x: Task)
    ensures SortByTime(s + [x]) == Insert(SortByTime(s), x)
  {
    assert (s + [x])[..|s|] == s;
  }

  /** Where the new task lands in a sorted list: right after the tasks due no
      later than it, which form a prefix. */
  lemma InsertPosition(s: seq<Task>, x: Task)
    requires SortedByTime(s)
    ensures var k := CountUpTo(s, x.time);
      && Insert(s, x) == s[..k] + [x] + s[k..]
      && (forall i :: 0 <= i < k ==> s[i].time <= x.time)
      && (forall i :: k <= i < |s| ==> x.time < s[i].time)
  {
    CountUpToSplits(s, x.time);
    InsertAtCount(s, x);
  }

  /** In a sorted list the tasks due no later than `t` are a prefix. */
  lemma {:induction false} CountUpToSplits(s: seq<Task>, t: Instant)
    requires SortedByTime(s)
    ensures var k := CountUpTo(s, t);
      && (forall i :: 0 <= i < k ==> s[i].time <= t)
      && (forall i :: k <= i < |s| ==> t < s[i].time)
  {
    if s != [] {
      var tail := s[1..];
      assert SortedByTime(tail);
      CountUpToSplits(tail, t);
      if s[0].time > t {
        CountUpToNone(s, t);
      }
    }
  }

  lemma {:induction false} InsertAtCount(s: seq<Task>, x: Task)
    requires SortedByTime(s)
    ensures var k := CountUpTo(s, x.time); Insert(s, x) == s[..k] + [x] + s[k..]
  {
    if s == [] {
    } else if x.time < s[0].time {
      CountUpToNone(s, x.time);
    } else {
      var tail := s[1..];
      assert SortedByTime(tail);
      InsertAtCount(tail, x);
      var k := CountUpTo(tail, x.time);
      assert CountUpTo(s, x.time) == k + 1;
      assert s[..k + 1] == [s[0]] + tail[..k];
      assert s[k + 1..] == tail[k..];
    }
  }

  lemma {:induction false} CountUpToNone(s: seq<Task>, t: Instant)
    requires SortedByTime(s) && (s == [] || t < s[0].time)
    ensures CountUpTo(s, t) == 0
  {
    if s != [] {
      assert SortedByTime(s[1..]);
      CountUpToNone(s[1..], t);
    }
  }

  /** Two tasks of different times end up in the same place whichever is
      inserted first. */
  lemma {:induction false} InsertCommutes(s: seq<Task>, a: Task, b: Task)
    requires a.time != b.time
    ensures Insert(Insert(s, a), b) == Insert(Insert(s, b), a)
  {
    if s != [] && a.time >= s[0].time && b.time >= s[0].time {
      InsertCommutes(s[1..], a, b);
    }
  }
}
