/** The task table behind the DAO: a map from primary key to row plus the
    auto-increment counter. Writes are pure functions on a `TableState`
    value that the in-place `TaskTable` class is proved against; reads are
    pure queries over the value. */
module Dao {
  import opened Models
  import opened SqlLike

  /** The rows by primary key, and the key the next generated row gets
      (one past every key the table has ever held). */
  datatype TableState = TableState(rows: map<int, ToDoTask>, nextId: int)

  /** Keys are the rows' own ids, never 0 (0 means "generate one"), and all
      below the auto-increment counter. */
  predicate ValidTable(t: TableState)
  {
    && t.nextId >= 1
    && forall k :: k in t.rows ==> t.rows[k].id == k && k != 0 && k < t.nextId
  }

  function Max(a: int, b: int): int
  {
    if a < b then b else a
  }

  // ---------------------------------------------------------------------
  // Writes

  /** `@Insert(onConflict = IGNORE)`: id 0 gets a freshly generated key; a
      key already present leaves the table as it is; any other explicit key
      is stored as given. */
  function Insert(t: TableState, task: ToDoTask): (r: TableState)
    requires ValidTable(t)
    ensures ValidTable(r)
    ensures task.id != 0 && task.id in t.rows ==> r == t
    ensures task.id != 0 && task.id !in t.rows ==> r.rows == t.rows[task.id := task]
    ensures task.id == 0 ==>
      && t.nextId !in t.rows
      && r.rows == t.rows[t.nextId := task.(id := t.nextId)]
    ensures t.rows.Keys <= r.rows.Keys && |r.rows| <= |t.rows| + 1
  {
    if task.id == 0 then
      TableState(t.rows[t.nextId := task.(id := t.nextId)], t.nextId + 1)
    else if task.id in t.rows then
      t
    else
      TableState(t.rows[task.id := task], Max(t.nextId, task.id + 1))
  }

  /** `@Update`: rewrites the row whose key is the task's id; no row with
      that key, no change and no new row. */
  function Update(t: TableState, task: ToDoTask): (r: TableState)
    requires ValidTable(t)
    ensures ValidTable(r)
    ensures r.rows.Keys == t.rows.Keys && r.nextId == t.nextId
    ensures task.id in t.rows ==> r.rows[task.id] == task
    ensures forall k :: k in t.rows && k != task.id ==> r.rows[k] == t.rows[k]
    ensures task.id !in t.rows ==> r == t
  {
    if task.id in t.rows then TableState(t.rows[task.id := task], t.nextId) else t
  }

  /** `@Delete`: removes the row whose key is the task's id, matching on the
      primary key only. */
  function Delete(t: TableState, task: ToDoTask): (r: TableState)
    requires ValidTable(t)
    ensures ValidTable(r)
    ensures r.rows.Keys == t.rows.Keys - {task.id} && r.nextId == t.nextId
    ensures forall k :: k in r.rows ==> r.rows[k] == t.rows[k]
  {
    TableState(t.rows - {task.id}, t.nextId)
  }

  /** `DELETE FROM todo_table`: every row goes; the counter is kept, so keys
      are never reused. */
  function DeleteAll(t: TableState): (r: TableState)
    requires ValidTable(t)
    ensures ValidTable(r)
    ensures r.rows == map[] && r.nextId == t.nextId
  {
    TableState(map[], t.nextId)
  }

  // ---------------------------------------------------------------------
  // Ordering by primary key

  predicate IdsIncreasing(s: seq<ToDoTask>)
  {
    forall i, j :: 0 <= i < j < |s| ==> s[i].id < s[j].id
  }

  /** `m` is at most every key of `ks`. */
  predicate IsLeast(m: int, ks: set<int>)
  {
    forall k :: k in ks ==> m <= k
  }

  lemma {:induction false} MinExists(ks: set<int>)
    requires ks != {}
    ensures exists m :: m in ks && IsLeast(m, ks)
    decreases |ks|
  {
    if forall y :: y !in ks {
      assert false;
    }
    var x :| x in ks;
    var rest := ks - {x};
    if rest == {} {
      assert IsLeast(x, ks) by {
        forall k | k in ks ensures x <= k {
          assert k !in rest;
        }
      }
    } else {
      MinExists(rest);
      var m :| m in rest && IsLeast(m, rest);
      var least := if x < m then x else m;
      assert IsLeast(least, ks) by {
        forall k | k in ks ensures least <= k {
          if k != x {
            assert k in rest;
          }
        }
      }
    }
  }

  /** The smallest key of a non-empty key set. */
  function SetMin(ks: set<int>): (m: int)
    requires ks != {}
    ensures m in ks && forall k :: k in ks ==> m <= k
  {
    MinExists(ks);
    var m :| m in ks && IsLeast(m, ks);
    m
  }

  /** The keys in ascending order, each once. */
  function SortedIds(ks: set<int>): (r: seq<int>)
    ensures |r| == |ks|
    ensures forall i :: 0 <= i < |r| ==> r[i] in ks
    ensures forall k :: k in ks ==> k in r
    ensures forall i, j :: 0 <= i < j < |r| ==> r[i] < r[j]
  {
    if ks == {} then []
    else
      var m := SetMin(ks);
      var rest := SortedIds(ks - {m});
      SortedIdsCons(ks, m, rest);
      [m] + rest
  }

  lemma SortedIdsCons(ks: set<int>, m: int, rest: seq<int>)
    requires m in ks && forall k :: k in ks ==> m <= k
    requires |rest| == |ks - {m}|
    requires forall i :: 0 <= i < |rest| ==> rest[i] in ks - {m}
    requires forall k :: k in ks - {m} ==> k in rest
    requires forall i, j :: 0 <= i < j < |rest| ==> rest[i] < rest[j]
    ensures var r := [m] + rest;
      && |r| == |ks|
      && (forall i :: 0 <= i < |r| ==> r[i] in ks)
      && (forall k :: k in ks ==> k in r)
      && (forall i, j :: 0 <= i < j < |r| ==> r[i] < r[j])
  {
    var r := [m] + rest;
    forall i, j | 0 <= i < j < |r| ensures r[i] < r[j] {
      if i == 0 {
        assert r[j] == rest[j - 1] && rest[j - 1] in ks - {m};
      } else {
        assert r[i] == rest[i - 1] && r[j] == rest[j - 1];
      }
    }
    forall k | k in ks ensures k in r {
      if k != m {
        assert k in ks - {m};
      }
    }
  }

  // ---------------------------------------------------------------------
  // Queries

  /** `SELECT * FROM todo_table ORDER BY id ASC`: every row exactly once, in
      strictly increasing key order. */
  function AllTasks(t: TableState): (r: seq<ToDoTask>)
    requires ValidTable(t)
    ensures |r| == |t.rows|
    ensures forall i :: 0 <= i < |r| ==> r[i].id in t.rows && t.rows[r[i].id] == r[i]
    ensures forall k :: k in t.rows ==> t.rows[k] in r
    ensures IdsIncreasing(r)
  {
    var ids := SortedIds(t.rows.Keys);
    var r := RowsAt(t.rows, ids);
    RowsInKeyOrder(t, ids, r);
    r
  }

  /** The rows under the given keys, in the keys' order. */
  function RowsAt(rows: map<int, ToDoTask>, ids: seq<int>): (r: seq<ToDoTask>)
    requires forall i :: 0 <= i < |ids| ==> ids[i] in rows
    ensures |r| == |ids| && forall i :: 0 <= i < |ids| ==> r[i] == rows[ids[i]]
  {
    seq(|ids|, i requires 0 <= i < |ids| => rows[ids[i]])
  }

  lemma RowsInKeyOrder(t: TableState, ids: seq<int>, r: seq<ToDoTask>)
    requires ValidTable(t)
    requires |ids| == |t.rows.Keys|
    requires forall i :: 0 <= i < |ids| ==> ids[i] in t.rows
    requires forall k :: k in t.rows ==> k in ids
    requires forall i, j :: 0 <= i < j < |ids| ==> ids[i] < ids[j]
    requires |r| == |ids| && forall i :: 0 <= i < |ids| ==> r[i] == t.rows[ids[i]]
    ensures |r| == |t.rows|
    ensures forall i :: 0 <= i < |r| ==> r[i].id in t.rows && t.rows[r[i].id] == r[i]
    ensures forall k :: k in t.rows ==> t.rows[k] in r
    ensures IdsIncreasing(r)
  {
    assert |t.rows.Keys| == |t.rows|;
    forall k | k in t.rows ensures t.rows[k] in r {
      var i :| 0 <= i < |ids| && ids[i] == k;
      assert r[i] == t.rows[k];
    }
    forall i, j | 0 <= i < j < |r| ensures r[i].id < r[j].id {
      assert r[i].id == ids[i] && r[j].id == ids[j];
    }
  }

  lemma SortedIdsUnfold(ks: set<int>)
    requires ks != {}
    ensures SortedIds(ks) == [SetMin(ks)] + SortedIds(ks - {SetMin(ks)})
  {
  }

  /** Adding a key above all others keeps the smallest key. */
  lemma MinOfAppend(ks: set<int>, m: int)
    requires ks != {} && forall k :: k in ks ==> k < m
    ensures SetMin(ks + {m}) == SetMin(ks)
  {
    var m0 := SetMin(ks + {m});
    var m1 := SetMin(ks);
    assert m0 <= m1;
    assert m0 in ks;
  }

  lemma AppendAfterCons(x: int, b: seq<int>, m: int)
    ensures [x] + (b + [m]) == ([x] + b) + [m]
  {
  }

  /** A key above every key of the set goes last in ascending order. */
  lemma {:induction false} SortedIdsAppend(ks: set<int>, m: int)
    requires forall k :: k in ks ==> k < m
    ensures SortedIds(ks + {m}) == SortedIds(ks) + [m]
    decreases |ks|
  {
    var all := ks + {m};
    if ks == {} {
      assert all == {m};
      SortedIdsUnfold(all);
      assert SetMin(all) == m;
      assert all - {m} == {};
    } else {
      var m1 := SetMin(ks);
      MinOfAppend(ks, m);
      var smaller := ks - {m1};
      assert all - {m1} == smaller + {m};
      SortedIdsAppend(smaller, m);
      var rest := SortedIds(smaller);
      SortedIdsUnfold(all);
      SortedIdsUnfold(ks);
      AppendAfterCons(m1, rest, m);
    }
  }

  lemma AllTasksUnfold(t: TableState)
    requires ValidTable(t)
    ensures AllTasks(t) == RowsAt(t.rows, SortedIds(t.rows.Keys))
  {
  }

  /** Looking up one more key, under a fresh entry, appends that entry. */
  lemma RowsAtAppend(rows: map<int, ToDoTask>, ids: seq<int>, n: int, added: ToDoTask)
    requires forall i :: 0 <= i < |ids| ==> ids[i] in rows
    requires n !in rows
    ensures forall i :: 0 <= i < |ids + [n]| ==> (ids + [n])[i] in rows[n := added]
    ensures RowsAt(rows[n := added], ids + [n]) == RowsAt(rows, ids) + [added]
  {
    var ext := rows[n := added];
    var a := RowsAt(ext, ids + [n]);
    var b := RowsAt(rows, ids) + [added];
    forall i | 0 <= i < |a| ensures a[i] == b[i] {
      if i < |ids| {
        assert (ids + [n])[i] == ids[i] && ids[i] != n;
      }
    }
  }

  /** In key order, an entry under a key above every key comes last. */
  lemma KeyedRowsAppend(rows: map<int, ToDoTask>, n: int, added: ToDoTask)
    requires forall k :: k in rows ==> k < n
    ensures RowsAt(rows[n := added], SortedIds(rows[n := added].Keys)) == RowsAt(rows, SortedIds(rows.Keys)) + [added]
  {
    var ids := SortedIds(rows.Keys);
    assert rows[n := added].Keys == rows.Keys + {n};
    SortedIdsAppend(rows.Keys, n);
    RowsAtAppend(rows, ids, n, added);
  }

  /** A row stored under the next generated key is listed last. */
  lemma FreshKeyListedLast(t: TableState, r: TableState, added: ToDoTask)
    requires ValidTable(t) && ValidTable(r)
    requires r.rows == t.rows[t.nextId := added]
    ensures AllTasks(r) == AllTasks(t) + [added]
  {
    AllTasksUnfold(t);
    AllTasksUnfold(r);
    KeyedRowsAppend(t.rows, t.nextId, added);
  }

  /** Generated keys only grow, so a row added with id 0 is listed last. */
  lemma NewRowListedLast(t: TableState, task: ToDoTask)
    requires ValidTable(t) && task.id == 0
    ensures AllTasks(Insert(t, task)) == AllTasks(t) + [task.(id := t.nextId)]
  {
    FreshKeyListedLast(t, Insert(t, task), task.(id := t.nextId));
  }

  /** `SELECT * FROM todo_table WHERE id = :taskId`: the row, or null when
      no row has that key. */
  function SelectedTask(t: TableState, taskId: int): (r: Option<ToDoTask>)
    requires ValidTable(t)
    ensures r.Some? <==> taskId in t.rows
    ensures r.Some? ==> r.value in AllTasks(t) && r.value.id == taskId
  {
    if taskId in t.rows then Some(t.rows[taskId]) else None
  }

  /** The WHERE clause of the search query. */
  predicate RowMatches(task: ToDoTask, pattern: string)
    ensures RowMatches(task, pattern) ==>
      FixedLength(pattern) <= |task.title| || FixedLength(pattern) <= |task.description|
  {
    Like(pattern, task.title) || Like(pattern, task.description)
  }

  function FilterMatching(s: seq<ToDoTask>, pattern: string): (r: seq<ToDoTask>)
    ensures forall x :: x in r <==> x in s && RowMatches(x, pattern)
    ensures IdsIncreasing(s) ==> IdsIncreasing(r)
  {
    if s == [] then []
    else
      var rest := FilterMatching(s[1..], pattern);
      if RowMatches(s[0], pattern) then
        FilterCons(s, rest);
        [s[0]] + rest
      else
        rest
  }

  lemma FilterCons(s: seq<ToDoTask>, rest: seq<ToDoTask>)
    requires s != [] && forall x :: x in rest ==> x in s[1..]
    requires IdsIncreasing(s[1..]) ==> IdsIncreasing(rest)
    ensures IdsIncreasing(s) ==> IdsIncreasing([s[0]] + rest)
  {
    if IdsIncreasing(s) {
      var r := [s[0]] + rest;
      forall i, j | 0 <= i < j < |r| ensures r[i].id < r[j].id {
        assert r[j] == rest[j - 1];
        if i == 0 {
          assert rest[j - 1] in rest;
          var k :| 0 <= k < |s[1..]| && s[1..][k] == rest[j - 1];
          assert s[k + 1] == rest[j - 1];
        } else {
          assert r[i] == rest[i - 1];
        }
      }
    }
  }

  /** `SELECT * FROM todo_table WHERE title LIKE :q OR description LIKE :q`,
      read in key order: exactly the rows whose title or description
      matches the pattern. */
  function Search(t: TableState, pattern: string): (r: seq<ToDoTask>)
    requires ValidTable(t)
    ensures forall x :: x in r <==> x.id in t.rows && t.rows[x.id] == x && RowMatches(x, pattern)
    ensures IdsIncreasing(r)
  {
    FilterMatching(AllTasks(t), pattern)
  }

  /** With the view-model's `%q%` pattern and a wildcard-free query, the
      search returns exactly the rows whose title or description contains
      the query, ignoring ASCII case. */
  lemma SearchIsSubstringSearch(t: TableState, q: string, x: ToDoTask)
    requires ValidTable(t) && NoWildcards(q)
    ensures x in Search(t, "%" + q + "%") <==>
      x.id in t.rows && t.rows[x.id] == x &&
      (ContainsIgnoringCase(x.title, q) || ContainsIgnoringCase(x.description, q))
  {
    SubstringPattern(q, x.title);
    SubstringPattern(q, x.description);
  }

  /** Whatever the query holds, a row containing it is found. */
  lemma SearchFindsContainingRows(t: TableState, q: string, k: int)
    requires ValidTable(t) && k in t.rows
    requires ContainsIgnoringCase(t.rows[k].title, q) || ContainsIgnoringCase(t.rows[k].description, q)
    ensures t.rows[k] in Search(t, "%" + q + "%")
  {
    if ContainsIgnoringCase(t.rows[k].title, q) {
      ContainedIsMatched(q, t.rows[k].title);
    } else {
      ContainedIsMatched(q, t.rows[k].description);
    }
  }

  // ---------------------------------------------------------------------
  // Ordering by priority rank

  /** The two `ORDER BY CASE` clauses. */
  datatype PriorityOrder = LowFirst | HighFirst

  /** A CASE result: one of the listed numbers, or NULL when no WHEN holds. */
  datatype SqlRank = NullRank | Rank(value: int)

  /** `CASE WHEN priority LIKE 'L%' THEN 1 WHEN ... END`, evaluated on the
      stored priority name. */
  function CaseRank(order: PriorityOrder, p: Priority): (r: SqlRank)
    ensures r == NullRank <==> p == NONE
    ensures r.Rank? ==> 1 <= r.value <= 3
  {
    var name := PriorityName(p);
    LetterThenPercent('L', name);
    LetterThenPercent('M', name);
    LetterThenPercent('H', name);
    assert "L%" == ['L', '%'] && "M%" == ['M', '%'] && "H%" == ['H', '%'];
    match order
    case LowFirst =>
      if Like("L%", name) then Rank(1)
      else if Like("M%", name) then Rank(2)
      else if Like("H%", name) then Rank(3)
      else NullRank
    case HighFirst =>
      if Like("H%", name) then Rank(1)
      else if Like("M%", name) then Rank(2)
      else if Like("L%", name) then Rank(3)
      else NullRank
  }

  /** The ranks the CASE clauses give: LOW 1, MEDIUM 2, HIGH 3 for the
      low-first query, the reverse for the high-first one, and NULL for NONE
      in both, since no row is filtered out. */
  lemma CaseRanks()
    ensures CaseRank(LowFirst, LOW) == Rank(1)
    ensures CaseRank(LowFirst, MEDIUM) == Rank(2)
    ensures CaseRank(LowFirst, HIGH) == Rank(3)
    ensures CaseRank(HighFirst, HIGH) == Rank(1)
    ensures CaseRank(HighFirst, MEDIUM) == Rank(2)
    ensures CaseRank(HighFirst, LOW) == Rank(3)
    ensures CaseRank(LowFirst, NONE) == NullRank && CaseRank(HighFirst, NONE) == NullRank
  {
    assert "L%" == ['L', '%'] && "M%" == ['M', '%'] && "H%" == ['H', '%'];
    LetterThenPercent('L', "LOW");
    LetterThenPercent('L', "MEDIUM");
    LetterThenPercent('L', "HIGH");
    LetterThenPercent('L', "NONE");
    LetterThenPercent('M', "LOW");
    LetterThenPercent('M', "MEDIUM");
    LetterThenPercent('M', "HIGH");
    LetterThenPercent('M', "NONE");
    LetterThenPercent('H', "LOW");
    LetterThenPercent('H', "MEDIUM");
    LetterThenPercent('H', "HIGH");
    LetterThenPercent('H', "NONE");
  }

  /** Sort key: SQLite orders NULL before every number. */
  function SortKey(order: PriorityOrder, p: Priority): int
  {
    match CaseRank(order, p)
    case NullRank => 0
    case Rank(v) => v
  }

  /** Each row's rank is at most the next row's. */
  predicate SortedByRank(s: seq<ToDoTask>, order: PriorityOrder)
  {
    forall i :: 0 <= i < |s| - 1 ==> SortKey(order, s[i].priority) <= SortKey(order, s[i + 1].priority)
  }

  /** Ranks along a sorted list never decrease, however far apart. */
  lemma {:induction false} RankChain(s: seq<ToDoTask>, order: PriorityOrder, i: int, j: int)
    requires SortedByRank(s, order) && 0 <= i <= j < |s|
    ensures SortKey(order, s[i].priority) <= SortKey(order, s[j].priority)
    decreases j - i
  {
    if i < j {
      RankChain(s, order, i, j - 1);
      var k := j - 1;
      assert SortKey(order, s[k].priority) <= SortKey(order, s[k + 1].priority);
    }
  }

  /** Putting a row in front keeps the order when its rank is at most the
      old head's. */
  lemma ConsSorted(h: ToDoTask, s: seq<ToDoTask>, order: PriorityOrder)
    requires SortedByRank(s, order)
    requires s == [] || SortKey(order, h.priority) <= SortKey(order, s[0].priority)
    ensures SortedByRank([h] + s, order)
  {
    var r := [h] + s;
    forall i | 0 <= i < |r| - 1 ensures SortKey(order, r[i].priority) <= SortKey(order, r[i + 1].priority) {
      assert r[i + 1] == s[i];
      if i > 0 {
        assert r[i] == s[i - 1];
      }
    }
  }

  /** Dropping the head keeps a list sorted; the new head ranks at least as
      high as the old one, and the old head with the rest is the list. */
  lemma TailSorted(s: seq<ToDoTask>, order: PriorityOrder)
    requires SortedByRank(s, order) && s != []
    ensures SortedByRank(s[1..], order)
    ensures |s| > 1 ==> s[1..][0] == s[1] && SortKey(order, s[0].priority) <= SortKey(order, s[1].priority)
    ensures s == [s[0]] + s[1..]
  {
    var tail := s[1..];
    forall i | 0 <= i < |tail| - 1 ensures SortKey(order, tail[i].priority) <= SortKey(order, tail[i + 1].priority) {
      assert tail[i] == s[i + 1] && tail[i + 1] == s[i + 2];
    }
  }

  /** One step of insertion sort: `x` goes in front of the first row whose
      rank is not below its own. The result is sorted, holds exactly the old
      rows and `x`, and starts with `x` or the old head. */
  function InsertByRank(x: ToDoTask, s: seq<ToDoTask>, order: PriorityOrder): (r: seq<ToDoTask>)
    requires SortedByRank(s, order)
    ensures SortedByRank(r, order)
    ensures multiset(r) == multiset(s) + multiset{x}
    ensures r != [] && (r[0] == x || (s != [] && r[0] == s[0]))
  {
    if s == [] || SortKey(order, x.priority) <= SortKey(order, s[0].priority) then
      ConsSorted(x, s, order);
      [x] + s
    else
      var tail := s[1..];
      TailSorted(s, order);
      var rest := InsertByRank(x, tail, order);
      ConsSorted(s[0], rest, order);
      [s[0]] + rest
  }

  /** A stable sort by rank: rows of equal rank keep their key order. */
  function OrderByRank(s: seq<ToDoTask>, order: PriorityOrder): (r: seq<ToDoTask>)
    ensures SortedByRank(r, order)
    ensures multiset(r) == multiset(s)
  {
    if s == [] then []
    else
      assert s == [s[0]] + s[1..];
      InsertByRank(s[0], OrderByRank(s[1..], order), order)
  }

  /** `sortByLowPriority` / `sortByHighPriority`: the whole table, rows of a
      ranked priority in non-decreasing rank. */
  function SortByPriority(t: TableState, order: PriorityOrder): (r: seq<ToDoTask>)
    requires ValidTable(t)
    ensures multiset(r) == multiset(AllTasks(t)) && |r| == |t.rows|
    ensures forall i, j ::
      (0 <= i < j < |r| && CaseRank(order, r[i].priority).Rank? && CaseRank(order, r[j].priority).Rank?) ==>
        CaseRank(order, r[i].priority).value <= CaseRank(order, r[j].priority).value
  {
    var r := OrderByRank(AllTasks(t), order);
    assert |r| == |multiset(r)|;
    forall i, j | 0 <= i < j < |r| ensures SortKey(order, r[i].priority) <= SortKey(order, r[j].priority) {
      RankChain(r, order, i, j);
    }
    r
  }

  /** Every row of the table appears in both orderings, NONE rows included. */
  lemma SortKeepsEveryRow(t: TableState, order: PriorityOrder, k: int)
    requires ValidTable(t) && k in t.rows
    ensures t.rows[k] in SortByPriority(t, order)
  {
    var r := SortByPriority(t, order);
    assert t.rows[k] in multiset(AllTasks(t));
    assert t.rows[k] in multiset(r);
  }

  /** The low-first query never lists a HIGH row before a LOW or MEDIUM one,
      nor a MEDIUM row before a LOW one; the high-first query is its mirror. */
  lemma PriorityOrdering(t: TableState, i: int, j: int)
    requires ValidTable(t)
    requires 0 <= i < j < |t.rows|
    ensures var low := SortByPriority(t, LowFirst);
      (low[i].priority == HIGH ==> low[j].priority !in {LOW, MEDIUM}) &&
      (low[i].priority == MEDIUM ==> low[j].priority != LOW)
    ensures var high := SortByPriority(t, HighFirst);
      (high[i].priority == LOW ==> high[j].priority !in {HIGH, MEDIUM}) &&
      (high[i].priority == MEDIUM ==> high[j].priority != HIGH)
  {
    CaseRanks();
  }

  // ---------------------------------------------------------------------
  // The table object

  /** The Room table, updated in place by the DAO's suspend functions. */
  class TaskTable {
    var rows: map<int, ToDoTask>
    var nextId: int

    function State(): TableState
      reads this
    {
      TableState(rows, nextId)
    }

    predicate Valid()
      reads this
    {
      ValidTable(State())
    }

    /** An empty table whose first generated key is 1. */
    constructor ()
      ensures Valid() && State() == TableState(map[], 1)
    {
      rows := map[];
      nextId := 1;
    }

    method AddTask(task: ToDoTask)
      requires Valid()
      modifies this
      ensures Valid() && State() == Insert(old(State()), task)
    {
      if task.id == 0 {
        rows := rows[nextId := task.(id := nextId)];
        nextId := nextId + 1;
      } else if task.id !in rows {
        rows := rows[task.id := task];
        nextId := Max(nextId, task.id + 1);
      }
    }

    method UpdateTask(task: ToDoTask)
      requires Valid()
      modifies this
      ensures Valid() && State() == Update(old(State()), task)
    {
      if task.id in rows {
        rows := rows[task.id := task];
      }
    }

    method DeleteTask(task: ToDoTask)
      requires Valid()
      modifies this
      ensures Valid() && State() == Delete(old(State()), task)
    {
      rows := rows - {task.id};
    }

    method DeleteAllTasks()
      requires Valid()
      modifies this
      ensures Valid() && State() == DeleteAll(old(State()))
      ensures AllTasks(State()) == []
    {
      rows := map[];
    }
  }
}
