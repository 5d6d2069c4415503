/** The two queries the task routes send to the task collection:
    `findOne({ _id, userId })` and `find({ userId }).sort({ startTime: 1 })`,
    stated over the collection as a map from identifier to document. */
module TaskQuery {
  import opened Models

  /** Every document is stored under its own `_id`. */
  ghost predicate IdsAreKeys(tasks: map<TaskId, Task>) {
    forall id :: id in tasks ==> tasks[id].id == id
  }

  /** `findOne({ _id: id, userId })` finds a document: one with this id
      exists and belongs to this user. A missing id and a document of
      another user are the same miss. */
  predicate Owns(tasks: map<TaskId, Task>, id: TaskId, userId: UserId) {
    id in tasks && tasks[id].userId == userId
  }

  /** The user has at least one task. */
  ghost predicate OwnsAny(tasks: map<TaskId, Task>, userId: UserId) {
    exists id :: Owns(tasks, id, userId)
  }

  ghost predicate SortedByStart(s: seq<Task>) {
    forall i, j :: 0 <= i < j < |s| ==> s[i].startTime <= s[j].startTime
  }

  ghost predicate DistinctIds(s: seq<Task>) {
    forall i, j :: 0 <= i < j < |s| ==> s[i].id != s[j].id
  }

  /** Places `t` after every task that does not start later than it. */
  function InsertByStart(t: Task, s: seq<Task>): (r: seq<Task>)
    ensures multiset(r) == multiset(s) + multiset{t}
    ensures |r| == |s| + 1
    ensures forall u :: u in r <==> u == t || u in s
  {
    if s == [] || t.startTime < s[0].startTime then [t] + s
    else
      assert s == [s[0]] + s[1..];
      [s[0]] + InsertByStart(t, s[1..])
  }

  /** Inserting into a list sorted by start time keeps it sorted. */
  lemma {:induction false} InsertKeepsOrder(t: Task, s: seq<Task>)
    requires SortedByStart(s)
    ensures SortedByStart(InsertByStart(t, s))
  {
    var r := InsertByStart(t, s);
    if s == [] || t.startTime < s[0].startTime {
      forall i, j | 0 <= i < j < |r| ensures r[i].startTime <= r[j].startTime {
        assert r[j] == s[j - 1];
        if i > 0 {
          assert r[i] == s[i - 1];
        } else if j > 1 {
          assert s[0].startTime <= s[j - 1].startTime;
        }
      }
    } else {
      var r' := InsertByStart(t, s[1..]);
      InsertKeepsOrder(t, s[1..]);
      forall u | u in r' ensures s[0].startTime <= u.startTime {
        if u != t {
          var k :| 0 <= k < |s[1..]| && s[1..][k] == u;
          assert s[k + 1] == u;
        }
      }
      forall i, j | 0 <= i < j < |r| ensures r[i].startTime <= r[j].startTime {
        assert r[j] == r'[j - 1] && r'[j - 1] in r';
        if i > 0 {
          assert r[i] == r'[i - 1];
        }
      }
    }
  }

  /** Inserting a task whose id is new keeps the ids distinct. */
  lemma {:induction false} InsertKeepsIdsDistinct(t: Task, s: seq<Task>)
    requires DistinctIds(s) && forall u :: u in s ==> u.id != t.id
    ensures DistinctIds(InsertByStart(t, s))
  {
    var r := InsertByStart(t, s);
    if s == [] || t.startTime < s[0].startTime {
      forall i, j | 0 <= i < j < |r| ensures r[i].id != r[j].id {
        assert r[j] == s[j - 1];
        if i > 0 {
          assert r[i] == s[i - 1];
        }
      }
    } else {
      var r' := InsertByStart(t, s[1..]);
      InsertKeepsIdsDistinct(t, s[1..]);
      forall u | u in r' ensures u.id != s[0].id {
        if u != t {
          var k :| 0 <= k < |s[1..]| && s[1..][k] == u;
          assert s[k + 1] == u;
        }
      }
      forall i, j | 0 <= i < j < |r| ensures r[i].id != r[j].id {
        assert r[j] == r'[j - 1] && r'[j - 1] in r';
        if i > 0 {
          assert r[i] == r'[i - 1];
        }
      }
    }
  }

  /** `find({ userId }).sort({ startTime: 1 })` over the documents whose
      id is below `bound`. The order among tasks with equal start times is
      not something callers may rely on. */
  function FindSorted(tasks: map<TaskId, Task>, userId: UserId, bound: nat): (r: seq<Task>)
    requires IdsAreKeys(tasks)
    ensures SortedByStart(r) && DistinctIds(r)
    ensures forall t :: t in r <==> t.id < bound && Owns(tasks, t.id, userId) && tasks[t.id] == t
  {
    if bound == 0 then []
    else
      var rest := FindSorted(tasks, userId, bound - 1);
      if Owns(tasks, bound - 1, userId) then
        InsertKeepsOrder(tasks[bound - 1], rest);
        InsertKeepsIdsDistinct(tasks[bound - 1], rest);
        InsertByStart(tasks[bound - 1], rest)
      else rest
  }
}
