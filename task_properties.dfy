/**
 * What the handlers of the task service guarantee across requests: how
 * lookups see the table after each kind of change, which invariants each
 * change keeps, and the ones it does not.
 */
module TaskProperties {
  import opened Wrappers
  import opened Json
  import opened TaskTable

  // ---------------------------------------------------------------------------
  // Subsequences

  lemma {:induction false} SubsequenceRefl(s: seq<Task>)
    ensures IsSubsequence(s, s)
  {
    if s != [] {
      SubsequenceRefl(s[1..]);
    }
  }

  /** Deleting the element at `k` leaves a subsequence. */
  lemma {:induction false} RemoveAtIsSubsequence(s: seq<Task>, k: nat)
    requires k < |s|
    ensures IsSubsequence(s[..k] + s[k + 1..], s)
  {
    var r := s[..k] + s[k + 1..];
    if k == 0 {
      assert r == s[1..];
      SubsequenceRefl(s[1..]);
      if r != [] {
        assert IsSubsequence(r, s[1..]);
      }
    } else {
      RemoveAtIsSubsequence(s[1..], k - 1);
      assert r[0] == s[0];
      assert r[1..] == s[1..][..k - 1] + s[1..][k..];
    }
  }

  // ---------------------------------------------------------------------------
  // Create

  /** A created task is found by its id, provided the id was fresh. */
  lemma CreateThenGet(s: seq<Task>, b: Body, id: Id, createdAt: Timestamp, updatedAt: Timestamp)
    requires !HasId(s, id)
    requires Create(s, b, id, createdAt, updatedAt).reply.Success?
    ensures var r := Create(s, b, id, createdAt, updatedAt);
            Get(r.table, id) == r.reply
  {
    var r := Create(s, b, id, createdAt, updatedAt);
    assert r.table[|s|].id == id;
    assert FindIndex(r.table, id) == |s|;
  }

  /** Deleting a task just created with a fresh id restores the table. */
  lemma CreateThenDelete(s: seq<Task>, b: Body, id: Id, createdAt: Timestamp, updatedAt: Timestamp)
    requires !HasId(s, id)
    requires Create(s, b, id, createdAt, updatedAt).reply.Success?
    ensures var r := Create(s, b, id, createdAt, updatedAt);
            Delete(r.table, id) == Step(s, r.reply)
  {
    var r := Create(s, b, id, createdAt, updatedAt);
    assert r.table[|s|].id == id;
    assert FindIndex(r.table, id) == |s|;
    assert r.table[..|s|] == s;
  }

  lemma CreatePreservesUniqueIds(s: seq<Task>, b: Body, id: Id, createdAt: Timestamp, updatedAt: Timestamp)
    requires UniqueIds(s) && !HasId(s, id)
    ensures UniqueIds(Create(s, b, id, createdAt, updatedAt).table)
  {
    var t := Create(s, b, id, createdAt, updatedAt).table;
    forall i, j | 0 <= i < j < |t|
      ensures t[i].id != t[j].id
    {
      if j == |s| {
        assert t[i] == s[i];
      }
    }
  }

  /** Every task create stores has a truthy title and a boolean `completed`. */
  lemma CreatePreservesWellFormed(s: seq<Task>, b: Body, id: Id, createdAt: Timestamp, updatedAt: Timestamp)
    requires forall i :: 0 <= i < |s| ==> WellFormed(s[i])
    ensures var t := Create(s, b, id, createdAt, updatedAt).table;
            forall i :: 0 <= i < |t| ==> WellFormed(t[i])
  {
  }

  /** One create request, with the identifier and clock readings it draws. */
  datatype CreateCall = CreateCall(body: Body, id: Id, createdAt: Timestamp, updatedAt: Timestamp)

  /** The table after serving `calls` one after another, starting from `s`. */
  function RunCreates(s: seq<Task>, calls: seq<CreateCall>): seq<Task>
    decreases |calls|
  {
    if calls == [] then s
    else
      var c := calls[0];
      RunCreates(Create(s, c.body, c.id, c.createdAt, c.updatedAt).table, calls[1..])
  }

  /** The tasks built by the calls that pass validation, in call order. */
  function Accepted(calls: seq<CreateCall>): seq<Task>
  {
    if calls == [] then []
    else
      var c := calls[0];
      (if CreateCheck(c.body) == None then [NewTask(c.body, c.id, c.createdAt, c.updatedAt)] else [])
      + Accepted(calls[1..])
  }

  /** Creates append in request order, and rejected requests leave no trace. */
  lemma {:induction false} RunCreatesAppends(s: seq<Task>, calls: seq<CreateCall>)
    ensures RunCreates(s, calls) == s + Accepted(calls)
    decreases |calls|
  {
    if calls != [] {
      var c := calls[0];
      var s' := Create(s, c.body, c.id, c.createdAt, c.updatedAt).table;
      RunCreatesAppends(s', calls[1..]);
    }
  }

  /** Listing without a filter after a series of creates on an empty table. */
  lemma ListAfterCreates(calls: seq<CreateCall>)
    ensures List(RunCreates([], calls), Undefined) == Listing(Accepted(calls), |Accepted(calls)|)
  {
    RunCreatesAppends([], calls);
  }

  // ---------------------------------------------------------------------------
  // List

  /** Every task whose `completed` is a boolean. */
  predicate AllBoolean(s: seq<Task>)
  {
    forall i :: 0 <= i < |s| ==> s[i].completed.Bool?
  }

  /** The "true" and "false" listings split a table whose flags are all booleans. */
  lemma FilterPartition(s: seq<Task>)
    requires AllBoolean(s)
    ensures multiset(Filter(s, true)) + multiset(Filter(s, false)) == multiset(s)
    ensures |Filter(s, true)| + |Filter(s, false)| == |s|
  {
    var both := multiset(Filter(s, true)) + multiset(Filter(s, false));
    forall t ensures both[t] == multiset(s)[t] {
      if t in multiset(s) {
        var i :| 0 <= i < |s| && s[i] == t;
        assert t.completed.Bool?;
      }
    }
    assert both == multiset(s);
    assert |both| == |Filter(s, true)| + |Filter(s, false)|;
  }

  lemma ListPartition(s: seq<Task>)
    requires AllBoolean(s)
    ensures multiset(List(s, Str("true")).tasks) + multiset(List(s, Str("false")).tasks) == multiset(s)
    ensures List(s, Str("true")).total + List(s, Str("false")).total == List(s, Undefined).total
  {
    FilterPartition(s);
  }

  /** A task whose `completed` is not a boolean (possible after update) is in neither listing. */
  lemma ListSkipsNonBoolean(s: seq<Task>, query: Value, i: int)
    requires 0 <= i < |s| && !s[i].completed.Bool?
    requires !query.Undefined?
    ensures s[i] !in List(s, query).tasks
  {
  }

  // ---------------------------------------------------------------------------
  // Update

  /** Update never moves a task and never changes an id, so every lookup answers the same index. */
  lemma UpdateKeepsIndices(s: seq<Task>, id: Id, b: Body, now: Timestamp, x: Id)
    ensures FindIndex(Update(s, id, b, now).table, x) == FindIndex(s, x)
  {
    var t := Update(s, id, b, now).table;
    assert forall i :: 0 <= i < |s| ==> t[i].id == s[i].id;
    assert HasId(t, x) <==> HasId(s, x);
    if HasId(s, x) {
      var k := FindIndex(s, x);
      assert t[k].id == x;
    }
  }

  lemma UpdateThenGet(s: seq<Task>, id: Id, b: Body, now: Timestamp)
    ensures var r := Update(s, id, b, now);
            Get(r.table, id) == r.reply
  {
    UpdateKeepsIndices(s, id, b, now, id);
  }

  lemma UpdatePreservesUniqueIds(s: seq<Task>, id: Id, b: Body, now: Timestamp)
    requires UniqueIds(s)
    ensures UniqueIds(Update(s, id, b, now).table)
  {
    var t := Update(s, id, b, now).table;
    assert forall i :: 0 <= i < |s| ==> t[i].id == s[i].id;
  }

  /** Two merges in a row are one merge whose body takes the second's defined fields over the first's. */
  function Combine(first: Body, second: Body): Body
  {
    Body(Overlay(first.title, second.title),
         Overlay(first.description, second.description),
         Overlay(first.completed, second.completed))
  }

  lemma MergeTwice(t: Task, first: Body, second: Body, n1: Timestamp, n2: Timestamp)
    ensures Merge(Merge(t, first, n1), second, n2) == Merge(t, Combine(first, second), n2)
  {
  }

  /**
   * Update validates nothing: it can store an empty title and a non-boolean
   * `completed` in a record create had accepted.
   */
  lemma UpdateMayBreakWellFormed()
    ensures var s := [Task("a", Str("Buy milk"), Str(""), Bool(false), "t0", "t0")];
            var r := Update(s, "a", Body(Str(""), Undefined, Null), "t1");
            && WellFormed(s[0])
            && r.reply.Success?
            && !WellFormed(r.table[0])
  {
  }

  // ---------------------------------------------------------------------------
  // Delete

  /** Delete removes exactly the task it answers with, keeping the rest in order. */
  lemma DeleteRemovesOne(s: seq<Task>, id: Id)
    requires HasId(s, id)
    ensures var r := Delete(s, id);
            && r.reply.Success?
            && multiset(r.table) + multiset{r.reply.value} == multiset(s)
            && IsSubsequence(r.table, s)
  {
    var k := FindIndex(s, id);
    var r := Delete(s, id);
    assert r.table == s[..k] + s[k + 1..];
    RemoveAtIsSubsequence(s, k);
    RemoveAtMultiset(s, k);
  }

  lemma RemoveAtMultiset(s: seq<Task>, k: nat)
    requires k < |s|
    ensures multiset(s[..k] + s[k + 1..]) + multiset{s[k]} == multiset(s)
  {
    assert s == s[..k] + [s[k]] + s[k + 1..];
  }

  lemma DeletePreservesUniqueIds(s: seq<Task>, id: Id)
    requires UniqueIds(s)
    ensures UniqueIds(Delete(s, id).table)
  {
    if HasId(s, id) {
      var k := FindIndex(s, id);
      var t := Delete(s, id).table;
      forall i, j | 0 <= i < j < |t|
        ensures t[i].id != t[j].id
      {
        var i' := if i < k then i else i + 1;
        var j' := if j < k then j else j + 1;
        assert t[i] == s[i'] && t[j] == s[j'];
      }
    }
  }

  /** With unique ids, a deleted task is gone: a later lookup of its id fails. */
  lemma DeleteThenGet(s: seq<Task>, id: Id)
    requires UniqueIds(s)
    ensures Get(Delete(s, id).table, id) == Failure(TaskNotFound)
  {
    if HasId(s, id) {
      var k := FindIndex(s, id);
      var t := Delete(s, id).table;
      forall i | 0 <= i < |t| ensures t[i].id != id {
        var i' := if i < k then i else i + 1;
        assert t[i] == s[i'];
      }
    }
  }
}
