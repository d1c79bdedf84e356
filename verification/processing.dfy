/** The list of in-flight operations (`processingTodoIds`) and the bookkeeping of bulk replies. */
module Processing {
  import opened Types
  import opened Seqs
  import opened TodoList

  /** `findIndex` by id: the first index whose entry has that id, or -1. */
  function FindIndexById(entries: seq<TodoState>, id: int): (r: int)
    ensures -1 <= r < |entries|
    ensures r == -1 <==> forall k :: 0 <= k < |entries| ==> entries[k].id != id
    ensures r >= 0 ==> entries[r].id == id && forall k :: 0 <= k < r ==> entries[k].id != id
  {
    if entries == [] then -1
    else if entries[0].id == id then 0
    else
      var k := FindIndexById(entries[1..], id);
      if k == -1 then -1 else k + 1
  }

  /**
   * The cleanup of delete and edit: the slice before the `findIndex` result
   * joined to the slice after it. It removes the first entry with that id
   * and keeps the others in order. When no entry has that id the index is -1
   * and the result is every entry but the last followed by all of them again.
   */
  function RemoveFirstWithId(prev: seq<TodoState>, id: int): (r: seq<TodoState>)
    ensures var i := FindIndexById(prev, id); i >= 0 ==> r == prev[..i] + prev[i + 1..]
    ensures FindIndexById(prev, id) == -1 ==> r == if prev == [] then [] else prev[..|prev| - 1] + prev
    ensures forall e :: e in r ==> e in prev
  {
    var idIndex := FindIndexById(prev, id);
    Slice(prev, 0, idIndex) + Slice(prev, idIndex + 1, |prev|)
  }

  /** The toggle's cleanup, a filter on the id: every entry with that id goes, the rest stay in order. */
  function RemoveAllWithId(prev: seq<TodoState>, id: int): (r: seq<TodoState>)
    ensures IsSubsequence(r, prev)
    ensures forall e :: multiset(r)[e] == if e.id != id then multiset(prev)[e] else 0
    ensures forall e :: e in r <==> e in prev && e.id != id
  {
    Filter(prev, (e: TodoState) => e.id != id)
  }

  /** The bulk cleanup, a filter on membership in the batch: removes the batch's own objects by identity. */
  function RemoveEntries(prev: seq<TodoState>, batch: seq<TodoState>): (r: seq<TodoState>)
    ensures IsSubsequence(r, prev)
    ensures forall e :: multiset(r)[e] == if e !in batch then multiset(prev)[e] else 0
    ensures forall e :: e in r <==> e in prev && e !in batch
  {
    Filter(prev, (e: TodoState) => e !in batch)
  }

  /** The fresh `{id, state}` objects a bulk handler creates, one per selected todo, numbered from `base`. */
  function LoadingEntries(todos: seq<Todo>, state: LoadState, base: nat): (entries: seq<TodoState>)
    ensures |entries| == |todos|
    ensures forall k :: 0 <= k < |todos| ==> entries[k].id == todos[k].id && entries[k].state == state
    ensures forall k :: 0 <= k < |todos| ==> entries[k].token == base + k
    ensures forall e :: e in entries ==> base <= e.token < base + |todos|
  {
    seq(|todos|, k requires 0 <= k < |todos| => TodoState(todos[k].id, state, base + k))
  }

  /**
   * A batch of fresh entries appended after the existing ones is removed
   * entirely by the bulk cleanup, and every existing entry survives in order.
   */
  lemma RemoveBatchRestores(prev: seq<TodoState>, batch: seq<TodoState>)
    requires forall e :: e in batch ==> e !in prev
    ensures RemoveEntries(prev + batch, batch) == prev
  {
    var p := (e: TodoState) => e !in batch;
    FilterConcat(prev, batch, p);
    FilterKeepsAll(prev, p);
    FilterKeepsNone(batch, p);
  }

  /** The ids of the batch whose call settled as `fulfilled` says, in batch order. */
  function SettledIds<V>(ids: seq<TodoState>, responses: seq<Outcome<V>>, fulfilled: bool): (r: seq<int>)
    requires |responses| == |ids|
    ensures |r| <= |ids|
    ensures forall x :: x in r <==> exists k :: 0 <= k < |ids| && responses[k].Fulfilled? == fulfilled && ids[k].id == x
  {
    if ids == [] then []
    else
      var n := |ids| - 1;
      var front := SettledIds(ids[..n], responses[..n], fulfilled);
      assert forall k :: 0 <= k < n ==> ids[..n][k] == ids[k] && responses[..n][k] == responses[k];
      front + if responses[n].Fulfilled? == fulfilled then [ids[n].id] else []
  }

  /** Every call of a batch settles one way or the other. */
  lemma {:induction false} SettledIdsPartition<V>(ids: seq<TodoState>, responses: seq<Outcome<V>>)
    requires |responses| == |ids|
    ensures |SettledIds(ids, responses, true)| + |SettledIds(ids, responses, false)| == |ids|
  {
    if ids != [] {
      var n := |ids| - 1;
      SettledIdsPartition(ids[..n], responses[..n]);
    }
  }

  /** The replies of the fulfilled calls, in batch order. */
  function FulfilledValues<V(==,!new)>(responses: seq<Outcome<V>>): (r: seq<V>)
    ensures |r| <= |responses|
    ensures forall v :: v in r <==> exists k :: 0 <= k < |responses| && responses[k] == Fulfilled(v)
  {
    if responses == [] then []
    else
      var n := |responses| - 1;
      var front := FulfilledValues(responses[..n]);
      assert forall k :: 0 <= k < n ==> responses[..n][k] == responses[k];
      front + if responses[n].Fulfilled? then [responses[n].value] else []
  }

  /** Call `k` of a bulk toggle was fulfilled and no later fulfilled call replied with the same id. */
  predicate IsLastFulfilledForId(responses: seq<Outcome<Todo>>, k: int) {
    0 <= k < |responses| && responses[k].Fulfilled? &&
    forall j :: k < j < |responses| && responses[j].Fulfilled? ==> responses[j].value.id != responses[k].value.id
  }

  /**
   * The reply of such a call keeps its place in batch order among the
   * fulfilled replies: it is the last one there with its id.
   */
  lemma {:induction false} LastFulfilledIsLastForId(responses: seq<Outcome<Todo>>, k: int) returns (p: int)
    requires IsLastFulfilledForId(responses, k)
    ensures IsLastForId(FulfilledValues(responses), p)
    ensures FulfilledValues(responses)[p] == responses[k].value
  {
    var n := |responses| - 1;
    var r := FulfilledValues(responses);
    var front := FulfilledValues(responses[..n]);
    assert forall j :: 0 <= j < n ==> responses[..n][j] == responses[j];
    if k == n {
      p := |r| - 1;
    } else {
      p := LastFulfilledIsLastForId(responses[..n], k);
      if responses[n].Fulfilled? {
        assert r == front + [responses[n].value];
      } else {
        assert r == front;
      }
    }
  }

  /**
   * The bulk toggle's outcome for one todo: when call `k` is the last
   * fulfilled call whose reply carries the todo's id, the todo becomes that
   * reply, whatever earlier or rejected calls said.
   */
  lemma LastFulfilledReplyWins(todos: seq<Todo>, responses: seq<Outcome<Todo>>, k: int, i: int)
    requires IsLastFulfilledForId(responses, k)
    requires 0 <= i < |todos| && todos[i].id == responses[k].value.id
    ensures ReplaceFromResponses(todos, FulfilledValues(responses))[i] == responses[k].value
  {
    var p := LastFulfilledIsLastForId(responses, k);
  }

  /**
   * The bulk delete's `reduce`: pushes the id of each settled call onto the
   * list of its status, in batch order.
   */
  method SplitDeleteResponses(ids: seq<TodoState>, responses: seq<Outcome<()>>)
    returns (fulfilled: seq<int>, rejected: seq<int>)
    requires |responses| == |ids|
    ensures fulfilled == SettledIds(ids, responses, true)
    ensures rejected == SettledIds(ids, responses, false)
  {
    fulfilled, rejected := [], [];
    var index := 0;
    while index < |responses|
      invariant 0 <= index <= |responses|
      invariant fulfilled == SettledIds(ids[..index], responses[..index], true)
      invariant rejected == SettledIds(ids[..index], responses[..index], false)
    {
      assert ids[..index + 1][..index] == ids[..index];
      assert responses[..index + 1][..index] == responses[..index];
      if responses[index].Fulfilled? {
        fulfilled := fulfilled + [ids[index].id];
      } else {
        rejected := rejected + [ids[index].id];
      }
      index := index + 1;
    }
    assert ids[..index] == ids && responses[..index] == responses;
  }

  /**
   * The bulk toggle's `reduce`: pushes the server's todo of each fulfilled call
   * and the id of each rejected one, in batch order.
   */
  method SplitUpdateResponses(ids: seq<TodoState>, responses: seq<Outcome<Todo>>)
    returns (fulfilled: seq<Todo>, rejected: seq<int>)
    requires |responses| == |ids|
    ensures fulfilled == FulfilledValues(responses)
    ensures rejected == SettledIds(ids, responses, false)
  {
    fulfilled, rejected := [], [];
    var index := 0;
    while index < |responses|
      invariant 0 <= index <= |responses|
      invariant fulfilled == FulfilledValues(responses[..index])
      invariant rejected == SettledIds(ids[..index], responses[..index], false)
    {
      assert ids[..index + 1][..index] == ids[..index];
      assert responses[..index + 1][..index] == responses[..index];
      if responses[index].Fulfilled? {
        fulfilled := fulfilled + [responses[index].value];
      } else {
        rejected := rejected + [ids[index].id];
      }
      index := index + 1;
    }
    assert ids[..index] == ids && responses[..index] == responses;
  }
}
