/** The pure functions over the list of todos: the visible filter, the derived counts and flags, and the list updates the handlers apply. */
module TodoList {
  import opened Types
  import opened Seqs

  /** Whether a todo is shown under a filter. */
  predicate Shows(filter: SelectedFilter, todo: Todo) {
    match filter
    case All => true
    case Active => !todo.completed
    case Completed => todo.completed
  }

  /** The todos whose `completed` flag is `completed`, in list order. */
  function WithCompleted(todos: seq<Todo>, completed: bool): (r: seq<Todo>)
    ensures IsSubsequence(r, todos)
    ensures forall t :: multiset(r)[t] == if t.completed == completed then multiset(todos)[t] else 0
  {
    Filter(todos, (t: Todo) => t.completed == completed)
  }

  /** `prepareTodos`: the todos shown under `filter`, all of them and only them, in list order. */
  function PrepareTodos(todos: seq<Todo>, filter: SelectedFilter): (visible: seq<Todo>)
    ensures filter == All ==> visible == todos
    ensures IsSubsequence(visible, todos)
    ensures forall t :: multiset(visible)[t] == if Shows(filter, t) then multiset(todos)[t] else 0
  {
    match filter
    case All => SubsequenceOfItself(todos); todos
    case Active => WithCompleted(todos, false)
    case Completed => WithCompleted(todos, true)
  }

  /** Every todo appears under exactly one of Active and Completed. */
  lemma ActiveCompletedPartition(todos: seq<Todo>)
    ensures multiset(PrepareTodos(todos, Active)) + multiset(PrepareTodos(todos, Completed)) == multiset(todos)
    ensures |PrepareTodos(todos, Active)| + |PrepareTodos(todos, Completed)| == |todos|
    ensures forall t :: !(t in PrepareTodos(todos, Active) && t in PrepareTodos(todos, Completed))
  {
    var a, c := PrepareTodos(todos, Active), PrepareTodos(todos, Completed);
    assert multiset(a) + multiset(c) == multiset(todos) by {
      forall t ensures (multiset(a) + multiset(c))[t] == multiset(todos)[t] {
      }
    }
    assert |multiset(a)| + |multiset(c)| == |multiset(todos)|;
  }

  /** `remainingTodos`: the sum over the list of 1 for each uncompleted todo. */
  function CountRemaining(todos: seq<Todo>): (n: nat)
    ensures n == |WithCompleted(todos, false)|
  {
    if todos == [] then 0
    else (if !todos[0].completed then 1 else 0) + CountRemaining(todos[1..])
  }

  /** `every` todo has the given flag (vacuously so on an empty list). */
  predicate EveryCompleted(todos: seq<Todo>, completed: bool) {
    forall i :: 0 <= i < |todos| ==> todos[i].completed == completed
  }

  /** Every todo has the flag exactly when none is left with the other flag. */
  lemma EveryIffOthersEmpty(todos: seq<Todo>, completed: bool)
    ensures EveryCompleted(todos, completed) <==> WithCompleted(todos, !completed) == []
  {
    var others := WithCompleted(todos, !completed);
    if !EveryCompleted(todos, completed) {
      var i :| 0 <= i < |todos| && todos[i].completed != completed;
      assert todos[i] in multiset(todos);
      assert todos[i] in multiset(others);
    }
    if others != [] {
      var x := others[0];
      assert x in multiset(others);
      assert x in multiset(todos);
      var i :| 0 <= i < |todos| && todos[i] == x;
    }
  }

  /**
   * `areAllCompleted` holds exactly when nothing remains, `areNoneCompleted`
   * exactly when the Completed view is empty, and on an empty list both hold.
   */
  lemma CompletionFlags(todos: seq<Todo>)
    ensures EveryCompleted(todos, true) <==> CountRemaining(todos) == 0
    ensures EveryCompleted(todos, false) <==> PrepareTodos(todos, Completed) == []
    ensures todos == [] ==> EveryCompleted(todos, true) && EveryCompleted(todos, false)
  {
    EveryIffOthersEmpty(todos, true);
    EveryIffOthersEmpty(todos, false);
  }

  /** The ids of the list, in order. */
  function Ids(todos: seq<Todo>): (ids: seq<int>)
    ensures |ids| == |todos| && forall i :: 0 <= i < |todos| ==> ids[i] == todos[i].id
  {
    seq(|todos|, i requires 0 <= i < |todos| => todos[i].id)
  }

  /** Ids are unique, as the server assigns them. */
  predicate UniqueIds(todos: seq<Todo>) {
    forall i, j :: 0 <= i < |todos| && 0 <= j < |todos| && todos[i].id == todos[j].id ==> i == j
  }

  /** `find` by id: the first todo with that id, or null when there is none. */
  function FindById(todos: seq<Todo>, id: int): (r: Nullable<Todo>)
    ensures r.Null? <==> forall i :: 0 <= i < |todos| ==> todos[i].id != id
    ensures r.Present? ==> exists i :: 0 <= i < |todos| && todos[i] == r.value && r.value.id == id &&
                                       forall k :: 0 <= k < i ==> todos[k].id != id
  {
    if todos == [] then Null
    else if todos[0].id == id then Present(todos[0])
    else
      var r := FindById(todos[1..], id);
      assert r.Present? ==> exists i :: 0 <= i < |todos[1..]| && todos[1..][i] == r.value && r.value.id == id &&
                                       forall k :: 0 <= k < i ==> todos[1..][k].id != id;
      assert r.Present? ==> exists i :: 1 <= i < |todos| && todos[i] == r.value && r.value.id == id &&
                                       forall k :: 0 <= k < i ==> todos[k].id != id;
      r
  }

  /**
   * The single update's `map`: the server's reply takes the place of every
   * todo with its id; length, order and ids stay.
   */
  function ReplaceById(todos: seq<Todo>, updated: Todo): (r: seq<Todo>)
    ensures Ids(r) == Ids(todos)
    ensures forall i :: 0 <= i < |todos| ==> r[i] == if todos[i].id == updated.id then updated else todos[i]
  {
    seq(|todos|, i requires 0 <= i < |todos| => if todos[i].id == updated.id then updated else todos[i])
  }

  /** The delete's `filter`: drops the todos with those ids, keeps the rest in order. */
  function RemoveIds(todos: seq<Todo>, ids: seq<int>): (r: seq<Todo>)
    ensures IsSubsequence(r, todos)
    ensures forall t :: multiset(r)[t] == if t.id in ids then 0 else multiset(todos)[t]
  {
    Filter(todos, (t: Todo) => t.id !in ids)
  }

  /** Removing no id leaves the list as it is. */
  lemma RemoveNoIds(todos: seq<Todo>)
    ensures RemoveIds(todos, []) == todos
  {
    FilterKeepsAll(todos, (t: Todo) => t.id !in []);
  }

  /** No later reply carries the id of reply `k`. */
  predicate IsLastForId(fulfilled: seq<Todo>, k: int) {
    0 <= k < |fulfilled| && forall j :: k < j < |fulfilled| ==> fulfilled[j].id != fulfilled[k].id
  }

  /**
   * The `Map` the bulk toggle builds from its replies, keyed by id: each id of
   * the replies maps to a reply with that id, the last one when several share it.
   */
  function ResponsesById(fulfilled: seq<Todo>): (m: map<int, Todo>)
    ensures forall id :: id in m <==> id in Ids(fulfilled)
    ensures forall id :: id in m ==> m[id].id == id
    ensures forall k :: IsLastForId(fulfilled, k) ==> fulfilled[k].id in m && m[fulfilled[k].id] == fulfilled[k]
  {
    if fulfilled == [] then map[]
    else
      var n := |fulfilled| - 1;
      var m := ResponsesById(fulfilled[..n]);
      ResponsesStep(fulfilled, m);
      m[fulfilled[n].id := fulfilled[n]]
  }

  /** One more reply overrides its id and keeps the others. */
  lemma ResponsesStep(fulfilled: seq<Todo>, m: map<int, Todo>)
    requires fulfilled != []
    requires forall id :: id in m <==> id in Ids(fulfilled[..|fulfilled| - 1])
    requires forall id :: id in m ==> m[id].id == id
    requires forall k :: IsLastForId(fulfilled[..|fulfilled| - 1], k) ==>
               fulfilled[k].id in m && m[fulfilled[k].id] == fulfilled[k]
    ensures var n := |fulfilled| - 1;
            var m' := m[fulfilled[n].id := fulfilled[n]];
            (forall id :: id in m' <==> id in Ids(fulfilled)) &&
            (forall k :: IsLastForId(fulfilled, k) ==> fulfilled[k].id in m' && m'[fulfilled[k].id] == fulfilled[k])
  {
    var n := |fulfilled| - 1;
    var front := fulfilled[..n];
    var m' := m[fulfilled[n].id := fulfilled[n]];
    assert Ids(fulfilled) == Ids(front) + [fulfilled[n].id];
    forall k | IsLastForId(fulfilled, k)
      ensures fulfilled[k].id in m' && m'[fulfilled[k].id] == fulfilled[k]
    {
      if k < n {
        // a later reply with the same id would override it, and there is none
        assert fulfilled[n].id != fulfilled[k].id;
        forall j | k < j < n ensures front[j].id != front[k].id {
          assert front[j] == fulfilled[j] && front[k] == fulfilled[k];
        }
        assert IsLastForId(front, k);
      }
    }
  }

  /**
   * The bulk toggle's update: a todo whose id some reply carries becomes the
   * last reply with that id; every other todo stays; length, order and ids stay.
   */
  function ReplaceFromResponses(todos: seq<Todo>, fulfilled: seq<Todo>): (r: seq<Todo>)
    ensures Ids(r) == Ids(todos)
    ensures forall i :: 0 <= i < |todos| && todos[i].id !in Ids(fulfilled) ==> r[i] == todos[i]
    ensures forall i, k :: 0 <= i < |todos| && IsLastForId(fulfilled, k) && fulfilled[k].id == todos[i].id ==>
              r[i] == fulfilled[k]
  {
    var m := ResponsesById(fulfilled);
    seq(|todos|, i requires 0 <= i < |todos| => if todos[i].id in m then m[todos[i].id] else todos[i])
  }

  /** A bulk update with a single reply is the single update. */
  lemma SingleResponseIsReplaceById(todos: seq<Todo>, updated: Todo)
    ensures ReplaceFromResponses(todos, [updated]) == ReplaceById(todos, updated)
  {
    var r, s := ReplaceFromResponses(todos, [updated]), ReplaceById(todos, updated);
    assert |r| == |s|;
    forall i | 0 <= i < |todos| ensures r[i] == s[i] {
      if todos[i].id == updated.id {
        assert [updated][0].id == todos[i].id;
      }
    }
  }

  /** A bulk update with no reply changes nothing. */
  lemma NoResponsesChangeNothing(todos: seq<Todo>)
    ensures ReplaceFromResponses(todos, []) == todos
  {
  }

  /** With unique ids, the todo at index `i` is the one found by its id. */
  lemma FindUnique(todos: seq<Todo>, i: int)
    requires UniqueIds(todos) && 0 <= i < |todos|
    ensures FindById(todos, todos[i].id) == Present(todos[i])
  {
    var r := FindById(todos, todos[i].id);
    assert r.Present?;
    var j :| 0 <= j < |todos| && todos[j] == r.value && r.value.id == todos[i].id;
    assert j == i;
  }

  /** With unique ids, replacing by id replaces exactly one index and keeps ids unique. */
  lemma ReplaceUnique(todos: seq<Todo>, i: int, updated: Todo)
    requires UniqueIds(todos) && 0 <= i < |todos| && updated.id == todos[i].id
    ensures ReplaceById(todos, updated) == todos[i := updated]
    ensures UniqueIds(todos[i := updated])
  {
    var r := ReplaceById(todos, updated);
    forall k | 0 <= k < |todos| ensures r[k] == todos[i := updated][k] {
    }
  }

  /**
   * Toggling a todo twice, with the server applying each requested flag,
   * gives back the original list (ids unique, as the server keeps them).
   */
  lemma ToggleTwiceRestores(todos: seq<Todo>, id: int)
    requires UniqueIds(todos)
    requires FindById(todos, id).Present?
    ensures var t := FindById(todos, id).value;
            var once := ReplaceById(todos, t.(completed := !t.completed));
            FindById(once, id).Present? &&
            var u := FindById(once, id).value;
            u == t.(completed := !t.completed) &&
            ReplaceById(once, u.(completed := !u.completed)) == todos
  {
    var t := FindById(todos, id).value;
    var i :| 0 <= i < |todos| && todos[i] == t && t.id == id;
    var flipped := t.(completed := !t.completed);
    ReplaceUnique(todos, i, flipped);
    var once := todos[i := flipped];
    FindUnique(once, i);
    ReplaceUnique(once, i, t);
    assert once[i := t] == todos;
  }
}
