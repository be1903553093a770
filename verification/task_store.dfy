/** The persistence gateway the service is given: a table of tasks keyed by
    id, with identity-column id assignment. Ids come from a counter that
    only grows, so an id is never handed out twice, and the natural order of
    the table (the order findAll returns) is the order of insertion, which
    is ascending id. */
module TaskStore {
  import opened Wrappers
  import opened Tasks

  predicate StrictlyIncreasing(s: seq<int>) {
    forall i, j :: 0 <= i < j < |s| ==> s[i] < s[j]
  }

  datatype StoreState = StoreState(tasks: map<int, Task>, order: seq<int>, nextId: int)

  /** Every stored task carries its own key, every key is below the next id
      to hand out, and order lists each key once, ascending. */
  predicate Wellformed(s: StoreState) {
    && 1 <= s.nextId
    && (forall id :: id in s.tasks ==> 1 <= id < s.nextId && s.tasks[id].id == Some(id))
    && (forall i :: 0 <= i < |s.order| ==> s.order[i] in s.tasks)
    && (forall id :: id in s.tasks ==> id in s.order)
    && StrictlyIncreasing(s.order)
    && |s.order| == |s.tasks|
  }

  type Store = s: StoreState | Wellformed(s) witness StoreState(map[], [], 1)

  function EmptyStore(): (s: Store)
    ensures s.tasks == map[]
  {
    StoreState(map[], [], 1)
  }

  /** findAll: every stored task once, in ascending id order. */
  function FindAll(s: Store): (r: seq<Task>)
    ensures |r| == |s.tasks|
    ensures forall i :: 0 <= i < |r| ==> r[i].id.Some? && r[i].id.value in s.tasks && s.tasks[r[i].id.value] == r[i]
    ensures forall id :: id in s.tasks ==> s.tasks[id] in r
    ensures forall i, j :: 0 <= i < j < |r| ==> r[i].id.value < r[j].id.value
  {
    var r := seq(|s.order|, i requires 0 <= i < |s.order| => s.tasks[s.order[i]]);
    assert forall id :: id in s.tasks ==> s.tasks[id] in r by {
      forall id | id in s.tasks ensures s.tasks[id] in r {
        var i :| 0 <= i < |s.order| && s.order[i] == id;
        assert r[i] == s.tasks[id];
      }
    }
    r
  }

  /** findById. */
  function FindById(s: Store, id: int): (r: Option<Task>)
    ensures r.Some? <==> id in s.tasks
    ensures r.Some? ==> r.value == s.tasks[id] && r.value.id == Some(id)
  {
    if id in s.tasks then Some(s.tasks[id]) else None
  }

  /** order without id. */
  function RemoveId(order: seq<int>, id: int): (r: seq<int>)
    ensures forall x :: x in r <==> x in order && x != id
    ensures id !in order ==> r == order
    decreases |order|
  {
    if order == [] then []
    else if order[0] == id then RemoveId(order[1..], id)
    else [order[0]] + RemoveId(order[1..], id)
  }

  /** Removing an id keeps the order ascending and, when the id occurs,
      shortens it by one. */
  lemma {:induction false} RemoveIdIncreasing(order: seq<int>, id: int)
    requires StrictlyIncreasing(order)
    ensures StrictlyIncreasing(RemoveId(order, id))
    ensures id in order ==> |RemoveId(order, id)| == |order| - 1
    decreases |order|
  {
    if order != [] {
      var tail := order[1..];
      assert StrictlyIncreasing(tail);
      RemoveIdIncreasing(tail, id);
      var rest := RemoveId(tail, id);
      if order[0] == id {
        assert id !in tail;
      } else {
        forall x | x in rest ensures order[0] < x {
          var k :| 0 <= k < |tail| && tail[k] == x;
          assert order[k + 1] == x;
        }
        assert RemoveId(order, id) == [order[0]] + rest;
      }
    }
  }

  /** save: a task whose id is already stored overwrites that entry; any
      other task is inserted under a fresh id, which is returned with it. */
  function Save(s: Store, t: Task): (r: (Task, Store))
    ensures r.0.id.Some? && SameDetails(r.0, t)
    ensures r.1.tasks == s.tasks[r.0.id.value := r.0]
    ensures t.id.Some? && t.id.value in s.tasks ==> r.0 == t
    ensures !(t.id.Some? && t.id.value in s.tasks) ==> r.0.id.value !in s.tasks
  {
    if t.id.Some? && t.id.value in s.tasks then
      var s': StoreState := s.(tasks := s.tasks[t.id.value := t]);
      (t, s')
    else
      var k := s.nextId;
      var saved := t.(id := Some(k));
      assert k !in s.tasks;
      var s': StoreState := StoreState(s.tasks[k := saved], s.order + [k], k + 1);
      assert forall id :: id in s'.tasks ==> id in s'.order by {
        forall id | id in s'.tasks ensures id in s'.order {
          if id != k {
            assert id in s.order;
            var i :| 0 <= i < |s.order| && s.order[i] == id;
            assert s'.order[i] == id;
          }
        }
      }
      (saved, s')
  }

  /** Removing a stored id from both the table and the order keeps the
      store well formed. */
  lemma RemoveKeepsWellformed(s: StoreState, id: int)
    requires Wellformed(s) && id in s.tasks
    ensures Wellformed(StoreState(s.tasks - {id}, RemoveId(s.order, id), s.nextId))
  {
    var tasks := s.tasks - {id};
    var order := RemoveId(s.order, id);
    RemoveIdIncreasing(s.order, id);
    assert tasks.Keys == s.tasks.Keys - {id};
    assert |tasks| == |s.tasks| - 1 by {
      assert |tasks.Keys| == |s.tasks.Keys| - 1;
    }
    assert forall i :: 0 <= i < |order| ==> order[i] in tasks by {
      forall i | 0 <= i < |order| ensures order[i] in tasks {
        assert order[i] in order;
      }
    }
  }

  /** delete: the entry with that id is removed; an absent id changes
      nothing. */
  function Delete(s: Store, id: int): (s': Store)
    ensures s'.tasks == s.tasks - {id}
  {
    if id !in s.tasks then s
    else
      RemoveKeepsWellformed(s, id);
      StoreState(s.tasks - {id}, RemoveId(s.order, id), s.nextId)
  }
}
