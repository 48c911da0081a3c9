/**
 The duplicate-suppression store (internal/dedup/store.go). `Do` is two critical sections around an
 unlocked call of the user function; each section is a method of `Store` here, and each is tied to a
 function on a value that lists every entry ever created.
 */
module DedupStore {
  import opened Common
  import opened Infra

  /** What a closure hands over for an executed or refused mutation (internal/managed/service.go). */
  datatype Execution = Execution(message: Notice, vm: Option<VM>, upstreamStatus: int, executed: bool)

  /** The untyped value a user function returns. */
  datatype Value = Nil | ErrorValue(e: InfraError) | ExecutionValue(x: Execution)

  datatype Policy = DoNotCache | Cache

  /** A Go error as `Do` hands it on: the upstream client's, or the caller's own cancelled context. */
  datatype Failure = Upstream(e: InfraError) | ContextDone

  /** The three results of a user function. */
  datatype Return = Return(value: Value, policy: Policy, err: Option<Failure>)

  /** What `Do` returns. */
  datatype DoResult = DoResult(value: Value, err: Option<Failure>, deduplicated: bool)

  /** Go's zero time, which `expires.IsZero()` tests for. */
  const ZERO_TIME: int := 0

  /** The fields of one entry; `done` says that its channel is closed. */
  datatype Cell = Cell(done: bool, value: Value, err: Option<Failure>, expires: int)

  const NEW_CELL: Cell := Cell(false, Nil, None, ZERO_TIME)

  /** Every entry ever created, by number, and the map from keys to numbers. */
  datatype StoreState = StoreState(heap: seq<Cell>, entries: map<string, nat>)

  predicate WellFormed(s: StoreState) {
    forall k | k in s.entries :: s.entries[k] < |s.heap|
  }

  /** An entry that a new caller joins: still in flight, or not yet expired. */
  predicate Live(c: Cell, now: int) {
    c.expires == ZERO_TIME || now < c.expires
  }

  predicate Joins(s: StoreState, key: string, now: int)
    requires WellFormed(s)
  {
    key in s.entries && Live(s.heap[s.entries[key]], now)
  }

  /** The number of the entry a caller gets: the live one, or a new one. */
  function EnterId(s: StoreState, key: string, now: int): (id: nat)
    requires WellFormed(s)
    ensures id <= |s.heap|
  {
    if Joins(s, key, now) then s.entries[key] else |s.heap|
  }

  function EnterState(s: StoreState, key: string, now: int): (s': StoreState)
    requires WellFormed(s)
    ensures WellFormed(s') && EnterId(s, key, now) < |s'.heap|
  {
    if Joins(s, key, now) then s
    else StoreState(s.heap + [NEW_CELL], s.entries[key := |s.heap|])
  }

  /** Taking an expired entry out of the map first makes no difference. */
  lemma ReinstallIsEnter(s: StoreState, key: string, now: int)
    requires WellFormed(s) && !Joins(s, key, now)
    ensures EnterState(s, key, now) == StoreState(s.heap + [NEW_CELL], (s.entries - {key})[key := |s.heap|])
  {
    assert (s.entries - {key})[key := |s.heap|] == s.entries[key := |s.heap|];
  }

  function CompletedCell(c: Cell, ret: Return, now: int, window: int): Cell {
    Cell(true, ret.value, ret.err, if ret.policy == Cache then now + window else c.expires)
  }

  function CompleteState(s: StoreState, id: nat, key: string, ret: Return, now: int, window: int): (s': StoreState)
    requires WellFormed(s) && id < |s.heap|
    ensures WellFormed(s')
  {
    StoreState(s.heap[id := CompletedCell(s.heap[id], ret, now, window)],
          if ret.policy == Cache then s.entries else s.entries - {key})
  }

  class Entry {
    var done: bool
    var value: Value
    var err: Option<Failure>
    var expires: int

    constructor ()
      ensures Snapshot() == NEW_CELL
    {
      done, value, err, expires := false, Nil, None, ZERO_TIME;
    }

    function Snapshot(): Cell
      reads this
    {
      Cell(done, value, err, expires)
    }
  }

  class Store {
    var entries: map<string, Entry>
    const window: int
    ghost var cells: seq<Entry>
    ghost var model: StoreState

    ghost predicate Valid()
      reads this, cells
    {
      && WellFormed(model)
      && |model.heap| == |cells|
      && (forall i | 0 <= i < |cells| :: cells[i].Snapshot() == model.heap[i])
      && (forall i, j | 0 <= i < j < |cells| :: cells[i] != cells[j])
      && entries.Keys == model.entries.Keys
      && (forall k | k in entries :: entries[k] == cells[model.entries[k]])
    }

    constructor (window: int)
      ensures Valid() && this.window == window
      ensures model == StoreState([], map[]) && cells == []
    {
      this.window := window;
      entries := map[];
      cells := [];
      model := StoreState([], map[]);
    }

    /** The first critical section: join the live entry of the key, or install a new one. */
    method Enter(key: string, now: int) returns (joined: bool, e: Entry)
      requires Valid()
      modifies this
      ensures Valid() && old(cells) <= cells
      ensures joined == Joins(old(model), key, now)
      ensures model == EnterState(old(model), key, now)
      ensures e == cells[EnterId(old(model), key, now)]
      ensures !joined ==> fresh(e) && !e.done
    {
      ghost var before := model;
      if key in entries {
        var existing := entries[key];
        assert existing.Snapshot() == before.heap[before.entries[key]];
        if existing.expires == ZERO_TIME || now < existing.expires {
          return true, existing;
        }
        Forget(key);
      }
      assert !Joins(before, key, now) && model == StoreState(before.heap, before.entries - {key});
      ReinstallIsEnter(before, key, now);
      e := Install(key);
      joined := false;
    }

    /** An expired entry leaves the map; whoever still holds it can go on reading it. */
    method Forget(key: string)
      requires Valid()
      modifies this
      ensures Valid() && cells == old(cells)
      ensures model == StoreState(old(model).heap, old(model).entries - {key})
    {
      entries := entries - {key};
      model := StoreState(model.heap, model.entries - {key});
    }

    method Install(key: string) returns (current: Entry)
      requires Valid()
      modifies this
      ensures Valid() && cells == old(cells) + [current]
      ensures model == StoreState(old(model).heap + [NEW_CELL], old(model).entries[key := |old(model).heap|])
      ensures fresh(current) && !current.done
    {
      current := new Entry();
      entries := entries[key := current];
      assert forall i | 0 <= i < |cells| :: cells[i] != current;
      model := StoreState(model.heap + [NEW_CELL], model.entries[key := |model.heap|]);
      cells := cells + [current];
    }

    /** The second critical section: publish, keep or delete, close. A channel is closed at most once. */
    method Finish(ghost id: nat, current: Entry, key: string, ret: Return, now: int)
      requires Valid() && id < |cells| && cells[id] == current && !current.done
      modifies this, current
      ensures Valid() && cells == old(cells)
      ensures model == CompleteState(old(model), id, key, ret, now, window)
    {
      assert forall j | 0 <= j < |cells| && j != id :: cells[j] != current;
      current.value, current.err := ret.value, ret.err;
      if ret.policy == Cache {
        current.expires := now + window;
      } else {
        entries := entries - {key};
      }
      current.done := true;
      model := CompleteState(model, id, key, ret, now, window);
    }
  }
}
