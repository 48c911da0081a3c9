/**
 Whole runs of the store under any number of callers and keys. A ledger is the store's state, the
 clock, and for every entry ever created the history of the run of the user function it stands for.
 Each event is one atomic step: a first critical section, a second one, a follower's read, or time passing.
 */
module DedupLedger {
  import opened Common
  import opened DedupStore
  import Rate

  /** One run of the user function: who leads it, for which key, and when and how it ended. */
  datatype Info =
    | Running(key: string, leader: nat, start: int)
    | Finished(key: string, leader: nat, start: int, finish: int, ret: Return)

  datatype Ledger = Ledger(store: StoreState, info: seq<Info>, clock: int)

  datatype Event =
    | Enter(caller: nat, key: string)
    | Complete(id: nat, ret: Return)
    | Read(id: nat)
    | Tick(to: int)

  predicate Shape(l: Ledger) {
    WellFormed(l.store) && |l.info| == |l.store.heap|
  }

  predicate Enabled(l: Ledger, ev: Event) {
    && Shape(l)
    && match ev
       case Enter(_, _) => true
       case Complete(id, _) => id < |l.info| && l.info[id].Running?
       case Read(id) => id < |l.info| && l.store.heap[id].done
       case Tick(to) => l.clock <= to
  }

  function Apply(window: int, l: Ledger, ev: Event): Ledger
    requires Enabled(l, ev)
  {
    match ev
    case Enter(caller, key) =>
      Ledger(EnterState(l.store, key, l.clock),
             if Joins(l.store, key, l.clock) then l.info else l.info + [Running(key, caller, l.clock)],
             l.clock)
    case Complete(id, ret) =>
      var i := l.info[id];
      Ledger(CompleteState(l.store, id, i.key, ret, l.clock, window),
             l.info[id := Finished(i.key, i.leader, i.start, l.clock, ret)],
             l.clock)
    case Read(_) => l
    case Tick(to) => l.(clock := to)
  }

  /** The clock starts after Go's zero time. */
  const START: int := 1

  const INITIAL: Ledger := Ledger(StoreState([], map[]), [], START)

  /** The ledger after a list of events, if each was enabled in turn. */
  function Run(window: int, events: seq<Event>): Option<Ledger> {
    if events == [] then Some(INITIAL)
    else
      var n := |events| - 1;
      var before := Run(window, events[..n]);
      if before.Some? && Enabled(before.value, events[n]) then Some(Apply(window, before.value, events[n])) else None
  }

  // ---- The invariant ----

  /** Entries in the map belong to their key, and are unfinished exactly when their expiry is zero. */
  predicate MapInv(l: Ledger)
    requires Shape(l)
  {
    forall k | k in l.store.entries ::
      var id := l.store.entries[k];
      && l.info[id].key == k
      && (l.store.heap[id].expires == ZERO_TIME <==> l.info[id].Running?)
  }

  /** A running leader's entry is untouched and stays in the map under its key. */
  predicate RunningInv(l: Ledger)
    requires Shape(l)
  {
    forall id | 0 <= id < |l.info| && l.info[id].Running? ::
      var k := l.info[id].key;
      && l.store.heap[id] == NEW_CELL
      && k in l.store.entries && l.store.entries[k] == id
      && START <= l.info[id].start <= l.clock
  }

  /** A finished entry holds what its leader returned; a cached one is in the map or has outlived its window. */
  predicate FinishedInv(window: int, l: Ledger)
    requires Shape(l)
  {
    forall id | 0 <= id < |l.info| && l.info[id].Finished? ::
      var i := l.info[id];
      && l.store.heap[id] == CompletedCell(NEW_CELL, i.ret, i.finish, window)
      && START <= i.start <= i.finish <= l.clock
      && (i.ret.policy == Cache ==>
            || (i.key in l.store.entries && l.store.entries[i.key] == id)
            || i.finish + window <= l.clock)
      && (i.ret.policy == DoNotCache ==> !(i.key in l.store.entries && l.store.entries[i.key] == id))
  }

  /** Of two runs for one key the earlier is over before the later starts, and by a window if it was cached. */
  predicate Spaced(window: int, earlier: Info, later: Info) {
    && earlier.Finished?
    && earlier.finish <= later.start
    && (earlier.ret.policy == Cache ==> earlier.finish + window <= later.start)
  }

  predicate SpacingInv(window: int, l: Ledger) {
    forall i, j | 0 <= i < j < |l.info| && l.info[i].key == l.info[j].key :: Spaced(window, l.info[i], l.info[j])
  }

  predicate Inv(window: int, l: Ledger) {
    && Shape(l) && START <= l.clock
    && MapInv(l) && RunningInv(l) && FinishedInv(window, l) && SpacingInv(window, l)
  }

  /** A key that admits a new leader has no unfinished run, and its cached ones have outlived their window. */
  lemma NewLeaderIsSpaced(window: int, l: Ledger, caller: nat, key: string, i: nat)
    requires window > 0 && Inv(window, l) && !Joins(l.store, key, l.clock)
    requires i < |l.info| && l.info[i].key == key
    ensures Spaced(window, l.info[i], Running(key, caller, l.clock))
  {
  }

  lemma EnterKeepsInv(window: int, l: Ledger, caller: nat, key: string)
    requires window > 0 && Inv(window, l)
    ensures Inv(window, Apply(window, l, Enter(caller, key)))
  {
    if !Joins(l.store, key, l.clock) {
      var n := |l.info|;
      var l' := Apply(window, l, Enter(caller, key));
      assert l'.info == l.info + [Running(key, caller, l.clock)] && l'.store.heap == l.store.heap + [NEW_CELL];
      assert l'.store.entries == l.store.entries[key := n];
      forall i | 0 <= i < n && l.info[i].key == key
        ensures Spaced(window, l.info[i], Running(key, caller, l.clock))
      {
        NewLeaderIsSpaced(window, l, caller, key, i);
      }
    }
  }

  lemma CompletedRun(window: int, l: Ledger, id: nat, ret: Return)
    requires window > 0 && Inv(window, l) && Enabled(l, Complete(id, ret))
    ensures var l' := Apply(window, l, Complete(id, ret));
            && |l'.info| == |l'.store.heap| == |l.info|
            && l'.store.heap[id] == CompletedCell(NEW_CELL, ret, l.clock, window)
            && l'.info[id] == Finished(l.info[id].key, l.info[id].leader, l.info[id].start, l.clock, ret)
            && (forall j | 0 <= j < |l.info| && j != id ::
                  l'.info[j] == l.info[j] && l'.store.heap[j] == l.store.heap[j])
            && l.info[id].key in l.store.entries && l.store.entries[l.info[id].key] == id
            && l'.clock == l.clock && START <= l.info[id].start <= l.clock
            && l'.store.entries == if ret.policy == Cache then l.store.entries else l.store.entries - {l.info[id].key}
  {
  }

  lemma CompleteKeepsInv(window: int, l: Ledger, id: nat, ret: Return)
    requires window > 0 && Inv(window, l) && Enabled(l, Complete(id, ret))
    ensures Inv(window, Apply(window, l, Complete(id, ret)))
  {
    var l' := Apply(window, l, Complete(id, ret));
    CompletedRun(window, l, id, ret);
    forall i, j | 0 <= i < j < |l.info| && l'.info[i].key == l'.info[j].key
      ensures Spaced(window, l'.info[i], l'.info[j])
    {
      assert Spaced(window, l.info[i], l.info[j]);
    }
  }

  lemma StepKeepsInv(window: int, l: Ledger, ev: Event)
    requires window > 0 && Inv(window, l) && Enabled(l, ev)
    ensures Inv(window, Apply(window, l, ev))
  {
    match ev
    case Enter(caller, key) => EnterKeepsInv(window, l, caller, key);
    case Complete(id, ret) => CompleteKeepsInv(window, l, id, ret);
    case Read(_) =>
    case Tick(_) =>
  }

  lemma {:induction false} RunKeepsInv(window: int, events: seq<Event>)
    requires window > 0 && Run(window, events).Some?
    ensures Inv(window, Run(window, events).value)
  {
    if events != [] {
      var n := |events| - 1;
      RunKeepsInv(window, events[..n]);
      StepKeepsInv(window, Run(window, events[..n]).value, events[n]);
    }
  }

  // ---- What holds in every reachable ledger ----

  /**
   Single flight, in every reachable ledger: an unfinished leader's entry is the map's entry for its key, so a key
   has at most one and the delete of a leader that is not cached always removes its own entry; and the zero expiry
   marks exactly the unfinished ones among the entries of the map.
   */
  lemma SingleFlight(window: int, events: seq<Event>)
    requires window > 0 && Run(window, events).Some?
    ensures var l := Run(window, events).value;
            && (forall i | 0 <= i < |l.info| && l.info[i].Running? ::
                  l.info[i].key in l.store.entries && l.store.entries[l.info[i].key] == i)
            && (forall i, j | 0 <= i < j < |l.info| && l.info[i].Running? && l.info[j].Running? ::
                  l.info[i].key != l.info[j].key)
            && (forall k | k in l.store.entries ::
                  var id := l.store.entries[k];
                  l.info[id].key == k && (l.store.heap[id].expires == ZERO_TIME <==> l.info[id].Running?))
  {
    RunKeepsInv(window, events);
  }

  /** A later ledger of the same run: nothing created is lost and nothing published changes. */
  predicate Extends(a: Ledger, b: Ledger)
    requires Shape(a) && Shape(b)
  {
    && |a.info| <= |b.info| && a.clock <= b.clock
    && forall id | 0 <= id < |a.info| ::
         && b.info[id].key == a.info[id].key && b.info[id].leader == a.info[id].leader
         && b.info[id].start == a.info[id].start
         && (a.info[id].Finished? ==> b.info[id] == a.info[id])
         && (a.info[id].Running? && b.info[id].Finished? ==> a.clock <= b.info[id].finish)
         && (a.store.heap[id].done ==> b.store.heap[id] == a.store.heap[id])
  }

  lemma StepExtends(window: int, l: Ledger, ev: Event)
    requires window > 0 && Inv(window, l) && Enabled(l, ev)
    ensures Shape(Apply(window, l, ev)) && Extends(l, Apply(window, l, ev))
  {
    StepKeepsInv(window, l, ev);
  }

  /** Publication: once an entry's channel is closed its value, error and expiry never change again. */
  lemma {:induction false} PublishedIsForever(window: int, events: seq<Event>, n: nat)
    requires window > 0 && Run(window, events).Some? && n <= |events|
    ensures Run(window, events[..n]).Some?
    ensures var a, b := Run(window, events[..n]).value, Run(window, events).value;
            Shape(a) && Shape(b) && Extends(a, b)
  {
    RunKeepsInv(window, events);
    if n == |events| {
      assert events[..n] == events;
    } else {
      var m := |events| - 1;
      PublishedIsForever(window, events[..m], n);
      assert events[..m][..n] == events[..n];
      RunKeepsInv(window, events[..m]);
      RunKeepsInv(window, events[..n]);
      StepExtends(window, Run(window, events[..m]).value, events[m]);
    }
  }

  /** A follower reads exactly what the leader of the entry's run returned, cached or not. */
  lemma FollowerReadsTheLeadersReturn(window: int, events: seq<Event>, id: nat)
    requires window > 0 && Run(window, events).Some? && Enabled(Run(window, events).value, Read(id))
    ensures var l := Run(window, events).value;
            && l.info[id].Finished?
            && l.store.heap[id].value == l.info[id].ret.value
            && l.store.heap[id].err == l.info[id].ret.err
  {
    RunKeepsInv(window, events);
  }

  /** Spacing: a run that starts after a cached completion of its key starts at least a window later. */
  lemma CachedRunsAreSpaced(window: int, events: seq<Event>, i: nat, j: nat)
    requires window > 0 && Run(window, events).Some?
    requires var l := Run(window, events).value; i < j < |l.info| && l.info[i].key == l.info[j].key
    ensures var l := Run(window, events).value; Spaced(window, l.info[i], l.info[j])
  {
    RunKeepsInv(window, events);
  }

  /** The finish times of the cached runs of a key that end within the closed interval. */
  function CachedFinishes(l: Ledger, key: string, from: int, to: int): seq<Option<int>> {
    seq(|l.info|, n requires 0 <= n < |l.info| =>
      var i := l.info[n];
      if i.Finished? && i.key == key && i.ret.policy == Cache && from <= i.finish <= to then Some(i.finish) else None)
  }

  /** Rate: an interval of length t holds at most 1 + t / window cached completions of one key. */
  lemma CachedRateIsBounded(window: int, events: seq<Event>, key: string, from: int, t: nat)
    requires window > 0 && Run(window, events).Some?
    ensures var l := Run(window, events).value;
            |set n | 0 <= n < |l.info| && l.info[n].Finished? && l.info[n].key == key && l.info[n].ret.policy == Cache
                     && from <= l.info[n].finish <= from + t| <= 1 + t / window
  {
    RunKeepsInv(window, events);
    var l := Run(window, events).value;
    var marks := CachedFinishes(l, key, from, from + t);
    forall i, j | 0 <= i < j < |marks| && marks[i].Some? && marks[j].Some?
      ensures marks[i].value + window <= marks[j].value
    {
      assert Spaced(window, l.info[i], l.info[j]);
    }
    Rate.CountIsBounded(marks, window, from, t);
    assert (set n | 0 <= n < |marks| && marks[n].Some?) ==
           set n | 0 <= n < |l.info| && l.info[n].Finished? && l.info[n].key == key && l.info[n].ret.policy == Cache
                   && from <= l.info[n].finish <= from + t;
  }
}
