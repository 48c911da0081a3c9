/**
 What one key of the store promises, without entries, pointers or lazy deletion: it is idle, busy with
 one run, or holding a result until an expiry. The store refines this automaton key by key.
 */
module DedupAutomaton {
  import opened Common
  import opened DedupStore
  import opened DedupLedger

  datatype Phase = Idle | Busy(run: nat) | Held(run: nat, expiry: int)

  datatype Published = Published(value: Value, err: Option<Failure>)

  /** The phase of the key, and what every run of it that is over has published. */
  datatype KeyView = KeyView(phase: Phase, results: map<nat, Published>)

  datatype Move =
    | Lead(run: nat, now: int)
    | Join(run: nat, now: int)
    | Finish(run: nat, ret: Return, now: int)
    | Deliver(run: nat, published: Published)
    | Other

  /** A key that admits a new leader: idle, or holding a result that has expired. */
  predicate Free(p: Phase, now: int) {
    p.Idle? || (p.Held? && p.expiry <= now)
  }

  predicate Next(window: int, a: KeyView, move: Move, b: KeyView) {
    match move
    case Lead(run, now) =>
      Free(a.phase, now) && run !in a.results && b == KeyView(Busy(run), a.results)
    case Join(run, now) =>
      b == a && !Free(a.phase, now) && a.phase.run == run
    case Finish(run, ret, now) =>
      && a.phase == Busy(run) && run !in a.results
      && b == KeyView(if ret.policy == Cache then Held(run, now + window) else Idle,
                      a.results[run := Published(ret.value, ret.err)])
    case Deliver(run, published) =>
      b == a && run in a.results && a.results[run] == published
    case Other => b == a
  }

  function PhaseOf(st: StoreState, key: string): Phase
    requires WellFormed(st)
  {
    if key !in st.entries then Idle
    else
      var id := st.entries[key];
      if st.heap[id].expires == ZERO_TIME then Busy(id) else Held(id, st.heap[id].expires)
  }

  function ResultsOf(l: Ledger, key: string): map<nat, Published>
    requires Shape(l)
  {
    map id: nat | id < |l.info| && l.info[id].key == key && l.info[id].Finished? ::
      Published(l.store.heap[id].value, l.store.heap[id].err)
  }

  function ViewOf(l: Ledger, key: string): KeyView
    requires Shape(l)
  {
    KeyView(PhaseOf(l.store, key), ResultsOf(l, key))
  }

  /** What an event of the store is for one key. */
  function MoveOf(l: Ledger, ev: Event, key: string): Move
    requires Enabled(l, ev)
  {
    match ev
    case Enter(_, k) =>
      if k != key then Other
      else if Joins(l.store, k, l.clock) then Join(l.store.entries[k], l.clock)
      else Lead(|l.store.heap|, l.clock)
    case Complete(id, ret) =>
      if l.info[id].key != key then Other else Finish(id, ret, l.clock)
    case Read(id) =>
      if l.info[id].key != key then Other else Deliver(id, Published(l.store.heap[id].value, l.store.heap[id].err))
    case Tick(_) => Other
  }

  lemma EnterRefines(window: int, l: Ledger, caller: nat, k: string, key: string)
    requires window > 0 && Inv(window, l)
    ensures var ev := Enter(caller, k);
            var l' := Apply(window, l, ev);
            Shape(l') && Next(window, ViewOf(l, key), MoveOf(l, ev, key), ViewOf(l', key))
  {
    var l' := Apply(window, l, Enter(caller, k));
    assert ResultsOf(l', key) == ResultsOf(l, key);
  }

  lemma CompletedResults(window: int, l: Ledger, id: nat, ret: Return, key: string)
    requires Enabled(l, Complete(id, ret))
    ensures var l' := Apply(window, l, Complete(id, ret));
            && Shape(l')
            && ResultsOf(l', key) ==
               if l.info[id].key == key then ResultsOf(l, key)[id := Published(ret.value, ret.err)]
               else ResultsOf(l, key)
  {
  }

  lemma CompletedPhase(window: int, l: Ledger, id: nat, ret: Return, key: string)
    requires window > 0 && Inv(window, l) && Enabled(l, Complete(id, ret))
    ensures var l' := Apply(window, l, Complete(id, ret));
            && PhaseOf(l.store, l.info[id].key) == Busy(id)
            && PhaseOf(l'.store, key) ==
               if l.info[id].key != key then PhaseOf(l.store, key)
               else if ret.policy == Cache then Held(id, l.clock + window) else Idle
  {
  }

  lemma CompleteRefines(window: int, l: Ledger, id: nat, ret: Return, key: string)
    requires window > 0 && Inv(window, l) && Enabled(l, Complete(id, ret))
    ensures var ev := Complete(id, ret);
            var l' := Apply(window, l, ev);
            Shape(l') && Next(window, ViewOf(l, key), MoveOf(l, ev, key), ViewOf(l', key))
  {
    CompletedResults(window, l, id, ret, key);
    CompletedPhase(window, l, id, ret, key);
  }

  lemma StepRefines(window: int, l: Ledger, ev: Event, key: string)
    requires window > 0 && Inv(window, l) && Enabled(l, ev)
    ensures var l' := Apply(window, l, ev);
            Shape(l') && Next(window, ViewOf(l, key), MoveOf(l, ev, key), ViewOf(l', key))
  {
    match ev
    case Enter(caller, k) => EnterRefines(window, l, caller, k, key);
    case Complete(id, ret) => CompleteRefines(window, l, id, ret, key);
    case Read(_) =>
    case Tick(to) =>
      assert ResultsOf(l.(clock := to), key) == ResultsOf(l, key);
  }

  /**
   Refinement: along every run, with any number of callers and keys, each event takes every key's view
   along a transition of the automaton; in particular every follower's result is one it delivers.
   */
  lemma StoreRefinesAutomaton(window: int, events: seq<Event>, key: string, n: nat)
    requires window > 0 && n < |events| && Run(window, events).Some?
    ensures Run(window, events[..n]).Some? && Run(window, events[..n + 1]).Some?
    ensures var a, b := Run(window, events[..n]).value, Run(window, events[..n + 1]).value;
            && Enabled(a, events[n]) && Shape(b)
            && Next(window, ViewOf(a, key), MoveOf(a, events[n], key), ViewOf(b, key))
    ensures Run(window, []).value == INITIAL && ViewOf(INITIAL, key) == KeyView(Idle, map[])
  {
    PublishedIsForever(window, events, n);
    PublishedIsForever(window, events, n + 1);
    assert events[..n + 1][..n] == events[..n];
    RunKeepsInv(window, events[..n]);
    StepRefines(window, Run(window, events[..n]).value, events[n], key);
  }

  /** Key isolation: entering or finishing one key leaves every other key's view unchanged. */
  lemma OtherKeysAreUntouched(window: int, l: Ledger, ev: Event, key: string)
    requires window > 0 && Inv(window, l) && Enabled(l, ev)
    requires ev.Enter? ==> ev.key != key
    requires ev.Complete? ==> l.info[ev.id].key != key
    ensures Shape(Apply(window, l, ev)) && ViewOf(Apply(window, l, ev), key) == ViewOf(l, key)
  {
    StepRefines(window, l, ev, key);
  }

  /** An entering caller leads exactly when the key is free at that moment. */
  lemma LeadsIffFree(window: int, events: seq<Event>, caller: nat, key: string)
    requires window > 0 && Run(window, events).Some?
    ensures var l := Run(window, events).value;
            Enabled(l, Enter(caller, key)) && (MoveOf(l, Enter(caller, key), key).Lead? <==>
                                               Free(ViewOf(l, key).phase, l.clock))
  {
    RunKeepsInv(window, events);
  }
}
