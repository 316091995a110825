/** LibeventReactor: one event and one callback slot per fd and direction. Adding
    a handler makes the event pending, once; firing takes the callback out of
    its slot before running it; removing frees the event but leaves the slot's
    callback where it is. A handler added from inside a callback is simply a
    later Add.
  */
module Reactor {

  datatype Direction = Read | Write

  datatype Key = Key(fd: nat, dir: Direction)

  /** A registration: the n-th callback handed to addEventHandler. */
  datatype Callback = Empty | Registered(n: nat)

  datatype Slot = Slot(created: bool, pending: bool, callback: Callback) {

    function Add(n: nat): Slot {
      Slot(true, true, Registered(n))
    }

    function Remove(): Slot {
      if created then Slot(false, false, callback) else this
    }

    /** __onEvent moves the callback out, then asserts that it was there. */
    function Fire(): Slot {
      Slot(created, false, Empty)
    }

    function Enable(): Slot {
      if created then this.(pending := true) else this
    }

    function Disable(): Slot {
      if created then this.(pending := false) else this
    }
  }

  datatype State = State(
    slots: map<Key, Slot>,     // a key that is missing has never been used
    next: nat,                 // registrations so far
    fired: seq<Callback>)      // history: what the dispatcher found

  datatype Action = Add(key: Key) | Remove(key: Key) | Fire(key: Key) | Disable(key: Key)

  const UNUSED: Slot := Slot(false, false, Empty)

  function At(s: State, key: Key): Slot {
    if key in s.slots then s.slots[key] else UNUSED
  }

  predicate Enabled(s: State, a: Action) {
    a.Fire? ==> At(s, a.key).pending
  }

  function Apply(s: State, a: Action): State {
    var slot := At(s, a.key);
    match a
    case Add(key) => s.(slots := s.slots[key := slot.Add(s.next)], next := s.next + 1)
    case Remove(key) => s.(slots := s.slots[key := slot.Remove()])
    case Fire(key) => s.(slots := s.slots[key := slot.Fire()], fired := s.fired + [slot.callback])
    case Disable(key) => s.(slots := s.slots[key := slot.Disable()])
  }

  ghost predicate Runnable(s: State, acts: seq<Action>)
    decreases |acts|
  {
    acts == [] || (Enabled(s, acts[0]) && Runnable(Apply(s, acts[0]), acts[1..]))
  }

  ghost function Exec(s: State, acts: seq<Action>): State
    requires Runnable(s, acts)
    decreases |acts|
  {
    if acts == [] then s else Exec(Apply(s, acts[0]), acts[1..])
  }

  /** A pending event has a callback to run. */
  ghost predicate Loaded(s: State) {
    forall key <- s.slots :: s.slots[key].pending ==> s.slots[key].created && s.slots[key].callback.Registered?
  }

  /** A registration sits in one slot or has fired, and not both or twice. */
  ghost predicate OneUse(s: State) {
    && (forall key <- s.slots :: s.slots[key].callback.Registered? ==>
          s.slots[key].callback.n < s.next && s.slots[key].callback !in s.fired)
    && (forall k <- s.slots, l <- s.slots :: k != l && s.slots[k].callback.Registered? ==>
          s.slots[k].callback != s.slots[l].callback)
    && (forall c <- s.fired :: c.Registered? && c.n < s.next)
    && (forall i, j :: 0 <= i < j < |s.fired| ==> s.fired[i] != s.fired[j])
  }

  ghost predicate Inv(s: State) {
    Loaded(s) && OneUse(s)
  }

  lemma StepKeepsInv(s: State, a: Action)
    requires Inv(s) && Enabled(s, a)
    ensures Inv(Apply(s, a))
  {
  }

  lemma {:induction false} RunKeepsInv(s: State, acts: seq<Action>)
    requires Inv(s) && Runnable(s, acts)
    ensures Inv(Exec(s, acts))
    decreases |acts|
  {
    if acts != [] {
      StepKeepsInv(s, acts[0]);
      RunKeepsInv(Apply(s, acts[0]), acts[1..]);
    }
  }

  /** Over every run of add, remove, disable and fire: the dispatcher always
      finds a callback, so its assertions hold, and no registration runs twice. */
  lemma DispatchIsSafe(s: State, acts: seq<Action>)
    requires s == State(map[], 0, []) && Runnable(s, acts)
    ensures var e := Exec(s, acts);
            && (forall c <- e.fired :: c.Registered?)
            && (forall i, j :: 0 <= i < j < |e.fired| ==> e.fired[i] != e.fired[j])
            && (forall key :: At(e, key).pending ==> At(e, key).callback.Registered?)
  {
    RunKeepsInv(s, acts);
  }

  // What the dispatcher should do, read off the actions of a run alone.

  /** How many handlers have been added. */
  function Adds(acts: seq<Action>): nat {
    if acts == [] then 0 else
      var n := |acts| - 1;
      Adds(acts[..n]) + if acts[n].Add? then 1 else 0
  }

  /** The handler last added for the key. */
  function LastAdded(acts: seq<Action>, key: Key): Callback {
    if acts == [] then Empty else
      var n := |acts| - 1;
      if acts[n] == Add(key) then Registered(Adds(acts[..n])) else LastAdded(acts[..n], key)
  }

  /** The last thing done with the key was to add a handler. */
  predicate Awaited(acts: seq<Action>, key: Key) {
    acts != [] &&
    var n := |acts| - 1;
    if acts[n].key == key then acts[n].Add? else Awaited(acts[..n], key)
  }

  /** For each event, the handler last added before it for its key. */
  function Dispatched(acts: seq<Action>): seq<Callback> {
    if acts == [] then [] else
      var n := |acts| - 1;
      Dispatched(acts[..n]) + if acts[n].Fire? then [LastAdded(acts[..n], acts[n].key)] else []
  }

  ghost predicate Follows(s: State, acts: seq<Action>) {
    && s.next == Adds(acts) && s.fired == Dispatched(acts)
    && forall key :: (At(s, key).pending <==> Awaited(acts, key))
                     && (At(s, key).pending ==> At(s, key).created && At(s, key).callback == LastAdded(acts, key))
  }

  lemma StepFollows(s: State, before: seq<Action>, a: Action)
    requires Follows(s, before) && Enabled(s, a) && Loaded(s)
    ensures Follows(Apply(s, a), before + [a])
  {
    assert (before + [a])[..|before|] == before;
    var e := Apply(s, a);
    forall key
      ensures (At(e, key).pending <==> Awaited(before + [a], key))
              && (At(e, key).pending ==> At(e, key).created && At(e, key).callback == LastAdded(before + [a], key))
    {
      assert key != a.key ==> At(e, key) == At(s, key);
    }
  }

  lemma {:induction false} RunFollows(s: State, before: seq<Action>, acts: seq<Action>)
    requires Follows(s, before) && Inv(s) && Runnable(s, acts)
    ensures Follows(Exec(s, acts), before + acts)
    decreases |acts|
  {
    if acts == [] {
      assert before + acts == before;
    } else {
      StepFollows(s, before, acts[0]);
      StepKeepsInv(s, acts[0]);
      RunFollows(Apply(s, acts[0]), before + [acts[0]], acts[1..]);
      assert before + [acts[0]] + acts[1..] == before + acts;
    }
  }

  /** Over every run: an event is dispatched to the handler last added for its fd
      and direction, and it may occur exactly while adding that handler was the
      last thing done with them. */
  lemma LastAddedFires(s: State, acts: seq<Action>)
    requires s == State(map[], 0, []) && Runnable(s, acts)
    ensures Exec(s, acts).fired == Dispatched(acts)
    ensures forall key :: Enabled(Exec(s, acts), Fire(key)) <==> Awaited(acts, key)
    ensures forall a: Action :: !a.Fire? ==> Enabled(Exec(s, acts), a)
  {
    RunFollows(s, [], acts);
    assert [] + acts == acts;
  }

  lemma {:induction false} StaysQuiet(s: State, acts: seq<Action>, key: Key)
    requires !At(s, key).pending && Runnable(s, acts) && Add(key) !in acts
    ensures Fire(key) !in acts && !At(Exec(s, acts), key).pending
    decreases |acts|
  {
    if acts != [] {
      assert acts[0] in acts && acts == [acts[0]] + acts[1..];
      StaysQuiet(Apply(s, acts[0]), acts[1..], key);
    }
  }

  /** Once removed, a handler does not fire until one is added again. */
  lemma QuietAfterRemove(s: State, acts: seq<Action>, key: Key)
    requires Inv(s) && Runnable(Apply(s, Remove(key)), acts) && Add(key) !in acts
    ensures Fire(key) !in acts
  {
    StaysQuiet(Apply(s, Remove(key)), acts, key);
  }

  /** enableEvent re-arms the event but not the callback: it keeps the dispatcher
      safe exactly when the slot's callback has not been consumed. */
  lemma EnableIsSafeIff(s: State, key: Key)
    requires Inv(s) && key in s.slots
    ensures Inv(s.(slots := s.slots[key := s.slots[key].Enable()])) <==>
            (s.slots[key].created ==> s.slots[key].callback.Registered?)
  {
    var e := s.(slots := s.slots[key := s.slots[key].Enable()]);
    assert e.slots[key] == s.slots[key].Enable();
    assert forall k <- e.slots :: k in s.slots && e.slots[k].callback == s.slots[k].callback;
    if s.slots[key].created ==> s.slots[key].callback.Registered? {
      assert Loaded(e) && OneUse(e);
    } else {
      assert !Loaded(e);
    }
  }

  /** And the consumed slot is reachable: add, fire, enable. */
  lemma EnableAfterFire(key: Key)
    ensures var s := State(map[], 0, []); var acts := [Add(key), Fire(key)];
            && Runnable(s, acts)
            && var slot := At(Exec(s, acts), key).Enable(); slot.pending && slot.callback == Empty
  {
    var s := State(map[], 0, []);
    var acts := [Add(key), Fire(key)];
    var s1 := Apply(s, Add(key));
    assert acts[1..] == [Fire(key)] && [Fire(key)][1..] == [];
    var s2 := Apply(s1, Fire(key));
    assert Exec(s2, []) == s2;
    assert Runnable(s1, [Fire(key)]) && Exec(s1, [Fire(key)]) == s2;
    assert Runnable(s, acts) && Exec(s, acts) == s2;
  }

  /** One direction of the bundle table as an object. */
  class EventSlots {
    var created: array<bool>
    var pending: array<bool>
    var callbacks: array<Callback>

    ghost predicate Valid()
      reads this
    {
      && created.Length == pending.Length == callbacks.Length
      && created != pending
    }

    ghost function SlotAt(fd: nat): Slot
      requires Valid() && fd < created.Length
      reads this, created, pending, callbacks
    {
      Slot(created[fd], pending[fd], callbacks[fd])
    }

    constructor (maxFds: nat)
      ensures Valid() && fresh(created) && fresh(pending) && fresh(callbacks) && created.Length == maxFds
      ensures forall fd: nat | fd < maxFds :: SlotAt(fd) == UNUSED
    {
      created := new bool[maxFds](_ => false);
      pending := new bool[maxFds](_ => false);
      callbacks := new Callback[maxFds](_ => Empty);
    }

    method AddEventHandler(fd: nat, n: nat)
      requires Valid() && fd < created.Length
      modifies created, pending, callbacks
      ensures SlotAt(fd) == Slot(true, true, Registered(n)) == old(SlotAt(fd)).Add(n)
      ensures forall g: nat | g < created.Length && g != fd :: SlotAt(g) == old(SlotAt(g))
    {
      if !created[fd] {
        created[fd] := true;
      }
      pending[fd] := true;
      callbacks[fd] := Registered(n);
    }

    method RemoveEventHandler(fd: nat)
      requires Valid() && fd < created.Length
      modifies created, pending
      ensures SlotAt(fd) == Slot(false, old(pending[fd]) && !old(created[fd]), old(callbacks[fd])) == old(SlotAt(fd)).Remove()
      ensures forall g: nat | g < created.Length && g != fd :: SlotAt(g) == old(SlotAt(g))
    {
      if created[fd] {
        pending[fd] := false;
        created[fd] := false;
      }
    }

    method OnEvent(fd: nat) returns (cb: Callback)
      requires Valid() && fd < created.Length && SlotAt(fd).pending
      modifies pending, callbacks
      ensures cb == old(callbacks[fd]) && SlotAt(fd) == Slot(old(created[fd]), false, Empty) == old(SlotAt(fd)).Fire()
      ensures forall g: nat | g < created.Length && g != fd :: SlotAt(g) == old(SlotAt(g))
    {
      pending[fd] := false;
      cb := callbacks[fd];
      callbacks[fd] := Empty;
    }
  }
}
