/** MessageCenter::Instance: double-checked locking by any number of threads. The
    first, unlocked load may be stale and miss an instance that is already
    published; the second one runs under the mutex and is not.
  */
module Singleton {

  datatype Pc =
    | Start
    | WantLock
    | Locked            // holds the mutex, about to load again
    | Creating          // saw no instance, about to construct one
    | Storing(p: nat)   // constructed p, about to publish it
    | Unlocking(p: nat)
    | Returned(p: nat)
  {
    predicate Inside() {
      Locked? || Creating? || Storing? || Unlocking?
    }

    function Rank(): nat {
      match this
      case Start => 6 case WantLock => 5 case Locked => 4 case Creating => 3
      case Storing(_) => 2 case Unlocking(_) => 1 case Returned(_) => 0
    }
  }

  datatype Pointer = Null | Instance(p: nat)

  /** Who holds the mutex. */
  datatype Owner = Nobody | Thread(t: nat)

  datatype State = State(
    pcs: seq<Pc>,        // one per thread
    pointer: Pointer,
    owner: Owner,
    created: nat)        // how many instances have been constructed

  datatype Action = Load(t: nat, stale: bool) | Lock(t: nat) | Reload(t: nat) | Create(t: nat) | Publish(t: nat) | Unlock(t: nat)

  predicate Enabled(s: State, a: Action) {
    && a.t < |s.pcs|
    && match a
       case Load(t, stale) => s.pcs[t].Start?
       case Lock(t) => s.pcs[t].WantLock? && s.owner == Nobody
       case Reload(t) => s.pcs[t].Locked?
       case Create(t) => s.pcs[t].Creating?
       case Publish(t) => s.pcs[t].Storing?
       case Unlock(t) => s.pcs[t].Unlocking?
  }

  function Apply(s: State, a: Action): State
    requires Enabled(s, a)
  {
    match a
    case Load(t, stale) =>
      s.(pcs := s.pcs[t := if s.pointer == Null || stale then WantLock else Returned(s.pointer.p)])
    case Lock(t) => s.(pcs := s.pcs[t := Locked], owner := Thread(t))
    case Reload(t) => s.(pcs := s.pcs[t := if s.pointer == Null then Creating else Unlocking(s.pointer.p)])
    case Create(t) => s.(pcs := s.pcs[t := Storing(s.created)], created := s.created + 1)
    case Publish(t) => s.(pcs := s.pcs[t := Unlocking(s.pcs[t].p)], pointer := Instance(s.pcs[t].p))
    case Unlock(t) => s.(pcs := s.pcs[t := Returned(s.pcs[t].p)], owner := Nobody)
  }

  ghost predicate Init(s: State) {
    s.pointer == Null && s.owner == Nobody && s.created == 0 && forall t :: 0 <= t < |s.pcs| ==> s.pcs[t] == Start
  }

  ghost predicate Runnable(s: State, acts: seq<Action>)
    decreases |acts|
  {
    acts == [] || (Enabled(s, acts[0]) && Runnable(Apply(s, acts[0]), acts[1..]))
  }

  ghost function Exec(s: State, acts: seq<Action>): State
    requires Runnable(s, acts)
    decreases |acts|
  {
    if acts == [] then s else Exec(Apply(s, acts[0]), acts[1..])
  }

  /** Only the owner of the mutex is inside, and where it is tells how far the
      one construction has got. */
  ghost predicate Inv(s: State) {
    && (forall t :: 0 <= t < |s.pcs| ==>
          match s.pcs[t]
          case Locked => s.owner == Thread(t) && (s.pointer == Null ==> s.created == 0)
          case Creating => s.owner == Thread(t) && s.pointer == Null && s.created == 0
          case Storing(p) => s.owner == Thread(t) && s.pointer == Null && s.created == 1 && p == 0
          case Unlocking(p) => s.owner == Thread(t) && s.pointer == Instance(p)
          case Returned(p) => s.pointer == Instance(p)
          case _ => true)
    && (s.owner.Thread? ==> s.owner.t < |s.pcs| && s.pcs[s.owner.t].Inside())
    && s.created <= 1
    && (s.pointer != Null ==> s.pointer == Instance(0) && s.created == 1)
    && (s.owner == Nobody && s.pointer == Null ==> s.created == 0)
  }

  lemma StepKeepsInv(s: State, a: Action)
    requires Inv(s) && Enabled(s, a)
    ensures Inv(Apply(s, a)) && |Apply(s, a).pcs| == |s.pcs|
  {
  }

  lemma {:induction false} RunKeepsInv(s: State, acts: seq<Action>)
    requires Inv(s) && Runnable(s, acts)
    ensures Inv(Exec(s, acts)) && |Exec(s, acts).pcs| == |s.pcs|
    decreases |acts|
  {
    if acts != [] {
      StepKeepsInv(s, acts[0]);
      RunKeepsInv(Apply(s, acts[0]), acts[1..]);
    }
  }

  /** For any number of threads and any interleaving, at most one instance is
      ever constructed, and all callers that return do so with that one. */
  lemma OneInstance(s: State, acts: seq<Action>)
    requires Init(s) && Runnable(s, acts)
    ensures var e := Exec(s, acts);
            && e.created <= 1
            && forall t | 0 <= t < |e.pcs| && e.pcs[t].Returned? :: e.pcs[t].p == 0 && e.created == 1 && e.pointer == Instance(0)
  {
    RunKeepsInv(s, acts);
  }

  /** Once the instance is published, a first load that is up to date is enough: the
      caller returns at once, even while others hold or want the mutex. A load
      that misses it, for whatever reason, sends the caller to the mutex. */
  lemma FirstLoad(s: State, acts: seq<Action>, t: nat, stale: bool)
    requires Init(s) && Runnable(s, acts) && t < |Exec(s, acts).pcs| && Exec(s, acts).pcs[t] == Start
    ensures var m := Exec(s, acts); var e := Apply(m, Load(t, stale));
            && e == m.(pcs := e.pcs) && e.pcs == m.pcs[t := e.pcs[t]]
            && e.pcs[t] == if m.created == 1 && m.pointer != Null && !stale then Returned(0) else WantLock
  {
    RunKeepsInv(s, acts);
  }

  // ---- every caller returns ------------------------------------------------

  ghost function Ranks(pcs: seq<Pc>): nat {
    if pcs == [] then 0 else pcs[0].Rank() + Ranks(pcs[1..])
  }

  lemma {:induction false} RanksChange(pcs: seq<Pc>, t: nat, pc: Pc)
    requires t < |pcs|
    ensures Ranks(pcs[t := pc]) == Ranks(pcs) - pcs[t].Rank() + pc.Rank()
  {
    if t == 0 {
      assert pcs[t := pc][1..] == pcs[1..];
    } else {
      assert pcs[t := pc][1..] == pcs[1..][t - 1 := pc];
      RanksChange(pcs[1..], t - 1, pc);
    }
  }

  lemma StepDescends(s: State, a: Action)
    requires Enabled(s, a)
    ensures Ranks(Apply(s, a).pcs) < Ranks(s.pcs)
  {
    RanksChange(s.pcs, a.t, Apply(s, a).pcs[a.t]);
  }

  /** A caller that has not returned waits for nothing but the mutex. */
  lemma EachMayMove(s: State, t: nat) returns (a: Action)
    requires t < |s.pcs| && !s.pcs[t].Returned? && (s.pcs[t].WantLock? ==> s.owner == Nobody)
    ensures Enabled(s, a) && a.t == t
  {
    a := match s.pcs[t]
         case Start => Load(t, false)
         case WantLock => Lock(t)
         case Locked => Reload(t)
         case Creating => Create(t)
         case Storing(_) => Publish(t)
         case _ => Unlock(t);
  }

  /** Unless everybody has returned, somebody can move. */
  lemma SomebodyMoves(s: State, t: nat) returns (a: Action)
    requires Inv(s) && t < |s.pcs| && !s.pcs[t].Returned?
    ensures Enabled(s, a)
  {
    a := EachMayMove(s, if s.owner.Thread? then s.owner.t else t);
  }

  /** Every run is bounded, and one that can go no further has every caller back
      with the one instance. */
  lemma {:induction false} EveryCallerReturns(s: State, acts: seq<Action>)
    requires Inv(s) && Runnable(s, acts) && forall a :: !Enabled(Exec(s, acts), a)
    ensures |acts| <= Ranks(s.pcs)
    ensures var e := Exec(s, acts);
            |e.pcs| == |s.pcs| && (forall t | 0 <= t < |e.pcs| :: e.pcs[t] == Returned(0)) && (e.pcs != [] ==> e.created == 1)
    decreases |acts|
  {
    var e := Exec(s, acts);
    if acts == [] {
      assert e == s;
      forall t | 0 <= t < |s.pcs| ensures s.pcs[t] == Returned(0) {
        if !s.pcs[t].Returned? {
          var a := SomebodyMoves(s, t);
        }
      }
    } else {
      StepKeepsInv(s, acts[0]);
      StepDescends(s, acts[0]);
      assert e == Exec(Apply(s, acts[0]), acts[1..]);
      EveryCallerReturns(Apply(s, acts[0]), acts[1..]);
    }
  }
}
