/** ConcurrentHashMap: a fixed number of buckets, each a map with its own mutex
    and condition variable. Every operation runs inside one bucket's lock, so it
    is one step; waitFind may sleep on the bucket's condition variable, which
    insert signals with notify_one.
  */
module HashMap {
  import opened LockedRing

  /** The buckets. Key k belongs to bucket place(k). */
  type Table<K, V> = seq<map<K, V>>

  /** Which of `n` buckets a key belongs to. */
  function BucketOf<K(!new)>(hash: K -> nat, n: nat): (place: K -> nat)
    requires n > 0
    ensures Covers(place, n)
  {
    k => hash(k) % n
  }

  ghost predicate Covers<K(!new)>(place: K -> nat, n: nat) {
    forall k :: place(k) < n
  }

  function InsertIn<K, V>(m: map<K, V>, k: K, v: V): map<K, V> {
    if k in m then m else m[k := v]
  }

  function Insert<K, V>(place: K -> nat, t: Table<K, V>, k: K, v: V): Table<K, V>
    requires place(k) < |t|
  {
    var b := place(k);
    t[b := InsertIn(t[b], k, v)]
  }

  function Erase<K, V>(place: K -> nat, t: Table<K, V>, k: K): Table<K, V>
    requires place(k) < |t|
  {
    var b := place(k);
    t[b := t[b] - {k}]
  }

  /** No key outside its bucket. */
  ghost predicate Placed<K(!new), V>(place: K -> nat, t: Table<K, V>) {
    Covers(place, |t|) && forall b, k :: 0 <= b < |t| && k in t[b] ==> place(k) == b
  }

  /** The plain map the buckets stand for. */
  ghost function View<K, V>(t: Table<K, V>): map<K, V> {
    if t == [] then map[] else View(t[..|t| - 1]) + t[|t| - 1]
  }

  lemma {:induction false} ViewHasAll<K, V>(t: Table<K, V>, k: K)
    ensures k in View(t) <==> exists b :: 0 <= b < |t| && k in t[b]
  {
    if t != [] {
      var u := t[..|t| - 1];
      ViewHasAll(u, k);
      if b :| 0 <= b < |t| && k in t[b] && b < |u| {
        assert k in u[b];
      }
    }
  }

  lemma {:induction false} ViewIsBucket<K(!new), V>(t: Table<K, V>, k: K, b: nat)
    requires b < |t| && forall c :: 0 <= c < |t| && k in t[c] ==> c == b
    ensures k in View(t) <==> k in t[b]
    ensures k in t[b] ==> View(t)[k] == t[b][k]
  {
    ViewHasAll(t, k);
    if b < |t| - 1 {
      var u := t[..|t| - 1];
      assert forall c :: 0 <= c < |u| && k in u[c] ==> c == b;
      ViewIsBucket(u, k, b);
    }
  }

  /** A lookup in the key's bucket is a lookup in the plain map. */
  lemma LookupRefines<K(!new), V>(place: K -> nat, t: Table<K, V>, k: K)
    requires Placed(place, t)
    ensures var b := place(k);
            && (k in View(t) <==> k in t[b])
            && (k in t[b] ==> View(t)[k] == t[b][k])
  {
    ViewIsBucket(t, k, place(k));
  }

  /** insert adds an absent key and leaves a present one alone. */
  lemma InsertRefines<K(!new), V>(place: K -> nat, t: Table<K, V>, k: K, v: V)
    requires Placed(place, t)
    ensures Placed(place, Insert(place, t, k, v))
    ensures View(Insert(place, t, k, v)) == InsertIn(View(t), k, v)
  {
    var e := Insert(place, t, k, v);
    LookupRefines(place, t, k);
    forall x ensures (x in View(e) <==> x in InsertIn(View(t), k, v))
                     && (x in View(e) ==> View(e)[x] == InsertIn(View(t), k, v)[x])
    {
      LookupRefines(place, t, x);
      LookupRefines(place, e, x);
    }
  }

  lemma EraseRefines<K(!new), V>(place: K -> nat, t: Table<K, V>, k: K)
    requires Placed(place, t)
    ensures Placed(place, Erase(place, t, k))
    ensures View(Erase(place, t, k)) == View(t) - {k}
  {
    var e := Erase(place, t, k);
    forall x ensures (x in View(e) <==> x in View(t) - {k})
                     && (x in View(e) ==> View(e)[x] == (View(t) - {k})[x])
    {
      LookupRefines(place, t, x);
      LookupRefines(place, e, x);
    }
  }

  datatype Op<K, V> = InsertOp(k: K, v: V) | EraseOp(k: K)

  function Run<K, V>(place: K -> nat, t: Table<K, V>, op: Op<K, V>): (e: Table<K, V>)
    requires place(op.k) < |t|
    ensures |e| == |t|
  {
    match op
    case InsertOp(k, v) => Insert(place, t, k, v)
    case EraseOp(k) => Erase(place, t, k)
  }

  /** Updates of different keys commute, in one bucket or in two. */
  lemma UpdatesCommute<K, V>(place: K -> nat, t: Table<K, V>, p: Op<K, V>, q: Op<K, V>)
    requires place(p.k) < |t| && place(q.k) < |t| && p.k != q.k
    ensures Run(place, Run(place, t, p), q) == Run(place, Run(place, t, q), p)
  {
    var b, c := place(p.k), place(q.k);
    var e, f := Run(place, Run(place, t, p), q), Run(place, Run(place, t, q), p);
    forall i | 0 <= i < |t| ensures e[i] == f[i] {
      if i == b && i == c {
        assert e[i] == f[i];
      }
    }
  }

  // ---- the object ----------------------------------------------------------

  class ConcurrentHashMap<K(==, !new), V> {
    const hasher: K -> nat
    const buckets: array<map<K, V>>

    function Place(): (place: K -> nat)
      requires buckets.Length > 0
      ensures Covers(place, buckets.Length)
    {
      BucketOf(hasher, buckets.Length)
    }

    ghost predicate Valid()
      reads this, buckets
    {
      buckets.Length > 0 && Placed(Place(), buckets[..])
    }

    ghost function Contents(): map<K, V>
      reads this, buckets
    {
      View(buckets[..])
    }

    constructor (hasher: K -> nat, hashLocks: nat)
      requires hashLocks > 0
      ensures Valid() && fresh(buckets) && this.hasher == hasher && buckets.Length == hashLocks
      ensures Contents() == map[]
    {
      this.hasher := hasher;
      buckets := new map<K, V>[hashLocks](_ => map[]);
      new;
      forall k ensures k !in View(buckets[..]) {
        ViewHasAll(buckets[..], k);
      }
    }

    method Find(k: K, dflt: V) returns (found: bool, v: V)
      requires Valid()
      ensures found == (k in Contents())
      ensures v == if found then Contents()[k] else dflt
    {
      LookupRefines(Place(), buckets[..], k);
      var bucketIdx := hasher(k) % buckets.Length;
      found := k in buckets[bucketIdx];
      v := if found then buckets[bucketIdx][k] else dflt;
    }

    method InsertKey(k: K, v: V) returns (inserted: bool)
      requires Valid()
      modifies buckets
      ensures Valid()
      ensures inserted == (k !in old(Contents()))
      ensures Contents() == if inserted then old(Contents())[k := v] else old(Contents())
    {
      LookupRefines(Place(), buckets[..], k);
      InsertRefines(Place(), buckets[..], k, v);
      ghost var after := Insert(Place(), buckets[..], k, v);
      var bucketIdx := hasher(k) % buckets.Length;
      inserted := k !in buckets[bucketIdx];
      if inserted {
        buckets[bucketIdx] := buckets[bucketIdx][k := v];
      }
      assert buckets[..] == after;
    }

    method EraseKey(k: K)
      requires Valid()
      modifies buckets
      ensures Valid() && Contents() == old(Contents()) - {k}
    {
      EraseRefines(Place(), buckets[..], k);
      ghost var after := Erase(Place(), buckets[..], k);
      var bucketIdx := hasher(k) % buckets.Length;
      buckets[bucketIdx] := buckets[bucketIdx] - {k};
      assert buckets[..] == after;
    }
  }

  // ---- waiting -------------------------------------------------------------

  datatype State<!K, V> = State(
    place: K -> nat,
    table: Table<K, V>,
    cond: seq<Condvar>,      // one per bucket
    keys: map<Tid, K>,       // the key each blocked thread is after
    found: map<Tid, V>)      // what each thread's last waitFind returned

  datatype Action<K, V> =
    | WaitFind(t: Tid, k: K)
    | Resume(t: Tid)
    | Spurious(t: Tid)
    | Update(op: Op<K, V>, wakee: Tid)

  /** The section of waitFind: return if the key is there, else sleep. */
  function Look<K, V>(s: State<K, V>, t: Tid, k: K): State<K, V>
    requires s.place(k) < |s.table| && |s.cond| == |s.table|
  {
    var b := s.place(k);
    if k in s.table[b] then s.(found := s.found[t := s.table[b][k]])
    else s.(cond := s.cond[b := s.cond[b].Wait(t)], keys := s.keys[t := k])
  }

  predicate Enabled<K(==), V>(s: State<K, V>, a: Action<K, V>) {
    && |s.cond| == |s.table|
    && match a
       case WaitFind(t, k) => s.place(k) < |s.table| && forall b | 0 <= b < |s.cond| :: !s.cond[b].Blocked(t)
       case Resume(t) => t in s.keys && s.place(s.keys[t]) < |s.table| && t in s.cond[s.place(s.keys[t])].woken
       case Spurious(t) => t in s.keys && s.place(s.keys[t]) < |s.table| && t in s.cond[s.place(s.keys[t])].waiting
       case Update(op, w) => s.place(op.k) < |s.table| && s.cond[s.place(op.k)].MayNotify(w)
  }

  function Apply<K(==), V>(s: State<K, V>, a: Action<K, V>): State<K, V>
    requires Enabled(s, a)
  {
    match a
    case WaitFind(t, k) => Look(s, t, k)
    case Resume(t) =>
      var b := s.place(s.keys[t]);
      Look(s.(cond := s.cond[b := s.cond[b].Resume(t)]), t, s.keys[t])
    case Spurious(t) =>
      var b := s.place(s.keys[t]);
      s.(cond := s.cond[b := s.cond[b].Wake(t)])
    case Update(op, w) =>
      var b := s.place(op.k);
      var added := op.InsertOp? && op.k !in s.table[b];
      s.(table := Run(s.place, s.table, op), cond := if added then s.cond[b := s.cond[b].Wake(w)] else s.cond)
  }

  ghost predicate Runnable<K, V>(s: State<K, V>, acts: seq<Action<K, V>>)
    decreases |acts|
  {
    acts == [] || (Enabled(s, acts[0]) && Runnable(Apply(s, acts[0]), acts[1..]))
  }

  ghost function Exec<K, V>(s: State<K, V>, acts: seq<Action<K, V>>): State<K, V>
    requires Runnable(s, acts)
    decreases |acts|
  {
    if acts == [] then s else Exec(Apply(s, acts[0]), acts[1..])
  }

  /** A blocked thread sits in the bucket of its key, asleep or woken. */
  ghost predicate Seated<K(!new), V>(s: State<K, V>) {
    && Covers(s.place, |s.table|) && |s.cond| == |s.table|
    && (forall b, t :: 0 <= b < |s.cond| && s.cond[b].Blocked(t) ==> t in s.keys && s.place(s.keys[t]) == b)
    && (forall b :: 0 <= b < |s.cond| ==> s.cond[b].waiting !! s.cond[b].woken)
  }

  /** Thread t sleeps in bucket b although its key is there. A woken thread
      only looks for its own key and signals nobody, so t depends on others. */
  predicate Overslept<K(==), V>(s: State<K, V>, b: nat, t: Tid) {
    && b < |s.cond| == |s.table|
    && t in s.cond[b].waiting && t in s.keys && s.keys[t] in s.table[b]
  }

  ghost predicate NoneMissed<K, V>(s: State<K, V>) {
    forall b, t :: !Overslept(s, b, t)
  }

  lemma StepKeepsSeats<K(!new), V>(s: State<K, V>, a: Action<K, V>)
    requires Seated(s) && Enabled(s, a)
    ensures Seated(Apply(s, a)) && Apply(s, a).place == s.place && |Apply(s, a).cond| == |s.cond|
  {
  }

  // ---- what the calls do ---------------------------------------------------

  ghost predicate IsBlocked<K, V>(s: State<K, V>, t: Tid) {
    exists b :: 0 <= b < |s.cond| && s.cond[b].Blocked(t)
  }

  /** No key outside its bucket, no thread outside its key's bucket. */
  ghost predicate Sound<K(!new), V>(s: State<K, V>) {
    Seated(s) && Placed(s.place, s.table)
  }

  /** What a step does to the plain map: an insert adds an absent key, an erase
      removes its key, waiting changes nothing. */
  lemma StepRefines<K(!new), V>(s: State<K, V>, a: Action<K, V>)
    requires Sound(s) && Enabled(s, a)
    ensures Sound(Apply(s, a))
    ensures var before, after := View(s.table), View(Apply(s, a).table);
            match a
            case Update(InsertOp(k, v), _) => after == if k in before then before else before[k := v]
            case Update(EraseOp(k), _) => after == before - {k}
            case _ => after == before
  {
    StepKeepsSeats(s, a);
    if a.Update? {
      match a.op
      case InsertOp(k, v) => InsertRefines(s.place, s.table, k, v);
      case EraseOp(k) => EraseRefines(s.place, s.table, k);
    }
  }

  /** The call by which, or after which, this step lets thread t look for its key. */
  predicate LooksFor<K(==), V>(s: State<K, V>, a: Action<K, V>, t: Tid, k: K) {
    a == WaitFind(t, k) || (a == Resume(t) && t in s.keys && s.keys[t] == k)
  }

  /** A thread leaves waitFind exactly when its key is in the plain map, and with
      the value found there. */
  lemma LeavesIfPresent<K(!new), V>(s: State<K, V>, a: Action<K, V>, t: Tid, k: K)
    requires Sound(s) && Enabled(s, a) && LooksFor(s, a, t, k)
    ensures var e := Apply(s, a);
            && (IsBlocked(e, t) <==> k !in View(e.table))
            && (IsBlocked(e, t) ==> t in e.cond[s.place(k)].waiting && t in e.keys && e.keys[t] == k)
            && (!IsBlocked(e, t) ==> t in e.found && e.found[t] == View(e.table)[k])
  {
    var e, b := Apply(s, a), s.place(k);
    LookupRefines(s.place, s.table, k);
    if k !in s.table[b] {
      assert e.cond[b].Blocked(t);
    } else {
      forall c | 0 <= c < |e.cond| ensures !e.cond[c].Blocked(t) {
        assert s.cond[c].Blocked(t) ==> c == b;
      }
    }
  }

  /** Whoever can act may act: a free thread may call, a woken one resume, and an
      update may always run, with some thread for notify_one to pick. */
  lemma CallsAreEnabled<K(!new), V>(s: State<K, V>, t: Tid, k: K, b: nat, op: Op<K, V>) returns (w: Tid)
    requires Sound(s) && b < |s.cond|
    ensures !IsBlocked(s, t) ==> Enabled(s, WaitFind(t, k))
    ensures t in s.cond[b].woken ==> Enabled(s, Resume(t))
    ensures t in s.cond[b].waiting ==> Enabled(s, Spurious(t))
    ensures Enabled(s, Update(op, w))
  {
    assert s.cond[b].Blocked(t) <==> t in s.cond[b].woken || t in s.cond[b].waiting;
    var sleepers := s.cond[s.place(op.k)].waiting;
    w := if sleepers == {} then 0 else var u :| u in sleepers; u;
  }

  /** No other step makes a thread leave or changes what it waits for; only an
      insert or a spurious wakeup turns a sleeper into a woken thread, and only
      the one named. */
  lemma OthersLeaveItThere<K(!new), V>(s: State<K, V>, a: Action<K, V>, t: Tid, b: nat)
    requires Sound(s) && Enabled(s, a) && b < |s.cond| && s.cond[b].Blocked(t) && a != Resume(t)
    ensures var e := Apply(s, a);
            && b < |e.cond| && e.cond[b].Blocked(t) && t in e.keys && e.keys[t] == s.keys[t]
            && (t in s.cond[b].woken ==> t in e.cond[b].woken)
            && (t in s.cond[b].waiting ==>
                  (t in e.cond[b].woken <==> a == Spurious(t) || (a.Update? && a.wakee == t && e.table[b].Keys > s.table[b].Keys)))
  {
    if a.Update? {
      var c := s.place(a.op.k);
      assert c != b ==> Apply(s, a).cond[b] == s.cond[b] && Apply(s, a).table[b] == s.table[b];
      if c == b && a.op.InsertOp? && a.op.k !in s.table[b] {
        assert a.op.k in Apply(s, a).table[b];
      }
    }
  }

  /** The key thread t last called waitFind for, read off the actions of a run. */
  ghost function Asked<K, V>(acts: seq<Action<K, V>>, t: Tid): set<K> {
    if acts == [] then {} else
      var n := |acts| - 1;
      if acts[n].WaitFind? && acts[n].t == t then {acts[n].k} else Asked(acts[..n], t)
  }

  ghost predicate WaitsForAsked<K, V>(s: State<K, V>, acts: seq<Action<K, V>>) {
    forall t :: IsBlocked(s, t) ==> t in s.keys && Asked(acts, t) == {s.keys[t]}
  }

  lemma StepWaitsForAsked<K(!new), V>(s: State<K, V>, before: seq<Action<K, V>>, a: Action<K, V>)
    requires Sound(s) && Enabled(s, a) && WaitsForAsked(s, before)
    ensures WaitsForAsked(Apply(s, a), before + [a])
  {
    var e := Apply(s, a);
    assert (before + [a])[..|before|] == before;
    forall t | IsBlocked(e, t) ensures t in e.keys && Asked(before + [a], t) == {e.keys[t]} {
      var b :| 0 <= b < |e.cond| && e.cond[b].Blocked(t);
      if a.WaitFind? && a.t == t {
        LeavesIfPresent(s, a, t, a.k);
      } else {
        assert s.cond[b].Blocked(t);
        assert IsBlocked(s, t);
      }
    }
  }

  lemma {:induction false} RunWaitsForAsked<K(!new), V>(s: State<K, V>, before: seq<Action<K, V>>, acts: seq<Action<K, V>>)
    requires Sound(s) && Runnable(s, acts) && WaitsForAsked(s, before)
    ensures Sound(Exec(s, acts)) && WaitsForAsked(Exec(s, acts), before + acts)
    decreases |acts|
  {
    if acts == [] {
      assert before + acts == before;
    } else {
      StepRefines(s, acts[0]);
      StepWaitsForAsked(s, before, acts[0]);
      RunWaitsForAsked(Apply(s, acts[0]), before + [acts[0]], acts[1..]);
      assert before + [acts[0]] + acts[1..] == before + acts;
    }
  }

  /** Over every run from a table nobody waits at: a thread that is blocked waits
      for the key it last asked for; and whenever it looks, at its call or when
      it resumes, it leaves exactly if that key is in the plain map, and returns
      the value found there. */
  lemma WaitFindWaits<K(!new), V>(s: State<K, V>, acts: seq<Action<K, V>>, a: Action<K, V>, t: Tid)
    requires Sound(s) && (forall u :: !IsBlocked(s, u)) && Runnable(s, acts) && Enabled(Exec(s, acts), a)
    requires a == Resume(t) || (a.WaitFind? && a.t == t)
    ensures var e := Apply(Exec(s, acts), a);
            exists k :: Asked(acts + [a], t) == {k} && (IsBlocked(e, t) <==> k !in View(e.table))
                        && (IsBlocked(e, t) ==> t in e.keys && e.keys[t] == k)
                        && (!IsBlocked(e, t) ==> t in e.found && e.found[t] == View(e.table)[k])
  {
    RunWaitsForAsked(s, [], acts);
    assert [] + acts == acts;
    var m := Exec(s, acts);
    assert (acts + [a])[..|acts|] == acts;
    if a.Resume? {
      assert m.cond[m.place(m.keys[t])].Blocked(t);
      assert IsBlocked(m, t);
      LeavesIfPresent(m, a, t, m.keys[t]);
      assert Asked(acts + [a], t) == {m.keys[t]};
    } else {
      LeavesIfPresent(m, a, t, a.k);
      assert Asked(acts + [a], t) == {a.k};
    }
  }

  // ---- lost wakeups --------------------------------------------------------

  /** Before an insert of k: a thread sleeps for k, and another one sleeps in the
      same bucket, for whatever key. */
  ghost predicate Crowded<K, V>(s: State<K, V>, k: K)
    requires s.place(k) < |s.cond|
  {
    var sleepers := s.cond[s.place(k)].waiting;
    exists t, u :: t in sleepers && u in sleepers && t != u && t in s.keys && s.keys[t] == k
  }

  /** notify_one may pick a thread such that the insert of k leaves some other
      thread asleep beside its key. */
  ghost predicate InsertCanMiss<K, V>(s: State<K, V>, k: K, v: V) {
    exists w :: Enabled(s, Update(InsertOp(k, v), w)) && !NoneMissed(Apply(s, Update(InsertOp(k, v), w)))
  }

  /** Only the insert of a key somebody sleeps for can lose a wakeup, and only
      by waking somebody else. */
  lemma StepMissesNone<K(!new), V>(s: State<K, V>, a: Action<K, V>)
    requires Seated(s) && NoneMissed(s) && Enabled(s, a)
    requires a.Update? && a.op.InsertOp? ==> !Crowded(s, a.op.k)
    ensures NoneMissed(Apply(s, a))
  {
    var e := Apply(s, a);
    forall b: nat, t | Overslept(e, b, t) ensures Overslept(s, b, t) {
      assert t in s.cond[b].waiting ==> s.cond[b].Blocked(t);
      if a.Update? && a.op.InsertOp? && t in s.cond[b].waiting && s.keys[t] == a.op.k {
        assert a.wakee in s.cond[b].waiting;
      }
    }
  }

  lemma CrowdedInsertMisses<K(!new), V>(s: State<K, V>, t: Tid, u: Tid, v: V)
    requires Seated(s) && NoneMissed(s) && t in s.keys && s.place(s.keys[t]) < |s.cond| && t != u
    requires t in s.cond[s.place(s.keys[t])].waiting && u in s.cond[s.place(s.keys[t])].waiting
    ensures var a := Update(InsertOp(s.keys[t], v), u);
            Enabled(s, a) && Overslept(Apply(s, a), s.place(s.keys[t]), t)
  {
    assert !Overslept(s, s.place(s.keys[t]), t);
  }

  /** The exact condition: the insert of k can leave a thread asleep beside its
      key if and only if, before it, one thread sleeps for k and another sleeps
      in the same bucket. */
  lemma InsertMissesIff<K(!new), V>(s: State<K, V>, k: K, v: V)
    requires Seated(s) && NoneMissed(s)
    ensures InsertCanMiss(s, k, v) <==> Crowded(s, k)
  {
    if Crowded(s, k) {
      var sleepers := s.cond[s.place(k)].waiting;
      var t, u :| t in sleepers && u in sleepers && t != u && t in s.keys && s.keys[t] == k;
      CrowdedInsertMisses(s, t, u, v);
    } else {
      forall w | Enabled(s, Update(InsertOp(k, v), w)) ensures NoneMissed(Apply(s, Update(InsertOp(k, v), w))) {
        StepMissesNone(s, Update(InsertOp(k, v), w));
      }
    }
  }

  /** No insert of the run meets a crowded bucket. */
  ghost predicate NeverCrowded<K, V>(s: State<K, V>, acts: seq<Action<K, V>>)
    requires Runnable(s, acts)
    decreases |acts|
  {
    acts != [] ==>
      && (acts[0].Update? && acts[0].op.InsertOp? ==> !Crowded(s, acts[0].op.k))
      && NeverCrowded(Apply(s, acts[0]), acts[1..])
  }

  /** In every run none of whose inserts meets a crowded bucket, a thread whose
      key is in the table is never left asleep. */
  lemma {:induction false} UncrowdedRunsMissNone<K(!new), V>(s: State<K, V>, acts: seq<Action<K, V>>)
    requires Seated(s) && NoneMissed(s) && Runnable(s, acts) && NeverCrowded(s, acts)
    ensures NoneMissed(Exec(s, acts))
    decreases |acts|
  {
    if acts != [] {
      StepKeepsSeats(s, acts[0]);
      StepMissesNone(s, acts[0]);
      UncrowdedRunsMissNone(Apply(s, acts[0]), acts[1..]);
    }
  }

  /** At most one thread asleep per bucket. */
  ghost predicate Alone<K, V>(s: State<K, V>) {
    forall b, t, u :: 0 <= b < |s.cond| && t in s.cond[b].waiting && u in s.cond[b].waiting ==> t == u
  }

  ghost predicate AlwaysAlone<K, V>(s: State<K, V>, acts: seq<Action<K, V>>)
    requires Runnable(s, acts)
    decreases |acts|
  {
    Alone(s) && (acts != [] ==> AlwaysAlone(Apply(s, acts[0]), acts[1..]))
  }

  lemma {:induction false} AloneIsUncrowded<K(!new), V>(s: State<K, V>, acts: seq<Action<K, V>>)
    requires Runnable(s, acts) && AlwaysAlone(s, acts)
    ensures NeverCrowded(s, acts)
    decreases |acts|
  {
    if acts != [] {
      AloneIsUncrowded(Apply(s, acts[0]), acts[1..]);
    }
  }

  /** In every run in which no bucket ever has two threads asleep, however many
      are woken and on their way, no thread is left asleep beside its key. */
  lemma LoneWaitersAreWoken<K(!new), V>(s: State<K, V>, acts: seq<Action<K, V>>)
    requires Seated(s) && NoneMissed(s) && Runnable(s, acts) && AlwaysAlone(s, acts)
    ensures NoneMissed(Exec(s, acts))
  {
    AloneIsUncrowded(s, acts);
    UncrowdedRunsMissNone(s, acts);
  }

  /** What could still help a thread t that has overslept in bucket b: a
      spurious wakeup, or another new key in the bucket. Erasing its key would
      end the matter too. */
  predicate Helps<K(==), V>(s: State<K, V>, a: Action<K, V>, b: nat, t: Tid) {
    || a == Spurious(t)
    || (a.Update? && a.op.InsertOp? && s.place(a.op.k) == b && b < |s.table| && a.op.k !in s.table[b])
    || (a.Update? && a.op.EraseOp? && t in s.keys && a.op.k == s.keys[t])
  }

  ghost predicate NoHelp<K, V>(s: State<K, V>, acts: seq<Action<K, V>>, b: nat, t: Tid)
    requires Runnable(s, acts)
    decreases |acts|
  {
    acts != [] ==> !Helps(s, acts[0], b, t) && NoHelp(Apply(s, acts[0]), acts[1..], b, t)
  }

  /** Without such help, a thread that has overslept sleeps on. */
  lemma {:induction false} OversleptStays<K(!new), V>(s: State<K, V>, acts: seq<Action<K, V>>, b: nat, t: Tid)
    requires Seated(s) && Overslept(s, b, t) && Runnable(s, acts) && NoHelp(s, acts, b, t)
    ensures Overslept(Exec(s, acts), b, t)
    decreases |acts|
  {
    if acts != [] {
      assert s.cond[b].Blocked(t);
      StepKeepsSeats(s, acts[0]);
      assert Overslept(Apply(s, acts[0]), b, t);
      OversleptStays(Apply(s, acts[0]), acts[1..], b, t);
    }
  }

  /** Two sleepers in one bucket are one too many, whatever keys they wait for
      and whoever else is on the way: when the first one's key is inserted and
      the other is woken, the first sleeps beside its key, and goes on sleeping
      through every run that inserts no further key in the bucket, wakes nobody
      spuriously and does not erase the key. */
  lemma TwoWaitersMayMiss<K(!new), V(!new)>(s: State<K, V>, b: nat, t: Tid, u: Tid, v: V)
    requires Seated(s) && NoneMissed(s) && b < |s.cond|
    requires t in s.cond[b].waiting && u in s.cond[b].waiting && t != u
    ensures s.cond[b].Blocked(t)
    ensures var a := Update(InsertOp(s.keys[t], v), u);
            && Enabled(s, a)
            && forall acts :: Runnable(Apply(s, a), acts) && NoHelp(Apply(s, a), acts, b, t) ==>
                 Overslept(Exec(Apply(s, a), acts), b, t)
  {
    assert s.cond[b].Blocked(t);
    var a := Update(InsertOp(s.keys[t], v), u);
    CrowdedInsertMisses(s, t, u, v);
    StepKeepsSeats(s, a);
    forall acts | Runnable(Apply(s, a), acts) && NoHelp(Apply(s, a), acts, b, t)
      ensures Overslept(Exec(Apply(s, a), acts), b, t)
    {
      OversleptStays(Apply(s, a), acts, b, t);
    }
  }
}
