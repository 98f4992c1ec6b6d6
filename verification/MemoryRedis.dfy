/**
 * The in-memory stand-in for Redis: a value map and a table of timers that
 * delete keys eagerly. It refines a store of values with deadlines.
 */
module MemoryRedis {
  import opened Domain

  /** Longest delay setTimeout honours; a longer one, or one below 1 ms, fires after 1 ms. */
  const MAX_DELAY := 2147483647

  function TimerDelay(ms: int): (d: nat)
    ensures d >= 1
  {
    if 1 <= ms <= MAX_DELAY then ms else 1
  }

  datatype Flag = NX | XX | Always

  /** The EX option: absent or not a number, or a number of seconds. */
  type Expiry = Option<int>

  /** Keys and values are only ever compared. */
  datatype Key = Key(text: string)
  datatype Value = Value(text: string)

  // --- The deadline store ---

  datatype Entry = Entry(value: Value, deadline: Option<int>)
  type Deadlines = map<Key, Entry>

  predicate Alive(e: Entry, now: int) {
    e.deadline.None? || now < e.deadline.value
  }

  function View(d: Deadlines, now: int): map<Key, Value> {
    map key | key in d && Alive(d[key], now) :: d[key].value
  }

  function DeadlineOf(now: int, ttl: Expiry): Option<int> {
    if ttl.None? then None else Some(now + TimerDelay(ttl.value * 1000))
  }

  predicate Permits(d: Deadlines, now: int, key: Key, flag: Flag) {
    match flag
    case NX => key !in View(d, now)
    case XX => key in View(d, now)
    case Always => true
  }

  function SetEntry(d: Deadlines, now: int, key: Key, value: Value, ttl: Expiry, flag: Flag): Deadlines {
    if Permits(d, now, key, flag) then d[key := Entry(value, DeadlineOf(now, ttl))] else d
  }

  /** The requested lifetime is kept exactly when the timer can hold it. */
  lemma LifetimeIsKeptIff(now: int, seconds: int)
    ensures DeadlineOf(now, Some(seconds)) == Some(now + 1000 * seconds) <==> 1 <= seconds <= 2147483
  {
  }

  // --- The timer-driven client ---

  datatype Timer = Timer(key: Key, due: int)

  /**
   * A key has at most one armed timer, due later and armed for its present
   * value: no timer armed for an older value is left, and the table holds only
   * live keys.
   */
  ghost predicate Consistent(store: map<Key, Value>, ttlTimers: map<Key, nat>, armed: map<nat, Timer>, now: int,
                             nextHandle: nat) {
    && ttlTimers.Keys <= store.Keys
    && (forall key :: key in ttlTimers ==> ttlTimers[key] in armed && armed[ttlTimers[key]].key == key)
    && (forall h :: h in armed ==> armed[h].key in ttlTimers && ttlTimers[armed[h].key] == h)
    && (forall h :: h in armed ==> armed[h].due > now && h < nextHandle)
  }

  /** The deadline store that a value map and its timers stand for. */
  ghost function Denotes(store: map<Key, Value>, ttlTimers: map<Key, nat>, armed: map<nat, Timer>): Deadlines {
    map key | key in store ::
      Entry(store[key], if key in ttlTimers && ttlTimers[key] in armed then Some(armed[ttlTimers[key]].due) else None)
  }

  function Disarmed(ttlTimers: map<Key, nat>, armed: map<nat, Timer>, key: Key): map<nat, Timer> {
    if key in ttlTimers then armed - {ttlTimers[key]} else armed
  }

  /** Timers delete on time, so what is stored is what is alive. */
  lemma StoredIsAlive(store: map<Key, Value>, ttlTimers: map<Key, nat>, armed: map<nat, Timer>, now: int,
                      nextHandle: nat)
    requires Consistent(store, ttlTimers, armed, now, nextHandle)
    ensures View(Denotes(store, ttlTimers, armed), now) == store
  {
  }

  /** So NX and XX, which look at the stored keys, act on the view. */
  lemma PermitsReadsTheStore(store: map<Key, Value>, ttlTimers: map<Key, nat>, armed: map<nat, Timer>, now: int,
                             nextHandle: nat, key: Key, flag: Flag)
    requires Consistent(store, ttlTimers, armed, now, nextHandle)
    ensures Permits(Denotes(store, ttlTimers, armed), now, key, flag) <==>
      !((flag == NX && key in store) || (flag == XX && key !in store))
  {
    StoredIsAlive(store, ttlTimers, armed, now, nextHandle);
  }

  /** Dropping a key with its timer, by DEL or by the timer's callback. */
  lemma DropKey(store: map<Key, Value>, ttlTimers: map<Key, nat>, armed: map<nat, Timer>, now: int, nextHandle: nat,
                key: Key)
    requires Consistent(store, ttlTimers, armed, now, nextHandle)
    ensures Consistent(store - {key}, ttlTimers - {key}, Disarmed(ttlTimers, armed, key), now, nextHandle)
    ensures Denotes(store - {key}, ttlTimers - {key}, Disarmed(ttlTimers, armed, key)) ==
      Denotes(store, ttlTimers, armed) - {key}
  {
    var ttlTimers', armed' := ttlTimers - {key}, Disarmed(ttlTimers, armed, key);
    forall k | k in ttlTimers' ensures ttlTimers'[k] in armed' && armed'[ttlTimers'[k]] == armed[ttlTimers[k]] {
      assert armed[ttlTimers[k]].key == k;
    }
  }

  /** Storing a value under a key that has no timer any more. */
  lemma StorePlain(store: map<Key, Value>, ttlTimers: map<Key, nat>, armed: map<nat, Timer>, now: int,
                   nextHandle: nat, key: Key, value: Value)
    requires Consistent(store, ttlTimers, armed, now, nextHandle) && key !in ttlTimers
    ensures Consistent(store[key := value], ttlTimers, armed, now, nextHandle)
    ensures Denotes(store[key := value], ttlTimers, armed) ==
      Denotes(store, ttlTimers, armed)[key := Entry(value, None)]
  {
  }

  /** Arming a fresh timer for the stored value of a key that has none. */
  lemma ArmKey(store: map<Key, Value>, ttlTimers: map<Key, nat>, armed: map<nat, Timer>, now: int, nextHandle: nat,
               key: Key, due: int)
    requires Consistent(store, ttlTimers, armed, now, nextHandle) && key !in ttlTimers && key in store && due > now
    ensures Consistent(store, ttlTimers[key := nextHandle], armed[nextHandle := Timer(key, due)], now, nextHandle + 1)
    ensures Denotes(store, ttlTimers[key := nextHandle], armed[nextHandle := Timer(key, due)]) ==
            Denotes(store, ttlTimers, armed)[key := Entry(store[key], Some(due))]
  {
    var ttlTimers', armed' := ttlTimers[key := nextHandle], armed[nextHandle := Timer(key, due)];
    ArmKeepsConsistent(store, ttlTimers, armed, now, nextHandle, key, due);
    var d, d' := Denotes(store, ttlTimers, armed), Denotes(store, ttlTimers', armed');
    forall k | k in store && k != key ensures d'[k] == d[k] {
      if k in ttlTimers { assert ttlTimers[k] in armed && ttlTimers[k] != nextHandle; }
    }
    assert d' == d[key := Entry(store[key], Some(due))];
  }

  lemma ArmKeepsConsistent(store: map<Key, Value>, ttlTimers: map<Key, nat>, armed: map<nat, Timer>, now: int,
                           nextHandle: nat, key: Key, due: int)
    requires Consistent(store, ttlTimers, armed, now, nextHandle) && key !in ttlTimers && key in store && due > now
    ensures Consistent(store, ttlTimers[key := nextHandle], armed[nextHandle := Timer(key, due)], now, nextHandle + 1)
  {
    assert nextHandle !in armed;
    var ttlTimers', armed' := ttlTimers[key := nextHandle], armed[nextHandle := Timer(key, due)];
    forall k | k in ttlTimers' ensures ttlTimers'[k] in armed' && armed'[ttlTimers'[k]].key == k {
      if k != key { assert ttlTimers[k] in armed; }
    }
  }

  /** All of a permitted SET: disarm, store, arm. */
  lemma StoreKey(store: map<Key, Value>, ttlTimers: map<Key, nat>, armed: map<nat, Timer>, now: int, nextHandle: nat,
                 key: Key, value: Value)
    requires Consistent(store, ttlTimers, armed, now, nextHandle)
    ensures Consistent(store[key := value], ttlTimers - {key}, Disarmed(ttlTimers, armed, key), now, nextHandle)
    ensures Denotes(store[key := value], ttlTimers - {key}, Disarmed(ttlTimers, armed, key)) ==
            Denotes(store, ttlTimers, armed)[key := Entry(value, None)]
  {
    DropKey(store, ttlTimers, armed, now, nextHandle, key);
    StorePlain(store - {key}, ttlTimers - {key}, Disarmed(ttlTimers, armed, key), now, nextHandle, key, value);
    assert (store - {key})[key := value] == store[key := value];
  }

  class MemoryClient {
    var store: map<Key, Value>
    /** The armed timer of a key. */
    var ttlTimers: map<Key, nat>
    /** The event loop: armed timers by handle, and the time. */
    var armed: map<nat, Timer>
    var now: int
    var nextHandle: nat

    ghost predicate Valid()
      reads this
    {
      Consistent(store, ttlTimers, armed, now, nextHandle)
    }

    /** The deadline store this client stands for. */
    ghost function Contents(): Deadlines
      reads this
    {
      Denotes(store, ttlTimers, armed)
    }

    constructor ()
      ensures Valid() && Contents() == map[] && now == 0
    {
      store, ttlTimers, armed, now, nextHandle := map[], map[], map[], 0, 0;
    }

    method ClearTtl(key: Key)
      modifies this`ttlTimers, this`armed
      ensures ttlTimers == old(ttlTimers) - {key}
      ensures armed == Disarmed(old(ttlTimers), old(armed), key)
    {
      if key in ttlTimers {
        armed := armed - {ttlTimers[key]};
      }
      ttlTimers := ttlTimers - {key};
    }

    /** Store the value and clear the timer of the value it replaces. */
    method Put(key: Key, value: Value)
      requires Valid()
      modifies this`store, this`ttlTimers, this`armed
      ensures Valid() && key in store && store[key] == value && key !in ttlTimers
      ensures Contents() == old(Contents())[key := Entry(value, None)]
    {
      StoreKey(store, ttlTimers, armed, now, nextHandle, key, value);
      store := store[key := value];
      ClearTtl(key);
    }

    /** setTimeout for a key without a timer. */
    method Arm(key: Key, delay: nat)
      requires Valid() && key in store && key !in ttlTimers && delay >= 1
      modifies this`ttlTimers, this`armed, this`nextHandle
      ensures Valid() && Contents() == old(Contents())[key := Entry(store[key], Some(now + delay))]
    {
      ArmKey(store, ttlTimers, armed, now, nextHandle, key, now + delay);
      armed := armed[nextHandle := Timer(key, now + delay)];
      ttlTimers := ttlTimers[key := nextHandle];
      nextHandle := nextHandle + 1;
    }

    /** Delete a key and clear its timer, by DEL or by the timer's own callback. */
    method Drop(key: Key)
      requires Valid()
      modifies this`store, this`ttlTimers, this`armed
      ensures Valid() && Contents() == old(Contents()) - {key}
      ensures armed == Disarmed(old(ttlTimers), old(armed), key)
    {
      DropKey(store, ttlTimers, armed, now, nextHandle, key);
      store := store - {key};
      ClearTtl(key);
    }

    /** SET with EX, NX and XX acts on the deadline store; a refused SET changes nothing. */
    method Set(key: Key, value: Value, ttl: Expiry, flag: Flag) returns (ok: bool)
      requires Valid()
      modifies this
      ensures Valid() && now == old(now)
      ensures ok <==> Permits(old(Contents()), old(now), key, flag)
      ensures Contents() == SetEntry(old(Contents()), old(now), key, value, ttl, flag)
    {
      PermitsReadsTheStore(store, ttlTimers, armed, now, nextHandle, key, flag);
      if (flag == NX && key in store) || (flag == XX && key !in store) {
        return false;
      }
      Put(key, value);
      if ttl.Some? {
        Arm(key, TimerDelay(ttl.value * 1000));
      }
      ok := true;
    }

    method Get(key: Key) returns (value: Option<Value>)
      requires Valid()
      ensures value == if key in View(Contents(), now) then Some(View(Contents(), now)[key]) else None
      ensures Contents().Keys == View(Contents(), now).Keys
    {
      StoredIsAlive(store, ttlTimers, armed, now, nextHandle);
      value := if key in store then Some(store[key]) else None;
    }

    /** One key of a DEL; tells whether it was there. */
    method DelOne(key: Key) returns (found: bool)
      requires Valid()
      modifies this`store, this`ttlTimers, this`armed
      ensures Valid() && Contents() == old(Contents()) - {key}
      ensures found <==> key in old(Contents())
    {
      found := key in store;
      Drop(key);
    }

    /** DEL removes the keys and counts those that were alive, each once. */
    method Del(keys: seq<Key>) returns (count: nat)
      requires Valid()
      modifies this
      ensures Valid() && now == old(now)
      ensures forall key :: key in Contents() <==> key in old(Contents()) && key !in keys
      ensures forall key :: key in Contents() ==> Contents()[key] == old(Contents())[key]
      ensures count == |Found(old(Contents()), keys)|
    {
      ghost var before := Contents();
      count := 0;
      var i := 0;
      while i < |keys|
        invariant 0 <= i <= |keys|
        invariant Valid() && now == old(now)
        invariant Contents() == Left(before, keys[..i]) && count == Hits(before, keys[..i])
      {
        assert keys[..i + 1][..i] == keys[..i];
        var found := DelOne(keys[i]);
        if found {
          count := count + 1;
        }
        i := i + 1;
      }
      assert keys[..i] == keys;
      LeftIsExact(before, keys);
      HitsAreExact(before, keys);
    }

    /** Time passes: every timer that falls due runs its callback, in some order. */
    method Advance(ms: nat)
      requires Valid()
      modifies this
      ensures Valid() && now == old(now) + ms
      ensures Contents() == map key | key in old(Contents()) && Alive(old(Contents())[key], now) :: old(Contents())[key]
    {
      var target := now + ms;
      ghost var before := Contents();
      ghost var gone: set<Key> := {};
      var due := set h | h in armed && armed[h].due <= target;
      while due != {}
        invariant now == old(now) && target == now + ms && Valid()
        invariant due == set h | h in armed && armed[h].due <= target
        invariant Contents() == before - gone
        invariant forall key :: key in gone ==> key in before && !Alive(before[key], target)
        decreases |due|
      {
        var h :| h in due;
        var key := armed[h].key;
        assert Contents()[key].deadline == Some(armed[h].due);
        Drop(key);
        gone := gone + {key};
        due := due - {h};
      }
      forall h | h in armed ensures armed[h].due > target { assert h !in due; }
      RestIsAlive(store, ttlTimers, armed, now, nextHandle, target);
      now := target;
    }
  }

  function KeySet(keys: seq<Key>): set<Key> {
    set k | k in keys
  }

  /** DEL, key by key: what is left, and how many keys were there when their turn came. */
  function Left(d: Deadlines, keys: seq<Key>): Deadlines {
    if keys == [] then d else Left(d, keys[..|keys| - 1]) - {keys[|keys| - 1]}
  }

  function Hits(d: Deadlines, keys: seq<Key>): nat {
    if keys == [] then 0
    else
      var head := keys[..|keys| - 1];
      Hits(d, head) + if keys[|keys| - 1] in Left(d, head) then 1 else 0
  }

  lemma {:induction false} LeftIsExact(d: Deadlines, keys: seq<Key>)
    ensures forall key :: key in Left(d, keys) <==> key in d && key !in keys
    ensures forall key :: key in Left(d, keys) ==> Left(d, keys)[key] == d[key]
  {
    if keys != [] {
      LeftIsExact(d, keys[..|keys| - 1]);
      assert keys == keys[..|keys| - 1] + [keys[|keys| - 1]];
    }
  }

  /** The keys of a DEL that are there to be deleted. */
  function Found(d: Deadlines, keys: seq<Key>): set<Key> {
    set k | k in keys && k in d
  }

  lemma FoundGrows(d: Deadlines, head: seq<Key>, key: Key)
    ensures |Found(d, head + [key])| == |Found(d, head)| + if key in d && key !in head then 1 else 0
  {
    if key in d && key !in head {
      assert Found(d, head + [key]) == Found(d, head) + {key};
    } else {
      assert Found(d, head + [key]) == Found(d, head);
    }
  }

  lemma {:induction false} HitsAreExact(d: Deadlines, keys: seq<Key>)
    ensures Hits(d, keys) == |Found(d, keys)|
  {
    if keys != [] {
      var head, key := keys[..|keys| - 1], keys[|keys| - 1];
      HitsAreExact(d, head);
      LeftIsExact(d, head);
      FoundGrows(d, head, key);
      assert head + [key] == keys;
    }
  }

  /** When all timers due by then have fired, everything left is alive at that time. */
  lemma RestIsAlive(store: map<Key, Value>, ttlTimers: map<Key, nat>, armed: map<nat, Timer>, now: int,
                    nextHandle: nat, target: int)
    requires Consistent(store, ttlTimers, armed, now, nextHandle)
    requires forall h :: h in armed ==> armed[h].due > target
    ensures Consistent(store, ttlTimers, armed, target, nextHandle)
    ensures forall key :: key in Denotes(store, ttlTimers, armed) ==>
      Alive(Denotes(store, ttlTimers, armed)[key], target)
  {
  }

  // --- Last write wins ---

  /** What happened to the store, in order: SETs with their flags, DELs, and time passing. */
  datatype Op = SetOp(key: Key, value: Value, ttl: Expiry, flag: Flag) | DelOp(keys: seq<Key>) | WaitOp(ms: nat)

  datatype Timed = Timed(d: Deadlines, now: int)

  function ApplyOp(t: Timed, op: Op): Timed {
    match op
    case SetOp(key, value, ttl, flag) => Timed(SetEntry(t.d, t.now, key, value, ttl, flag), t.now)
    case DelOp(keys) => Timed(t.d - KeySet(keys), t.now)
    case WaitOp(ms) =>
      Timed(map key | key in t.d && Alive(t.d[key], t.now + ms) :: t.d[key], t.now + ms)
  }

  function History(ops: seq<Op>): Timed {
    if ops == [] then Timed(map[], 0) else ApplyOp(History(ops[..|ops| - 1]), ops[|ops| - 1])
  }

  /** Operation i was a SET of the key that was carried out. */
  predicate SetAt(ops: seq<Op>, i: nat, key: Key) {
    i < |ops| && ops[i].SetOp? && ops[i].key == key &&
    Permits(History(ops[..i]).d, History(ops[..i]).now, key, ops[i].flag)
  }

  predicate DeletesAt(ops: seq<Op>, i: nat, key: Key) {
    i < |ops| && ops[i].DelOp? && key in ops[i].keys
  }

  /** Nothing after operation i wrote or deleted the key. */
  ghost predicate Undisturbed(ops: seq<Op>, i: nat, key: Key) {
    forall j :: i < j < |ops| ==> !SetAt(ops, j, key) && !DeletesAt(ops, j, key)
  }

  predicate UnexpiredAt(ops: seq<Op>, i: nat) {
    i < |ops| && ops[i].SetOp? &&
    Alive(Entry(ops[i].value, DeadlineOf(History(ops[..i]).now, ops[i].ttl)), History(ops).now)
  }

  /**
   * At every time a GET returns v if and only if v was given by the last SET
   * that was carried out, not deleted since, and not past its deadline.
   */
  lemma {:induction false} GetReturnsTheLastSet(ops: seq<Op>, key: Key, v: Value)
    ensures var t := History(ops);
      (key in View(t.d, t.now) && View(t.d, t.now)[key] == v) <==>
      exists i: nat :: SetAt(ops, i, key) && ops[i].value == v && Undisturbed(ops, i, key) && UnexpiredAt(ops, i)
  {
    var t := History(ops);
    if key in View(t.d, t.now) && View(t.d, t.now)[key] == v {
      var i := EntryComesFromSet(ops, key);
    }
    if i: nat :| SetAt(ops, i, key) && ops[i].value == v && Undisturbed(ops, i, key) && UnexpiredAt(ops, i) {
      SetLeavesEntry(ops, i, key);
    }
  }

  lemma {:induction false} EntryComesFromSet(ops: seq<Op>, key: Key) returns (i: nat)
    requires key in History(ops).d && Alive(History(ops).d[key], History(ops).now)
    ensures SetAt(ops, i, key) && Undisturbed(ops, i, key) && UnexpiredAt(ops, i)
    ensures History(ops).d[key] == Entry(ops[i].value, DeadlineOf(History(ops[..i]).now, ops[i].ttl))
  {
    var n := |ops| - 1;
    var head, op := ops[..n], ops[n];
    var t := History(head);
    if SetAt(ops, n, key) {
      i := n;
    } else {
      assert History(ops).d[key] == t.d[key];
      i := EntryComesFromSet(head, key);
      assert head[..i] == ops[..i];
      forall j | i < j < |ops| ensures !SetAt(ops, j, key) && !DeletesAt(ops, j, key) {
        if j < n {
          assert head[..j] == ops[..j];
          assert !SetAt(head, j, key) && !DeletesAt(head, j, key);
        }
      }
    }
  }

  lemma {:induction false} TimeOnlyPasses(ops: seq<Op>, i: nat)
    requires i <= |ops|
    ensures History(ops[..i]).now <= History(ops).now
  {
    if i == |ops| {
      assert ops[..i] == ops;
    } else {
      var head := ops[..|ops| - 1];
      assert head[..i] == ops[..i];
      TimeOnlyPasses(head, i);
    }
  }

  lemma {:induction false} SetLeavesEntry(ops: seq<Op>, i: nat, key: Key)
    requires SetAt(ops, i, key) && Undisturbed(ops, i, key) && UnexpiredAt(ops, i)
    ensures key in History(ops).d
    ensures History(ops).d[key] == Entry(ops[i].value, DeadlineOf(History(ops[..i]).now, ops[i].ttl))
  {
    var n := |ops| - 1;
    if i < n {
      var head := ops[..n];
      assert head[..i] == ops[..i];
      TimeOnlyPasses(ops, n);
      forall j | i < j < n ensures !SetAt(head, j, key) && !DeletesAt(head, j, key) {
        assert head[..j] == ops[..j];
        assert !SetAt(ops, j, key) && !DeletesAt(ops, j, key);
      }
      SetLeavesEntry(head, i, key);
      assert !SetAt(ops, n, key) && !DeletesAt(ops, n, key);
    }
  }
}
