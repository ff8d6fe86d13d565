/**
 * The single-instance guard: `_LockManagerRedis.__enter__`/`__exit__` over a
 * shared Redis store, and the body of `wrapped` that sequences identifier
 * derivation, backend selection, acquisition, the task body and release.
 *
 * The store is abstracted to its atomic "set if absent, with expiry" and its
 * delete: a map from key to the instant (in seconds) at which the key expires.
 */
module SingleInstance {
  import opened Wrappers
  import LockTimeout
  import opened TaskIdentity
  import BackendSelection

  /** The store's contents: each key with the instant it expires. */
  type Entries = map<string, int>

  /** A lease on `key` is in force at `now`: present and not yet expired. */
  predicate Live(entries: Entries, key: string, now: int)
  {
    key in entries && now < entries[key]
  }

  /**
   * One atomic set-if-absent with a time to live, as issued by a non-blocking
   * `lock.acquire(blocking=False)`: it succeeds exactly when no lease on
   * `key` is in force, and then the key is held for `ttl` seconds; keys other
   * than `key` are never touched.
   */
  function TrySet(entries: Entries, key: string, ttl: int, now: int): (r: (bool, Entries))
    requires ttl > 0
    ensures r.0 <==> !Live(entries, key, now)
    ensures Live(r.1, key, now)
    ensures r.0 ==> r.1[key] == now + ttl
    ensures !r.0 ==> r.1 == entries
    ensures forall k :: k != key ==> (k in r.1 <==> k in entries) && (k in entries ==> r.1[k] == entries[k])
  {
    if Live(entries, key, now) then (false, entries) else (true, entries[key := now + ttl])
  }

  /** Mutual exclusion: once one attempt wins, every attempt before the lease expires loses and changes nothing. */
  lemma SecondAttemptFails(entries: Entries, key: string, ttl1: int, ttl2: int, t1: int, t2: int)
    requires ttl1 > 0 && ttl2 > 0 && t1 <= t2 < t1 + ttl1
    requires TrySet(entries, key, ttl1, t1).0
    ensures var held := TrySet(entries, key, ttl1, t1).1;
            !TrySet(held, key, ttl2, t2).0 && TrySet(held, key, ttl2, t2).1 == held
  {
  }

  /** Two simultaneous attempts on a free key: exactly one of them is granted the lease. */
  lemma ExactlyOneOfTwoWins(entries: Entries, key: string, ttl1: int, ttl2: int, now: int)
    requires ttl1 > 0 && ttl2 > 0
    requires !Live(entries, key, now)
    ensures var (first, held) := TrySet(entries, key, ttl1, now);
            first && !TrySet(held, key, ttl2, now).0
  {
  }

  /** Crash recovery: a lease never released can be taken again once its time to live has passed. */
  lemma ExpiredLeaseCanBeRetaken(entries: Entries, key: string, ttl1: int, ttl2: int, t1: int, t2: int)
    requires ttl1 > 0 && ttl2 > 0 && t1 + ttl1 <= t2
    requires TrySet(entries, key, ttl1, t1).0
    ensures TrySet(TrySet(entries, key, ttl1, t1).1, key, ttl2, t2).0
  {
  }

  /** After a release the same key can be acquired straight away, whatever the clock says. */
  lemma ReleaseFreesKey(entries: Entries, key: string, ttl: int, now: int)
    requires ttl > 0
    ensures TrySet(entries - {key}, key, ttl, now).0
  {
  }

  /**
   * A task `send_report` without `include_args`, with `lock_timeout=10`: its
   * key and the time to live of its lease.
   */
  lemma SendReportExample(task: LockTimeout.TaskLimits, config: LockTimeout.ConfigLimits, ser: Serialisation<int>)
    ensures LockKey(TaskIdentifier("send_report", [], [], false, ser)) == "_celery.single_instance.send_report"
    ensures LockTimeout.Timeout(Some(10), task, config) == 15
  {
  }

  /** The shared Redis store, reduced to the two atomic commands the lock uses. */
  class RedisStore {
    var entries: Entries

    constructor ()
      ensures entries == map[]
    {
      entries := map[];
    }

    /** `SET key token NX PX ttl*1000` (redis-py passes the time to live in milliseconds): create the key with an expiry unless a lease on it is in force. */
    method SetIfAbsent(key: string, ttl: int, now: int) returns (ok: bool)
      requires ttl > 0
      modifies this
      ensures (ok, entries) == TrySet(old(entries), key, ttl, now)
    {
      ok := !Live(entries, key, now);
      if ok {
        entries := entries[key := now + ttl];
      }
    }

    /** `DEL key`. */
    method Delete(key: string)
      modifies this
      ensures entries == old(entries) - {key}
      ensures key !in entries
    {
      entries := entries - {key};
    }
  }

  /** The text of the `OtherInstanceError` raised when the lock is already taken. */
  function OtherInstanceMessage(taskIdentifier: string): (message: string)
    ensures |message| > |MessageHead| + |taskIdentifier|
    ensures message[..|MessageHead|] == MessageHead
    ensures message[|MessageHead|..|MessageHead| + |taskIdentifier|] == taskIdentifier
  {
    MessageHead + taskIdentifier + " already running."
  }

  const MessageHead: string := "Failed to acquire lock, "


  /** How `__enter__` ends: the lease was obtained, or `OtherInstanceError` was raised. */
  datatype Acquisition = Acquired | OtherInstanceError(message: string)

  /** Handles locking and unlocking for one task invocation on a Redis backend. */
  class LockManagerRedis {
    const store: RedisStore
    const lockTimeout: Option<int>
    const task: LockTimeout.TaskLimits
    const config: LockTimeout.ConfigLimits
    const taskIdentifier: string
    /** The lock object of this manager holds the lease (`self.lock` after a successful acquire). */
    var acquired: bool

    constructor (store: RedisStore, lockTimeout: Option<int>, task: LockTimeout.TaskLimits,
                 config: LockTimeout.ConfigLimits, taskIdentifier: string)
      ensures this.store == store && this.lockTimeout == lockTimeout
      ensures this.task == task && this.config == config
      ensures this.taskIdentifier == taskIdentifier && !acquired
    {
      this.store := store;
      this.lockTimeout := lockTimeout;
      this.task := task;
      this.config := config;
      this.taskIdentifier := taskIdentifier;
      acquired := false;
    }

    /** The `timeout` property. */
    function Timeout(): (t: int)
      ensures LockTimeout.NonNegative(lockTimeout, task, config) ==> t > LockTimeout.Margin
      ensures t != LockTimeout.Margin
    {
      if LockTimeout.NonNegative(lockTimeout, task, config) then
        LockTimeout.TimeoutExceedsMargin(lockTimeout, task, config);
        LockTimeout.Timeout(lockTimeout, task, config)
      else
        LockTimeout.Timeout(lockTimeout, task, config)
    }

    /** The Redis key of this invocation's lock. */
    function Key(): (key: string)
      ensures |key| == |KeyPrefix| + |taskIdentifier|
      ensures key[..|KeyPrefix|] == KeyPrefix && key[|KeyPrefix|..] == taskIdentifier
    {
      LockKey(taskIdentifier)
    }

    /**
     * `__enter__`: one non-blocking attempt to take the lease for `Timeout()`
     * seconds. When a lease on the key is in force it raises
     * `OtherInstanceError` and leaves the store exactly as it was.
     */
    method Enter(now: int) returns (r: Acquisition)
      requires Timeout() > 0
      modifies this, store
      ensures r == Acquired <==> !Live(old(store.entries), Key(), now)
      ensures r == Acquired ==> acquired && store.entries == old(store.entries)[Key() := now + Timeout()]
      ensures r != Acquired ==> !acquired && store.entries == old(store.entries)
      ensures r != Acquired ==> r == OtherInstanceError(OtherInstanceMessage(taskIdentifier))
    {
      var ok := store.SetIfAbsent(Key(), Timeout(), now);
      acquired := ok;
      if !ok {
        r := OtherInstanceError(OtherInstanceMessage(taskIdentifier));
      } else {
        r := Acquired;
      }
    }

    /**
     * `__exit__`: release the lease. Python calls it only after `__enter__`
     * returned, so it runs only when this manager holds the lease.
     */
    method Exit()
      requires acquired
      modifies this, store
      ensures !acquired && store.entries == old(store.entries) - {Key()}
    {
      store.Delete(Key());
      acquired := false;
    }
  }

  /**
   * Two invocations of one task identifier interleaved: both enter before
   * either exits. The first is granted the lease and the second is refused
   * without touching it; once the holder exits, the key is gone.
   */
  method RaceTwoInvocations(store: RedisStore, taskIdentifier: string, lockTimeout: Option<int>,
                            task: LockTimeout.TaskLimits, config: LockTimeout.ConfigLimits, now: int)
    returns (first: Acquisition, second: Acquisition, ghost afterRival: Entries)
    requires LockTimeout.Timeout(lockTimeout, task, config) > 0
    requires !Live(store.entries, LockKey(taskIdentifier), now)
    modifies store
    ensures first == Acquired
    ensures second == OtherInstanceError(OtherInstanceMessage(taskIdentifier))
    ensures afterRival == old(store.entries)[LockKey(taskIdentifier) := now + LockTimeout.Timeout(lockTimeout, task, config)]
    ensures store.entries == old(store.entries) - {LockKey(taskIdentifier)}
  {
    var holder := new LockManagerRedis(store, lockTimeout, task, config, taskIdentifier);
    var rival := new LockManagerRedis(store, lockTimeout, task, config, taskIdentifier);
    first := holder.Enter(now);
    second := rival.Enter(now);
    afterRival := store.entries;
    holder.Exit();
  }

  /** What escapes from a guarded task call other than its return value. */
  datatype Raised<E> =
    | OtherInstance(message: string)   // `OtherInstanceError`: another instance holds the lock
    | NotImplemented                   // `NotImplementedError`: the result backend is not Redis
    | TaskRaised(error: E)             // the task body raised; re-raised unchanged after release

  /**
   * The body of `wrapped`: derive the task identifier, select the lock
   * manager from the backend URL, then run the task body under the lock.
   * `body` is what the task function returns or raises when it is run;
   * `ran` tells whether it was run, and `during` is the store as it stood
   * while it ran. The backend URL and the clock reading are inputs, as the
   * source reads them from the application and from Redis.
   */
  method Wrapped<V, R, E>(store: RedisStore, name: string, args: seq<V>, kwargs: seq<Kwarg<V>>,
                          lockTimeout: Option<int>, includeArgs: bool, ser: Serialisation<V>,
                          task: LockTimeout.TaskLimits, config: LockTimeout.ConfigLimits,
                          backendUrl: string, now: int, body: Result<R, E>)
    returns (r: Result<R, Raised<E>>, ran: bool, ghost during: Entries)
    requires BackendSelection.SelectBackend(backendUrl).Success? ==> LockTimeout.Timeout(lockTimeout, task, config) > 0
    modifies store
    ensures BackendSelection.SelectBackend(backendUrl).Failure? ==>
              r == Failure(NotImplemented) && !ran && store.entries == old(store.entries)
    ensures var id := TaskIdentifier(name, args, kwargs, includeArgs, ser);
            BackendSelection.SelectBackend(backendUrl).Success? && Live(old(store.entries), LockKey(id), now) ==>
              r == Failure(OtherInstance(OtherInstanceMessage(id))) && !ran && store.entries == old(store.entries)
    ensures var key := LockKey(TaskIdentifier(name, args, kwargs, includeArgs, ser));
            BackendSelection.SelectBackend(backendUrl).Success? && !Live(old(store.entries), key, now) ==>
              ran && store.entries == old(store.entries) - {key}
    ensures var key := LockKey(TaskIdentifier(name, args, kwargs, includeArgs, ser));
            ran ==> during == old(store.entries)[key := now + LockTimeout.Timeout(lockTimeout, task, config)]
    ensures ran && body.Success? ==> r == Success(body.value)
    ensures ran && body.Failure? ==> r == Failure(TaskRaised(body.error))
  {
    var taskIdentifier := TaskIdentifier(name, args, kwargs, includeArgs, ser);
    ran, during := false, store.entries;
    if BackendSelection.SelectBackend(backendUrl).Failure? {
      return Failure(NotImplemented), ran, during;
    }
    var lockManager := new LockManagerRedis(store, lockTimeout, task, config, taskIdentifier);
    var acquisition := lockManager.Enter(now);
    if acquisition.OtherInstanceError? {
      return Failure(OtherInstance(acquisition.message)), ran, during;
    }
    // The task body runs here, under the lease.
    ran, during := true, store.entries;
    lockManager.Exit();
    r := match body
      case Success(v) => Success(v)
      case Failure(e) => Failure(TaskRaised(e));
  }
}
