# Flask-Celery-Helper single-instance task lock, in Dafny

Flask-Celery-Helper's `single_instance` decorator makes sure at most one
worker runs a given Celery task at a time. Before running the task body it
takes a lock in Redis. The lock is one key whose lease expires on its own if
the worker dies. When the key is already held, the call fails with
`OtherInstanceError` and the body does not run.

This project models that core in five modules:

- `LockTimeout` (timeout.dfy) models the `timeout` property. It picks the
  first truthy value of the chain `lock_timeout`, task soft limit, task
  hard limit, config soft limit, config hard limit, 300, and adds 5.
- `TaskIdentity` (identity.dfy) models the task identifier and the Redis key.
  The identifier is the task name. With `include_args` it also gets `.args.`
  and an MD5 digest of the positional arguments and of the keyword arguments
  sorted by name. The key is `_celery.single_instance.` followed by the
  identifier.
- `BackendSelection` (backend.dfy) models backend selection. It takes the
  text before the first `://` of the backend URL and chooses the Redis
  manager only when that text contains `redis`. Otherwise it raises
  `NotImplementedError`.
- `SingleInstance` (lock.dfy) holds the shared store (`RedisStore`, a map
  from key to expiry instant), the lock manager (`LockManagerRedis` with
  `Enter`/`Exit` for `__enter__`/`__exit__`), and `Wrapped`. `Wrapped` does
  the steps in order: identifier, backend, acquire, body, release.
- `Wrappers` (wrappers.dfy) holds `Option` for Python's `None` and `Result`
  for raised exceptions.

Python's `str()` of the arguments and MD5 are opaque: they are the function
fields of `TaskIdentity.Serialisation`, and no proof depends on what they
compute. The clock, the backend URL, the application config and the task's
declared limits are inputs to the model. So is what the task body returns or
raises.

Two places where the source does not do what it seems to say:

- `__exit__` tests `isinstance(exc_type, OtherInstanceError)`. That test is
  always false, because `exc_type` is a class. Python also never calls
  `__exit__` when `__enter__` raised. So in the model, `Exit` can only run
  on a manager that holds the lease (`requires acquired`), and the dead
  branch is not modelled.
- A candidate counts as "set" when Python's `or` sees it as truthy, so an
  explicit `lock_timeout=0` falls through to the next source.

## Model

| member | source | states |
|---|---|---|
| `LockTimeout.Or` | flask_celery.py:68-71 | Python `or` on optional integers yields one of its operands, and the result is truthy if and only if either operand is |
| `LockTimeout.OrAssociative` | flask_celery.py:69-70 | regrouping an `or` chain does not change its value, so the right-nested chain of the model equals Python's left-grouped `a or b or c` |
| `LockTimeout.Timeout` | flask_celery.py:62-72 | the `timeout` property: the timeout minus 5 is one of the candidates or the 300 last resort, and it is never exactly 5 because a 0 is never chosen; the full precedence is `TimeoutIsFirstTruthyPlusMargin` |
| `LockTimeout.TimeoutIsFirstTruthyPlusMargin` | flask_celery.py:62-72 | the timeout equals the first candidate that is neither `None` nor 0, in the order lock_timeout, task soft, task hard, config soft, config hard, plus 5; it is 300 + 5 when there is no such candidate |
| `LockTimeout.NoLimitsGives305` | flask_celery.py:65-72 | with no lock_timeout, no task limits and config limits at their default 0, the timeout is 305 |
| `LockTimeout.ExplicitTimeoutOverrides` | flask_celery.py:68-72 | a nonzero lock_timeout wins over every other source, whatever they hold: the timeout is lock_timeout + 5 |
| `LockTimeout.TimeoutExceedsMargin` | flask_celery.py:68-72 | when no candidate is negative, the timeout is greater than the 5-second margin |
| `LockTimeout.HardLimitOnlyExample` | flask_celery.py:68-72 | when only the task's hard limit is set, to 30, the timeout is 35 |
| `TaskIdentity.Less` | flask_celery.py:181 | Python's `str` ordering used by `sorted`: a string is never less than itself; `LessIrreflexive`, `LessTransitive`, `LessTotal` and `LessAsymmetric` make it a strict total order |
| `TaskIdentity.SortByKey` | flask_celery.py:181 | `[(k, kwargs[k]) for k in sorted(kwargs)]`: a permutation of the keyword pairs; `SortByKeySorted` proves the order and `SortByKeyIgnoresOrder` its independence of the call order |
| `TaskIdentity.SortByKeySorted` | flask_celery.py:181 | `sorted(kwargs)` with distinct names gives pairs whose names strictly increase in Python string order, and the pairs are a permutation of the keyword arguments |
| `TaskIdentity.SortByKeyIgnoresOrder` | flask_celery.py:181 | two orderings of the same distinct keyword arguments sort into the same list |
| `TaskIdentity.MergedArgs` | flask_celery.py:181 | `merged_args`: the repr of the positional arguments comes first, followed by the repr of the keyword pairs in strictly increasing name order |
| `TaskIdentity.TaskIdentifier` | flask_celery.py:179-182 | the identifier always starts with the task name |
| `TaskIdentity.IdentifierIgnoresArgs` | flask_celery.py:179-180 | without include_args the identifier is the task name, the same for every set of arguments |
| `TaskIdentity.IdentifierIgnoresKwargOrder` | flask_celery.py:180-182 | with include_args, keyword arguments passed in a different order give the same identifier |
| `TaskIdentity.IdentifierSeparatesDigests` | flask_celery.py:180-182 | with include_args the identifier never equals the bare name, and arguments whose digests differ give different identifiers |
| `TaskIdentity.LockKey` | flask_celery.py:44 | the key is the prefix `_celery.single_instance.` (CELERY_LOCK_REDIS, line 26) followed by exactly the task identifier |
| `TaskIdentity.LockKeyInjective` | flask_celery.py:44 | two identifiers share a key if and only if they are equal |
| `BackendSelection.SeparatorIndex` | flask_celery.py:189 | the index where the first `://` starts, at or after the start position, or the URL length when there is none |
| `BackendSelection.Scheme` | flask_celery.py:189 | `split('://')[0]`: a prefix of the URL with no `://` in it, which is either the whole URL or is followed by `://` |
| `BackendSelection.SchemeIsFirstField` | flask_celery.py:189 | exactly one string has the `split('://')[0]` properties, and it is the one `Scheme` returns |
| `BackendSelection.ContainsFrom` | flask_celery.py:190 | the search finds `sub` if and only if it occurs at some index at or after the start position |
| `BackendSelection.Contains` | flask_celery.py:190 | Python's `sub in s`: true if and only if `sub` occurs somewhere in `s` |
| `BackendSelection.SelectBackend` | flask_celery.py:189-193 | the Redis manager is chosen if and only if the text before the first `://` contains `redis`; otherwise `NotImplementedError` |
| `BackendSelection.SeparatorDoesNotOverlap` | flask_celery.py:189 | two occurrences of `://` never overlap |
| `BackendSelection.SelectionIgnoresRest` | flask_celery.py:189-193 | only the text before the first `://` is consulted: a URL whose first field lacks `redis` is refused, whatever follows, including `redis` itself |
| `BackendSelection.RedisUrlSelectsRedis` | flask_celery.py:189-191 | a `redis://` URL selects the Redis manager |
| `SingleInstance.TrySet` | flask_celery.py:47-49 | the atomic non-blocking acquire succeeds if and only if no lease on the key is in force; then the key is held for the timeout; on failure the store is unchanged; other keys are never touched |
| `SingleInstance.SecondAttemptFails` | flask_celery.py:47-51 | once a lease is granted, every later attempt on the same key fails before the lease expires and changes nothing |
| `SingleInstance.ExactlyOneOfTwoWins` | flask_celery.py:47-51 | of two simultaneous attempts on a free key, the first wins and the second fails |
| `SingleInstance.ExpiredLeaseCanBeRetaken` | flask_celery.py:47 | a lease that was never released can be taken again once its time to live has passed |
| `SingleInstance.ReleaseFreesKey` | flask_celery.py:60 | after a release the key can be acquired again at once |
| `SingleInstance.SendReportExample` | flask_celery.py:44-47 | task `send_report` without include_args and with lock_timeout 10 uses key `_celery.single_instance.send_report` and a 15-second lease |
| `SingleInstance.OtherInstanceMessage` | flask_celery.py:51 | the `OtherInstanceError` text starts with `Failed to acquire lock, ` and then names exactly the task identifier |
| `SingleInstance.RedisStore.constructor` | flask_celery.py:43 | a fresh store holds no keys |
| `SingleInstance.RedisStore.SetIfAbsent` | flask_celery.py:49 | the store changes exactly as `TrySet` says, and the call returns whether the lease was granted |
| `SingleInstance.RedisStore.Delete` | flask_celery.py:60 | the key is removed and every other key is kept |
| `SingleInstance.LockManagerRedis.constructor` | flask_celery.py:28-39 | the manager records its store, lock_timeout, limits and identifier, and holds no lease yet |
| `SingleInstance.LockManagerRedis.Timeout` | flask_celery.py:45 | the manager's `timeout` is never exactly the 5-second margin, and with non-negative limits it exceeds it |
| `SingleInstance.LockManagerRedis.Key` | flask_celery.py:44 | the manager's Redis key is `_celery.single_instance.` followed by exactly its task identifier |
| `SingleInstance.LockManagerRedis.Enter` | flask_celery.py:42-53 | succeeds if and only if no lease on the key is in force, and then stores the key with expiry now + timeout; otherwise it raises `OtherInstanceError` with the message naming the identifier, and leaves the store unchanged |
| `SingleInstance.LockManagerRedis.Exit` | flask_celery.py:55-60 | runs only after a successful acquire; it deletes the key and nothing else |
| `SingleInstance.RaceTwoInvocations` | flask_celery.py:42-60 | two interleaved invocations on a free key: the first acquires; the second gets `OtherInstanceError`, and right after that the store still holds the holder's key with expiry now + timeout; after the holder exits the key is gone |
| `SingleInstance.Wrapped` | flask_celery.py:177-198 | a non-Redis backend raises `NotImplementedError` before the store is touched or the body runs; a held key raises `OtherInstanceError` naming the identifier, without running the body or changing the store; otherwise the body runs once while the store holds the key with expiry now + the resolved timeout, its return value comes back unchanged or its exception is re-raised, and the key is deleted afterwards |

## Left out

- The `Celery` subclass, `init_app`, `_CeleryState`, the `_register_app` swap and `ContextTask` (flask_celery.py:75-145). They are framework set-up code and play no part in the lock.
- `current_app` lookups are left out: the Redis client, the config reads and the backend URL discovery, including the `url`/`dburi` fallback. The config limits and the backend URL are inputs instead.
- redis-py's `Lock` internals are left out: the token, ownership checks and Lua scripts. The store does an abstract atomic set-if-absent with an expiry, and a delete. So `Exit` deletes the key even if the lease has expired in the meantime and another worker took it. redis-py would refuse that release with a `LockNotOwnedError`.
- MD5 and Python's `str()` formatting are opaque function parameters. The model does not check the digest or its 32-hex-character shape.
- Logging, the `partial` trick for optional decorator arguments, and `functools.wraps` are left out.
- Real concurrency is left out. A race is modelled as two acquire attempts, one after the other, against the single atomic store operation (`ExactlyOneOfTwoWins`, `RaceTwoInvocations`). Store transport errors are not modelled.
- Limits that are floats, which `int(...)` at line 72 would truncate, are left out. Every candidate is an integer.
- SingleInstance.Wrapped: when the backend is Redis, requires the resolved timeout to be positive. A non-Redis backend raises `NotImplementedError` whatever the limits. Negative limits are accepted as long as the timeout they resolve to is positive. A Redis-backed call whose timeout resolves to 0 or below is not modelled: redis-py treats 0 as "no expiry", and Redis rejects a negative expiry. `TimeoutExceedsMargin` shows that non-negative limits always meet the requirement.
- SingleInstance.LockManagerRedis.Enter: requires a positive timeout, for the same reason.
- SingleInstance.RaceTwoInvocations: requires a positive timeout, for the same reason.
- TaskIdentity.SortByKey: sorts the keyword pairs by name. The source sorts the names and then looks each one up. With distinct names the result is the same.
- The dead `isinstance(exc_type, OtherInstanceError)` branch (flask_celery.py:56-58) can never be taken, so it is not modelled.
