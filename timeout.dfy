/**
 * How `_LockManagerRedis.timeout` chooses the lease duration of the lock:
 * the first "truthy" candidate of a fixed chain, plus a five-second margin.
 */
module LockTimeout {
  import opened Wrappers

  /** Seconds added to the chosen limit, in case the task overruns it slightly. */
  const Margin: int := 5

  /** Used when no limit is configured anywhere: five minutes. */
  const LastResort: int := 60 * 5

  /** The limits a bound Celery task declares; either may be `None`. */
  datatype TaskLimits = TaskLimits(softTimeLimit: Option<int>, timeLimit: Option<int>)

  /**
   * The application-wide defaults. The source reads them with
   * `int(config.get(..., 0))`, so a missing setting is the integer 0.
   */
  datatype ConfigLimits = ConfigLimits(softTimeLimit: int, timeLimit: int)

  /** Python truthiness of an optional integer: `None` and `0` are false. */
  predicate Truthy(v: Option<int>)
  {
    v.Some? && v.value != 0
  }

  /** Python's `a or b` on optional integers: `a` when it is truthy, otherwise `b`. */
  function Or(a: Option<int>, b: Option<int>): (r: Option<int>)
    ensures r == a || r == b
    ensures Truthy(r) <==> Truthy(a) || Truthy(b)
  {
    if Truthy(a) then a else b
  }

  /**
   * Python groups `a or b or c` as `(a or b) or c`; the right-nested chain in
   * `Timeout` gives the same value.
   */
  lemma OrAssociative(a: Option<int>, b: Option<int>, c: Option<int>)
    ensures Or(Or(a, b), c) == Or(a, Or(b, c))
  {
  }

  /**
   * The `timeout` property: `lock_timeout or task soft limit or task hard limit
   * or config soft limit or config hard limit or 300`, plus the margin.
   */
  function Timeout(lockTimeout: Option<int>, task: TaskLimits, config: ConfigLimits): (t: int)
    ensures t - Margin == LastResort || Some(t - Margin) in Candidates(lockTimeout, task, config)
    ensures t != Margin
  {
    var finalAnswer :=
      Or(lockTimeout, Or(task.softTimeLimit, Or(task.timeLimit,
        Or(Some(config.softTimeLimit), Or(Some(config.timeLimit), Some(LastResort))))));
    finalAnswer.value + Margin
  }

  /** The candidates of the chain in precedence order (the last resort excluded). */
  function Candidates(lockTimeout: Option<int>, task: TaskLimits, config: ConfigLimits): (c: seq<Option<int>>)
    ensures |c| == 5 && c[0] == lockTimeout
  {
    [lockTimeout, task.softTimeLimit, task.timeLimit, Some(config.softTimeLimit), Some(config.timeLimit)]
  }

  /** Independent reading of the chain: the index of the first truthy candidate, or `|c|` when there is none. */
  function FirstTruthy(c: seq<Option<int>>): (k: nat)
    ensures k <= |c|
    ensures k < |c| ==> Truthy(c[k])
    ensures forall j :: 0 <= j < k ==> !Truthy(c[j])
  {
    if c == [] then 0
    else if Truthy(c[0]) then 0
    else 1 + FirstTruthy(c[1..])
  }

  /** Every candidate is absent or non-negative, as real time limits are. */
  predicate NonNegative(lockTimeout: Option<int>, task: TaskLimits, config: ConfigLimits)
  {
    forall v :: v in Candidates(lockTimeout, task, config) && v.Some? ==> v.value >= 0
  }

  /**
   * Precedence: the timeout is the first truthy candidate plus the margin,
   * and the last resort plus the margin when every candidate is `None` or 0.
   */
  lemma TimeoutIsFirstTruthyPlusMargin(lockTimeout: Option<int>, task: TaskLimits, config: ConfigLimits)
    ensures var c := Candidates(lockTimeout, task, config);
            var k := FirstTruthy(c);
            Timeout(lockTimeout, task, config) == (if k < |c| then c[k].value else LastResort) + Margin
  {
    var c := Candidates(lockTimeout, task, config);
    assert c[1..][1..][1..][1..][1..] == [];
    if !Truthy(c[0]) {
      assert c[1..][0] == c[1];
      if !Truthy(c[1]) {
        assert c[1..][1..][0] == c[2];
        if !Truthy(c[2]) {
          assert c[1..][1..][1..][0] == c[3];
          if !Truthy(c[3]) {
            assert c[1..][1..][1..][1..][0] == c[4];
          }
        }
      }
    }
  }

  /** With nothing configured anywhere the lease lasts 305 seconds. */
  lemma NoLimitsGives305(task: TaskLimits, config: ConfigLimits)
    requires !Truthy(task.softTimeLimit) && !Truthy(task.timeLimit)
    requires config.softTimeLimit == 0 && config.timeLimit == 0
    ensures Timeout(None, task, config) == 305
  {
  }

  /** An explicit nonzero `lock_timeout` overrides every other source. */
  lemma ExplicitTimeoutOverrides(lockTimeout: int, task: TaskLimits, config: ConfigLimits)
    requires lockTimeout != 0
    ensures Timeout(Some(lockTimeout), task, config) == lockTimeout + Margin
  {
  }

  /** With non-negative candidates the lease is never shorter than the margin; in fact it exceeds it. */
  lemma TimeoutExceedsMargin(lockTimeout: Option<int>, task: TaskLimits, config: ConfigLimits)
    requires NonNegative(lockTimeout, task, config)
    ensures Timeout(lockTimeout, task, config) > Margin
  {
  }

  /** Only the task's hard limit is set to 30 seconds: the lease lasts 35 seconds. */
  lemma HardLimitOnlyExample()
    ensures Timeout(None, TaskLimits(None, Some(30)), ConfigLimits(0, 0)) == 35
  {
  }
}
