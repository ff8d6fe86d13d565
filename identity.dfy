/**
 * The task identifier that names one slot of mutual exclusion, and the Redis
 * key derived from it (`wrapped` in `single_instance` and
 * `_LockManagerRedis.CELERY_LOCK_REDIS`).
 */
module TaskIdentity {

  /** A keyword argument as passed to the task: its name and its value. */
  type Kwarg<V> = (string, V)

  /**
   * The two library functions the identifier relies on, kept opaque: Python's
   * `str()` of the positional-argument tuple and of the list of sorted
   * keyword pairs, and the hexadecimal MD5 digest of the UTF-8 encoding of a
   * string. Any deterministic functions will do; nothing proved here depends
   * on what they compute.
   */
  datatype Serialisation<!V> = Serialisation(
    reprArgs: seq<V> -> string,
    reprKwargs: seq<Kwarg<V>> -> string,
    md5HexDigest: string -> string)

  /** Python's `<` on `str`: lexicographic by code point, a proper prefix first. */
  predicate Less(a: string, b: string)
    ensures Less(a, b) ==> a != b
  {
    if a == [] then b != []
    else if b == [] then false
    else a[0] < b[0] || (a[0] == b[0] && Less(a[1..], b[1..]))
  }

  lemma {:induction false} LessIrreflexive(a: string)
    ensures !Less(a, a)
  {
    if a != [] {
      LessIrreflexive(a[1..]);
    }
  }

  lemma {:induction false} LessTransitive(a: string, b: string, c: string)
    requires Less(a, b) && Less(b, c)
    ensures Less(a, c)
  {
    if a != [] && b != [] && c != [] && a[0] == b[0] == c[0] {
      LessTransitive(a[1..], b[1..], c[1..]);
    }
  }

  lemma {:induction false} LessTotal(a: string, b: string)
    requires a != b
    ensures Less(a, b) || Less(b, a)
  {
    if a != [] && b != [] && a[0] == b[0] {
      assert a == [a[0]] + a[1..] && b == [b[0]] + b[1..];
      LessTotal(a[1..], b[1..]);
    }
  }

  lemma LessAsymmetric(a: string, b: string)
    requires Less(a, b)
    ensures !Less(b, a)
  {
  }

  /** Keyword names of a call are pairwise distinct (Python forbids repeating one). */
  predicate DistinctKeys<V>(kw: seq<Kwarg<V>>)
  {
    forall i, j :: 0 <= i < j < |kw| ==> kw[i].0 != kw[j].0
  }

  /** Keys strictly increasing: the order `sorted(kwargs)` produces. */
  predicate SortedByKey<V>(kw: seq<Kwarg<V>>)
  {
    forall i, j :: 0 <= i < j < |kw| ==> Less(kw[i].0, kw[j].0)
  }

  /** Insert one pair into a list sorted by key. */
  function Insert<V>(p: Kwarg<V>, s: seq<Kwarg<V>>): (r: seq<Kwarg<V>>)
    ensures multiset(r) == multiset(s) + multiset{p}
    ensures forall q :: q in r ==> q == p || q in s
  {
    if s == [] then [p]
    else if Less(p.0, s[0].0) then [p] + s
    else
      assert s == [s[0]] + s[1..];
      [s[0]] + Insert(p, s[1..])
  }

  lemma {:induction false} InsertSorted<V>(p: Kwarg<V>, s: seq<Kwarg<V>>)
    requires SortedByKey(s)
    requires forall q :: q in s ==> q.0 != p.0
    ensures SortedByKey(Insert(p, s))
  {
    if s != [] && !Less(p.0, s[0].0) {
      LessTotal(p.0, s[0].0);
      InsertSorted(p, s[1..]);
      var t := Insert(p, s[1..]);
      forall q | q in t
        ensures Less(s[0].0, q.0)
      {
        if q != p {
          var j :| 0 <= j < |s[1..]| && s[1..][j] == q;
          assert s[j + 1] == q;
        }
      }
    } else if s != [] {
      forall i, j | 0 <= i < j < |[p] + s|
        ensures Less(([p] + s)[i].0, ([p] + s)[j].0)
      {
        if i == 0 && j > 1 {
          LessTransitive(p.0, s[0].0, s[j - 1].0);
        }
      }
    }
  }

  /** `[(k, kwargs[k]) for k in sorted(kwargs)]`: the keyword pairs ordered by name. */
  function SortByKey<V>(kw: seq<Kwarg<V>>): (r: seq<Kwarg<V>>)
    ensures multiset(r) == multiset(kw)
  {
    if kw == [] then []
    else
      assert kw == [kw[0]] + kw[1..];
      Insert(kw[0], SortByKey(kw[1..]))
  }

  /** Sorting distinct names yields a strictly increasing list that is a permutation of the input. */
  lemma {:induction false} SortByKeySorted<V>(kw: seq<Kwarg<V>>)
    requires DistinctKeys(kw)
    ensures SortedByKey(SortByKey(kw)) && multiset(SortByKey(kw)) == multiset(kw)
  {
    if kw != [] {
      SortByKeySorted(kw[1..]);
      forall q | q in SortByKey(kw[1..])
        ensures q.0 != kw[0].0
      {
        assert q in multiset(kw[1..]);
        var j :| 0 <= j < |kw[1..]| && kw[1..][j] == q;
        assert kw[j + 1] == q;
      }
      InsertSorted(kw[0], SortByKey(kw[1..]));
    }
  }

  /** Two strictly sorted lists holding the same pairs start with the same pair: the least key. */
  lemma SortedHeadsEqual<V>(a: seq<Kwarg<V>>, b: seq<Kwarg<V>>)
    requires SortedByKey(a) && SortedByKey(b)
    requires a != [] && b != [] && multiset(a) == multiset(b)
    ensures a[0] == b[0]
  {
    assert a[0] in multiset(b) && b[0] in multiset(a);
    if a[0] != b[0] {
      var i :| 0 <= i < |a| && a[i] == b[0];
      var j :| 0 <= j < |b| && b[j] == a[0];
      assert Less(a[0].0, b[0].0) && Less(b[0].0, a[0].0);
      LessAsymmetric(a[0].0, b[0].0);
      assert false;
    }
  }

  lemma TailMultiset<V>(a: seq<V>)
    requires a != []
    ensures multiset(a[1..]) == multiset(a) - multiset{a[0]}
  {
    assert a == [a[0]] + a[1..];
  }

  /** Two strictly sorted lists holding the same pairs are the same list. */
  lemma {:induction false} SortedUnique<V>(a: seq<Kwarg<V>>, b: seq<Kwarg<V>>)
    requires SortedByKey(a) && SortedByKey(b)
    requires multiset(a) == multiset(b)
    ensures a == b
  {
    if a == [] || b == [] {
      assert |a| == |multiset(a)| == |multiset(b)| == |b|;
    } else {
      SortedHeadsEqual(a, b);
      TailMultiset(a);
      TailMultiset(b);
      SortedUnique(a[1..], b[1..]);
      assert a == [a[0]] + a[1..] && b == [b[0]] + b[1..];
    }
  }

  /** The positional and keyword arguments as one string, keywords sorted by name. */
  function MergedArgs<V>(ser: Serialisation<V>, args: seq<V>, kwargs: seq<Kwarg<V>>): (m: string)
    ensures |ser.reprArgs(args)| <= |m| && m[..|ser.reprArgs(args)|] == ser.reprArgs(args)
    ensures m[|ser.reprArgs(args)|..] == ser.reprKwargs(SortByKey(kwargs))
    ensures DistinctKeys(kwargs) ==> SortedByKey(SortByKey(kwargs))
  {
    if DistinctKeys(kwargs) then SortByKeySorted(kwargs); ser.reprArgs(args) + ser.reprKwargs(SortByKey(kwargs))
    else ser.reprArgs(args) + ser.reprKwargs(SortByKey(kwargs))
  }

  /**
   * The task identifier: the task name, followed by `.args.` and the digest of
   * the merged arguments when `include_args` is set.
   */
  function TaskIdentifier<V>(name: string, args: seq<V>, kwargs: seq<Kwarg<V>>, includeArgs: bool,
                             ser: Serialisation<V>): (id: string)
    ensures |name| <= |id| && id[..|name|] == name
  {
    if includeArgs then name + ".args." + ser.md5HexDigest(MergedArgs(ser, args, kwargs)) else name
  }

  /** Without `include_args` every call of one task shares one identifier, its name. */
  lemma IdentifierIgnoresArgs<V>(name: string, args1: seq<V>, kwargs1: seq<Kwarg<V>>,
                                 args2: seq<V>, kwargs2: seq<Kwarg<V>>, ser: Serialisation<V>)
    ensures TaskIdentifier(name, args1, kwargs1, false, ser) == name
    ensures TaskIdentifier(name, args1, kwargs1, false, ser) == TaskIdentifier(name, args2, kwargs2, false, ser)
  {
  }

  /** Keyword arguments passed in any order are sorted into the same list. */
  lemma SortByKeyIgnoresOrder<V>(kwargs1: seq<Kwarg<V>>, kwargs2: seq<Kwarg<V>>)
    requires DistinctKeys(kwargs1) && DistinctKeys(kwargs2)
    requires multiset(kwargs1) == multiset(kwargs2)
    ensures SortByKey(kwargs1) == SortByKey(kwargs2)
  {
    SortByKeySorted(kwargs1);
    SortByKeySorted(kwargs2);
    SortedUnique(SortByKey(kwargs1), SortByKey(kwargs2));
  }

  /** With `include_args` the order in which keyword arguments were passed does not change the identifier. */
  lemma IdentifierIgnoresKwargOrder<V>(name: string, args: seq<V>, kwargs1: seq<Kwarg<V>>,
                                       kwargs2: seq<Kwarg<V>>, ser: Serialisation<V>)
    requires DistinctKeys(kwargs1) && DistinctKeys(kwargs2)
    requires multiset(kwargs1) == multiset(kwargs2)
    ensures TaskIdentifier(name, args, kwargs1, true, ser) == TaskIdentifier(name, args, kwargs2, true, ser)
  {
    SortByKeyIgnoresOrder(kwargs1, kwargs2);
  }

  /**
   * With `include_args` the identifier extends the name by `.args.` and the
   * digest, so calls whose merged arguments hash differently get different
   * identifiers, and no such identifier equals a bare task name of the same task.
   */
  lemma IdentifierSeparatesDigests<V>(name: string, args1: seq<V>, kwargs1: seq<Kwarg<V>>,
                                      args2: seq<V>, kwargs2: seq<Kwarg<V>>, ser: Serialisation<V>)
    ensures TaskIdentifier(name, args1, kwargs1, true, ser) != name
    ensures ser.md5HexDigest(MergedArgs(ser, args1, kwargs1)) != ser.md5HexDigest(MergedArgs(ser, args2, kwargs2))
            ==> TaskIdentifier(name, args1, kwargs1, true, ser) != TaskIdentifier(name, args2, kwargs2, true, ser)
  {
    var d1 := ser.md5HexDigest(MergedArgs(ser, args1, kwargs1));
    var d2 := ser.md5HexDigest(MergedArgs(ser, args2, kwargs2));
    var id1 := TaskIdentifier(name, args1, kwargs1, true, ser);
    var id2 := TaskIdentifier(name, args2, kwargs2, true, ser);
    var head := name + ".args.";
    assert |id1| > |name|;
    if id1 == id2 {
      assert id1[|head|..] == d1 && id2[|head|..] == d2;
    }
  }

  /** The namespace of the lock keys: `CELERY_LOCK_REDIS` without its `{task_id}` placeholder. */
  const KeyPrefix: string := "_celery.single_instance."

  /** `CELERY_LOCK_REDIS.format(task_id=...)`: the Redis key that guards one task identifier. */
  function LockKey(taskIdentifier: string): (key: string)
    ensures |key| == |KeyPrefix| + |taskIdentifier|
    ensures key[..|KeyPrefix|] == KeyPrefix && key[|KeyPrefix|..] == taskIdentifier
  {
    KeyPrefix + taskIdentifier
  }

  /** Distinct task identifiers are guarded by distinct keys, and equal ones by the same key. */
  lemma LockKeyInjective(a: string, b: string)
    ensures LockKey(a) == LockKey(b) <==> a == b
  {
  }
}
