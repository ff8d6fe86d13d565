/**
 * Choosing the lock manager from the Celery result-backend URL: the text
 * before the first `://` (Python's `url.split('://')[0]`) must contain
 * `redis`; any other backend is refused with `NotImplementedError`.
 */
module BackendSelection {
  import opened Wrappers

  const Separator: string := "://"

  /** `sub` occurs in `s` starting at index `i`. */
  predicate OccursAt(s: string, sub: string, i: int)
  {
    0 <= i && i + |sub| <= |s| && s[i..i + |sub|] == sub
  }

  /** Python's `sub in s` for strings, stated directly. */
  ghost predicate Within(sub: string, s: string)
  {
    exists i :: OccursAt(s, sub, i)
  }

  /** The first index at or after `from` where the separator starts, or `|url|` when there is none. */
  function SeparatorIndex(url: string, from: nat): (k: nat)
    requires from <= |url|
    ensures from <= k <= |url|
    ensures k < |url| ==> OccursAt(url, Separator, k)
    ensures forall j :: from <= j < k ==> !OccursAt(url, Separator, j)
    decreases |url| - from
  {
    if from + |Separator| > |url| then |url|
    else if url[from..from + |Separator|] == Separator then from
    else SeparatorIndex(url, from + 1)
  }

  /**
   * What `split(...)[0]` means: a prefix of the URL in which no separator
   * starts, which is either the whole URL or is followed by the separator.
   */
  ghost predicate IsFirstField(url: string, scheme: string)
  {
    && |scheme| <= |url| && url[..|scheme|] == scheme
    && (forall j :: 0 <= j < |scheme| ==> !OccursAt(url, Separator, j))
    && (|scheme| == |url| || OccursAt(url, Separator, |scheme|))
  }

  /** `url.split('://')[0]`: the whole URL when it holds no separator. */
  function Scheme(url: string): (scheme: string)
    ensures IsFirstField(url, scheme)
  {
    url[..SeparatorIndex(url, 0)]
  }

  /** `Scheme` is the first field, and the first field is unique. */
  lemma SchemeIsFirstField(url: string, other: string)
    ensures IsFirstField(url, Scheme(url))
    ensures IsFirstField(url, other) ==> other == Scheme(url)
  {
  }

  /** `sub in s`, by a left-to-right search from index `from`. */
  function ContainsFrom(s: string, sub: string, from: nat): (found: bool)
    requires from <= |s|
    ensures found <==> exists i :: from <= i && OccursAt(s, sub, i)
    decreases |s| - from
  {
    if from + |sub| > |s| then false
    else if s[from..from + |sub|] == sub then
      assert OccursAt(s, sub, from);
      true
    else
      assert forall i :: from <= i && OccursAt(s, sub, i) ==> i == from || from + 1 <= i;
      ContainsFrom(s, sub, from + 1)
  }

  function Contains(s: string, sub: string): (found: bool)
    ensures found <==> Within(sub, s)
  {
    ContainsFrom(s, sub, 0)
  }

  /** The only lock manager the source implements. */
  datatype LockBackend = Redis

  datatype SelectionError = NotImplementedError

  /** Picks the Redis lock manager iff the scheme contains `redis`. */
  function SelectBackend(url: string): (r: Result<LockBackend, SelectionError>)
    ensures r == Success(Redis) <==> Within("redis", Scheme(url))
    ensures r != Success(Redis) ==> r == Failure(NotImplementedError)
  {
    if Contains(Scheme(url), "redis") then Success(Redis) else Failure(NotImplementedError)
  }

  /** Two occurrences of `://` never overlap. */
  lemma SeparatorDoesNotOverlap(s: string, i: int, k: int)
    requires OccursAt(s, Separator, k) && i < k < i + |Separator|
    ensures !OccursAt(s, Separator, i)
  {
    assert s[k] == s[k..k + 3][0] == ':';
  }

  /**
   * Only the first field is consulted: when it lacks `redis`, the URL is
   * refused whatever follows the separator, `redis` included.
   */
  lemma SelectionIgnoresRest(scheme: string, rest: string)
    requires !Within(Separator, scheme) && !Within("redis", scheme)
    ensures SelectBackend(scheme + Separator + rest) == Failure(NotImplementedError)
  {
    var url := scheme + Separator + rest;
    assert url[..|scheme|] == scheme;
    forall j | 0 <= j < |scheme|
      ensures !OccursAt(url, Separator, j)
    {
      if j + |Separator| <= |scheme| {
        assert url[j..j + |Separator|] == scheme[j..j + |Separator|];
        assert !OccursAt(scheme, Separator, j);
      } else {
        assert OccursAt(url, Separator, |scheme|);
        SeparatorDoesNotOverlap(url, j, |scheme|);
      }
    }
    assert url[|scheme|..|scheme| + |Separator|] == Separator;
    SchemeIsFirstField(url, scheme);
  }

  /** A plain Redis URL selects the Redis manager. */
  lemma RedisUrlSelectsRedis(rest: string)
    ensures SelectBackend("redis" + Separator + rest) == Success(Redis)
  {
    var url := "redis" + Separator + rest;
    assert OccursAt(url, Separator, 5);
    forall j | 0 <= j < 5
      ensures !OccursAt(url, Separator, j)
    {
      assert url[j] == "redis"[j] != ':';
    }
    SchemeIsFirstField(url, "redis");
    assert OccursAt("redis", "redis", 0);
  }
}
