/**
 * The in-memory fixed-window rate limiter of `lib/rate-limit.ts`, as a state
 * machine: the store maps keys to a call count and the time its window ends,
 * and each call takes the store and the current time and returns the verdict
 * with the next store. Also the client-address rule used to build keys.
 */
module RateLimit {
  import opened Wrappers
  import opened Text

  /** The stored window of one key. */
  datatype Entry = Entry(count: int, resetAt: int)

  type Store = map<string, Entry>

  /** The verdict of one call; the source tag is always "memory" on this path. */
  datatype Verdict = Verdict(allowed: bool, remaining: int, reset: int)

  datatype Step = Step(verdict: Verdict, store: Store)

  /** The store size above which expired entries are swept before a call. */
  const EvictionThreshold: int := 5000

  function Max(a: int, b: int): int {
    if a > b then a else b
  }

  /** The sweep: when the store holds more than 5000 keys, every expired entry is deleted. */
  function Evict(store: Store, now: int): (r: Store)
    ensures forall k :: k in r <==> k in store && (|store| <= EvictionThreshold || store[k].resetAt > now)
    ensures forall k :: k in r ==> r[k] == store[k]
    ensures |store| <= EvictionThreshold ==> r == store
  {
    if |store| > EvictionThreshold then map k | k in store && store[k].resetAt > now :: store[k]
    else store
  }

  /** `memoryLimit` for one key at time `now`. */
  function MemoryLimit(store: Store, key: string, limit: int, windowMs: int, now: int): (s: Step)
    ensures key in s.store
    // a key with no live window opens a new one and is allowed
    ensures var swept := Evict(store, now);
            key !in swept || swept[key].resetAt <= now ==>
              && s.verdict == Verdict(true, Max(0, limit - 1), now + windowMs)
              && s.store[key] == Entry(1, now + windowMs)
    // inside a live window the count goes up by one and the window end stays
    ensures var swept := Evict(store, now);
            key in swept && swept[key].resetAt > now ==>
              && s.store[key] == Entry(swept[key].count + 1, swept[key].resetAt)
              && s.verdict == Verdict(swept[key].count + 1 <= limit, Max(0, limit - (swept[key].count + 1)), swept[key].resetAt)
    ensures s.verdict.remaining >= 0
    // every other key is only touched by the sweep
    ensures forall k :: k != key ==> (k in s.store <==> k in Evict(store, now))
    ensures forall k :: k != key && k in s.store ==> s.store[k] == store[k]
  {
    var swept := Evict(store, now);
    if key !in swept || swept[key].resetAt <= now then
      Step(Verdict(true, Max(0, limit - 1), now + windowMs), swept[key := Entry(1, now + windowMs)])
    else
      var count := swept[key].count + 1;
      Step(Verdict(count <= limit, Max(0, limit - count), swept[key].resetAt),
           swept[key := Entry(count, swept[key].resetAt)])
  }

  /** Once a call is denied, every later call in the same window is denied too. */
  lemma DeniedStaysDenied(store: Store, key: string, limit: int, windowMs: int, now: int, later: int)
    requires !MemoryLimit(store, key, limit, windowMs, now).verdict.allowed
    requires now <= later < MemoryLimit(store, key, limit, windowMs, now).verdict.reset
    ensures var next := MemoryLimit(store, key, limit, windowMs, now).store;
            var v := MemoryLimit(next, key, limit, windowMs, later).verdict;
            !v.allowed && v.reset == MemoryLimit(store, key, limit, windowMs, now).verdict.reset
  {
  }

  /**
   * A run of calls for one key: the first at `times[0]` finds no live window,
   * and all of them fall before that window ends. Returns each call's verdict.
   */
  method Run(store: Store, key: string, limit: int, windowMs: int, times: seq<int>) returns (allowed: seq<bool>)
    requires |times| > 0 && windowMs > 0
    requires key !in store || store[key].resetAt <= times[0]
    requires forall i :: 0 <= i < |times| ==> times[0] <= times[i] < times[0] + windowMs
    ensures |allowed| == |times|
    ensures forall i :: 0 <= i < |times| ==> (allowed[i] <==> i == 0 || i + 1 <= limit)
  {
    var first := MemoryLimit(store, key, limit, windowMs, times[0]);
    var current := first.store;
    allowed := [first.verdict.allowed];
    var i := 1;
    while i < |times|
      invariant 1 <= i <= |times|
      invariant |allowed| == i
      invariant key in current && current[key] == Entry(i, times[0] + windowMs)
      invariant forall j :: 0 <= j < i ==> (allowed[j] <==> j == 0 || j + 1 <= limit)
    {
      var step := MemoryLimit(current, key, limit, windowMs, times[i]);
      allowed := allowed + [step.verdict.allowed];
      current := step.store;
      i := i + 1;
    }
  }

  /** The part of a header before its first comma (`split(",")[0]`). */
  function FirstField(header: string): (r: string)
    ensures |r| <= |header| && r == header[..|r|]
    ensures ',' !in r
    ensures |r| < |header| ==> header[|r|] == ','
  {
    if header == [] || header[0] == ',' then []
    else [header[0]] + FirstField(header[1..])
  }

  /**
   * `getClientIp`: the trimmed first entry of a non-empty `x-forwarded-for`,
   * else `x-real-ip`, else "unknown". Missing headers are `None`.
   */
  function GetClientIp(forwardedFor: Option<string>, realIp: Option<string>): (ip: string)
    ensures forwardedFor.Some? && forwardedFor.value != "" ==> ip == Trim(FirstField(forwardedFor.value))
    ensures forwardedFor.Some? && forwardedFor.value != "" ==> IsTrimmed(ip) && ',' !in ip
    ensures forwardedFor.Some? && forwardedFor.value != "" && ',' !in forwardedFor.value ==> ip == Trim(forwardedFor.value)
    ensures (forwardedFor.None? || forwardedFor.value == "") ==> ip == realIp.GetOr("unknown")
  {
    match forwardedFor
    case Some(forwarded) =>
      if forwarded != "" then
        FirstEntry(forwarded);
        Trim(FirstField(forwarded))
      else realIp.GetOr("unknown")
    case None => realIp.GetOr("unknown")
  }

  /** The trimmed first entry has no comma, and is the whole trimmed header when there is none. */
  lemma FirstEntry(header: string)
    ensures var ip := Trim(FirstField(header));
            IsTrimmed(ip) && ',' !in ip && (',' !in header ==> ip == Trim(header))
  {
    var f := FirstField(header);
    TrimSubsequence(f);
    if ',' !in header {
      assert f == header;
    }
  }

  /** Trimming keeps only characters of the original. */
  lemma TrimSubsequence(s: string)
    ensures forall c :: c in Trim(s) ==> c in s
  {
    var t := TrimStart(s);
    forall c | c in Trim(s)
      ensures c in s
    {
      var i :| 0 <= i < |Trim(s)| && Trim(s)[i] == c;
      assert Trim(s) == TrimEnd(t);
      assert TrimEnd(t)[i] == t[i];
      assert t[i] == s[|s| - |t| + i];
    }
  }
}
