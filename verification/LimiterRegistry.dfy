/**
  The bandwidth limiters (`BandwidthManager::get_or_create_limiter`): a read-only lookup, and on a miss an
  atomic insert-if-absent. The two are separate steps, so another call can insert in between.
*/
module LimiterRegistry {
  import opened TokenBucket
  import Limiter

  const BURST := 65536
  const MIN_RATE := 1024

  function RegistryConfig(rate: nat): Config {
    Config(if rate < MIN_RATE then MIN_RATE else rate, BURST)
  }

  // ----- Any number of calls at once ----------------------------------------------------

  /** Limiter objects are numbered in order of creation. */
  datatype Call<K> =
    | Looking(key: K)
    | Missed(key: K)
    | Returned(key: K, limiter: nat)

  datatype Registry<!K> = Registry(entries: map<K, nat>, created: nat, calls: map<nat, Call<K>>)

  datatype Move<K> = Begin(call: nat, key: K) | Lookup(call: nat) | InsertIfAbsent(call: nat)

  predicate Enabled<K(==)>(r: Registry<K>, m: Move<K>) {
    match m
    case Begin(call, _) => call !in r.calls
    case Lookup(call) => call in r.calls && r.calls[call].Looking?
    case InsertIfAbsent(call) => call in r.calls && r.calls[call].Missed?
  }

  function Next<K(==)>(r: Registry<K>, m: Move<K>): Registry<K>
    requires Enabled(r, m)
  {
    match m
    case Begin(call, key) => r.(calls := r.calls[call := Looking(key)])
    case Lookup(call) =>
      var key := r.calls[call].key;
      if key in r.entries then
        r.(calls := r.calls[call := Returned(key, r.entries[key])])
      else
        r.(calls := r.calls[call := Missed(key)])
    case InsertIfAbsent(call) =>
      var key := r.calls[call].key;
      if key in r.entries then
        r.(calls := r.calls[call := Returned(key, r.entries[key])])
      else
        Registry(r.entries[key := r.created], r.created + 1, r.calls[call := Returned(key, r.created)])
  }

  /** The registry after any sequence of attempted moves; a move that is not enabled has no effect. */
  function Exec<K(==)>(moves: seq<Move<K>>): Registry<K> {
    if moves == [] then
      Registry(map[], 0, map[])
    else
      var r, m := Exec(moves[..|moves| - 1]), moves[|moves| - 1];
      if Enabled(r, m) then Next(r, m) else r
  }

  ghost predicate Consistent<K(!new)>(r: Registry<K>) {
    && (forall k <- r.entries :: r.entries[k] < r.created)
    && (forall k <- r.entries, k' <- r.entries :: r.entries[k] == r.entries[k'] ==> k == k')
    && (forall i <- r.calls :: r.calls[i].Returned? ==>
          r.calls[i].key in r.entries && r.entries[r.calls[i].key] == r.calls[i].limiter)
    && r.created == |r.entries|
  }

  lemma {:induction false} AlwaysConsistent<K(!new)>(moves: seq<Move<K>>)
    ensures Consistent(Exec(moves))
    decreases |moves|
  {
    if moves != [] {
      AlwaysConsistent(moves[..|moves| - 1]);
    }
  }

  /** Two calls that returned got the same limiter object exactly when they asked for the same key. */
  lemma OneLimiterPerKey<K(!new)>(moves: seq<Move<K>>, i: nat, j: nat)
    requires var calls := Exec(moves).calls;
             i in calls && calls[i].Returned? && j in calls && calls[j].Returned?
    ensures var calls := Exec(moves).calls;
            calls[i].limiter == calls[j].limiter <==> calls[i].key == calls[j].key
  {
    AlwaysConsistent(moves);
  }

  /** The steps of a call performed in a run. */
  function Steps<K(==)>(moves: seq<Move<K>>, i: nat): nat {
    if moves == [] then 0
    else
      var r, m := Exec(moves[..|moves| - 1]), moves[|moves| - 1];
      Steps(moves[..|moves| - 1], i) + if Enabled(r, m) && !m.Begin? && m.call == i then 1 else 0
  }

  /** However the calls interleave, a call has returned after two steps, with a limiter for the key it began with. */
  lemma {:induction false} EveryCallReturns<K(!new)>(moves: seq<Move<K>>, i: nat)
    ensures var calls := Exec(moves).calls;
            if i in calls then
              && Begin(i, calls[i].key) in moves
              && (calls[i].Looking? ==> Steps(moves, i) == 0) && (calls[i].Missed? ==> Steps(moves, i) == 1)
            else
              Steps(moves, i) == 0
    decreases |moves|
  {
    if moves != [] {
      EveryCallReturns(moves[..|moves| - 1], i);
    }
  }

  // ----- The object ---------------------------------------------------------------------

  class LimiterMap<K(==)> {
    var limiters: map<K, Limiter.SimpleLimiter>

    constructor ()
      ensures limiters == map[]
    {
      limiters := map[];
    }

    /** Run without interruption: the limiter stored for the key, created full on first use. */
    method GetOrCreate(key: K, ratePerSec: nat, now: real) returns (limiter: Limiter.SimpleLimiter)
      modifies this
      ensures limiters == old(limiters)[key := limiter]
      ensures key in old(limiters) ==> limiter == old(limiters)[key]
      ensures key !in old(limiters) ==>
                && fresh(limiter)
                && limiter.Cfg() == RegistryConfig(ratePerSec)
                && limiter.burstSize == 65536 && limiter.ratePerSec >= ratePerSec && limiter.ratePerSec >= 1024
                && (limiter.ratePerSec == ratePerSec || limiter.ratePerSec == 1024)
                && limiter.State() == Full(limiter.Cfg(), now)
    {
      if key in limiters {
        return limiters[key];
      }
      limiter := new Limiter.SimpleLimiter(if ratePerSec < 1024 then 1024 else ratePerSec, 65536, now);
      limiters := limiters[key := limiter];
    }
  }
}
