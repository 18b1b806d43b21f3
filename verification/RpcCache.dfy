/** The RPC-backed account cache (src/account_caching/rpc_cache.rs).  An RPC call is a
    parameter: a function from the keys sent to the reply. */
module RpcCache {
  import opened Base
  import opened TradingVenue

  type Cached<A> = map<Pubkey, Option<A>>
  type Rpc<!A> = seq<Pubkey> -> Result<seq<Option<A>>, VenueError>

  /** `get_multiple` cannot tell a key known to be missing from one never asked for. */
  function Peek<A>(cache: Cached<A>, key: Pubkey): Option<A> {
    if key in cache then cache[key] else None
  }

  /** A list of keys looked up in order. */
  function PeekAll<A>(cache: Cached<A>, keys: seq<Pubkey>): (all: seq<Option<A>>) {
    seq(|keys|, (i: nat) requires i < |keys| => Peek(cache, keys[i]))
  }

  /** The keys a batch read must fetch, in order, duplicates and all. */
  function Missing<A>(cache: Cached<A>, keys: seq<Pubkey>): seq<Pubkey> {
    if keys == [] then []
    else (if Peek(cache, keys[0]).Some? then [] else [keys[0]]) + Missing(cache, keys[1..])
  }

  /** A cache with a fetched batch written over it. */
  function Filled<A>(cache: Cached<A>, keys: seq<Pubkey>, reply: seq<Option<A>>): Cached<A>
    requires |reply| == |keys|
    decreases |keys|
  {
    if keys == [] then cache
    else Filled(cache, keys[..|keys| - 1], reply[..|keys| - 1])[keys[|keys| - 1] := reply[|keys| - 1]]
  }

  /** One batch read: the cache afterwards, and the answer. */
  function BatchRead<A>(cache: Cached<A>, keys: seq<Pubkey>, rpc: Rpc<A>): (Cached<A>, Result<seq<Option<A>>, VenueError>)
    requires forall sent: seq<Pubkey> :: rpc(sent).Ok? ==> |rpc(sent).value| == |sent|
  {
    var sent := Missing(cache, keys);
    if sent != [] && rpc(sent).Err? then (cache, Err(FailedToFetchAccount))
    else
      var after := if sent == [] then cache else Filled(cache, sent, rpc(sent).value);
      (after, Ok(PeekAll(after, keys)))
  }

  /** One single read: whatever is cached, missing or not, else one fetch. */
  function SingleRead<A>(cache: Cached<A>, key: Pubkey, fetch: Pubkey -> Result<A, VenueError>)
    : (Cached<A>, Result<Option<A>, VenueError>)
  {
    if key in cache then (cache, Ok(cache[key]))
    else if fetch(key).Err? then (cache, Err(FailedToFetchAccount))
    else (cache[key := Some(fetch(key).value)], Ok(Some(fetch(key).value)))
  }

  class RpcClientCache<A> {
    var cache: Cached<A>

    constructor ()
      ensures cache == map[]
    {
      cache := map[];
    }

    method ResetCache()
      modifies this
      ensures cache == map[]
    {
      cache := map[];
    }

    method GetMultiple(keys: seq<Pubkey>) returns (result: seq<Option<A>>)
      ensures |result| == |keys| && forall i :: 0 <= i < |keys| ==> result[i] == Peek(cache, keys[i])
    {
      result := [];
      for i := 0 to |keys|
        invariant |result| == i && forall j :: 0 <= j < i ==> result[j] == Peek(cache, keys[j])
      {
        result := result + [if keys[i] in cache then cache[keys[i]] else None];
      }
    }

    method GetAccount(key: Pubkey, fetch: Pubkey -> Result<A, VenueError>) returns (r: Result<Option<A>, VenueError>)
      modifies this
      ensures (cache, r) == SingleRead(old(cache), key, fetch)
    {
      if key in cache {
        return Ok(cache[key]);
      }
      var response := fetch(key);
      if response.Err? {
        return Err(FailedToFetchAccount);
      }
      cache := cache[key := Some(response.value)];
      r := Ok(Some(response.value));
    }

    /** Sorting keys into cache hits and keys to fetch. */
    method SplitHits(keys: seq<Pubkey>) returns (missing: seq<Pubkey>, resultMap: map<Pubkey, Option<A>>)
      ensures missing == Missing(cache, keys)
      ensures forall k :: k in resultMap ==> resultMap[k].Some? && resultMap[k] == Peek(cache, k)
      ensures forall k :: k in keys ==> k in resultMap || k in missing
    {
      hide Peek;
      missing, resultMap := [], map[];
      var cachedResults := GetMultiple(keys);
      for i := 0 to |keys|
        invariant missing + Missing(cache, keys[i..]) == Missing(cache, keys)
        invariant forall k :: k in resultMap ==> resultMap[k].Some? && resultMap[k] == Peek(cache, k)
        invariant forall j :: 0 <= j < i ==> keys[j] in resultMap || keys[j] in missing
      {
        assert keys[i..][0] == keys[i] && keys[i..][1..] == keys[i + 1..];
        if cachedResults[i].Some? {
          resultMap := resultMap[keys[i] := cachedResults[i]];
        } else {
          missing := missing + [keys[i]];
        }
      }
    }

    /** Recording a reply in the result map and the cache. */
    method StoreReply(missing: seq<Pubkey>, accounts: seq<Option<A>>, resultMap0: map<Pubkey, Option<A>>)
      returns (resultMap: map<Pubkey, Option<A>>)
      requires |accounts| == |missing|
      requires forall k :: k in resultMap0 ==> resultMap0[k] == Peek(cache, k)
      modifies this
      ensures cache == Filled(old(cache), missing, accounts)
      ensures forall k :: k in resultMap ==> resultMap[k] == Peek(cache, k)
      ensures forall k :: k in resultMap0 || k in missing ==> k in resultMap
    {
      resultMap := resultMap0;
      for i := 0 to |missing|
        invariant cache == Filled(old(cache), missing[..i], accounts[..i])
        invariant forall k :: k in resultMap ==> resultMap[k] == Peek(cache, k)
        invariant forall k :: k in resultMap0 || k in missing[..i] ==> k in resultMap
      {
        assert missing[..i + 1][..i] == missing[..i] && accounts[..i + 1][..i] == accounts[..i];
        resultMap := resultMap[missing[i] := accounts[i]];
        cache := cache[missing[i] := accounts[i]];
      }
      assert missing[..|missing|] == missing && accounts[..|missing|] == accounts;
    }

    /** A batch read: cached accounts as they are, one fetch for the rest, results in the
        order asked.  Every lookup of the last loop finds its key. */
    method GetAccounts(keys: seq<Pubkey>, rpc: Rpc<A>) returns (r: Result<seq<Option<A>>, VenueError>)
      requires forall sent: seq<Pubkey> :: rpc(sent).Ok? ==> |rpc(sent).value| == |sent|
      modifies this
      ensures (cache, r) == BatchRead(old(cache), keys, rpc)
    {
      var missing, resultMap := SplitHits(keys);
      if missing != [] {
        var response := rpc(missing);
        if response.Err? {
          return Err(FailedToFetchAccount);
        }
        resultMap := StoreReply(missing, response.value, resultMap);
      }
      var result := [];
      for i := 0 to |keys|
        invariant |result| == i && forall j :: 0 <= j < i ==> result[j] == Peek(cache, keys[j])
      {
        result := result + [resultMap[keys[i]]];
      }
      assert result == PeekAll(cache, keys);
      r := Ok(result);
    }
  }

  // ---- Transparency ---------------------------------------------------------------

  /** A chain snapshot: what a perfect lookup would answer. */
  type Chain<A> = map<Pubkey, A>

  function Lookup<A>(chain: Chain<A>, key: Pubkey): Option<A> {
    if key in chain then Some(chain[key]) else None
  }

  function LookupAll<A>(chain: Chain<A>, keys: seq<Pubkey>): (all: seq<Option<A>>)
    ensures |all| == |keys|
  {
    seq(|keys|, (i: nat) requires i < |keys| => Lookup(chain, keys[i]))
  }

  /** What is cached is what the chain has, misses included. */
  ghost predicate Agrees<A(!new)>(cache: Cached<A>, chain: Chain<A>) {
    forall key :: key in cache ==> cache[key] == Lookup(chain, key)
  }

  /** An RPC that, when it answers, answers from the snapshot. */
  ghost predicate Serves<A(!new)>(rpc: Rpc<A>, chain: Chain<A>) {
    forall sent: seq<Pubkey> :: rpc(sent).Ok? ==>
      |rpc(sent).value| == |sent| && forall i :: 0 <= i < |sent| ==> rpc(sent).value[i] == Lookup(chain, sent[i])
  }

  lemma CountOfHead(keys: seq<Pubkey>, key: Pubkey)
    requires keys != []
    ensures multiset(keys)[key] == (if keys[0] == key then 1 else 0) + multiset(keys[1..])[key]
  {
    assert keys == [keys[0]] + keys[1..];
  }

  lemma CountInFront(front: seq<Pubkey>, rest: seq<Pubkey>, key: Pubkey)
    ensures multiset(front + rest)[key] == multiset(front)[key] + multiset(rest)[key]
  {
  }

  /** The keys sent are those asked for and not held as present, each as often as asked. */
  lemma {:induction false} MissingCounts<A>(cache: Cached<A>, keys: seq<Pubkey>, key: Pubkey)
    ensures multiset(Missing(cache, keys))[key] ==
            if Peek(cache, key).Some? then 0 else multiset(keys)[key]
  {
    hide Peek;
    if keys != [] {
      MissingCounts(cache, keys[1..], key);
      CountOfHead(keys, key);
      CountInFront(if Peek(cache, keys[0]).Some? then [] else [keys[0]], Missing(cache, keys[1..]), key);
    }
  }

  /** `at` tells where in a list each of the keys picked out of it stands. */
  ghost predicate PicksFrom(keys: seq<Pubkey>, picked: seq<Pubkey>, at: seq<nat>) {
    && |at| == |picked|
    && (forall m, n :: 0 <= m < n < |at| ==> at[m] < at[n])
    && forall m :: 0 <= m < |at| ==> at[m] < |keys| && keys[at[m]] == picked[m]
  }

  function Shifted(at: seq<nat>): (moved: seq<nat>)
    ensures |moved| == |at| && forall m :: 0 <= m < |at| ==> moved[m] == at[m] + 1
  {
    seq(|at|, (m: nat) requires m < |at| => at[m] + 1)
  }

  lemma InShifted(at: seq<nat>, i: nat)
    ensures i in Shifted(at) <==> i > 0 && i - 1 in at
  {
    if i > 0 && i - 1 in at {
      var m :| 0 <= m < |at| && at[m] == i - 1;
      assert Shifted(at)[m] == i;
    }
  }

  lemma PicksLater(keys: seq<Pubkey>, picked: seq<Pubkey>, at: seq<nat>)
    requires keys != [] && PicksFrom(keys[1..], picked, at)
    ensures PicksFrom(keys, picked, Shifted(at))
    ensures PicksFrom(keys, [keys[0]] + picked, [0] + Shifted(at))
  {
    hide Shifted;
    var moved := Shifted(at);
    forall m | 0 <= m < |moved| ensures moved[m] < |keys| && keys[moved[m]] == picked[m] {
      assert keys[1..][at[m]] == keys[at[m] + 1];
    }
  }

  /** And in the order asked. */
  lemma {:induction false} MissingInOrder<A>(cache: Cached<A>, keys: seq<Pubkey>) returns (at: seq<nat>)
    ensures PicksFrom(keys, Missing(cache, keys), at)
    ensures forall i: nat :: i < |keys| ==> (i in at <==> Peek(cache, keys[i]).None?)
  {
    hide Peek;
    hide Shifted;
    hide PicksFrom;
    if keys == [] {
      at := [];
      NothingPicked(keys);
    } else {
      var rest := MissingInOrder(cache, keys[1..]);
      PicksLater(keys, Missing(cache, keys[1..]), rest);
      if Peek(cache, keys[0]).Some? {
        at := Shifted(rest);
        assert [] + Missing(cache, keys[1..]) == Missing(cache, keys[1..]);
      } else {
        at := [0] + Shifted(rest);
      }
      forall i: nat | i < |keys| ensures i in at <==> Peek(cache, keys[i]).None? {
        InShifted(rest, i);
        assert i > 0 ==> keys[1..][i - 1] == keys[i];
      }
    }
  }

  lemma NothingPicked(keys: seq<Pubkey>)
    ensures PicksFrom(keys, [], [])
  {
  }

  /** What a reply has for a key: the answer at its last place in the keys sent. */
  ghost predicate LastAnswer<A(!new)>(sent: seq<Pubkey>, reply: seq<Option<A>>, key: Pubkey, answer: Option<A>)
    requires |reply| == |sent|
  {
    exists n: nat :: n < |sent| && sent[n] == key && reply[n] == answer && forall m :: n < m < |sent| ==> sent[m] != key
  }

  lemma {:induction false} FilledWith<A(!new)>(cache: Cached<A>, sent: seq<Pubkey>, reply: seq<Option<A>>, key: Pubkey)
    requires |reply| == |sent|
    ensures var after := Filled(cache, sent, reply);
            if key in sent then key in after && LastAnswer(sent, reply, key, after[key])
            else (key in after <==> key in cache) && (key in cache ==> after[key] == cache[key])
    decreases |sent|
  {
    if sent != [] {
      var last := |sent| - 1;
      FilledWith(cache, sent[..last], reply[..last], key);
      assert key in sent <==> key in sent[..last] || key == sent[last];
      if key in sent && key != sent[last] {
        var before := Filled(cache, sent[..last], reply[..last]);
        var n: nat :| n < last && sent[..last][n] == key && reply[..last][n] == before[key]
                      && forall m :: n < m < last ==> sent[..last][m] != key;
        assert sent[n] == key && reply[n] == before[key];
        forall m | n < m < |sent| ensures sent[m] != key {
          assert m < last ==> sent[..last][m] == sent[m];
        }
      }
    }
  }

  /** A batch read asks for the missing keys in one call, and for nothing else: of the RPC only
      its answer to that list matters, and with nothing missing not even that. */
  lemma BatchAsksOnlyMissing<A(!new)>(cache: Cached<A>, keys: seq<Pubkey>, rpc: Rpc<A>, other: Rpc<A>)
    requires forall sent: seq<Pubkey> :: rpc(sent).Ok? ==> |rpc(sent).value| == |sent|
    requires forall sent: seq<Pubkey> :: other(sent).Ok? ==> |other(sent).value| == |sent|
    requires Missing(cache, keys) == [] || rpc(Missing(cache, keys)) == other(Missing(cache, keys))
    ensures BatchRead(cache, keys, rpc) == BatchRead(cache, keys, other)
  {
  }

  /** What a batch read does with any RPC at all: it fails just when its one call does, and then
      changes nothing; an account held is the answer and stays as it is; every other key asked
      for is answered, and cached, as the reply has it; keys not asked for are left alone. */
  lemma BatchAnswers<A(!new)>(cache: Cached<A>, keys: seq<Pubkey>, rpc: Rpc<A>, key: Pubkey)
    requires forall sent: seq<Pubkey> :: rpc(sent).Ok? ==> |rpc(sent).value| == |sent|
    ensures var sent := Missing(cache, keys);
            var (after, r) := BatchRead(cache, keys, rpc);
            && (r.Err? <==> sent != [] && rpc(sent).Err?)
            && (r.Err? ==> r == Err(FailedToFetchAccount) && after == cache)
            && (r.Ok? ==> |r.value| == |keys| && forall i :: 0 <= i < |keys| ==> keys[i] in after && r.value[i] == after[keys[i]])
            && (Peek(cache, key).Some? ==> key in after && after[key] == cache[key])
            && (key !in keys ==> (key in after <==> key in cache) && (key in cache ==> after[key] == cache[key]))
            && (r.Ok? && key in keys && Peek(cache, key).None? ==>
                 sent != [] && key in after && LastAnswer(sent, rpc(sent).value, key, after[key]))
  {
    hide LastAnswer;
    var sent := Missing(cache, keys);
    var (after, r) := BatchRead(cache, keys, rpc);
    SentIffMissing(cache, keys, key);
    if sent != [] && rpc(sent).Ok? {
      FilledWith(cache, sent, rpc(sent).value, key);
    }
    if r.Ok? {
      forall i | 0 <= i < |keys| ensures keys[i] in after && r.value[i] == after[keys[i]] {
        SentIffMissing(cache, keys, keys[i]);
        if sent != [] {
          FilledWith(cache, sent, rpc(sent).value, keys[i]);
        }
      }
    }
  }

  lemma SentIffMissing<A>(cache: Cached<A>, keys: seq<Pubkey>, key: Pubkey)
    ensures key in Missing(cache, keys) <==> key in keys && Peek(cache, key).None?
  {
    MissingCounts(cache, keys, key);
    assert key in multiset(keys) <==> key in keys;
    assert key in multiset(Missing(cache, keys)) <==> key in Missing(cache, keys);
  }

  /** A single read that succeeds leaves its answer: the next one of that key gives it again
      whatever the fetch would say.  One that fails leaves nothing, and no other key changes. */
  lemma SingleReadStays<A(!new)>(cache: Cached<A>, key: Pubkey, fetch: Pubkey -> Result<A, VenueError>, later: Pubkey -> Result<A, VenueError>)
    ensures var (after, r) := SingleRead(cache, key, fetch);
            && (r.Ok? ==> SingleRead(after, key, later) == (after, r))
            && (r.Err? ==> after == cache && r == Err(FailedToFetchAccount))
            && (r.Ok? <==> key in cache || fetch(key).Ok?)
            && (forall k :: k != key ==> (k in after <==> k in cache) && (k in cache ==> after[k] == cache[k]))
            && (key in cache ==> r == Ok(cache[key]))
            && (key !in cache && fetch(key).Ok? ==> r == Ok(Some(fetch(key).value)))
  {
  }

  /** A key cached as missing is sent again, as if it had never been asked for. */
  lemma KnownMissingIsSent<A>(cache: Cached<A>, keys: seq<Pubkey>, key: Pubkey)
    requires key in cache && cache[key] == None && key in keys
    ensures key in Missing(cache, keys)
  {
    MissingCounts(cache, keys, key);
    assert key in multiset(keys);
    assert key in multiset(Missing(cache, keys));
  }

  lemma {:induction false} FilledAgrees<A(!new)>(cache: Cached<A>, chain: Chain<A>, keys: seq<Pubkey>, reply: seq<Option<A>>)
    requires Agrees(cache, chain) && |reply| == |keys|
    requires forall i :: 0 <= i < |keys| ==> reply[i] == Lookup(chain, keys[i])
    ensures Agrees(Filled(cache, keys, reply), chain)
    ensures forall key :: key in keys || key in cache <==> key in Filled(cache, keys, reply)
    decreases |keys|
  {
    if keys != [] {
      FilledAgrees(cache, chain, keys[..|keys| - 1], reply[..|keys| - 1]);
      assert keys == keys[..|keys| - 1] + [keys[|keys| - 1]];
    }
  }

  lemma PeekAfterFill<A(!new)>(cache: Cached<A>, chain: Chain<A>, keys: seq<Pubkey>, after: Cached<A>, key: Pubkey)
    requires key in keys && Agrees(cache, chain) && Agrees(after, chain)
    requires forall k :: k in Missing(cache, keys) || k in cache <==> k in after
    ensures key in after && Peek(after, key) == Lookup(chain, key)
  {
    MissingCounts(cache, keys, key);
    if Peek(cache, key).None? {
      assert key in multiset(keys);
      assert key in multiset(Missing(cache, keys));
    }
  }

  /** Transparency: a batch that succeeds answers every key, repeats included, with what the
      chain has, and leaves it cached; the cache still agrees with the chain. */
  lemma BatchIsTransparent<A(!new)>(cache: Cached<A>, chain: Chain<A>, keys: seq<Pubkey>, rpc: Rpc<A>)
    requires Agrees(cache, chain) && Serves(rpc, chain)
    ensures var (after, r) := BatchRead(cache, keys, rpc);
            && Agrees(after, chain)
            && (r.Ok? ==> r.value == LookupAll(chain, keys) && forall key :: key in keys ==> key in after)
            && (Missing(cache, keys) == [] ==> r.Ok?)
  {
    hide Peek;
    hide Lookup;
    var sent := Missing(cache, keys);
    if sent == [] || rpc(sent).Ok? {
      var after := if sent == [] then cache else Filled(cache, sent, rpc(sent).value);
      if sent != [] {
        FilledAgrees(cache, chain, sent, rpc(sent).value);
      }
      forall i | 0 <= i < |keys| ensures keys[i] in after && Peek(after, keys[i]) == Lookup(chain, keys[i]) {
        PeekAfterFill(cache, chain, keys, after, keys[i]);
      }
      assert PeekAll(after, keys) == LookupAll(chain, keys);
    }
  }

  /** A single fetch that, when it answers, answers from the snapshot. */
  ghost predicate Fetches<A(!new)>(fetch: Pubkey -> Result<A, VenueError>, chain: Chain<A>) {
    forall key :: fetch(key).Ok? ==> Lookup(chain, key) == Some(fetch(key).value)
  }

  /** A single read is the chain's answer if and only if the key is cached, be it as missing, or
      the fetch answers.  Where the RPC answers for every account there is, that leaves out just
      the keys the chain lacks and no batch has asked for: those are errors, not `None`. */
  lemma SingleReadIff<A(!new)>(cache: Cached<A>, chain: Chain<A>, key: Pubkey, fetch: Pubkey -> Result<A, VenueError>)
    requires Agrees(cache, chain) && Fetches(fetch, chain)
    ensures var (after, r) := SingleRead(cache, key, fetch);
            && Agrees(after, chain)
            && (r == Ok(Lookup(chain, key)) <==> key in cache || fetch(key).Ok?)
            && ((forall k :: k in chain ==> fetch(k).Ok?) ==>
                 (r == Ok(Lookup(chain, key)) <==> key in cache || key in chain))
  {
  }

  /** Uses of one cache: single reads, batch reads and resets. */
  datatype Use<!A> = Single(key: Pubkey, fetch: Pubkey -> Result<A, VenueError>) | Batch(keys: seq<Pubkey>, rpc: Rpc<A>) | Reset

  ghost predicate Honest<A(!new)>(use: Use<A>, chain: Chain<A>) {
    match use
    case Single(_, fetch) => Fetches(fetch, chain)
    case Batch(_, rpc) => Serves(rpc, chain)
    case Reset => true
  }

  ghost function After<A(!new)>(cache: Cached<A>, use: Use<A>, chain: Chain<A>): Cached<A>
    requires Honest(use, chain)
  {
    match use
    case Single(key, fetch) => SingleRead(cache, key, fetch).0
    case Batch(keys, rpc) => BatchRead(cache, keys, rpc).0
    case Reset => map[]
  }

  ghost function AfterAll<A(!new)>(cache: Cached<A>, uses: seq<Use<A>>, chain: Chain<A>): Cached<A>
    requires forall i :: 0 <= i < |uses| ==> Honest(uses[i], chain)
    decreases |uses|
  {
    if uses == [] then cache else AfterAll(After(cache, uses[0], chain), uses[1..], chain)
  }

  /** However a cache has been used, as long as the RPC served one snapshot, the next batch
      read that succeeds is indistinguishable from reading the chain. */
  lemma {:induction false} AlwaysTransparent<A(!new)>(cache: Cached<A>, uses: seq<Use<A>>, chain: Chain<A>, keys: seq<Pubkey>, rpc: Rpc<A>)
    requires Agrees(cache, chain) && Serves(rpc, chain)
    requires forall i :: 0 <= i < |uses| ==> Honest(uses[i], chain)
    ensures Agrees(AfterAll(cache, uses, chain), chain)
    ensures var r := BatchRead(AfterAll(cache, uses, chain), keys, rpc).1;
            r.Ok? ==> r.value == LookupAll(chain, keys)
    decreases |uses|
  {
    if uses == [] {
      BatchIsTransparent(cache, chain, keys, rpc);
    } else {
      var use := uses[0];
      if use.Batch? {
        BatchIsTransparent(cache, chain, use.keys, use.rpc);
      }
      AlwaysTransparent(After(cache, use, chain), uses[1..], chain, keys, rpc);
    }
  }
}
