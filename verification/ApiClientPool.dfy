/** The pool of API clients, one per endpoint and token, that evicts the least recently used client when it is full. */
module ApiClientPool {
  import opened Common

  datatype ApiClientKey = ApiClientKey(endpoint: string, token: string)

  /** A client, with the key it has been built for. */
  datatype Client = Client(builtFor: ApiClientKey, id: nat)

  datatype PoolResult = Success(client: Client) | InvalidAuthToken | CreationFailed

  const MAX_POOLED_API_CLIENTS: nat := 50

  // ---------------------------------------------------------------------------------------------
  // Specification: the pool as the sequence of its clients, most recently used first
  // ---------------------------------------------------------------------------------------------

  /** One call of Get: the key, whether its token has one of the accepted prefixes, and the client that would be
      created. */
  datatype Call = Call(key: ApiClientKey, tokenAccepted: bool, created: Option<nat>) {
    predicate CanCreate() {
      tokenAccepted && created.Some?
    }
  }

  function Without(pool: seq<Client>, key: ApiClientKey): seq<Client> {
    if pool == [] then
      []
    else if pool[0].builtFor == key then
      pool[1..]
    else
      [pool[0]] + Without(pool[1..], key)
  }

  predicate Contains(pool: seq<Client>, key: ApiClientKey) {
    exists i :: 0 <= i < |pool| && pool[i].builtFor == key
  }

  function Find(pool: seq<Client>, key: ApiClientKey): (client: Client)
    requires Contains(pool, key)
    ensures client in pool && client.builtFor == key
  {
    if pool[0].builtFor == key then pool[0] else Find(pool[1..], key)
  }

  function Cut<T>(s: seq<T>): seq<T> {
    if |s| > MAX_POOLED_API_CLIENTS then s[..MAX_POOLED_API_CLIENTS] else s
  }

  function PoolAfter(pool: seq<Client>, call: Call): seq<Client> {
    if Contains(pool, call.key) then
      [Find(pool, call.key)] + Without(pool, call.key)
    else if call.CanCreate() then
      Cut([Client(call.key, call.created.value)] + pool)
    else
      pool
  }

  function Answer(pool: seq<Client>, call: Call): PoolResult {
    if Contains(pool, call.key) then Success(Find(pool, call.key))
    else if !call.tokenAccepted then InvalidAuthToken
    else if call.created.None? then CreationFailed
    else Success(Client(call.key, call.created.value))
  }

  function PoolAfterAll(calls: seq<Call>): seq<Client> {
    if calls == [] then [] else PoolAfter(PoolAfterAll(calls[..|calls| - 1]), calls[|calls| - 1])
  }

  // ---------------------------------------------------------------------------------------------
  // Refinement: the pool is the list of most recently used keys, cut to its capacity
  // ---------------------------------------------------------------------------------------------

  /** The keys of the calls that succeed, in order. */
  function SuccessfulKeys(calls: seq<Call>): seq<ApiClientKey> {
    if calls == [] then
      []
    else
      var before, last := calls[..|calls| - 1], calls[|calls| - 1];
      SuccessfulKeys(before) + (if Answer(PoolAfterAll(before), last).Success? then [last.key] else [])
  }

  function WithoutKey(keys: seq<ApiClientKey>, key: ApiClientKey): seq<ApiClientKey> {
    if keys == [] then []
    else if keys[0] == key then WithoutKey(keys[1..], key)
    else [keys[0]] + WithoutKey(keys[1..], key)
  }

  /** The distinct keys in order of most recent use. */
  function MostRecent(uses: seq<ApiClientKey>): seq<ApiClientKey> {
    if uses == [] then []
    else [uses[|uses| - 1]] + WithoutKey(MostRecent(uses[..|uses| - 1]), uses[|uses| - 1])
  }

  function Keys(pool: seq<Client>): (keys: seq<ApiClientKey>)
    ensures |keys| == |pool|
    ensures forall i | 0 <= i < |pool| :: keys[i] == pool[i].builtFor
  {
    seq(|pool|, i requires 0 <= i < |pool| => pool[i].builtFor)
  }

  lemma {:induction false} WithoutKeyRemoves(keys: seq<ApiClientKey>, key: ApiClientKey)
    ensures forall k :: k in WithoutKey(keys, key) <==> k in keys && k != key
    ensures NoDuplicates(keys) ==> NoDuplicates(WithoutKey(keys, key))
    ensures |WithoutKey(keys, key)| <= |keys|
    ensures key !in keys ==> WithoutKey(keys, key) == keys
  {
    if keys != [] {
      WithoutKeyRemoves(keys[1..], key);
      assert keys == [keys[0]] + keys[1..];
      assert NoDuplicates(keys) ==> keys[0] !in keys[1..];
    }
  }

  lemma {:induction false} MostRecentIsDistinct(uses: seq<ApiClientKey>)
    ensures NoDuplicates(MostRecent(uses))
    ensures forall k :: k in MostRecent(uses) <==> k in uses
  {
    if uses != [] {
      var n := |uses| - 1;
      MostRecentIsDistinct(uses[..n]);
      WithoutKeyRemoves(MostRecent(uses[..n]), uses[n]);
      assert uses == uses[..n] + [uses[n]];
    }
  }

  /** Removing a key from the first elements agrees with removing it from all, up to the position that moves up. */
  lemma {:induction false} WithoutKeyOfPrefix(keys: seq<ApiClientKey>, key: ApiClientKey, n: nat)
    requires n <= |keys| && NoDuplicates(keys)
    ensures var shorter := WithoutKey(keys[..n], key);
      shorter <= WithoutKey(keys, key) && |shorter| == if key in keys[..n] then n - 1 else n
  {
    if n > 0 {
      assert keys[..n][1..] == keys[1..][..n - 1];
      WithoutKeyOfPrefix(keys[1..], key, n - 1);
      if keys[0] == key {
        assert key !in keys[1..][..n - 1];
      } else {
        assert key in keys[..n] <==> key in keys[1..][..n - 1] by {
          assert keys[..n] == [keys[0]] + keys[1..][..n - 1];
        }
      }
    }
  }

  lemma {:induction false} KeysWithout(pool: seq<Client>, key: ApiClientKey)
    requires NoDuplicates(Keys(pool))
    ensures Keys(Without(pool, key)) == WithoutKey(Keys(pool), key)
  {
    if pool != [] {
      assert Keys(pool)[1..] == Keys(pool[1..]);
      if pool[0].builtFor == key {
        WithoutKeyRemoves(Keys(pool[1..]), key);
      } else {
        KeysWithout(pool[1..], key);
      }
    }
  }

  lemma ContainsKey(pool: seq<Client>, key: ApiClientKey)
    ensures Contains(pool, key) <==> key in Keys(pool)
  {
    if Contains(pool, key) {
      var i :| 0 <= i < |pool| && pool[i].builtFor == key;
      assert Keys(pool)[i] == key;
    }
  }

  /** Using a key and then cutting is the same as cutting before and after. */
  lemma CutCommutes(recent: seq<ApiClientKey>, key: ApiClientKey)
    requires NoDuplicates(recent)
    ensures Cut([key] + WithoutKey(recent, key)) == Cut([key] + WithoutKey(Cut(recent), key))
  {
    WithoutKeyRemoves(recent, key);
    if |recent| > MAX_POOLED_API_CLIENTS {
      WithoutKeyOfPrefix(recent, key, MAX_POOLED_API_CLIENTS);
      WithoutKeyOfPrefix(recent, key, |recent|);
      assert recent[..|recent|] == recent;
    }
  }

  lemma KeysOfCons(client: Client, pool: seq<Client>)
    ensures Keys([client] + pool) == [client.builtFor] + Keys(pool)
    ensures Keys(Cut([client] + pool)) == Cut([client.builtFor] + Keys(pool))
  {
  }

  lemma UseKeepsMostRecentlyUsed(pool: seq<Client>, call: Call)
    requires NoDuplicates(Keys(pool)) && |pool| <= MAX_POOLED_API_CLIENTS
    requires Answer(pool, call).Success?
    ensures Keys(PoolAfter(pool, call)) == Cut([call.key] + WithoutKey(Keys(pool), call.key))
  {
    ContainsKey(pool, call.key);
    WithoutKeyRemoves(Keys(pool), call.key);
    hide Keys, Without, WithoutKey, NoDuplicates;
    if Contains(pool, call.key) {
      KeysWithout(pool, call.key);
      WithoutKeyShrinks(Keys(pool), call.key);
      KeysOfCons(Find(pool, call.key), Without(pool, call.key));
    } else {
      KeysOfCons(Client(call.key, call.created.value), pool);
    }
  }

  lemma WithoutKeyShrinks(keys: seq<ApiClientKey>, key: ApiClientKey)
    requires NoDuplicates(keys) && key in keys
    ensures |WithoutKey(keys, key)| == |keys| - 1
  {
    WithoutKeyOfPrefix(keys, key, |keys|);
    assert keys[..|keys|] == keys;
  }

  /** The distinct keys are ordered by their last use: each one has been used when no later one was used anymore. */
  lemma {:induction false} MostRecentIsByLastUse(uses: seq<ApiClientKey>, i: nat, j: nat) returns (p: nat)
    requires i < j < |MostRecent(uses)|
    ensures p < |uses| && uses[p] == MostRecent(uses)[i]
    ensures forall q | p <= q < |uses| :: uses[q] != MostRecent(uses)[j]
  {
    var n := |uses| - 1;
    var init := uses[..n];
    MostRecentIsDistinct(uses);
    assert MostRecent(uses)[0] == uses[n] != MostRecent(uses)[j];
    if i == 0 {
      p := n;
    } else {
      var k, l := KeptOrder(MostRecent(init), uses[n], i - 1, j - 1);
      p := MostRecentIsByLastUse(init, k, l);
      forall q | p <= q < |uses|
        ensures uses[q] != MostRecent(uses)[j]
      {
        assert q < n ==> init[q] == uses[q];
      }
    }
  }

  lemma {:induction false} KeptOrder(keys: seq<ApiClientKey>, key: ApiClientKey, i: nat, j: nat)
    returns (k: nat, l: nat)
    requires i < j < |WithoutKey(keys, key)|
    ensures k < l < |keys| && keys[k] == WithoutKey(keys, key)[i] && keys[l] == WithoutKey(keys, key)[j]
  {
    if keys[0] == key {
      k, l := KeptOrder(keys[1..], key, i, j);
      k, l := k + 1, l + 1;
    } else if i > 0 {
      k, l := KeptOrder(keys[1..], key, i - 1, j - 1);
      k, l := k + 1, l + 1;
    } else {
      l := KeptAt(keys[1..], key, j - 1);
      k, l := 0, l + 1;
    }
  }

  lemma {:induction false} KeptAt(keys: seq<ApiClientKey>, key: ApiClientKey, j: nat) returns (l: nat)
    requires j < |WithoutKey(keys, key)|
    ensures l < |keys| && keys[l] == WithoutKey(keys, key)[j]
  {
    if keys[0] == key {
      l := KeptAt(keys[1..], key, j);
      l := l + 1;
    } else if j > 0 {
      l := KeptAt(keys[1..], key, j - 1);
      l := l + 1;
    } else {
      l := 0;
    }
  }

  /** A call succeeds exactly if the pool holds a client for the key, or the token is accepted and a client can be
      created. */
  lemma SucceedsIff(pool: seq<Client>, call: Call)
    ensures Answer(pool, call).Success? <==>
      || (exists i :: 0 <= i < |pool| && pool[i].builtFor == call.key)
      || (call.tokenAccepted && call.created != None)
  {
  }

  /** After any sequence of calls, the keys in the pool are the distinct keys that have been requested successfully,
      most recently used first, cut to the capacity of the pool. */
  lemma {:induction false} PoolKeepsMostRecentlyUsed(calls: seq<Call>)
    ensures Keys(PoolAfterAll(calls)) == Cut(MostRecent(SuccessfulKeys(calls)))
    ensures var recent := MostRecent(SuccessfulKeys(calls));
      Keys(PoolAfterAll(calls)) == if |recent| > 50 then recent[..50] else recent
  {
    if calls != [] {
      var before, call := calls[..|calls| - 1], calls[|calls| - 1];
      var pool, uses := PoolAfterAll(before), SuccessfulKeys(before);
      PoolKeepsMostRecentlyUsed(before);
      MostRecentIsDistinct(uses);
      if Answer(pool, call).Success? {
        assert SuccessfulKeys(calls) == uses + [call.key];
        assert (uses + [call.key])[..|uses|] == uses;
        assert MostRecent(uses + [call.key]) == [call.key] + WithoutKey(MostRecent(uses), call.key);
        CutCommutes(MostRecent(uses), call.key);
        UseKeepsMostRecentlyUsed(pool, call);
      } else {
        assert SuccessfulKeys(calls) == uses;
      }
    }
  }

  // ---------------------------------------------------------------------------------------------
  // The pool: a map of list elements, and the list
  // ---------------------------------------------------------------------------------------------

  class Element {
    const key: ApiClientKey
    const apiClient: Client

    constructor (key: ApiClientKey, apiClient: Client)
      ensures this.key == key && this.apiClient == apiClient
    {
      this.key, this.apiClient := key, apiClient;
    }
  }

  function ClientsOf(elements: seq<Element>): (pool: seq<Client>)
    ensures |pool| == |elements|
    ensures forall i | 0 <= i < |elements| :: pool[i] == elements[i].apiClient
  {
    seq(|elements|, i requires 0 <= i < |elements| => elements[i].apiClient)
  }

  lemma {:induction false} WithoutAt(pool: seq<Client>, key: ApiClientKey, i: nat)
    requires i < |pool| && pool[i].builtFor == key && forall j | 0 <= j < i :: pool[j].builtFor != key
    ensures Without(pool, key) == pool[..i] + pool[i + 1..]
    ensures Contains(pool, key) && Find(pool, key) == pool[i]
  {
    if i > 0 {
      var rest := pool[1..];
      WithoutAt(rest, key, i - 1);
      assert [pool[0]] + rest[..i - 1] == pool[..i] && rest[i..] == pool[i + 1..];
    }
  }

  function Moved<T>(s: seq<T>, i: nat): seq<T>
    requires i < |s|
  {
    [s[i]] + s[..i] + s[i + 1..]
  }

  lemma MoveKeepsElements<T>(s: seq<T>, i: nat)
    requires i < |s|
    ensures forall x :: x in Moved(s, i) <==> x in s
    ensures NoDuplicates(s) ==> NoDuplicates(Moved(s, i))
  {
    var moved := [s[i]] + s[..i] + s[i + 1..];
    assert s == s[..i] + [s[i]] + s[i + 1..];
    assert forall k | 0 <= k < |s| :: moved[k] == if k == 0 then s[i] else if k <= i then s[k - 1] else s[k];
  }

  lemma ClientsOfMoved(elements: seq<Element>, i: nat)
    requires i < |elements|
    ensures ClientsOf(Moved(elements, i)) == Moved(ClientsOf(elements), i)
  {
    var clients, moved := ClientsOf(elements), Moved(elements, i);
    assert |moved| == |elements|;
    forall k | 0 <= k < |moved|
      ensures ClientsOf(moved)[k] == Moved(clients, i)[k]
    {
      assert moved[k] == if k == 0 then elements[i] else if k <= i then elements[k - 1] else elements[k];
    }
  }

  lemma KeysOfMoved(pool: seq<Client>, i: nat)
    requires i < |pool|
    ensures Keys(Moved(pool, i)) == Moved(Keys(pool), i)
  {
    var keys, moved := Keys(pool), Moved(pool, i);
    forall k | 0 <= k < |moved|
      ensures Keys(moved)[k] == Moved(keys, i)[k]
    {
      assert moved[k] == if k == 0 then pool[i] else if k <= i then pool[k - 1] else pool[k];
    }
  }

  lemma {:induction false} MovedIsUsed(pool: seq<Client>, i: nat)
    requires i < |pool| && NoDuplicates(Keys(pool))
    ensures Contains(pool, pool[i].builtFor) && Find(pool, pool[i].builtFor) == pool[i]
    ensures Moved(pool, i) == [pool[i]] + Without(pool, pool[i].builtFor)
  {
    assert forall j | 0 <= j < i :: Keys(pool)[j] != Keys(pool)[i];
    WithoutAt(pool, pool[i].builtFor, i);
    assert [pool[i]] + pool[..i] + pool[i + 1..] == [pool[i]] + (pool[..i] + pool[i + 1..]);
  }

  lemma MovedElements(elements: seq<Element>, i: nat)
    requires i < |elements| && NoDuplicates(Keys(ClientsOf(elements)))
    ensures var moved, pool := Moved(elements, i), ClientsOf(elements);
      && (forall element :: element in moved <==> element in elements)
      && NoDuplicates(Keys(ClientsOf(moved)))
      && Contains(pool, pool[i].builtFor) && Find(pool, pool[i].builtFor) == pool[i]
      && ClientsOf(moved) == [pool[i]] + Without(pool, pool[i].builtFor)
  {
    hide *;
    var pool := ClientsOf(elements);
    MoveKeepsElements(elements, i);
    MoveKeepsElements(Keys(pool), i);
    MovedIsUsed(pool, i);
    ClientsOfMoved(elements, i);
    KeysOfMoved(pool, i);
  }

  lemma WithoutLast(elements: seq<Element>)
    requires elements != [] && NoDuplicates(Keys(ClientsOf(elements)))
    ensures var n := |elements| - 1;
      && ClientsOf(elements[..n]) == ClientsOf(elements)[..n]
      && NoDuplicates(Keys(ClientsOf(elements[..n])))
      && forall element :: element in elements[..n] <==> element in elements && element != elements[n]
  {
    var n := |elements| - 1;
    var keys := Keys(ClientsOf(elements));
    assert Keys(ClientsOf(elements[..n])) == keys[..n];
    assert elements == elements[..n] + [elements[n]];
    assert forall k | 0 <= k < n :: elements[k] != elements[n] by {
      assert forall k | 0 <= k < n :: keys[k] != keys[n];
    }
  }

  lemma WithFirst(element: Element, elements: seq<Element>)
    requires NoDuplicates(Keys(ClientsOf(elements)))
    requires forall other | other in elements :: other.apiClient.builtFor != element.apiClient.builtFor
    ensures ClientsOf([element] + elements) == [element.apiClient] + ClientsOf(elements)
    ensures NoDuplicates(Keys(ClientsOf([element] + elements)))
  {
    var keys := Keys(ClientsOf(elements));
    assert Keys(ClientsOf([element] + elements)) == [element.apiClient.builtFor] + keys;
    assert forall k | 0 <= k < |elements| :: keys[k] != element.apiClient.builtFor by {
      assert forall k | 0 <= k < |elements| :: elements[k] in elements;
    }
  }

  class Pool {
    var clients: map<ApiClientKey, Element>
    var lru: seq<Element>

    /** The map and the list hold the same elements, each under the key that its client has been built for. */
    ghost predicate Valid()
      reads this
    {
      && |lru| <= MAX_POOLED_API_CLIENTS
      && NoDuplicates(Keys(ClientsOf(lru)))
      && (forall element | element in lru ::
        element.key == element.apiClient.builtFor && element.key in clients && clients[element.key] == element)
      && forall key | key in clients :: clients[key] in lru && clients[key].key == key
    }

    constructor ()
      ensures Valid() && lru == []
    {
      clients, lru := map[], [];
    }

    method MoveToFront(element: Element)
      requires Valid() && element in lru
      modifies this`lru
      ensures Valid()
      ensures Contains(old(ClientsOf(lru)), element.key)
      ensures Find(old(ClientsOf(lru)), element.key) == element.apiClient
      ensures ClientsOf(lru) == [element.apiClient] + Without(old(ClientsOf(lru)), element.key)
    {
      var i :| 0 <= i < |lru| && lru[i] == element;
      MovedElements(lru, i);
      lru := Moved(lru, i);
    }

    method Evict()
      requires Valid() && lru != []
      modifies this
      ensures Valid()
      ensures ClientsOf(lru) == old(ClientsOf(lru))[..|old(lru)| - 1]
      ensures forall key :: key in clients ==> key in old(clients)
    {
      var oldest := lru[|lru| - 1];
      WithoutLast(lru);
      hide Keys, ClientsOf, NoDuplicates;
      lru := lru[..|lru| - 1];
      clients := clients - {oldest.key};
    }

    method PushFront(element: Element)
      requires Valid() && |lru| < MAX_POOLED_API_CLIENTS
      requires element.key !in clients && element.key == element.apiClient.builtFor
      modifies this
      ensures Valid()
      ensures ClientsOf(lru) == [element.apiClient] + old(ClientsOf(lru))
    {
      WithFirst(element, lru);
      hide Keys, ClientsOf, NoDuplicates;
      lru := [element] + lru;
      clients := clients[element.key := element];
    }

    method Get(call: Call) returns (result: PoolResult)
      requires Valid()
      modifies this
      ensures Valid()
      ensures ClientsOf(lru) == PoolAfter(old(ClientsOf(lru)), call)
      ensures result == Answer(old(ClientsOf(lru)), call)
      ensures result.Success? ==> result.client.builtFor == call.key
      ensures call.key in old(clients) ==>
        result == Success(old(clients)[call.key].apiClient) && clients == old(clients)
      ensures call.key !in old(clients) && !call.tokenAccepted ==> result == InvalidAuthToken
      ensures call.key !in old(clients) && call.tokenAccepted && call.created == None ==> result == CreationFailed
      ensures call.key !in old(clients) && call.tokenAccepted && call.created != None ==>
        result == Success(Client(call.key, call.created.value))
      ensures call.key !in old(clients) && !result.Success? ==> clients == old(clients) && lru == old(lru)
      ensures result.Success? ==> lru != [] && lru[0].apiClient == result.client
      ensures |lru| <= 50
    {
      if call.key in clients {
        var element := clients[call.key];
        MoveToFront(element);
        assert lru[0].apiClient == ClientsOf(lru)[0];
        return Success(element.apiClient);
      }
      ghost var before := ClientsOf(lru);
      assert !Contains(before, call.key);
      if !call.tokenAccepted {
        return InvalidAuthToken;
      }
      if call.created.None? {
        return CreationFailed;
      }
      var apiClient := Client(call.key, call.created.value);
      if |lru| >= MAX_POOLED_API_CLIENTS {
        Evict();
      }
      var element := new Element(call.key, apiClient);
      PushFront(element);
      assert ClientsOf(lru) == Cut([apiClient] + before);
      assert lru[0].apiClient == ClientsOf(lru)[0];
      result := Success(apiClient);
    }
  }
}
