/**
 The canned-response store of the fake node-agent server (pkg/node/fakeserver/store.go).
 Tests store responses per stub (the gRPC method name) and per request (keyed by the
 request's String() text); the fake server then loads them back, cycling round-robin through
 the responses stored for that request.
 */
module FakeStore {
  import opened Wrappers

  /** The state of one per-request response list: the responses and the cursor. */
  datatype RespState<T> = Resp(data: seq<T>, index: nat)

  /** responses.Store: `res` goes to the end of the list; the cursor is kept. */
  function Appended<T>(r: RespState<T>, res: T): (r': RespState<T>)
    ensures |r'.data| == |r.data| + 1 && r'.index == r.index
    ensures r'.data[..|r.data|] == r.data && r'.data[|r.data|] == res
  {
    Resp(r.data + [res], r.index)
  }

  /** responses.Load: nothing from an empty list; otherwise the response at the cursor
      taken modulo the length, and the cursor moves one past it. */
  function LoadStep<T>(r: RespState<T>): (res: (RespState<T>, Option<T>))
    ensures res.0.data == r.data
    ensures |r.data| == 0 <==> res.1.None?
    ensures |r.data| == 0 ==> res.0 == r
    ensures |r.data| > 0 ==> res.1 == Some(r.data[r.index % |r.data|])
                             && res.0.index == r.index % |r.data| + 1
  {
    if |r.data| == 0 then (r, None)
    else
      var i := r.index % |r.data|;
      (Resp(r.data, i + 1), Some(r.data[i]))
  }

  /** responses.Clear: no responses, the cursor as it was. */
  function Cleared<T>(r: RespState<T>): (r': RespState<T>)
    ensures r'.data == [] && r'.index == r.index
  {
    Resp([], r.index)
  }

  class Responses<T> {
    var data: seq<T>
    var index: nat

    function State(): RespState<T>
      reads this
    {
      Resp(data, index)
    }

    constructor ()
      ensures State() == Resp([], 0)
    {
      data := [];
      index := 0;
    }

    method Store(res: T)
      modifies this
      ensures State() == Appended(old(State()), res)
    {
      data := data + [res];
    }

    method Load() returns (res: Option<T>)
      modifies this
      ensures (State(), res) == LoadStep(old(State()))
    {
      var size := |data|;
      if size == 0 {
        return None;
      }
      index := index % size;
      res := Some(data[index]);
      index := index + 1;
    }

    method Clear()
      modifies this
      ensures State() == Cleared(old(State()))
    {
      data := [];
    }
  }

  /** Loading `k` times in a row: the responses returned, in order. */
  function Loads<T>(r: RespState<T>, k: nat): seq<Option<T>>
    decreases k
  {
    if k == 0 then [] else [LoadStep(r).1] + Loads(LoadStep(r).0, k - 1)
  }

  /** Round-robin: the j-th of successive loads returns the response j places after the
      cursor, wrapping around at the end of the list. */
  lemma {:induction false} LoadsCycle<T>(r: RespState<T>, k: nat, j: nat)
    requires |r.data| > 0 && j < k
    ensures |Loads(r, k)| == k
    ensures Loads(r, k)[j] == Some(r.data[(r.index + j) % |r.data|])
    decreases k
  {
    LoadsLength(r, k);
    var n := |r.data|;
    if j > 0 {
      var next := LoadStep(r).0;
      LoadsCycle(next, k - 1, j - 1);
      ModStep(r.index, j, n);
    }
  }

  lemma {:induction false} LoadsLength<T>(r: RespState<T>, k: nat)
    ensures |Loads(r, k)| == k
    decreases k
  {
    if k > 0 {
      LoadsLength(LoadStep(r).0, k - 1);
    }
  }

  /** Helper: going `j` further from the cursor reduced modulo `n` lands where going `j`
      from the cursor does. */
  lemma ModStep(i: nat, j: nat, n: nat)
    requires n > 0
    ensures (i % n + j) % n == (i + j) % n
  {
    var q := i / n;
    assert i == q * n + i % n;
    ModMultiple(q, n, i % n + j);
  }

  lemma {:induction false} ModMultiple(q: nat, n: nat, x: nat)
    requires n > 0
    ensures (q * n + x) % n == x % n
  {
    if q > 0 {
      var y := (q - 1) * n + x;
      ModMultiple(q - 1, n, x);
      assert q * n + x == y + n;
      ModAddN(y, n);
    }
  }

  lemma ModAddN(y: nat, n: nat)
    requires n > 0
    ensures (y + n) % n == y % n
  {
    var k := (y + n) / n - y / n - 1;
    assert k * n == y % n - (y + n) % n;
    MulSign(k, n);
  }

  lemma MulSign(k: int, n: nat)
    requires n > 0
    ensures k >= 1 ==> k * n >= n
    ensures k <= -1 ==> k * n + n <= 0
  {
  }

  /** An empty list gives nothing and keeps its cursor. */
  lemma EmptyLoadKeepsIndex<T>(r: RespState<T>)
    requires r.data == []
    ensures LoadStep(r) == (r, None)
  {
  }

  /** The responses of one stub, keyed by the request text. */
  type Requests<T> = map<string, RespState<T>>

  /** mapping.Store: append to the request's list, starting a fresh one (cursor 0) for a
      request seen for the first time. */
  function MapStore<T>(m: Requests<T>, req: string, res: T): (m': Requests<T>)
    ensures m'.Keys == m.Keys + {req}
    ensures forall k :: k in m && k != req ==> m'[k] == m[k]
    ensures req in m ==> m'[req] == Appended(m[req], res)
    ensures req !in m ==> m'[req] == Resp([res], 0)
  {
    m[req := Appended(if req in m then m[req] else Resp([], 0), res)]
  }

  /** mapping.Load: a load from the request's list, or nothing for an unknown request. */
  function MapLoad<T>(m: Requests<T>, req: string): (res: (Requests<T>, Option<T>))
    ensures req !in m ==> res == (m, None)
    ensures req in m ==> res == (m[req := LoadStep(m[req]).0], LoadStep(m[req]).1)
    ensures res.0.Keys == m.Keys
  {
    if req in m then (m[req := LoadStep(m[req]).0], LoadStep(m[req]).1) else (m, None)
  }

  /** The responses of one stub; each request's list is its own Responses object. */
  class Mapping<T> {
    var data: map<string, Responses<T>>

    /** No two requests share a list. */
    predicate Valid()
      reads this
    {
      forall k1, k2 :: k1 in data && k2 in data && k1 != k2 ==> data[k1] != data[k2]
    }

    function View(): Requests<T>
      reads this, data.Values
    {
      map k | k in data :: data[k].State()
    }

    constructor ()
      ensures Valid() && View() == map[]
    {
      data := map[];
    }

    method Store(req: string, res: T)
      requires Valid()
      modifies this, data.Values
      ensures Valid()
      ensures View() == MapStore(old(View()), req, res)
    {
      if req in data {
        var r := data[req];
        r.Store(res);
      } else {
        var r := new Responses();
        r.Store(res);
        data := data[req := r];
      }
    }

    method Load(req: string) returns (res: Option<T>)
      requires Valid()
      modifies data.Values
      ensures Valid() && data == old(data)
      ensures (View(), res) == MapLoad(old(View()), req)
    {
      if req in data {
        var r := data[req];
        ghost var before := View();
        res := r.Load();
        assert View() == before[req := r.State()];
      } else {
        res := None;
      }
    }
  }

  /** The package-level registry, keyed by stub name. */
  type Stubs<T> = map<string, Requests<T>>

  function StubStore<T>(s: Stubs<T>, stub: string, req: string, res: T): (s': Stubs<T>)
    ensures s'.Keys == s.Keys + {stub}
    ensures forall k :: k in s && k != stub ==> s'[k] == s[k]
    ensures s'[stub] == MapStore(if stub in s then s[stub] else map[], req, res)
  {
    s[stub := MapStore(if stub in s then s[stub] else map[], req, res)]
  }

  function StubLoad<T>(s: Stubs<T>, stub: string, req: string): (res: (Stubs<T>, Option<T>))
    ensures res.0.Keys == s.Keys
    ensures forall k :: k in s && k != stub ==> res.0[k] == s[k]
    ensures stub !in s ==> res == (s, None)
  {
    if stub in s then (s[stub := MapLoad(s[stub], req).0], MapLoad(s[stub], req).1) else (s, None)
  }

  /** The global store of stored responses: StoreResponse, LoadResponse and ClearAll. */
  class Registry<T> {
    var store: Stubs<T>

    constructor ()
      ensures store == map[]
    {
      store := map[];
    }

    method StoreResponse(stub: string, req: string, res: T)
      modifies this
      ensures store == StubStore(old(store), stub, req, res)
    {
      var m: Requests<T> := if stub in store then store[stub] else map[];
      store := store[stub := MapStore(m, req, res)];
    }

    method LoadResponse(stub: string, req: string) returns (res: Option<T>)
      modifies this
      ensures (store, res) == StubLoad(old(store), stub, req)
    {
      if stub in store {
        var m := store[stub];
        var r := MapLoad(m, req);
        store := store[stub := r.0];
        res := r.1;
      } else {
        res := None;
      }
    }

    method ClearAll()
      modifies this
      ensures store == map[]
    {
      store := map[];
    }
  }

  /** Unknown stubs and unknown requests give nothing and leave the registry as it was. */
  lemma UnknownGivesNothing<T>(s: Stubs<T>, stub: string, req: string)
    requires stub !in s || req !in s[stub]
    ensures StubLoad(s, stub, req) == (s, None)
  {
    if stub in s {
      assert s[stub := s[stub]] == s;
    }
  }

  /** A run of loads, each a (stub, request) pair: the registry after them and what each
      returned. */
  function LoadMany<T>(s: Stubs<T>, reqs: seq<(string, string)>): (Stubs<T>, seq<Option<T>>)
    decreases |reqs|
  {
    if |reqs| == 0 then (s, [])
    else
      var (s1, x) := StubLoad(s, reqs[0].0, reqs[0].1);
      var (s2, xs) := LoadMany(s1, reqs[1..]);
      (s2, [x] + xs)
  }

  /** After ClearAll every load gives nothing and leaves the registry empty, however many
      loads follow, until the next StoreResponse. */
  lemma {:induction false} ClearedStaysEmpty<T>(s: Stubs<T>, reqs: seq<(string, string)>)
    requires s == map[]
    ensures LoadMany(s, reqs).0 == map[]
    ensures |LoadMany(s, reqs).1| == |reqs|
    ensures forall k :: 0 <= k < |reqs| ==> LoadMany(s, reqs).1[k] == None
    decreases |reqs|
  {
    if |reqs| > 0 {
      ClearedStaysEmpty(s, reqs[1..]);
    }
  }

  /** A load touches only the list of its own stub and request. */
  lemma LoadIsLocal<T>(s: Stubs<T>, stub: string, req: string, other: string)
    requires stub in s && other in s[stub] && other != req
    ensures StubLoad(s, stub, req).0[stub][other] == s[stub][other]
  {
  }

  /** Storing res1 and res2 for one request, loads give res1, res2, res1. */
  lemma StoreTwiceThenLoad<T>(stub: string, req: string, res1: T, res2: T)
    ensures var s := StubStore(StubStore(map[], stub, req, res1), stub, req, res2);
            var (s1, a) := StubLoad(s, stub, req);
            var (s2, b) := StubLoad(s1, stub, req);
            var (_, c) := StubLoad(s2, stub, req);
            a == Some(res1) && b == Some(res2) && c == Some(res1)
  {
    var s := StubStore(StubStore(map[], stub, req, res1), stub, req, res2);
    assert s[stub][req] == Resp([res1, res2], 0);
  }

  /** Storing res1, loading it, storing res2: the next loads give res2, then res1. */
  lemma StoreBetweenLoads<T>(stub: string, req: string, res1: T, res2: T)
    ensures var s := StubStore(map[], stub, req, res1);
            var (s1, a) := StubLoad(s, stub, req);
            var s2 := StubStore(s1, stub, req, res2);
            var (s3, b) := StubLoad(s2, stub, req);
            var (_, c) := StubLoad(s3, stub, req);
            a == Some(res1) && b == Some(res2) && c == Some(res1)
  {
    var s := StubStore(map[], stub, req, res1);
    assert s[stub][req] == Resp([res1], 0);
    var s1 := StubLoad(s, stub, req).0;
    assert s1[stub][req] == Resp([res1], 1);
    var s2 := StubStore(s1, stub, req, res2);
    assert s2[stub][req] == Resp([res1, res2], 1);
  }
}
