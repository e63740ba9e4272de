/**
 * The body of `run` inside `create` of `core/request`: once the middlewares have
 * answered, the request either short-circuits with the middlewares' own results or
 * picks one source for the response in a fixed order: the pending-request cache,
 * the memory cache, the persisted offline cache, an offline rejection, the network.
 * Everything the procedure awaits or calls into (middlewares, caches, storage, the
 * online probe, the transport) is an input here.
 */
module Request {
  import ArrayUnion

  /** What one middleware produced: a plain value, or a function (given by the value its invocation returns). */
  datatype MiddlewareResult<V> = Plain(v: V) | Fn(result: V)

  /** What the request resolves with when some middleware returned a function. */
  datatype Collapsed<V> = Undefined | One(v: V) | Many(vs: seq<V>)

  /** The facts `run` consults, as it would find them. */
  datatype Env<V> = Env(
    middlewares: seq<MiddlewareResult<V>>,
    canCache: bool,
    pendingHas: bool,   // the pending cache holds the cache key
    memoryHas: bool,    // the memory cache holds the cache key
    offlineCache: bool, // the `offlineCache` option
    online: bool,       // what `isOnline()` reported
    storageHas: bool,   // the persisted storage holds the storage key
    externalRequest: bool)

  /** A cache or storage lookup that `run` performs. */
  datatype Probe = PendingProbe | MemoryProbe | StorageProbe

  /** Where the response comes from. */
  datatype Source = Memory | Storage | OfflineError | Transport

  /** A `.then` stage chained after the source. */
  datatype Stage = WrapAsResponse | SaveCache | Success

  /** How the request is resolved. */
  datatype Route<V> =
    | ShortCircuit(res: Collapsed<V>)           // the middlewares' function results
    | FromPending                               // the pending request's own promise
    | Pipeline(source: Source, stages: seq<Stage>) // a chain passed through `wrapRequest`

  /** The invocation results of the function middlewares, in order. */
  function FnResults<V>(ms: seq<MiddlewareResult<V>>): (r: seq<V>)
    ensures |r| <= |ms|
    ensures (exists k :: 0 <= k < |ms| && ms[k].Fn?) ==> |r| > 0
  {
    if ms == [] then []
    else (if ms[0].Fn? then [ms[0].result] else []) + FnResults(ms[1..])
  }

  lemma {:induction false} FnResultsMembers<V>(ms: seq<MiddlewareResult<V>>)
    ensures forall k :: 0 <= k < |ms| && ms[k].Fn? ==> ms[k].result in FnResults(ms)
    ensures forall x :: x in FnResults(ms) ==> exists k :: 0 <= k < |ms| && ms[k] == Fn(x)
  {
    if ms != [] {
      FnResultsMembers(ms[1..]);
      forall x | x in FnResults(ms) ensures exists k :: 0 <= k < |ms| && ms[k] == Fn(x) {
        if ms[0].Fn? && x == ms[0].result {
          assert ms[0] == Fn(x);
        } else {
          assert x in FnResults(ms[1..]);
          var k :| 0 <= k < |ms[1..]| && ms[1..][k] == Fn(x);
          assert ms[k + 1] == Fn(x);
        }
      }
    }
  }

  /** The single result when there is at most one, the whole sequence otherwise. */
  function Collapse<V>(res: seq<V>): (c: Collapsed<V>)
    ensures |res| == 0 <==> c.Undefined?
    ensures |res| == 1 <==> c.One?
    ensures c.One? ==> c.v == res[0]
    ensures |res| > 1 <==> c.Many?
    ensures c.Many? ==> c.vs == res
  {
    if |res| == 0 then Undefined else if |res| == 1 then One(res[0]) else Many(res)
  }

  /** The decision procedure of `run`: the route taken, and the lookups made on the way. */
  method Run<V>(env: Env<V>) returns (route: Route<V>, probes: seq<Probe>)
    ensures (exists k :: 0 <= k < |env.middlewares| && env.middlewares[k].Fn?) <==> route.ShortCircuit?
    ensures route.ShortCircuit? ==> route.res == Collapse(FnResults(env.middlewares)) && !route.res.Undefined? && probes == []
    ensures route.FromPending? <==> !route.ShortCircuit? && env.canCache && env.pendingHas
    ensures route.FromPending? ==> probes == [PendingProbe]
    ensures !env.canCache && !route.ShortCircuit? ==> probes == [] && route.Pipeline? && route.source in {OfflineError, Transport}
    ensures route == Pipeline(Memory, [WrapAsResponse]) <==>
      !route.ShortCircuit? && env.canCache && !env.pendingHas && env.memoryHas
    ensures route == Pipeline(Storage, [WrapAsResponse, SaveCache]) <==>
      !route.ShortCircuit? && env.canCache && !env.pendingHas && !env.memoryHas &&
      env.offlineCache && !env.online && env.storageHas
    ensures route == Pipeline(OfflineError, []) <==>
      !route.ShortCircuit? && !route.FromPending? && route != Pipeline(Memory, [WrapAsResponse]) &&
      route != Pipeline(Storage, [WrapAsResponse, SaveCache]) && !env.online && !env.externalRequest
    ensures route.Pipeline? && route.source == Transport ==> route.stages == [Success, SaveCache]
    ensures route.Pipeline? ==> route in {Pipeline(Memory, [WrapAsResponse]), Pipeline(Storage, [WrapAsResponse, SaveCache]),
                                          Pipeline(OfflineError, []), Pipeline(Transport, [Success, SaveCache])}
    ensures StorageProbe in probes ==> env.canCache && !env.memoryHas && env.offlineCache && !env.online
  {
    probes := [];
    var fnResults := FnResults(env.middlewares);
    if |fnResults| > 0 {
      FnResultsMembers(env.middlewares);
      assert fnResults[0] in fnResults;
      route := ShortCircuit(Collapse(fnResults));
      return;
    }
    FnResultsNone(env.middlewares);

    var fromCache := false;
    var fromLocalStorage := false;
    if env.canCache {
      probes := probes + [PendingProbe];
      if env.pendingHas {
        route := FromPending;
        return;
      }
      probes := probes + [MemoryProbe];
      fromCache := env.memoryHas;
      if !fromCache && env.offlineCache && !env.online {
        probes := probes + [StorageProbe];
        fromLocalStorage := env.storageHas;
      }
    }

    if fromCache {
      route := Pipeline(Memory, [WrapAsResponse]);
    } else if fromLocalStorage {
      route := Pipeline(Storage, [WrapAsResponse, SaveCache]);
    } else if !env.online && !env.externalRequest {
      route := Pipeline(OfflineError, []);
    } else {
      route := Pipeline(Transport, [Success, SaveCache]);
    }
  }

  lemma {:induction false} FnResultsNone<V>(ms: seq<MiddlewareResult<V>>)
    requires |FnResults(ms)| == 0
    ensures forall k :: 0 <= k < |ms| ==> !ms[k].Fn?
  {
    if ms != [] {
      FnResultsNone(ms[1..]);
      forall k | 0 <= k < |ms| ensures !ms[k].Fn? {
        if k > 0 { assert ms[k] == ms[1..][k - 1]; }
      }
    }
  }

  /** A transport response: its `ok` flag and what `response.decode()` yields. */
  datatype Response<V> = Response(ok: bool, data: V)

  datatype Checked<V> = InvalidStatus(response: Response<V>) | Offline | Data(data: V, response: Response<V>)

  /** `success`: the validation applied to a transport response; `falsy` is JavaScript falsiness of the decoded data. */
  function CheckResponse<V>(resp: Response<V>, externalRequest: bool, online: bool, falsy: V -> bool): (r: Checked<V>)
    ensures r.InvalidStatus? <==> !resp.ok
    ensures r.InvalidStatus? ==> r.response == resp
    ensures r.Offline? <==> resp.ok && externalRequest && !online && falsy(resp.data)
    ensures r.Data? ==> r.data == resp.data && r.response == resp
  {
    if !resp.ok then InvalidStatus(resp)
    else if externalRequest && !online && falsy(resp.data) then Offline
    else Data(resp.data, resp)
  }

  /** The encoder chain over the request body: `fn(i ? obj : clone(obj))` for the i-th encoder, reduced from the left. */
  function Encode<B>(body: B, encoders: seq<B -> B>, clone: B -> B): B
    decreases |encoders|
  {
    if encoders == [] then body
    else
      var prev := Encode(body, encoders[..|encoders| - 1], clone);
      var last := encoders[|encoders| - 1];
      if |encoders| == 1 then last(clone(prev)) else last(prev)
  }

  /** Plain left fold: every function applied in order, no clone. */
  function Compose<B>(body: B, fs: seq<B -> B>): B
    decreases |fs|
  {
    if fs == [] then body else Compose(fs[0](body), fs[1..])
  }

  lemma {:induction false} ComposeSnoc<B>(body: B, fs: seq<B -> B>, f: B -> B)
    ensures Compose(body, fs + [f]) == f(Compose(body, fs))
    decreases |fs|
  {
    if fs != [] {
      assert (fs + [f])[1..] == fs[1..] + [f];
      ComposeSnoc(fs[0](body), fs[1..], f);
    }
  }

  /** The body passes through the encoders in order, and only the first of them sees a clone. */
  lemma {:induction false} EncodeSpec<B>(body: B, encoders: seq<B -> B>, clone: B -> B)
    ensures encoders == [] ==> Encode(body, encoders, clone) == body
    ensures encoders != [] ==> Encode(body, encoders, clone) == Compose(encoders[0](clone(body)), encoders[1..])
    decreases |encoders|
  {
    if |encoders| > 1 {
      var init := encoders[..|encoders| - 1];
      EncodeSpec(body, init, clone);
      assert init[0] == encoders[0];
      assert encoders[1..] == init[1..] + [encoders[|encoders| - 1]];
      ComposeSnoc(encoders[0](clone(body)), init[1..], encoders[|encoders| - 1]);
    }
  }

  /** The array policy of the option merge (`concatFn`): an array present on both sides becomes `a.union(b)`. */
  function MergeArrays<T(==)>(a: seq<T>, b: seq<T>): seq<T> {
    ArrayUnion.Union(a, [b])
  }

  /** A merged array option keeps every element of both sides once, in first-occurrence order, and is `a + b` when that has no repeats. */
  lemma MergeArraysSpec<T>(a: seq<T>, b: seq<T>)
    ensures var m := MergeArrays(a, b);
      && ArrayUnion.NoDuplicates(m)
      && (forall x :: x in m ==> x in a || x in b)
      && (forall x :: x in a ==> x in m)
      && (forall x :: x in b ==> x in m)
      && (ArrayUnion.NoDuplicates(a + b) ==> m == a + b)
  {
    assert ArrayUnion.Concat(a, [b]) == a + b by {
      assert [b][..0] == [];
    }
    ArrayUnion.UnionSpec(a, [b]);
    ArrayUnion.DedupMembers(a + b);
  }
}
