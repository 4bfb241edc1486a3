/** The client's HTTP wrapper: a request interceptor that attaches the stored
    access token, and a response interceptor that coordinates a single token
    refresh for every request that fails with 401 while one is in flight.
    The asynchronous interleavings become explicit calls on one object: a
    401 arriving (`OnError`) and the refresh call completing (`CompleteRefresh`). */
module Api {
  import opened Base
  import opened AuthStore

  const AuthorizationHeader: string := "Authorization"

  function Bearer(token: string): string { "Bearer " + token }

  /** An outgoing request's config: its headers and the `_retry` mark. */
  datatype Request = Request(id: nat, headers: map<string, string>, retry: bool)

  function WithBearer(req: Request, token: string): Request {
    req.(headers := req.headers[AuthorizationHeader := Bearer(token)])
  }

  /** The request interceptor: a stored, non-empty token is attached as a
      bearer header; otherwise the request goes out untouched. */
  function AttachToken(req: Request, stored: Option<string>): (r: Request)
    ensures r.id == req.id && r.retry == req.retry
    ensures forall h :: h != AuthorizationHeader ==>
              (h in r.headers <==> h in req.headers) && (h in r.headers ==> r.headers[h] == req.headers[h])
    ensures Truthy(stored) ==> AuthorizationHeader in r.headers && r.headers[AuthorizationHeader] == Bearer(stored.value)
    ensures !Truthy(stored) ==> r == req
  {
    if Truthy(stored) then WithBearer(req, stored.value) else req
  }

  /** axios merges the instance's default headers into each request before
      the interceptors run; a header the request already has wins. */
  function WithDefault(req: Request, default: Option<string>): (r: Request)
    ensures r.id == req.id && r.retry == req.retry
    ensures AuthorizationHeader in req.headers || default.None? ==> r == req
    ensures AuthorizationHeader !in req.headers && default.Some? ==>
              r.headers == req.headers[AuthorizationHeader := default.value]
  {
    if default.Some? && AuthorizationHeader !in req.headers
    then req.(headers := req.headers[AuthorizationHeader := default.value])
    else req
  }

  lemma AttachTokenIdempotent(req: Request, stored: Option<string>)
    ensures AttachToken(AttachToken(req, stored), stored) == AttachToken(req, stored)
  {
    if Truthy(stored) {
      var once := AttachToken(req, stored);
      assert once.headers[AuthorizationHeader := Bearer(stored.value)] == once.headers;
    }
  }

  /** Why a refresh failed: the refresh call itself failed (with the HTTP
      status, if there was a response), or it answered without a token. */
  datatype RefreshFailure = RequestFailed(status: Option<int>) | NoTokenReturned

  /** What the refresh call came back with. */
  datatype RefreshResult = RefreshOk(token: Option<string>) | RefreshErrored(status: Option<int>)

  datatype RefreshOutcome = NewToken(token: string) | Failed(err: RefreshFailure)

  /** A response whose token is missing or empty is a failure, with the
      error thrown for it, exactly as if the call had failed. */
  function Outcome(result: RefreshResult): (r: RefreshOutcome)
    ensures r.NewToken? <==> result.RefreshOk? && Truthy(result.token)
    ensures r.NewToken? ==> r.token == result.token.value
    ensures result.RefreshOk? && !Truthy(result.token) ==> r == Failed(NoTokenReturned)
    ensures result.RefreshErrored? ==> r == Failed(RequestFailed(result.status))
  {
    match result
    case RefreshOk(token) => if Truthy(token) then NewToken(token.value) else Failed(NoTokenReturned)
    case RefreshErrored(status) => Failed(RequestFailed(status))
  }

  /** What is observable outside the coordinator. */
  datatype Effect =
    | RefreshPosted                           // the POST to /refresh
    | Sent(req: Request)                      // a request re-issued through the interceptors
    | Rejected(id: nat, err: RefreshFailure)  // a queued request's promise rejected
    | Redirected(path: string)                // the browser sent to another page

  /** How `processQueue` settles every queued entry. */
  datatype Settlement = ResolveWith(token: string) | RejectWith(err: RefreshFailure)

  function SettleEntry(req: Request, s: Settlement): Effect {
    match s
    case ResolveWith(t) => Sent(WithBearer(req, t))
    case RejectWith(e) => Rejected(req.id, e)
  }

  /** `processQueue`'s effects: one per queued entry, in queue order. */
  function Settle(pending: seq<Request>, s: Settlement): (r: seq<Effect>)
    ensures |r| == |pending|
    ensures forall i :: 0 <= i < |pending| ==> r[i] == SettleEntry(pending[i], s)
  {
    if pending == [] then [] else Settle(pending[..|pending| - 1], s) + [SettleEntry(pending[|pending| - 1], s)]
  }

  /** The response interceptor's answer to an error. */
  datatype ErrorAction = RejectedUnchanged | Queued | RefreshStarted

  /** How the request whose 401 started the refresh ends. */
  datatype Settled = Retried(req: Request) | Abandoned(err: RefreshFailure)

  class RefreshCoordinator {
    const store: Store
    var isRefreshing: bool
    var pending: seq<Request>
    /** The request whose 401 started the refresh in flight. */
    var owner: Option<Request>
    /** `api.defaults.headers.Authorization`. */
    var defaultAuthorization: Option<string>
    var effects: seq<Effect>

    ghost predicate Valid()
      reads this
    {
      (isRefreshing <==> owner.Some?)
      && (!isRefreshing ==> pending == [])
      && (owner.Some? ==> owner.value.retry)
      && (forall q :: q in pending ==> !q.retry)
    }

    constructor (store: Store)
      ensures Valid() && this.store == store
      ensures !isRefreshing && pending == [] && owner.None? && defaultAuthorization.None? && effects == []
    {
      this.store := store;
      isRefreshing := false;
      pending := [];
      owner := None;
      defaultAuthorization := None;
      effects := [];
    }

    /** A request as it leaves: the instance's default header merged in,
        then the request interceptor, reading the token from the store. A
        stored token wins; without one, a default header set by an earlier
        refresh is still sent. */
    function Outgoing(req: Request): (r: Request)
      reads this, store
      ensures r.id == req.id && r.retry == req.retry
      ensures forall h :: h != AuthorizationHeader ==>
                (h in r.headers <==> h in req.headers) && (h in r.headers ==> r.headers[h] == req.headers[h])
      ensures Truthy(store.GetToken()) ==>
                AuthorizationHeader in r.headers && r.headers[AuthorizationHeader] == Bearer(store.GetToken().value)
      ensures !Truthy(store.GetToken()) && AuthorizationHeader !in req.headers && defaultAuthorization.Some? ==>
                AuthorizationHeader in r.headers && r.headers[AuthorizationHeader] == defaultAuthorization.value
      ensures !Truthy(store.GetToken()) && (AuthorizationHeader in req.headers || defaultAuthorization.None?) ==>
                r == req
    {
      AttachToken(WithDefault(req, defaultAuthorization), Get(store.items, TokenKey))
    }

    /** The response interceptor receiving an error for `req`, with the
        response status if there was a response. */
    method OnError(req: Request, status: Option<int>) returns (action: ErrorAction)
      requires Valid()
      modifies this
      ensures Valid()
      ensures status == Some(401) && !req.retry && old(isRefreshing) ==>
                action == Queued && pending == old(pending) + [req] && isRefreshing
                && owner == old(owner) && effects == old(effects)
                && defaultAuthorization == old(defaultAuthorization)
      ensures status == Some(401) && !req.retry && !old(isRefreshing) ==>
                action == RefreshStarted && isRefreshing && owner == Some(req.(retry := true))
                && pending == [] && effects == old(effects) + [RefreshPosted]
                && defaultAuthorization == old(defaultAuthorization)
      ensures !(status == Some(401) && !req.retry) ==> action == RejectedUnchanged && unchanged(this)
    {
      if status == Some(401) && !req.retry {
        if isRefreshing {
          pending := pending + [req];
          return Queued;
        }
        owner := Some(req.(retry := true));
        isRefreshing := true;
        effects := effects + [RefreshPosted];
        return RefreshStarted;
      }
      return RejectedUnchanged;
    }

    /** `processQueue`: settles every queued entry in order, then empties the queue. */
    method ProcessQueue(s: Settlement)
      modifies this
      ensures effects == old(effects) + Settle(old(pending), s)
      ensures pending == []
      ensures isRefreshing == old(isRefreshing) && owner == old(owner)
      ensures defaultAuthorization == old(defaultAuthorization)
    {
      var i := 0;
      while i < |pending|
        invariant i <= |pending|
        invariant pending == old(pending) && isRefreshing == old(isRefreshing) && owner == old(owner)
        invariant defaultAuthorization == old(defaultAuthorization)
        invariant effects == old(effects) + Settle(pending[..i], s)
      {
        assert pending[..i + 1][..i] == pending[..i];
        effects := effects + [SettleEntry(pending[i], s)];
        i := i + 1;
      }
      assert pending[..i] == pending;
      pending := [];
    }

    /** The refresh call started by `OnError` completes. On success the token
        is stored, every queued request is re-sent with it in queue order and
        then the original request is retried; on failure every queued request
        is rejected with the same error, the token is removed and the browser
        is sent to /login. Either way the coordinator ends idle. */
    method CompleteRefresh(result: RefreshResult) returns (settled: Settled)
      requires Valid() && isRefreshing
      modifies this, store
      ensures Valid() && !isRefreshing && pending == [] && owner.None?
      ensures Outcome(result).NewToken? ==>
                var t := Outcome(result).token;
                store.items == old(store.items)[TokenKey := t]
                && defaultAuthorization == Some(Bearer(t))
                && settled == Retried(WithBearer(old(owner).value, t))
                && effects == old(effects) + Settle(old(pending), ResolveWith(t)) + [Sent(settled.req)]
      ensures Outcome(result).Failed? ==>
                var e := Outcome(result).err;
                store.items == old(store.items) - {TokenKey}
                && defaultAuthorization == old(defaultAuthorization)
                && settled == Abandoned(e)
                && effects == old(effects) + Settle(old(pending), RejectWith(e)) + [Redirected("/login")]
    {
      var original := owner.value;
      match Outcome(result) {
        case NewToken(t) =>
          store.SaveToken(t);
          defaultAuthorization := Some(Bearer(t));
          ProcessQueue(ResolveWith(t));
          var retried := Outgoing(original);
          assert retried == WithBearer(original, t) by {
            var merged := WithDefault(original, defaultAuthorization);
            assert merged.headers[AuthorizationHeader := Bearer(t)] == original.headers[AuthorizationHeader := Bearer(t)];
          }
          effects := effects + [Sent(retried)];
          settled := Retried(retried);
        case Failed(e) =>
          ProcessQueue(RejectWith(e));
          store.RemoveToken();
          effects := effects + [Redirected("/login")];
          settled := Abandoned(e);
      }
      isRefreshing := false;
      owner := None;
    }
  }

  /** Requests re-sent after a refresh carry the new token, which is also what
      the request interceptor attaches once the token is stored. */
  lemma ResentRequestsCarryToken(pending: seq<Request>, t: string, i: nat)
    requires i < |pending| && t != ""
    ensures Settle(pending, ResolveWith(t))[i].Sent?
    ensures var r := Settle(pending, ResolveWith(t))[i].req;
            r.id == pending[i].id && r.retry == pending[i].retry
            && AttachToken(r, Some(t)) == r && r.headers[AuthorizationHeader] == Bearer(t)
  {
    AttachTokenIdempotent(pending[i], Some(t));
  }

  /** Two requests fail with 401 while no refresh is running, a third that
      was already retried fails too, and the refresh then succeeds: exactly
      one refresh call is made, the third is rejected untouched, and the
      queued request is re-sent before the original is retried. A replayed
      request is not marked as retried, so a second 401 on it starts another
      refresh. */
  method ConcurrentRefreshScenario(t: string) returns (log: seq<Effect>, again: ErrorAction)
    requires t != ""
    ensures log == [RefreshPosted, Sent(WithBearer(Request(2, map[], false), t)),
                    Sent(WithBearer(Request(1, map[], true), t))]
    ensures again == RefreshStarted
  {
    var store := new Store(map[]);
    var c := new RefreshCoordinator(store);
    var a1 := c.OnError(Request(1, map[], false), Some(401));
    var a2 := c.OnError(Request(2, map[], false), Some(401));
    var a3 := c.OnError(Request(3, map[], true), Some(401));
    var settled := c.CompleteRefresh(RefreshOk(Some(t)));
    log := c.effects;
    assert Settle([Request(2, map[], false)], ResolveWith(t)) == [Sent(WithBearer(Request(2, map[], false), t))];
    again := c.OnError(WithBearer(Request(2, map[], false), t), Some(401));
  }

  /** After a refresh has set the instance's default header, clearing the
      stored auth (logout) does not stop later requests from carrying the
      refreshed bearer token: only a stored token would override it. */
  method StaleDefaultAfterLogout(t: string) returns (r: Request)
    requires t != ""
    ensures r.headers == map[AuthorizationHeader := Bearer(t)]
  {
    var store := new Store(map[]);
    var c := new RefreshCoordinator(store);
    var started := c.OnError(Request(1, map[], false), Some(401));
    var settled := c.CompleteRefresh(RefreshOk(Some(t)));
    store.ClearAllAuth();
    r := c.Outgoing(Request(2, map[], false));
  }
}
