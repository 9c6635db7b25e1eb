/**
 * The session-refresh coordinator of frontend/lib/api.ts as a pure state
 * machine. JavaScript runs one event at a time, so the coordinator's life is a
 * sequence of discrete events: a request fails, the refresh call returns
 * success or failure, or some other code writes the session store. Each event
 * is a function from the old state to the new one; the class
 * ApiClient.Coordinator is proved to perform exactly these steps.
 */
module RefreshProtocol {
  import opened Wrappers
  import Session

  /** The status that triggers a refresh. */
  const Unauthorized: int := 401

  /** The part of an axios request config that the interceptors read and write. */
  datatype Request = Request(id: nat, retry: bool, authorization: Option<string>)

  /** An axios error: the response status, if a response arrived, and the failed request's config. */
  datatype HttpError = HttpError(status: Option<int>, config: Request)

  /** Why a promise handed back to a caller was rejected. */
  datatype Failure =
    | RequestFailed(error: HttpError)   // the original error, passed through
    | RefreshFailed(reason: string)     // whatever the refresh call threw

  /** A queued `{resolve, reject}` pair, with the request its continuation replays. */
  datatype Waiter = Waiter(request: Request)

  /** How `processQueue` settles a waiter: `resolve(token)` or `reject(error)`. */
  datatype Settlement = Resolved(token: string) | Rejected(reason: Failure)

  /** What the response interceptor's promise does for one failed request. */
  datatype Outcome =
    | Propagated(reason: Failure)   // rejects with this failure
    | Queued                        // waits in failedQueue for the episode to settle
    | AwaitingRefresh               // owns the refresh; suspended at the refresh call
    | Replayed(request: Request)    // re-issued through `api(request)`

  /** The owner of the refresh in flight and the refresh token it sent. */
  datatype InFlight = InFlight(owner: Request, refreshToken: string)

  /**
   * The coordinator's state: the module-level `isRefreshing` and `failedQueue`,
   * the session store, whether the page was sent to /login, the suspended owner
   * of the refresh call if one is in flight, and how many refresh calls have
   * been issued and have returned.
   */
  datatype State = State(
    isRefreshing: bool,
    queue: seq<Waiter>,
    store: Session.Items,
    redirected: bool,
    inFlight: Option<InFlight>,
    calls: nat,
    completions: nat)

  /** The result of a response-error event. */
  datatype Step = Step(next: State, out: Outcome)

  /** The result of the refresh call returning: the owner's outcome and each waiter's, in queue order. */
  datatype Completion = Completion(next: State, owner: Outcome, waiters: seq<Outcome>)

  datatype Event =
    | ResponseError(error: HttpError)
    | RefreshSucceeded(access: string, refresh: string)
    | RefreshFailedWith(reason: string)
    | StorageWritten(items: Session.Items)   // login, logout or checkAuth wrote the store

  /** Module load: not refreshing, nothing queued, no call made yet. */
  function Init(items: Session.Items): State {
    State(false, [], items, false, None, 0, 0)
  }

  /** The request interceptor. */
  function Authorize(items: Session.Items, req: Request): (r: Request)
    ensures r.id == req.id && r.retry == req.retry
    ensures Session.Truthy(items, Session.AccessKey) ==> r.authorization == Some(Session.Bearer(items[Session.AccessKey]))
    ensures !Session.Truthy(items, Session.AccessKey) ==> r == req
  {
    if Session.Truthy(items, Session.AccessKey) then
      req.(authorization := Some(Session.Bearer(items[Session.AccessKey])))
    else
      req
  }

  /** A waiter's continuation: `.then` sets the header and replays, `.catch` rethrows. */
  function Resume(w: Waiter, s: Settlement): Outcome {
    match s
    case Resolved(token) => Replayed(w.request.(authorization := Some(Session.Bearer(token))))
    case Rejected(reason) => Propagated(reason)
  }

  /** `processQueue`: every waiter is settled with the one shared result, in queue order. */
  function ResumeAll(queue: seq<Waiter>, s: Settlement): (r: seq<Outcome>)
    ensures |r| == |queue|
    ensures forall i :: 0 <= i < |queue| ==> r[i] == Resume(queue[i], s)
  {
    seq(|queue|, i requires 0 <= i < |queue| => Resume(queue[i], s))
  }

  /** The response interceptor's error handler, up to the refresh call. */
  function OnError(s: State, e: HttpError): Step {
    if e.status != Some(Unauthorized) || e.config.retry then
      Step(s, Propagated(RequestFailed(e)))
    else if s.isRefreshing then
      Step(s.(queue := s.queue + [Waiter(e.config)]), Queued)
    else
      var owner := e.config.(retry := true);
      if Session.Truthy(s.store, Session.RefreshKey) then
        Step(s.(isRefreshing := true,
                inFlight := Some(InFlight(owner, s.store[Session.RefreshKey])),
                calls := s.calls + 1),
             AwaitingRefresh)
      else
        // no refresh token: tear down, but `isRefreshing` is never reset
        Step(s.(isRefreshing := true, store := Session.Cleared(s.store), redirected := true),
             Propagated(RequestFailed(e.(config := owner))))
  }

  /** The refresh call resolved with a new pair. */
  function OnRefreshSuccess(s: State, access: string, refresh: string): Completion
    requires s.inFlight.Some?
  {
    var owner := s.inFlight.value.owner;
    Completion(
      s.(isRefreshing := false, queue := [], store := Session.WithTokens(s.store, access, refresh),
         inFlight := None, completions := s.completions + 1),
      Replayed(owner.(authorization := Some(Session.Bearer(access)))),
      ResumeAll(s.queue, Resolved(access)))
  }

  /** The refresh call threw. */
  function OnRefreshFailure(s: State, reason: string): Completion
    requires s.inFlight.Some?
  {
    Completion(
      s.(isRefreshing := false, queue := [], store := Session.Cleared(s.store), redirected := true,
         inFlight := None, completions := s.completions + 1),
      Propagated(RefreshFailed(reason)),
      ResumeAll(s.queue, Rejected(RefreshFailed(reason))))
  }

  /** The refresh call can only return while one is in flight. */
  predicate Enabled(s: State, ev: Event) {
    match ev
    case RefreshSucceeded(_, _) => s.inFlight.Some?
    case RefreshFailedWith(_) => s.inFlight.Some?
    case _ => true
  }

  function Next(s: State, ev: Event): State
    requires Enabled(s, ev)
  {
    match ev
    case ResponseError(e) => OnError(s, e).next
    case RefreshSucceeded(a, r) => OnRefreshSuccess(s, a, r).next
    case RefreshFailedWith(reason) => OnRefreshFailure(s, reason).next
    case StorageWritten(items) => s.(store := items)
  }

  /** The state after a sequence of events, or None if some event could not occur. */
  function Run(s: State, evs: seq<Event>): Option<State>
    decreases |evs|
  {
    if evs == [] then Some(s)
    else if !Enabled(s, evs[0]) then None
    else Run(Next(s, evs[0]), evs[1..])
  }

  /**
   * The coordinator's invariant: a refresh call is in flight only while
   * `isRefreshing`, and its owner is marked; nothing waits unless a refresh is
   * (believed to be) under way; at most one call is outstanding; and queued
   * requests are never marked.
   */
  predicate Inv(s: State) {
    && (s.inFlight.Some? ==> s.isRefreshing && s.inFlight.value.owner.retry)
    && (!s.isRefreshing ==> s.queue == [])
    && s.calls == s.completions + (if s.inFlight.Some? then 1 else 0)
    && (forall i :: 0 <= i < |s.queue| ==> !s.queue[i].request.retry)
  }

  /** The coordinator sits stuck: it believes a refresh is running, but none is. */
  predicate Wedged(s: State) {
    s.isRefreshing && s.inFlight.None?
  }

  lemma InitInv(items: Session.Items)
    ensures Inv(Init(items)) && !Wedged(Init(items))
  {
  }

  /** Every event keeps the invariant. */
  lemma StepKeepsInv(s: State, ev: Event)
    requires Inv(s) && Enabled(s, ev)
    ensures Inv(Next(s, ev))
  {
    match ev
    case ResponseError(e) =>
      var t := OnError(s, e).next;
      if e.status == Some(Unauthorized) && !e.config.retry && s.isRefreshing {
        forall i | 0 <= i < |t.queue| ensures !t.queue[i].request.retry {
          if i < |s.queue| { assert t.queue[i] == s.queue[i]; }
        }
      }
    case _ =>
  }

  lemma {:induction false} RunKeepsInv(s: State, evs: seq<Event>)
    requires Inv(s)
    ensures Run(s, evs).Some? ==> Inv(Run(s, evs).value)
    decreases |evs|
  {
    if evs != [] && Enabled(s, evs[0]) {
      StepKeepsInv(s, evs[0]);
      RunKeepsInv(Next(s, evs[0]), evs[1..]);
    }
  }

  /**
   * Single flight: from module load, along any interleaving of events, at most
   * one refresh call is outstanding, and one is outstanding exactly when its
   * owner is suspended waiting for it.
   */
  lemma SingleFlight(items: Session.Items, evs: seq<Event>)
    ensures Run(Init(items), evs).Some? ==>
      var t := Run(Init(items), evs).value;
      && t.calls <= t.completions + 1
      && (t.calls == t.completions + 1 <==> t.inFlight.Some?)
      && (t.inFlight.Some? ==> t.isRefreshing)
  {
    InitInv(items);
    RunKeepsInv(Init(items), evs);
  }

  /** A failure that is not a 401, or a 401 on a marked request, is rejected as it is and changes nothing. */
  lemma NonRefreshableErrorPropagates(s: State, e: HttpError)
    requires e.status != Some(Unauthorized) || e.config.retry
    ensures OnError(s, e).next == s
    ensures OnError(s, e).out == Propagated(RequestFailed(e))
  {
  }

  /** While a refresh is believed to be running, a 401 appends exactly one waiter and issues no call. */
  lemma UnauthorizedQueuesWhileRefreshing(s: State, e: HttpError)
    requires s.isRefreshing && e.status == Some(Unauthorized) && !e.config.retry
    ensures OnError(s, e).out == Queued
    ensures OnError(s, e).next.queue == s.queue + [Waiter(e.config)]
    ensures OnError(s, e).next.(queue := s.queue) == s
  {
  }

  /**
   * The first 401 with no refresh running marks its request and sets
   * `isRefreshing` before the one refresh call, which sends the stored
   * refresh token.
   */
  lemma FirstUnauthorizedOwnsRefresh(s: State, e: HttpError)
    requires Inv(s) && !s.isRefreshing && e.status == Some(Unauthorized) && !e.config.retry
    requires Session.Truthy(s.store, Session.RefreshKey)
    ensures var t := OnError(s, e).next;
      && OnError(s, e).out == AwaitingRefresh
      && t.isRefreshing && t.queue == [] && t.store == s.store
      && t.inFlight == Some(InFlight(e.config.(retry := true), s.store[Session.RefreshKey]))
      && t.calls == s.calls + 1 && t.completions == s.completions
  {
  }

  /**
   * With no refresh token stored, no call is made: the session keys are
   * removed, the page is sent to /login, the original 401 is rejected, and
   * the coordinator is left wedged.
   */
  lemma MissingRefreshTokenWedges(s: State, e: HttpError)
    requires Inv(s) && !s.isRefreshing && e.status == Some(Unauthorized) && !e.config.retry
    requires !Session.Truthy(s.store, Session.RefreshKey)
    ensures var t := OnError(s, e).next;
      && OnError(s, e).out == Propagated(RequestFailed(e.(config := e.config.(retry := true))))
      && t.calls == s.calls
      && t.store == Session.Cleared(s.store) && t.redirected
      && Wedged(t) && Inv(t)
  {
  }

  /**
   * Once wedged, the coordinator stays wedged: no refresh call is ever issued
   * again and the queue only grows, so every later 401 waits forever.
   */
  lemma {:induction false} WedgedForever(s: State, evs: seq<Event>)
    requires Wedged(s)
    ensures Run(s, evs).Some? ==>
      var t := Run(s, evs).value;
      && Wedged(t) && t.calls == s.calls
      && |s.queue| <= |t.queue| && t.queue[..|s.queue|] == s.queue
    decreases |evs|
  {
    if evs != [] && Enabled(s, evs[0]) {
      var n := Next(s, evs[0]);
      assert Wedged(n) && n.calls == s.calls;
      assert |s.queue| <= |n.queue| && n.queue[..|s.queue|] == s.queue;
      WedgedForever(n, evs[1..]);
      if Run(n, evs[1..]).Some? {
        var t := Run(n, evs[1..]).value;
        assert t.queue[..|s.queue|] == t.queue[..|n.queue|][..|s.queue|];
      }
    }
  }

  /** The 401 events of a burst of failing requests, in arrival order. */
  function Unauthorized401s(reqs: seq<Request>): (r: seq<Event>)
    ensures |r| == |reqs|
  {
    seq(|reqs|, i requires 0 <= i < |reqs| => ResponseError(HttpError(Some(Unauthorized), reqs[i])))
  }

  function WaitersFor(reqs: seq<Request>): (r: seq<Waiter>)
    ensures |r| == |reqs|
  {
    seq(|reqs|, i requires 0 <= i < |reqs| => Waiter(reqs[i]))
  }

  /** While refreshing, a burst of 401s on unmarked requests all queue, in order, and issue no call. */
  lemma {:induction false} BurstQueuesBehindRefresh(s: State, reqs: seq<Request>)
    requires s.isRefreshing
    requires forall i :: 0 <= i < |reqs| ==> !reqs[i].retry
    ensures Run(s, Unauthorized401s(reqs)) == Some(s.(queue := s.queue + WaitersFor(reqs)))
    decreases |reqs|
  {
    var evs := Unauthorized401s(reqs);
    if reqs == [] {
      assert s.queue + WaitersFor(reqs) == s.queue;
    } else {
      var s' := s.(queue := s.queue + [Waiter(reqs[0])]);
      assert Enabled(s, evs[0]) && Next(s, evs[0]) == s';
      assert evs[1..] == Unauthorized401s(reqs[1..]);
      BurstQueuesBehindRefresh(s', reqs[1..]);
      assert s.queue + [Waiter(reqs[0])] + WaitersFor(reqs[1..]) == s.queue + WaitersFor(reqs);
    }
  }

  /**
   * N requests fail with 401 while no refresh is running: exactly one refresh
   * call is issued, by the first, and the other N-1 wait in arrival order.
   */
  lemma ConcurrentFailuresShareOneRefresh(s: State, reqs: seq<Request>)
    requires Inv(s) && !s.isRefreshing && Session.Truthy(s.store, Session.RefreshKey)
    requires |reqs| >= 1 && forall i :: 0 <= i < |reqs| ==> !reqs[i].retry
    ensures Run(s, Unauthorized401s(reqs)) == Some(s.(
      isRefreshing := true,
      queue := WaitersFor(reqs[1..]),
      inFlight := Some(InFlight(reqs[0].(retry := true), s.store[Session.RefreshKey])),
      calls := s.calls + 1))
  {
    var evs := Unauthorized401s(reqs);
    assert Enabled(s, evs[0]);
    var s1 := Next(s, evs[0]);
    assert Run(s, evs) == Run(s1, evs[1..]);
    assert evs[1..] == Unauthorized401s(reqs[1..]);
    BurstQueuesBehindRefresh(s1, reqs[1..]);
    assert s1.queue == [];
    assert s1.queue + WaitersFor(reqs[1..]) == WaitersFor(reqs[1..]);
  }

  /**
   * A successful refresh settles the episode as one: the store holds exactly
   * the new pair, every waiter is replayed in queue order with the same new
   * token, and the owner too; nothing waits and no refresh is running.
   */
  lemma RefreshSuccessReplaysAll(s: State, access: string, refresh: string)
    requires Inv(s) && s.inFlight.Some?
    ensures var c := OnRefreshSuccess(s, access, refresh);
      && c.next.store[Session.AccessKey] == access && c.next.store[Session.RefreshKey] == refresh
      && (forall k :: k != Session.AccessKey && k != Session.RefreshKey ==>
            (k in c.next.store <==> k in s.store) && (k in s.store ==> c.next.store[k] == s.store[k]))
      && |c.waiters| == |s.queue|
      && (forall i :: 0 <= i < |c.waiters| ==>
            c.waiters[i].Replayed? && c.waiters[i].request.id == s.queue[i].request.id
            && c.waiters[i].request.authorization == Some(Session.Bearer(access)))
      && c.owner.Replayed? && c.owner.request.authorization == Some(Session.Bearer(access))
      && c.next.queue == [] && !c.next.isRefreshing && !Wedged(c.next) && Inv(c.next)
  {
  }

  /**
   * A failed refresh settles the episode as one: every waiter and the owner
   * are rejected with the same refresh error, the session keys are gone, the
   * page is sent to /login, nothing waits and no refresh is running.
   */
  lemma RefreshFailureRejectsAll(s: State, reason: string)
    requires Inv(s) && s.inFlight.Some?
    ensures var c := OnRefreshFailure(s, reason);
      && (forall k :: k in Session.SessionKeys ==> k !in c.next.store)
      && c.next.redirected
      && |c.waiters| == |s.queue|
      && (forall i :: 0 <= i < |c.waiters| ==> c.waiters[i] == Propagated(RefreshFailed(reason)))
      && c.owner == Propagated(RefreshFailed(reason))
      && c.next.queue == [] && !c.next.isRefreshing && !Wedged(c.next) && Inv(c.next)
  {
  }

  /**
   * The refresh goes through the bare `axios.post`, not the `api` instance,
   * so its failure never passes the interceptors: it ends the episode and
   * issues no further call.
   */
  lemma RefreshErrorNeverReenters(s: State, reason: string)
    requires Inv(s) && s.inFlight.Some?
    ensures OnRefreshFailure(s, reason).next.calls == s.calls
    ensures OnRefreshFailure(s, reason).next.completions == s.calls
  {
  }

  /** After a successful refresh every request, replays included, goes out with the new access token. */
  lemma LaterRequestsCarryNewToken(s: State, access: string, refresh: string, req: Request)
    requires s.inFlight.Some? && access != ""
    ensures Authorize(OnRefreshSuccess(s, access, refresh).next.store, req).authorization
            == Some(Session.Bearer(access))
  {
  }

  /** The replayed owner is marked: if it fails with 401 again it is rejected, never refreshed twice. */
  lemma ReplayedOwnerNeverRefreshesAgain(s: State, access: string, refresh: string, later: State)
    requires Inv(s) && s.inFlight.Some?
    ensures var owner := OnRefreshSuccess(s, access, refresh).owner;
      owner.Replayed? && owner.request.retry
      && OnError(later, HttpError(Some(Unauthorized), owner.request)).next == later
      && OnError(later, HttpError(Some(Unauthorized), owner.request)).out.Propagated?
  {
  }

  /**
   * Queued replays are not marked: if a replayed waiter fails with 401 again
   * once the episode is over, it starts a refresh of its own.
   */
  lemma QueuedReplayCanRefreshAgain(s: State, access: string, refresh: string, i: nat, later: State)
    requires Inv(s) && s.inFlight.Some? && i < |s.queue|
    requires !later.isRefreshing && Session.Truthy(later.store, Session.RefreshKey)
    ensures var w := OnRefreshSuccess(s, access, refresh).waiters[i];
      w.Replayed? && !w.request.retry
      && OnError(later, HttpError(Some(Unauthorized), w.request)).out == AwaitingRefresh
      && OnError(later, HttpError(Some(Unauthorized), w.request)).next.calls == later.calls + 1
  {
  }

  /**
   * Requests A and B fail with 401 in one episode; the refresh returns
   * ("T2", "R2"); one call was made and both are replayed with "Bearer T2".
   */
  lemma ScenarioTwoRequestsOneRefresh(a: Request, b: Request)
    requires !a.retry && !b.retry
    ensures var s0 := Init(map[Session.AccessKey := "T1", Session.RefreshKey := "R1"]);
      var s1 := OnError(s0, HttpError(Some(Unauthorized), a));
      var s2 := OnError(s1.next, HttpError(Some(Unauthorized), b));
      var c := OnRefreshSuccess(s2.next, "T2", "R2");
      && s1.out == AwaitingRefresh && s2.out == Queued
      && s1.next.inFlight == Some(InFlight(a.(retry := true), "R1"))
      && c.next.calls == 1
      && c.owner == Replayed(a.(retry := true, authorization := Some("Bearer T2")))
      && c.waiters == [Replayed(b.(authorization := Some("Bearer T2")))]
      && c.next.store == map[Session.AccessKey := "T2", Session.RefreshKey := "R2"]
  {
    assert Session.Bearer("T2") == "Bearer T2";
    var s0 := Init(map[Session.AccessKey := "T1", Session.RefreshKey := "R1"]);
    assert Session.Truthy(s0.store, Session.RefreshKey);
    assert Session.WithTokens(s0.store, "T2", "R2") == map[Session.AccessKey := "T2", Session.RefreshKey := "R2"];
  }
}
