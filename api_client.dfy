/**
 * The API client of frontend/lib/api.ts: the request interceptor and the
 * response interceptor's refresh coordinator, with the module-level
 * `isRefreshing` and `failedQueue` as fields. Each method handles one event
 * and is proved to take exactly the step RefreshProtocol defines for it.
 */
module ApiClient {
  import opened Wrappers
  import Session
  import P = RefreshProtocol

  class Coordinator {
    /** The global `localStorage`, shared with the auth context. */
    const storage: Session.LocalStorage
    var isRefreshing: bool
    var queue: seq<P.Waiter>            // failedQueue
    var redirected: bool                // window.location.href was set to '/login'
    var inFlight: Option<P.InFlight>    // the owner suspended at the refresh POST
    ghost var calls: nat                // refresh POSTs issued
    ghost var completions: nat          // refresh POSTs that returned

    /** The abstract state this object stands for. */
    ghost function State(): P.State
      reads this, storage
    {
      P.State(isRefreshing, queue, storage.items, redirected, inFlight, calls, completions)
    }

    /** Module load. */
    constructor (storage: Session.LocalStorage)
      ensures this.storage == storage
      ensures State() == P.Init(storage.items)
    {
      this.storage := storage;
      isRefreshing := false;
      queue := [];
      redirected := false;
      inFlight := None;
      calls := 0;
      completions := 0;
    }

    /** The request interceptor: attach `Bearer <access_token>` when one is stored. */
    method AttachToken(config: P.Request) returns (sent: P.Request)
      ensures sent == P.Authorize(storage.items, config)
    {
      sent := config;
      var token := storage.GetItem(Session.AccessKey);
      if token.Some? && token.value != "" {
        sent := sent.(authorization := Some(Session.Bearer(token.value)));
      }
    }

    /** The response interceptor's error handler, up to the refresh POST. */
    method OnResponseError(error: P.HttpError) returns (out: P.Outcome)
      requires P.Inv(State())
      modifies this, storage
      ensures P.Inv(State())
      ensures P.Step(State(), out) == P.OnError(old(State()), error)
    {
      ghost var before := State();
      var originalRequest := error.config;
      if error.status == Some(P.Unauthorized) && !originalRequest.retry {
        if isRefreshing {
          queue := queue + [P.Waiter(originalRequest)];
          out := P.Queued;
          P.StepKeepsInv(before, P.ResponseError(error));
          return;
        }
        originalRequest := originalRequest.(retry := true);
        isRefreshing := true;
        var refreshToken := storage.GetItem(Session.RefreshKey);
        if refreshToken.Some? && refreshToken.value != "" {
          inFlight := Some(P.InFlight(originalRequest, refreshToken.value));
          calls := calls + 1;
          out := P.AwaitingRefresh;
          P.StepKeepsInv(before, P.ResponseError(error));
          return;
        }
        storage.RemoveItem(Session.AccessKey);
        storage.RemoveItem(Session.RefreshKey);
        storage.RemoveItem(Session.UserKey);
        redirected := true;
        assert storage.items == Session.Cleared(before.store);
      }
      out := P.Propagated(P.RequestFailed(error.(config := originalRequest)));
      P.StepKeepsInv(before, P.ResponseError(error));
    }

    /**
     * `processQueue`: settle every waiter with the one result, in queue
     * order, and empty the queue. Returns what each waiter's continuation does.
     */
    method ProcessQueue(result: P.Settlement) returns (resumed: seq<P.Outcome>)
      modifies this`queue
      ensures queue == []
      ensures resumed == P.ResumeAll(old(queue), result)
    {
      resumed := [];
      var i := 0;
      while i < |queue|
        invariant 0 <= i <= |queue|
        invariant |resumed| == i
        invariant forall j :: 0 <= j < i ==> resumed[j] == P.Resume(queue[j], result)
      {
        resumed := resumed + [P.Resume(queue[i], result)];
        i := i + 1;
      }
      queue := [];
    }

    /** The refresh POST resolved with a new pair: store it, settle the queue, replay the owner. */
    method OnRefreshSucceeded(access: string, refresh: string) returns (owner: P.Outcome, waiters: seq<P.Outcome>)
      requires P.Inv(State()) && inFlight.Some?
      modifies this, storage
      ensures P.Inv(State())
      ensures P.Completion(State(), owner, waiters) == P.OnRefreshSuccess(old(State()), access, refresh)
    {
      ghost var before := State();
      var originalRequest := inFlight.value.owner;
      storage.SetItem(Session.AccessKey, access);
      storage.SetItem(Session.RefreshKey, refresh);
      waiters := ProcessQueue(P.Resolved(access));
      originalRequest := originalRequest.(authorization := Some(Session.Bearer(access)));
      owner := P.Replayed(originalRequest);
      isRefreshing := false;
      inFlight := None;
      completions := completions + 1;
      P.StepKeepsInv(before, P.RefreshSucceeded(access, refresh));
    }

    /** The refresh POST threw: reject the queue, tear the session down, reject the owner. */
    method OnRefreshFailed(reason: string) returns (owner: P.Outcome, waiters: seq<P.Outcome>)
      requires P.Inv(State()) && inFlight.Some?
      modifies this, storage
      ensures P.Inv(State())
      ensures P.Completion(State(), owner, waiters) == P.OnRefreshFailure(old(State()), reason)
    {
      ghost var before := State();
      waiters := ProcessQueue(P.Rejected(P.RefreshFailed(reason)));
      storage.RemoveItem(Session.AccessKey);
      storage.RemoveItem(Session.RefreshKey);
      storage.RemoveItem(Session.UserKey);
      assert storage.items == Session.Cleared(before.store);
      redirected := true;
      owner := P.Propagated(P.RefreshFailed(reason));
      isRefreshing := false;
      inFlight := None;
      completions := completions + 1;
      P.StepKeepsInv(before, P.RefreshFailedWith(reason));
    }
  }
}
