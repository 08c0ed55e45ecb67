/** Live polling of the host page (public/host-admin.js): a self-rescheduling timer guarded by a generation
    counter, and replies guarded by a request counter. The browser's event loop is part of the state: the
    timers that may still fire and the fetches that may still complete, in any order. */
module LivePolling {
  import opened Options

  type TimerId = nat

  /** The await point an in-flight refresh returns to: a tick of some generation, or a direct caller. */
  datatype Caller = Tick(generation: nat) | Direct

  datatype Event = StartPolling | StopPolling | RefreshNow | TimerFires(timer: TimerId)
      | FetchCompletes(request: nat, ok: bool)

  predicate Increasing(s: seq<nat>) {
    forall i, j :: 0 <= i < j < |s| ==> s[i] < s[j]
  }

  /** The in-flight refreshes that return to a tick of the given generation. */
  function TickCalls(inFlight: map<nat, Caller>, generation: nat): set<nat> {
    set r <- inFlight | inFlight[r] == Tick(generation)
  }

  class Page {
    // module variables
    var livePollGeneration: nat
    var livePollTimer: Option<TimerId>
    var liveStatsRequestId: nat
    // event loop: pending timers with the generation their tick closes over, and fetches in flight
    var timers: map<TimerId, nat>
    var inFlight: map<nat, Caller>
    var nextTimer: TimerId
    // what has been shown, and whether polling was last started or stopped
    var rendered: seq<nat>
    ghost var polling: bool

    /** At most one timer is pending and it is livePollTimer. While polling, exactly one timer or in-flight
        tick carries the current generation; otherwise none does and no timer is pending. */
    ghost predicate PollingOk()
      reads this
    {
      && (forall t <- timers :: livePollTimer == Some(t) && t < nextTimer && timers[t] == livePollGeneration)
      && (forall r <- inFlight :: inFlight[r].Tick? ==> inFlight[r].generation <= livePollGeneration)
      && |timers| + |TickCalls(inFlight, livePollGeneration)| == (if polling then 1 else 0)
    }

    /** Replies still outstanding belong to issued requests, and shown replies came in increasing order. */
    ghost predicate RepliesOk()
      reads this
    {
      && (forall r <- inFlight :: r <= liveStatsRequestId && r !in rendered)
      && (forall r <- rendered :: r <= liveStatsRequestId)
      && Increasing(rendered)
    }

    ghost predicate Valid()
      reads this
    {
      PollingOk() && RepliesOk()
    }

    constructor ()
      ensures Valid() && !polling && rendered == [] && timers == map[] && inFlight == map[]
    {
      livePollGeneration, livePollTimer, liveStatsRequestId := 0, None, 0;
      timers, inFlight, nextTimer := map[], map[], 0;
      rendered, polling := [], false;
    }

    /** `setTimeout` of a tick. */
    method Schedule(generation: nat)
      modifies this`timers, this`nextTimer, this`livePollTimer
      ensures timers == old(timers)[old(nextTimer) := generation] && nextTimer == old(nextTimer) + 1
      ensures livePollTimer == Some(old(nextTimer))
    {
      timers := timers[nextTimer := generation];
      livePollTimer := Some(nextTimer);
      nextTimer := nextTimer + 1;
    }

    method ClearTimeout()
      modifies this`timers
      ensures timers == if livePollTimer.Some? then old(timers) - {livePollTimer.value} else old(timers)
    {
      if livePollTimer.Some? {
        timers := timers - {livePollTimer.value};
      }
    }

    method StartLivePolling()
      requires Valid()
      modifies this
      ensures Valid() && polling
      ensures livePollTimer.Some? && timers == map[livePollTimer.value := livePollGeneration]
      ensures rendered == old(rendered) && inFlight == old(inFlight) && liveStatsRequestId == old(liveStatsRequestId)
    {
      livePollGeneration := livePollGeneration + 1;
      assert TickCalls(inFlight, livePollGeneration) == {};
      ClearTimeout();
      assert timers == map[];
      Schedule(livePollGeneration);
      polling := true;
    }

    method StopLivePolling()
      requires Valid()
      modifies this
      ensures Valid() && !polling && timers == map[] && TickCalls(inFlight, livePollGeneration) == {}
      ensures rendered == old(rendered) && inFlight == old(inFlight) && liveStatsRequestId == old(liveStatsRequestId)
    {
      livePollGeneration := livePollGeneration + 1;
      assert TickCalls(inFlight, livePollGeneration) == {};
      ClearTimeout();
      assert timers == map[];
      livePollTimer := None;
      polling := false;
    }

    /** The synchronous part of `refreshLiveStats`, up to its await. */
    method BeginRefresh(caller: Caller)
      requires RepliesOk()
      modifies this`liveStatsRequestId, this`inFlight
      ensures RepliesOk() && liveStatsRequestId == old(liveStatsRequestId) + 1
      ensures liveStatsRequestId !in old(inFlight) && inFlight == old(inFlight)[liveStatsRequestId := caller]
    {
      liveStatsRequestId := liveStatsRequestId + 1;
      inFlight := inFlight[liveStatsRequestId := caller];
    }

    /** A direct call of `refreshLiveStats`. */
    method RefreshLiveStats()
      requires Valid()
      modifies this`liveStatsRequestId, this`inFlight
      ensures Valid()
    {
      BeginRefresh(Direct);
      assert TickCalls(inFlight, livePollGeneration) == old(TickCalls(inFlight, livePollGeneration));
    }

    /** A pending timer fires: the tick begins. */
    method FireTimer(t: TimerId)
      requires Valid() && t in timers
      modifies this`timers, this`liveStatsRequestId, this`inFlight
      ensures Valid() && timers == map[]
    {
      var generation := timers[t];
      timers := timers - {t};
      assert timers == map[];
      assert |old(timers)| == |old(timers).Keys - {t}| + 1;
      if generation != livePollGeneration {
        return;
      }
      BeginRefresh(Tick(generation));
      assert TickCalls(inFlight, generation) == old(TickCalls(inFlight, livePollGeneration)) + {liveStatsRequestId};
    }

    /** The part of `refreshLiveStats` after its await. */
    method ShowReply(request: nat, ok: bool)
      requires RepliesOk() && request <= liveStatsRequestId && request !in inFlight && request !in rendered
      modifies this`rendered
      ensures RepliesOk()
      ensures rendered == if ok && request == liveStatsRequestId then old(rendered) + [request] else old(rendered)
    {
      if request != liveStatsRequestId {
        return;
      }
      if ok {
        assert forall i :: 0 <= i < |rendered| ==> rendered[i] in rendered && rendered[i] < request;
        rendered := rendered + [request];
      }
    }

    /** A fetch completes: the reply is shown unless stale, and a tick that is still current reschedules. */
    method CompleteFetch(request: nat, ok: bool)
      requires Valid() && request in inFlight
      modifies this
      ensures Valid() && request !in inFlight && polling == old(polling)
      ensures livePollGeneration == old(livePollGeneration) && liveStatsRequestId == old(liveStatsRequestId)
      ensures rendered == if ok && request == liveStatsRequestId then old(rendered) + [request] else old(rendered)
      ensures old(inFlight[request]) == Tick(livePollGeneration) ==>
        livePollTimer.Some? && timers == map[livePollTimer.value := livePollGeneration]
      ensures old(inFlight[request]) != Tick(livePollGeneration) ==>
        timers == old(timers) && livePollTimer == old(livePollTimer)
      ensures !polling ==> timers == map[]
    {
      var caller := TakeReply(request);
      ShowReply(request, ok);
      ResumeTick(caller);
    }

    /** Every in-flight refresh but one, which is about to return to its caller. */
    ghost predicate Returning(caller: Caller)
      reads this
    {
      && (forall t <- timers :: livePollTimer == Some(t) && t < nextTimer && timers[t] == livePollGeneration)
      && (forall r <- inFlight :: inFlight[r].Tick? ==> inFlight[r].generation <= livePollGeneration)
      && |timers| + |TickCalls(inFlight, livePollGeneration)| + (if caller == Tick(livePollGeneration) then 1 else 0)
         == (if polling then 1 else 0)
    }

    method TakeReply(request: nat) returns (caller: Caller)
      requires Valid() && request in inFlight
      modifies this`inFlight
      ensures Returning(caller) && RepliesOk() && request !in inFlight && caller == old(inFlight[request])
      ensures request <= liveStatsRequestId && request !in rendered
    {
      caller := inFlight[request];
      var tokens := TickCalls(inFlight, livePollGeneration);
      inFlight := inFlight - {request};
      assert TickCalls(inFlight, livePollGeneration) == tokens - {request};
    }

    /** The part of `tick` after its await. */
    method ResumeTick(caller: Caller)
      requires Returning(caller) && RepliesOk()
      modifies this`timers, this`nextTimer, this`livePollTimer
      ensures Valid() && (!polling ==> timers == map[])
      ensures caller == Tick(livePollGeneration) ==>
        livePollTimer.Some? && timers == map[livePollTimer.value := livePollGeneration]
      ensures caller != Tick(livePollGeneration) ==> timers == old(timers) && livePollTimer == old(livePollTimer)
    {
      if caller != Tick(livePollGeneration) {
        return;
      }
      assert timers == map[];
      Schedule(livePollGeneration);
    }

    // -------------------------------------------------------------------------------------------
    // Every interleaving

    predicate Possible(e: Event)
      reads this
    {
      match e
      case TimerFires(t) => t in timers
      case FetchCompletes(r, _) => r in inFlight
      case _ => true
    }

    method Handle(e: Event)
      requires Valid() && Possible(e)
      modifies this
      ensures Valid()
      ensures e.StartPolling? ==> polling
      ensures e.StopPolling? ==> !polling
      ensures !e.StartPolling? && !e.StopPolling? ==> polling == old(polling)
      ensures old(rendered) <= rendered && (!e.FetchCompletes? ==> rendered == old(rendered))
      ensures e.FetchCompletes? && e.request != old(liveStatsRequestId) ==> rendered == old(rendered)
    {
      match e {
        case StartPolling => StartLivePolling();
        case StopPolling => StopLivePolling();
        case RefreshNow => RefreshLiveStats();
        case TimerFires(t) => FireTimer(t);
        case FetchCompletes(r, ok) => CompleteFetch(r, ok);
      }
    }

    /** Any interleaving of starts, stops, refreshes, timer firings and completions. */
    method Run(events: seq<Event>)
      requires Valid()
      modifies this
      ensures Valid() && |timers| <= 1 && old(rendered) <= rendered
      ensures forall i, j :: 0 <= i < j < |rendered| ==> rendered[i] < rendered[j]
    {
      for i := 0 to |events|
        invariant Valid() && old(rendered) <= rendered
      {
        if Possible(events[i]) {
          Handle(events[i]);
        }
      }
    }

    /** Whatever happens after a stop, short of another start, leaves no timer behind. */
    method RunStopped(events: seq<Event>) returns (handled: nat)
      requires Valid() && !polling && forall e <- events :: !e.StartPolling?
      modifies this
      ensures Valid() && !polling && timers == map[] && handled <= |events|
    {
      handled := 0;
      for i := 0 to |events|
        invariant Valid() && !polling && handled <= i
      {
        if Possible(events[i]) {
          Handle(events[i]);
          handled := handled + 1;
        }
      }
    }
  }
}
