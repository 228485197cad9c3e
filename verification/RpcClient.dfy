/** The RPC client's requests (rpc/rpc_client.hpp) as a step system.  A request is queued,
    then connecting, then in flight on a socket, then done.  A socket that becomes free is
    reused for the same host, and may steal a request that is still connecting; that
    request's own connection attempt completes later. */
module RpcClient {
  import opened Basics

  type Host = string

  const WAIT_LIMIT := 128

  /** How a connection attempt ends.  ReuseMarker is the error code that the client passes to
      itself when it reuses a socket (boost::asio::error::invalid_argument). */
  datatype ConnectResult = Connected | Refused | ReuseMarker

  datatype Client = Client(
    hosts: seq<Host>,           // of every request ever dispatched, by id
    queued: set<nat>,           // request_map
    pending: set<nat>,          // pending_map: connecting, may be stolen
    resolving: set<nat>,        // host lookups under way
    connecting: set<nat>,       // connection attempts under way
    inFlight: multiset<nat>,    // handler chains under way, by request
    sockets: multiset<Host>,    // open sockets whose request has finished
    waitingCount: nat,
    steals: nat,
    callbacks: seq<nat>         // requests whose callback ran, in order
  )

  datatype Step =
    | Dispatch(host: Host)
    | Start(id: nat)                            // handle_next_request, the loop
    | Resolved(id: nat, ok: bool)               // handle_resolve
    | ConnectDone(id: nat, result: ConnectResult) // handle_connect
    | Complete(id: nat, ok: bool)               // the last handler of a request
    | Reuse(host: Host, id: nat)                // handle_next_request, from the queue
    | Steal(host: Host, id: nat)                // handle_next_request, from the pending map
    | Close(host: Host)

  const INIT := Client([], {}, {}, {}, {}, multiset{}, multiset{}, 0, 0, [])

  predicate HasHost(c: Client, ids: set<nat>, host: Host) {
    exists id :: id in ids && id < |c.hosts| && c.hosts[id] == host
  }

  predicate Enabled(c: Client, step: Step) {
    match step
    case Dispatch(host) => true
    case Start(id) => id in c.queued && c.waitingCount < WAIT_LIMIT
    case Resolved(id, ok) => id in c.resolving
    case ConnectDone(id, result) => id in c.connecting
    case Complete(id, ok) => id in c.inFlight && id < |c.hosts|
    case Reuse(host, id) => host in c.sockets && id in c.queued && id < |c.hosts| && c.hosts[id] == host
    case Steal(host, id) =>
      host in c.sockets && !HasHost(c, c.queued, host) && id in c.pending && id < |c.hosts| && c.hosts[id] == host
    case Close(host) => host in c.sockets && !HasHost(c, c.queued, host) && !HasHost(c, c.pending, host)
  }

  /** handle_callback: the count, an unsigned int, goes down, the callback runs, and the
      socket is kept open for reuse unless the request failed. */
  function Finish(c: Client, id: nat, keep: bool): Client
    requires id < |c.hosts|
  {
    c.(waitingCount := if c.waitingCount > 0 then c.waitingCount - 1 else 0xFFFF_FFFF,
       callbacks := c.callbacks + [id],
       sockets := if keep then c.sockets + multiset{c.hosts[id]} else c.sockets)
  }

  function Next(c: Client, step: Step): Client
    requires Enabled(c, step)
  {
    match step
    case Dispatch(host) =>
      c.(hosts := c.hosts + [host], queued := c.queued + {|c.hosts|})
    case Start(id) =>
      c.(queued := c.queued - {id}, pending := c.pending + {id}, resolving := c.resolving + {id},
         waitingCount := c.waitingCount + 1)
    case Resolved(id, ok) =>
      var d := c.(resolving := c.resolving - {id});
      if ok then d.(connecting := d.connecting + {id})
      else if id in d.pending && id < |d.hosts| then Finish(d.(pending := d.pending - {id}), id, false)
      else d
    case ConnectDone(id, result) =>
      var d := c.(connecting := c.connecting - {id});
      if id in d.pending && id < |d.hosts| then
        var e := d.(pending := d.pending - {id});
        if result == Connected then e.(inFlight := e.inFlight + multiset{id}) else Finish(e, id, false)
      else if result == ReuseMarker then d.(inFlight := d.inFlight + multiset{id})
      else d
    case Complete(id, ok) => Finish(c.(inFlight := c.inFlight - multiset{id}), id, ok)
    case Reuse(host, id) =>
      c.(sockets := c.sockets - multiset{host}, queued := c.queued - {id}, inFlight := c.inFlight + multiset{id},
         waitingCount := c.waitingCount + 1)
    case Steal(host, id) =>
      c.(sockets := c.sockets - multiset{host}, pending := c.pending - {id}, inFlight := c.inFlight + multiset{id},
         waitingCount := c.waitingCount + 1, steals := c.steals + 1)
    case Close(host) => c.(sockets := c.sockets - multiset{host})
  }

  // ---- Every request is in one place ----

  /** Queued, connecting, in flight, or done; callbacks are counted as often as they ran. */
  function Places(c: Client, id: nat): nat {
    If(id in c.queued) + If(id in c.pending) + Owed(c, id)
  }

  /** How often a request's callback has run or will run when what is in flight completes. */
  function Owed(c: Client, id: nat): nat {
    c.inFlight[id] + Count(c.callbacks, id)
  }

  ghost predicate Inv(c: Client) {
    && (forall id: nat :: Places(c, id) == If(id < |c.hosts|))
    && Attempts(c) && Waiting(c)
  }

  /** No connection attempt ends with the reuse marker unless its request is still
      connecting: the branch of handle_connect that takes the marker for a reused socket. */
  predicate Benign(c: Client, step: Step) {
    step.ConnectDone? && step.result == ReuseMarker ==> step.id in c.pending
  }

  /** One request changes place. */
  lemma StepPlaces(c: Client, step: Step, id: nat)
    requires Inv(c) && Enabled(c, step) && Benign(c, step)
    ensures Places(Next(c, step), id) == If(id < |Next(c, step).hosts|)
  {
    hide Count, HasHost, Attempts, Waiting, Next, Owed, Places;
    assert Places(c, id) == If(id < |c.hosts|);
    if step.Dispatch? {
      assert Places(c, |c.hosts|) == 0;
      DispatchPlaces(c, step.host, id);
    } else if step.Close? {
      ClosePlaces(c, step.host, id);
    } else {
      assert Places(c, step.id) == If(step.id < |c.hosts|);
      assert step.id in c.resolving + c.connecting ==> step.id < |c.hosts| by { InvAttempts(c); }
      MovePlaces(c, step, id);
    }
  }

  lemma InvAttempts(c: Client)
    requires Inv(c)
    ensures Attempts(c)
  {
  }

  lemma DispatchPlaces(c: Client, host: Host, id: nat)
    requires Places(c, |c.hosts|) == 0
    ensures Next(c, Dispatch(host)).hosts == c.hosts + [host]
    ensures Places(Next(c, Dispatch(host)), id) == Places(c, id) + If(id == |c.hosts|)
  {
    hide Count;
  }

  lemma ClosePlaces(c: Client, host: Host, id: nat)
    requires Enabled(c, Close(host))
    ensures Next(c, Close(host)).hosts == c.hosts && Places(Next(c, Close(host)), id) == Places(c, id)
  {
    hide Count, HasHost;
  }

  lemma MovePlaces(c: Client, step: Step, id: nat)
    requires Enabled(c, step) && Benign(c, step) && !step.Dispatch? && !step.Close?
    requires Places(c, step.id) == If(step.id < |c.hosts|)
    requires step.id in c.resolving + c.connecting ==> step.id < |c.hosts|
    ensures Next(c, step).hosts == c.hosts && Places(Next(c, step), id) == Places(c, id)
  {
    hide Count, HasHost;
    match step
    case Start(x) =>
    case Resolved(x, ok) => CountPush(c.callbacks, x, id);
    case ConnectDone(x, result) => CountPush(c.callbacks, x, id);
    case Complete(x, ok) => CountPush(c.callbacks, x, id);
    case Reuse(host, x) =>
    case Steal(host, x) =>
  }

  /** What one place says about the others. */
  lemma Exclusive(c: Client, id: nat)
    requires Inv(c)
    ensures id in c.queued ==> id !in c.pending && id !in c.inFlight
    ensures id in c.pending ==> id !in c.inFlight
    ensures id in c.queued || id in c.pending || id in c.inFlight ==> id < |c.hosts|
  {
    hide Count;
    assert Places(c, id) == If(id < |c.hosts|);
  }

  ghost predicate Attempts(c: Client) {
    && c.resolving !! c.connecting && c.pending <= c.resolving + c.connecting
    && forall id :: id in c.resolving + c.connecting ==> id < |c.hosts| && id !in c.queued
  }

  ghost predicate Waiting(c: Client) {
    c.waitingCount == |c.pending| + |c.inFlight| + c.steals
  }

  lemma StepAttempts(c: Client, step: Step)
    requires Inv(c) && Enabled(c, step) && Benign(c, step)
    ensures Attempts(Next(c, step))
  {
    hide HasHost, Places, Waiting;
    match step
    case Start(x) => Exclusive(c, x);
    case Resolved(x, ok) => ResolveAttempts(c, x, ok);
    case ConnectDone(x, result) => ConnectAttempts(c, x, result);
    case _ =>
  }

  lemma ResolveAttempts(c: Client, x: nat, ok: bool)
    requires Attempts(c) && Enabled(c, Resolved(x, ok))
    ensures Attempts(Next(c, Resolved(x, ok)))
  {
  }

  lemma ConnectAttempts(c: Client, x: nat, result: ConnectResult)
    requires Attempts(c) && Enabled(c, ConnectDone(x, result))
    ensures Attempts(Next(c, ConnectDone(x, result)))
  {
  }

  /** A request enters the pending map or leaves it, or a handler chain starts or ends. */
  lemma MovedSize(pending: set<nat>, inFlight: multiset<nat>, x: nat)
    ensures x !in pending ==> |pending + {x}| == |pending| + 1
    ensures |inFlight + multiset{x}| == |inFlight| + 1
    ensures x in pending ==> |pending - {x}| == |pending| - 1
    ensures x in inFlight ==> |inFlight - multiset{x}| == |inFlight| - 1
  {
  }

  lemma StepWaiting(c: Client, step: Step)
    requires Inv(c) && Enabled(c, step) && Benign(c, step)
    ensures Waiting(Next(c, step))
  {
    hide HasHost, Inv, Next, Enabled, Waiting;
    match step
    case Dispatch(host) => IdleWaiting(c, step);
    case Close(host) => IdleWaiting(c, step);
    case Start(x) => EnterWaiting(c, step);
    case Reuse(host, x) => EnterWaiting(c, step);
    case Steal(host, x) => EnterWaiting(c, step);
    case Resolved(x, ok) => ResolveWaiting(c, x, ok);
    case ConnectDone(x, result) => ConnectWaiting(c, x, result);
    case Complete(x, ok) => CompleteWaiting(c, x, ok);
  }

  lemma IdleWaiting(c: Client, step: Step)
    requires Inv(c) && Enabled(c, step) && (step.Dispatch? || step.Close?)
    ensures Waiting(Next(c, step))
  {
    hide HasHost, Places, Attempts;
  }

  lemma EnterWaiting(c: Client, step: Step)
    requires Inv(c) && Enabled(c, step) && (step.Start? || step.Reuse? || step.Steal?)
    ensures Waiting(Next(c, step))
  {
    hide HasHost, Places, Attempts, Inv;
    InvWaiting(c);
    Exclusive(c, step.id);
    MovedSize(c.pending, c.inFlight, step.id);
  }

  lemma ResolveWaiting(c: Client, x: nat, ok: bool)
    requires Inv(c) && Enabled(c, Resolved(x, ok))
    ensures Waiting(Next(c, Resolved(x, ok)))
  {
    hide HasHost, Places, Attempts, Inv;
    InvWaiting(c);
    Exclusive(c, x);
    MovedSize(c.pending, c.inFlight, x);
  }

  lemma ConnectWaiting(c: Client, x: nat, result: ConnectResult)
    requires Inv(c) && Enabled(c, ConnectDone(x, result)) && Benign(c, ConnectDone(x, result))
    ensures Waiting(Next(c, ConnectDone(x, result)))
  {
    hide HasHost, Places, Attempts, Inv;
    InvWaiting(c);
    Exclusive(c, x);
    MovedSize(c.pending, c.inFlight, x);
  }

  lemma CompleteWaiting(c: Client, x: nat, ok: bool)
    requires Inv(c) && Enabled(c, Complete(x, ok))
    ensures Waiting(Next(c, Complete(x, ok)))
  {
    hide HasHost, Places, Attempts, Inv;
    InvWaiting(c);
    Exclusive(c, x);
    MovedSize(c.pending, c.inFlight, x);
  }

  lemma InvWaiting(c: Client)
    requires Inv(c)
    ensures Waiting(c)
  {
  }

  lemma StepInv(c: Client, step: Step)
    requires Inv(c) && Enabled(c, step) && Benign(c, step)
    ensures Inv(Next(c, step))
  {
    hide Places, HasHost, Attempts, Waiting, Next, Enabled;
    StepAttempts(c, step);
    StepWaiting(c, step);
    forall id: nat ensures Places(Next(c, step), id) == If(id < |Next(c, step).hosts|) {
      StepPlaces(c, step, id);
    }
  }

  ghost predicate Run(states: seq<Client>, steps: seq<Step>) {
    && |states| == |steps| + 1 && states[0] == INIT
    && forall i :: 0 <= i < |steps| ==> Enabled(states[i], steps[i]) && states[i + 1] == Next(states[i], steps[i])
  }

  ghost predicate AllBenign(states: seq<Client>, steps: seq<Step>)
    requires |states| == |steps| + 1
  {
    forall i :: 0 <= i < |steps| ==> Benign(states[i], steps[i])
  }

  lemma InitInv()
    ensures Inv(INIT)
  {
  }

  lemma {:induction false} RunInv(states: seq<Client>, steps: seq<Step>, i: nat)
    requires Run(states, steps) && i < |states| && forall j :: 0 <= j < i ==> Benign(states[j], steps[j])
    ensures Inv(states[i])
  {
    hide Inv, Next, Enabled, Benign;
    if i == 0 {
      InitInv();
    } else {
      RunInv(states, steps, i - 1);
      StepInv(states[i - 1], steps[i - 1]);
    }
  }

  /** In every run, a dispatched request is in exactly one of queued, connecting, in flight
      and done, and its callback runs at most once, however often sockets steal it. */
  lemma CallbackAtMostOnce(states: seq<Client>, steps: seq<Step>, i: nat, id: nat)
    requires Run(states, steps) && AllBenign(states, steps) && i < |states| && id < |states[i].hosts|
    ensures Places(states[i], id) == 1 && Count(states[i].callbacks, id) <= 1
  {
    RunInv(states, steps, i);
  }

  /** waiting_count counts every stolen request once too often: the drift is exactly the
      number of steals.  So once all is quiet, run() reports success only if nothing was
      stolen, and a queued request is stuck exactly when 128 steals have happened. */
  lemma WaitingCountDrift(states: seq<Client>, steps: seq<Step>, i: nat)
    requires Run(states, steps) && AllBenign(states, steps) && i < |states|
    ensures var c := states[i];
            && c.waitingCount == |c.pending| + |c.inFlight| + c.steals
            && (c.resolving == {} && c.connecting == {} && c.inFlight == multiset{} ==>
                  && c.pending == {} && (c.waitingCount == 0 <==> c.steals == 0)
                  && forall id :: id in c.queued ==> (Enabled(c, Start(id)) <==> c.steals < 128))
  {
    hide Places, Next;
    RunInv(states, steps, i);
  }

  // ---- The exact condition ----

  /** What is owed is never taken back. */
  lemma OwedGrows(c: Client, step: Step, id: nat)
    requires Enabled(c, step)
    ensures Owed(c, id) <= Owed(Next(c, step), id)
  {
    hide Count, HasHost;
    match step
    case Resolved(x, ok) => CountPush(c.callbacks, x, id);
    case ConnectDone(x, result) => CountPush(c.callbacks, x, id);
    case Complete(x, ok) => CountPush(c.callbacks, x, id);
    case _ =>
  }

  lemma {:induction false} OwedStays(states: seq<Client>, steps: seq<Step>, i: nat, j: nat, id: nat)
    requires Run(states, steps) && i <= j < |states|
    ensures Owed(states[i], id) <= Owed(states[j], id)
    decreases j
  {
    hide Owed, Next, Enabled;
    if i < j {
      OwedStays(states, steps, i, j - 1, id);
      OwedGrows(states[j - 1], steps[j - 1], id);
    }
  }

  /** A marker for a request that is no longer connecting starts a second handler chain. */
  lemma MarkerOwesTwice(c: Client, step: Step)
    requires Inv(c) && Enabled(c, step) && !Benign(c, step)
    ensures Owed(Next(c, step), step.id) == 2
  {
    hide Count;
    assert Places(c, step.id) == If(step.id < |c.hosts|);
  }

  lemma FirstMarker(states: seq<Client>, steps: seq<Step>) returns (i: nat)
    requires |states| == |steps| + 1 && !AllBenign(states, steps)
    ensures i < |steps| && !Benign(states[i], steps[i]) && forall j :: 0 <= j < i ==> Benign(states[j], steps[j])
  {
    hide Benign;
    i := 0;
    while Benign(states[i], steps[i])
      invariant i < |steps| && forall j :: 0 <= j < i ==> Benign(states[j], steps[j])
      decreases |steps| - i
    {
      i := i + 1;
    }
  }

  /** Whatever has happened and whatever is still in flight, no request's callback runs twice
      if and only if every reuse marker reported by a connection attempt met a request that
      was still connecting. */
  lemma OwedOnceIff(states: seq<Client>, steps: seq<Step>)
    requires Run(states, steps)
    ensures (forall id: nat :: Owed(states[|steps|], id) <= 1) <==> AllBenign(states, steps)
  {
    hide Owed, Next, Enabled, Inv;
    if AllBenign(states, steps) {
      RunInv(states, steps, |steps|);
      forall id: nat ensures Owed(states[|steps|], id) <= 1 {
        OwedOnce(states[|steps|], id);
      }
    } else {
      var i := FirstMarker(states, steps);
      RunInv(states, steps, i);
      MarkerOwesTwice(states[i], steps[i]);
      OwedStays(states, steps, i + 1, |steps|, steps[i].id);
    }
  }

  lemma OwedOnce(c: Client, id: nat)
    requires Inv(c)
    ensures Owed(c, id) <= 1
  {
    hide Owed;
    assert Places(c, id) == If(id < |c.hosts|);
  }

  /** What is owed is paid: completing the handler chains of a request runs its callback as
      often as it was owed. */
  lemma {:induction false} OwedIsPaid(c: Client, id: nat) returns (states: seq<Client>, steps: seq<Step>)
    requires id < |c.hosts|
    ensures |states| == |steps| + 1 && states[0] == c
    ensures forall i :: 0 <= i < |steps| ==> Enabled(states[i], steps[i]) && states[i + 1] == Next(states[i], steps[i])
    ensures Count(states[|steps|].callbacks, id) == Owed(c, id)
    decreases c.inFlight[id]
  {
    hide Count;
    if c.inFlight[id] == 0 {
      states, steps := [c], [];
    } else {
      var step := Complete(id, true);
      CountPush(c.callbacks, id, id);
      var more, rest := OwedIsPaid(Next(c, step), id);
      states, steps := [c] + more, [step] + rest;
    }
  }

  // ---- A run with a late marker ----

  /** The steps of a run in which a stolen request's own connection attempt fails with the
      reuse marker. */
  function MarkerSteps(h: Host): seq<Step> {
    [Dispatch(h), Dispatch(h), Start(0), Start(1), Resolved(0, true), Resolved(1, true), ConnectDone(1, Connected),
     Complete(1, true), Steal(h, 0), Complete(0, true), ConnectDone(0, ReuseMarker), Complete(0, false)]
  }

  /** The states of that run. */
  function MarkerState(h: Host, k: nat): Client {
    var hosts := [h, h];
    if k == 0 then INIT
    else if k == 1 then Client([h], {0}, {}, {}, {}, multiset{}, multiset{}, 0, 0, [])
    else if k == 2 then Client(hosts, {0, 1}, {}, {}, {}, multiset{}, multiset{}, 0, 0, [])
    else if k == 3 then Client(hosts, {1}, {0}, {0}, {}, multiset{}, multiset{}, 1, 0, [])
    else if k == 4 then Client(hosts, {}, {0, 1}, {0, 1}, {}, multiset{}, multiset{}, 2, 0, [])
    else if k == 5 then Client(hosts, {}, {0, 1}, {1}, {0}, multiset{}, multiset{}, 2, 0, [])
    else if k == 6 then Client(hosts, {}, {0, 1}, {}, {0, 1}, multiset{}, multiset{}, 2, 0, [])
    else if k == 7 then Client(hosts, {}, {0}, {}, {0}, multiset{1}, multiset{}, 2, 0, [])
    else if k == 8 then Client(hosts, {}, {0}, {}, {0}, multiset{}, multiset{h}, 1, 0, [1])
    else if k == 9 then Client(hosts, {}, {}, {}, {0}, multiset{0}, multiset{}, 2, 1, [1])
    else if k == 10 then Client(hosts, {}, {}, {}, {0}, multiset{}, multiset{h}, 1, 1, [1, 0])
    else if k == 11 then Client(hosts, {}, {}, {}, {}, multiset{0}, multiset{h}, 1, 1, [1, 0])
    else Client(hosts, {}, {}, {}, {}, multiset{}, multiset{h}, 0, 1, [1, 0, 0])
  }

  ghost predicate MarkerStep(h: Host, k: nat)
    requires k < 12
  {
    Enabled(MarkerState(h, k), MarkerSteps(h)[k]) && MarkerState(h, k + 1) == Next(MarkerState(h, k), MarkerSteps(h)[k])
  }

  lemma MarkerDispatches(h: Host)
    ensures MarkerStep(h, 0) && MarkerStep(h, 1)
  {
    hide HasHost;
    assert [] + [h] == [h] && [h] + [h] == [h, h];
    assert {} + {0 as nat} == {0} && {0 as nat} + {1} == {0, 1};
  }

  lemma MarkerStarts(h: Host)
    ensures MarkerStep(h, 2) && MarkerStep(h, 3)
  {
    hide HasHost;
    assert {0 as nat, 1} - {0} == {1} && {1 as nat} - {1} == {};
    assert {} + {0 as nat} == {0} && {0 as nat} + {1} == {0, 1};
  }

  lemma MarkerResolves(h: Host)
    ensures MarkerStep(h, 4) && MarkerStep(h, 5)
  {
    hide HasHost;
    assert {0 as nat, 1} - {0} == {1} && {1 as nat} - {1} == {};
    assert {} + {0 as nat} == {0} && {0 as nat} + {1} == {0, 1};
  }

  lemma MarkerConnects(h: Host)
    ensures MarkerStep(h, 6) && MarkerStep(h, 7)
  {
    hide HasHost;
    assert {0 as nat, 1} - {1} == {0} && {1 as nat} - {1} == {};
    assert {} + {1 as nat} == {1} && [] + [1 as nat] == [1];
  }

  lemma NobodyQueued(c: Client, h: Host)
    ensures !HasHost(c, {}, h)
  {
  }

  lemma MarkerSteals(h: Host)
    ensures MarkerStep(h, 8)
  {
    hide HasHost;
    assert !HasHost(MarkerState(h, 8), {}, h) by { NobodyQueued(MarkerState(h, 8), h); }
    assert multiset{h} - multiset{h} == multiset{} && multiset{} + multiset{0 as nat} == multiset{0};
    assert {0 as nat} - {0} == {} && {} + {0 as nat} == {0};
  }

  lemma MarkerFinishes(h: Host)
    ensures MarkerStep(h, 9)
  {
    hide HasHost;
    assert {0 as nat} - {0} == {} && {} + {0 as nat} == {0};
    assert [1 as nat] + [0] == [1, 0];
  }

  lemma MarkerRepeats(h: Host)
    ensures MarkerStep(h, 10) && MarkerStep(h, 11)
  {
    hide HasHost;
    assert {0 as nat} - {0} == {} && {} + {0 as nat} == {0};
    assert [1 as nat, 0] + [0] == [1, 0, 0];
  }

  /** The assumption is needed: a genuine connection error that equals the marker makes the
      client send a finished request again and run its callback twice. */
  lemma MarkerRunsCallbackTwice(h: Host) returns (states: seq<Client>)
    ensures Run(states, MarkerSteps(h)) && Count(states[|states| - 1].callbacks, 0) == 2
  {
    hide Enabled, Next;
    MarkerDispatches(h);
    MarkerStarts(h);
    MarkerResolves(h);
    MarkerConnects(h);
    MarkerSteals(h);
    MarkerFinishes(h);
    MarkerRepeats(h);
    states := seq(13, k requires 0 <= k => MarkerState(h, k));
    forall i | 0 <= i < 12
      ensures Enabled(states[i], MarkerSteps(h)[i]) && states[i + 1] == Next(states[i], MarkerSteps(h)[i])
    {
      assert MarkerStep(h, i);
    }
    CountPush([1, 0], 0, 0);
    CountPush([1], 0, 0);
    assert [1, 0] + [0] == [1, 0, 0] && [1] + [0] == [1, 0];
    assert Count([1 as nat], 0) == 0;
  }
}
