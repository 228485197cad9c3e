/** Connections of the RPC client: each carries one request at a time, and requests that the
    client can serve can be finished (rpc/rpc_client.hpp:269-334, 440-451). */
module RpcSockets {
  import opened Basics
  import opened RpcClient

  // ---- Sockets are conserved ----

  /** How many chains of handlers are under way for requests to a host. */
  function Busy(hosts: seq<Host>, inFlight: multiset<nat>, h: Host): nat {
    if hosts == [] then 0
    else Busy(hosts[..|hosts| - 1], inFlight, h) + (if hosts[|hosts| - 1] == h then inFlight[|hosts| - 1] else 0)
  }

  lemma {:induction false} BusyAdd(hosts: seq<Host>, inFlight: multiset<nat>, h: Host, id: nat)
    ensures Busy(hosts, inFlight + multiset{id}, h) == Busy(hosts, inFlight, h) + If(id < |hosts| && hosts[id] == h)
  {
    if hosts != [] {
      BusyAdd(hosts[..|hosts| - 1], inFlight, h, id);
    }
  }

  lemma BusyRemove(hosts: seq<Host>, inFlight: multiset<nat>, h: Host, id: nat)
    requires id in inFlight
    ensures Busy(hosts, inFlight - multiset{id}, h) + If(id < |hosts| && hosts[id] == h) == Busy(hosts, inFlight, h)
  {
    BusyAdd(hosts, inFlight - multiset{id}, h, id);
    assert inFlight - multiset{id} + multiset{id} == inFlight;
  }

  lemma BusyPush(hosts: seq<Host>, inFlight: multiset<nat>, h: Host, x: Host)
    ensures Busy(hosts + [x], inFlight, h) == Busy(hosts, inFlight, h) + (if x == h then inFlight[|hosts|] else 0)
  {
    assert (hosts + [x])[..|hosts|] == hosts;
  }

  predicate To(c: Client, id: nat, h: Host) {
    id < |c.hosts| && c.hosts[id] == h
  }

  /** A step that opens a connection for a request that still wants one. */
  predicate Opens(c: Client, step: Step, h: Host) {
    step.ConnectDone? && step.result == Connected && step.id in c.pending && To(c, step.id, h)
  }

  /** A step that ends a connection: an idle one, or one whose request has failed. */
  predicate Closes(c: Client, step: Step, h: Host) {
    || (step.Close? && step.host == h)
    || (step.Complete? && !step.ok && To(c, step.id, h))
  }

  /** Idle and busy sockets of a host. */
  function Live(c: Client, h: Host): nat {
    c.sockets[h] + Busy(c.hosts, c.inFlight, h)
  }

  lemma StepSockets(c: Client, step: Step, h: Host)
    requires Inv(c) && Enabled(c, step) && Benign(c, step)
    ensures Live(Next(c, step), h) + If(Closes(c, step, h)) == Live(c, h) + If(Opens(c, step, h))
  {
    hide Busy, HasHost, Inv, Next, Enabled, Benign, Opens, Closes, Live;
    match step
    case Dispatch(x) =>
      NoSuchRequest(c);
      DispatchSockets(c, x, h);
    case Start(x) => QuietSockets(c, step, h);
    case Resolved(x, ok) => QuietSockets(c, step, h);
    case ConnectDone(x, result) =>
      Exclusive(c, x);
      ConnectSockets(c, x, result, h);
    case Complete(x, ok) => CompleteSockets(c, x, ok, h);
    case Reuse(host, x) => TakeSockets(c, step, h);
    case Steal(host, x) => TakeSockets(c, step, h);
    case Close(host) => QuietSockets(c, step, h);
  }

  lemma DispatchSockets(c: Client, x: Host, h: Host)
    requires Places(c, |c.hosts|) == 0
    ensures Live(Next(c, Dispatch(x)), h) == Live(c, h) && !Closes(c, Dispatch(x), h) && !Opens(c, Dispatch(x), h)
  {
    hide Busy, HasHost, Places;
    NothingOwed(c);
    BusyPush(c.hosts, c.inFlight, h, x);
  }

  lemma QuietSockets(c: Client, step: Step, h: Host)
    requires Enabled(c, step) && (step.Start? || step.Resolved? || step.Close?)
    ensures Live(Next(c, step), h) + If(Closes(c, step, h)) == Live(c, h) && !Opens(c, step, h)
  {
    hide Busy, HasHost;
  }

  lemma ConnectSockets(c: Client, x: nat, result: ConnectResult, h: Host)
    requires var step := ConnectDone(x, result); Enabled(c, step) && Benign(c, step) && (x in c.pending ==> x < |c.hosts|)
    ensures var step := ConnectDone(x, result);
            Live(Next(c, step), h) == Live(c, h) + If(Opens(c, step, h)) && !Closes(c, step, h)
  {
    hide Busy, HasHost;
    BusyAdd(c.hosts, c.inFlight, h, x);
  }

  lemma CompleteSockets(c: Client, x: nat, ok: bool, h: Host)
    requires Enabled(c, Complete(x, ok))
    ensures var step := Complete(x, ok);
            Live(Next(c, step), h) + If(Closes(c, step, h)) == Live(c, h) && !Opens(c, step, h)
  {
    hide Busy, HasHost;
    BusyRemove(c.hosts, c.inFlight, h, x);
  }

  /** A free socket is taken by one request. */
  lemma TakeSockets(c: Client, step: Step, h: Host)
    requires Enabled(c, step) && (step.Reuse? || step.Steal?)
    ensures Live(Next(c, step), h) == Live(c, h) && !Closes(c, step, h) && !Opens(c, step, h)
  {
    hide Busy, HasHost;
    BusyAdd(c.hosts, c.inFlight, h, step.id);
  }

  lemma NoSuchRequest(c: Client)
    requires Inv(c)
    ensures Places(c, |c.hosts|) == 0
  {
    hide Places;
  }

  lemma NothingOwed(c: Client)
    requires Places(c, |c.hosts|) == 0
    ensures c.inFlight[|c.hosts|] == 0
  {
    hide Count;
  }

  function Opened(states: seq<Client>, steps: seq<Step>, n: nat, h: Host): nat
    requires n <= |steps| && n <= |states|
  {
    if n == 0 then 0 else Opened(states, steps, n - 1, h) + If(Opens(states[n - 1], steps[n - 1], h))
  }

  function Closed(states: seq<Client>, steps: seq<Step>, n: nat, h: Host): nat
    requires n <= |steps| && n <= |states|
  {
    if n == 0 then 0 else Closed(states, steps, n - 1, h) + If(Closes(states[n - 1], steps[n - 1], h))
  }

  /** In every run without a late reuse marker, the connections to a host that succeeded are
      those closed since, those idle, and those that carry a request: no connection ever
      carries two, and none is lost. */
  lemma {:induction false} SocketsConserved(states: seq<Client>, steps: seq<Step>, i: nat, h: Host)
    requires Run(states, steps) && AllBenign(states, steps) && i < |states|
    ensures Live(states[i], h) + Closed(states, steps, i, h) == Opened(states, steps, i, h)
    decreases i
  {
    hide Inv, Next, Enabled, Benign, Opens, Closes;
    if i > 0 {
      SocketsConserved(states, steps, i - 1, h);
      RunInv(states, steps, i - 1);
      StepSockets(states[i - 1], steps[i - 1], h);
    }
  }

  // ---- Steals ----

  function Steals(steps: seq<Step>): nat {
    if steps == [] then 0 else Steals(steps[..|steps| - 1]) + If(steps[|steps| - 1].Steal?)
  }

  /** In every run waiting_count is the number of connecting and in-flight requests plus the
      number of steal steps so far. */
  lemma WaitingCountsSteals(states: seq<Client>, steps: seq<Step>, i: nat)
    requires Run(states, steps) && AllBenign(states, steps) && i < |states|
    ensures states[i].waitingCount == |states[i].pending| + |states[i].inFlight| + Steals(steps[..i])
  {
    hide Next, Enabled, Benign, Run;
    WaitingCountDrift(states, steps, i);
    StealsCounted(states, steps, i);
  }

  lemma {:induction false} StealsCounted(states: seq<Client>, steps: seq<Step>, i: nat)
    requires Run(states, steps) && i < |states|
    ensures states[i].steals == Steals(steps[..i])
    decreases i
  {
    hide Enabled;
    if i > 0 {
      StealsCounted(states, steps, i - 1);
      assert steps[..i][..i - 1] == steps[..i - 1];
    }
  }

  // ---- Requests can be finished ----

  /** Any sequence of enabled steps without a late marker. */
  ghost predicate Path(states: seq<Client>, steps: seq<Step>) {
    && |states| == |steps| + 1
    && forall i :: 0 <= i < |steps| ==> Goes(states[i], steps[i], states[i + 1])
  }

  ghost predicate Goes(c: Client, step: Step, d: Client) {
    Enabled(c, step) && Benign(c, step) && d == Next(c, step)
  }

  lemma Prepend(c: Client, step: Step, b: seq<Client>, y: seq<Step>) returns (states: seq<Client>, steps: seq<Step>)
    requires Path(b, y) && Goes(c, step, b[0])
    ensures Path(states, steps) && states[0] == c && states[|steps|] == b[|y|]
  {
    hide Goes;
    states, steps := [c] + b, [step] + y;
    forall i | 0 <= i < |steps| ensures Goes(states[i], steps[i], states[i + 1]) {
      if i > 0 { assert states[i] == b[i - 1] && states[i + 1] == b[i] && steps[i] == y[i - 1]; }
    }
  }

  lemma FinishInFlight(c: Client, id: nat) returns (states: seq<Client>, steps: seq<Step>)
    requires Inv(c) && id in c.inFlight
    ensures Path(states, steps) && states[0] == c && Count(states[|steps|].callbacks, id) == 1
  {
    hide Count, HasHost, Attempts, Waiting;
    Exclusive(c, id);
    assert Places(c, id) == If(id < |c.hosts|);
    CountPush(c.callbacks, id, id);
    states, steps := [c, Next(c, Complete(id, true))], [Complete(id, true)];
  }

  lemma FinishConnecting(c: Client, id: nat) returns (states: seq<Client>, steps: seq<Step>)
    requires Inv(c) && id in c.pending && id in c.connecting
    ensures Path(states, steps) && states[0] == c && Count(states[|steps|].callbacks, id) == 1
  {
    hide Count, HasHost, Path, Inv;
    var step := ConnectDone(id, Connected);
    Exclusive(c, id);
    StepInv(c, step);
    var b, y := FinishInFlight(Next(c, step), id);
    states, steps := Prepend(c, step, b, y);
  }

  lemma FinishPending(c: Client, id: nat) returns (states: seq<Client>, steps: seq<Step>)
    requires Inv(c) && id in c.pending
    ensures Path(states, steps) && states[0] == c && Count(states[|steps|].callbacks, id) == 1
  {
    hide Count, HasHost, Path, Inv;
    PendingIsAttempted(c, id);
    if id in c.resolving {
      var step := Resolved(id, true);
      StepInv(c, step);
      var b, y := FinishConnecting(Next(c, step), id);
      states, steps := Prepend(c, step, b, y);
    } else {
      states, steps := FinishConnecting(c, id);
    }
  }

  lemma PendingIsAttempted(c: Client, id: nat)
    requires Inv(c) && id in c.pending
    ensures id in c.resolving || id in c.connecting
  {
    hide Places, Waiting;
  }

  /** A dispatched request whose callback has not run can be finished: always once it has left
      the queue, and while it is queued if a socket to its host is idle or the limit on waiting
      requests is not reached. */
  lemma RequestCanFinish(c: Client, id: nat) returns (states: seq<Client>, steps: seq<Step>)
    requires Inv(c) && id < |c.hosts| && Count(c.callbacks, id) == 0
    requires id in c.queued ==> c.waitingCount < WAIT_LIMIT || c.hosts[id] in c.sockets
    ensures Path(states, steps) && states[0] == c && Count(states[|steps|].callbacks, id) == 1
  {
    hide Count, HasHost, Path, Inv;
    OnePlace(c, id);
    if id in c.queued {
      var step := if c.waitingCount < WAIT_LIMIT then Start(id) else Reuse(c.hosts[id], id);
      StepInv(c, step);
      var b, y;
      if step.Start? {
        b, y := FinishPending(Next(c, step), id);
      } else {
        b, y := FinishInFlight(Next(c, step), id);
      }
      states, steps := Prepend(c, step, b, y);
    } else if id in c.pending {
      states, steps := FinishPending(c, id);
    } else {
      states, steps := FinishInFlight(c, id);
    }
  }

  lemma OnePlace(c: Client, id: nat)
    requires Inv(c) && id < |c.hosts| && Count(c.callbacks, id) == 0
    ensures id in c.queued || id in c.pending || id in c.inFlight
  {
    hide Count;
    assert Places(c, id) == 1;
  }

  /** A new request goes to the host it was dispatched to and can be finished as long as the
      limit is not reached. */
  lemma DispatchCanFinish(c: Client, h: Host) returns (states: seq<Client>, steps: seq<Step>)
    requires Inv(c) && c.waitingCount < 128
    ensures Path(states, steps) && states[0] == Next(c, Dispatch(h))
    ensures var d := states[|steps|];
            |c.hosts| < |d.hosts| && d.hosts[|c.hosts|] == h && Count<nat>(d.callbacks, |c.hosts|) == 1
  {
    hide Count, HasHost, Goes, Inv;
    var id, d := |c.hosts|, Next(c, Dispatch(h));
    StepInv(c, Dispatch(h));
    NoSuchRequest(c);
    NoCallback(c);
    states, steps := RequestCanFinish(d, id);
    HostsStay(states, steps, |steps|);
  }

  lemma NoCallback(c: Client)
    requires Places(c, |c.hosts|) == 0
    ensures Count<nat>(c.callbacks, |c.hosts|) == 0
  {
    hide Count;
  }

  lemma {:induction false} HostsStay(states: seq<Client>, steps: seq<Step>, i: nat)
    requires Path(states, steps) && i < |states|
    ensures states[0].hosts <= states[i].hosts
    decreases i
  {
    hide Enabled, Benign;
    if i > 0 {
      HostsStay(states, steps, i - 1);
      assert Goes(states[i - 1], steps[i - 1], states[i]);
    }
  }
}
