/**
 The manager's daemon: it keeps one runner per configured workspace, starting the
 missing ones and signalling the others to stop.
 */
module Daemon {
  import opened Wrappers

  type WorkspaceId = int

  datatype Uid = Uid(address: string, workspace: WorkspaceId)

  datatype Instance = Instance(address: string, workspaces: seq<WorkspaceId>)

  type Config = seq<Instance>

  /**
   The outside world during one interaction: whether a client can be built, which
   workspace the server returns for an id, and whether a folder and a context for the
   runner can be prepared.
   */
  datatype Reply = Reply(clientOk: bool, workspace: WorkspaceId -> Option<WorkspaceId>, prepared: bool)

  type Oracle = nat -> Reply

  datatype DaemonError = ClientUnavailable | UnavailableNetwork | StartFailed

  /** `processes` gives the stop signal of each runner; `signals` holds all signals ever handed to a runner. */
  datatype Runners = Runners(processes: map<Uid, nat>, signals: seq<bool>, clock: nat)

  // ---- What to start and to stop

  function PairsOf(instance: Instance, k: nat): (r: seq<Uid>)
    requires k <= |instance.workspaces|
    decreases |instance.workspaces| - k
  {
    if k == |instance.workspaces| then []
    else [Uid(instance.address, instance.workspaces[k])] + PairsOf(instance, k + 1)
  }

  /** The configured workspaces from instance `i` on. */
  function PairsFrom(config: Config, i: nat): seq<Uid>
    requires i <= |config|
    decreases |config| - i
  {
    if i == |config| then [] else PairsOf(config[i], 0) + PairsFrom(config, i + 1)
  }

  function Pairs(config: Config): seq<Uid> {
    PairsFrom(config, 0)
  }

  function WorkspacesToStart(
    instance: Instance, k: nat, running: set<Uid>, oracle: Oracle, clock: nat, found: seq<Uid>
  ): (Result<seq<Uid>, DaemonError>, nat)
    requires k <= |instance.workspaces|
    decreases |instance.workspaces| - k
  {
    if k == |instance.workspaces| then (Ok(found), clock)
    else
      match oracle(clock).workspace(instance.workspaces[k])
      case None => (Err(UnavailableNetwork), clock + 1)
      case Some(workspace) =>
        var uid := Uid(instance.address, workspace);
        WorkspacesToStart(instance, k + 1, running, oracle, clock + 1, if uid in running then found else found + [uid])
  }

  function InstancesToStart(config: Config, i: nat, running: set<Uid>, oracle: Oracle, clock: nat, found: seq<Uid>)
    : (Result<seq<Uid>, DaemonError>, nat)
    requires i <= |config|
    decreases |config| - i
  {
    if i == |config| then (Ok(found), clock)
    else if !oracle(clock).clientOk then (Err(ClientUnavailable), clock + 1)
    else
      var (r, now) := WorkspacesToStart(config[i], 0, running, oracle, clock + 1, found);
      if r.Ok? then InstancesToStart(config, i + 1, running, oracle, now, r.value) else (r, now)
  }

  // ---- Starting and stopping

  predicate CanStart(reply: Reply, uid: Uid) {
    reply.clientOk && reply.workspace(uid.workspace).Some? && reply.prepared
  }

  /** A runner starts with a fresh signal, which replaces any signal stored for the same workspace. */
  function StartOne(m: Runners, uid: Uid, oracle: Oracle): Runners {
    if CanStart(oracle(m.clock), uid)
    then Runners(m.processes[uid := |m.signals|], m.signals + [false], m.clock + 1)
    else m.(clock := m.clock + 1)
  }

  function StartAll(m: Runners, uids: seq<Uid>, i: nat, oracle: Oracle): Runners
    requires i <= |uids|
    decreases |uids| - i
  {
    if i == |uids| then m else StartAll(StartOne(m, uids[i], oracle), uids, i + 1, oracle)
  }

  ghost function UpTo(uids: seq<Uid>, n: nat): set<Uid>
    requires n <= |uids|
  {
    set k | 0 <= k < n :: uids[k]
  }

  /** All signals stored for `uids` are raised, and forgotten. */
  ghost predicate StoppedAll(m: Runners, uids: set<Uid>, now: Runners) {
    && now.processes == m.processes - uids
    && now.clock == m.clock && |now.signals| == |m.signals|
    && forall t :: 0 <= t < |m.signals| ==>
                     (now.signals[t] <==> m.signals[t] || exists uid :: uid in uids && uid in m.processes && m.processes[uid] == t)
  }

  ghost function NotConfigured(running: set<Uid>, config: Config): set<Uid> {
    set uid | uid in running && uid !in Pairs(config)
  }

  /** The result of one reconciliation. */
  ghost predicate Ensured(m: Runners, config: Config, oracle: Oracle, r: Result<(), DaemonError>, now: Runners) {
    var (toStart, clock) := InstancesToStart(config, 0, m.processes.Keys, oracle, m.clock, []);
    var asked := m.(clock := clock);
    if toStart.Err? then r == Err(toStart.error) && now == asked
    else
      && r.Ok?
      && exists stopped ::
           StoppedAll(asked, NotConfigured(m.processes.Keys, config), stopped) &&
           now == StartAll(stopped, toStart.value, 0, oracle)
  }

  ghost predicate HasAddress(config: Config, uid: Uid) {
    exists i :: 0 <= i < |config| && config[i].address == uid.address
  }

  class Daemon {
    var config: Config
    var processes: map<Uid, nat>
    var signals: seq<bool>
    var clock: nat
    const oracle: Oracle

    constructor (config: Config, oracle: Oracle)
      ensures this.config == config && this.oracle == oracle && Now() == Runners(map[], [], 0)
    {
      this.config, this.oracle, processes, signals, clock := config, oracle, map[], [], 0;
    }

    ghost function Now(): Runners
      reads this
    {
      Runners(processes, signals, clock)
    }

    /** Every stored signal was handed to a runner. */
    ghost predicate Valid()
      reads this
    {
      forall uid :: uid in processes ==> processes[uid] < |signals|
    }

    method GetProcessesToStart() returns (r: Result<seq<Uid>, DaemonError>)
      modifies this`clock
      ensures (r, clock) == InstancesToStart(config, 0, processes.Keys, oracle, old(clock), [])
    {
      ghost var all := InstancesToStart(config, 0, processes.Keys, oracle, clock, []);
      var processesToStart: seq<Uid> := [];
      for i := 0 to |config|
        invariant all == InstancesToStart(config, i, processes.Keys, oracle, clock, processesToStart)
      {
        var clientOk := oracle(clock).clientOk;
        clock := clock + 1;
        if !clientOk {
          return Err(ClientUnavailable);
        }
        ghost var found := WorkspacesToStart(config[i], 0, processes.Keys, oracle, clock, processesToStart);
        for k := 0 to |config[i].workspaces|
          invariant found == WorkspacesToStart(config[i], k, processes.Keys, oracle, clock, processesToStart)
        {
          var workspace := oracle(clock).workspace(config[i].workspaces[k]);
          clock := clock + 1;
          if workspace.None? {
            return Err(UnavailableNetwork);
          }
          var uid := Uid(config[i].address, workspace.value);
          if uid !in processes {
            processesToStart := processesToStart + [uid];
          }
        }
      }
      r := Ok(processesToStart);
    }

    method GetProcessesToStop() returns (r: seq<Uid>)
      ensures forall uid :: uid in r <==> uid in processes && uid !in Pairs(config)
      ensures forall i, j :: 0 <= i < j < |r| ==> r[i] != r[j]
    {
      r := [];
      var expected := Expected();
      var left: set<Uid> := processes.Keys;
      while left != {}
        invariant left <= processes.Keys
        invariant forall uid :: uid in r <==> uid in processes.Keys - left && uid !in expected
        invariant forall i, j :: 0 <= i < j < |r| ==> r[i] != r[j]
        decreases left
      {
        SomeUid(left);
        var uid :| uid in left;
        left := left - {uid};
        if uid !in expected {
          r := r + [uid];
        }
      }
    }

    method Expected() returns (expected: seq<Uid>)
      ensures expected == Pairs(config)
    {
      expected := [];
      for i := 0 to |config|
        invariant expected + PairsFrom(config, i) == Pairs(config)
      {
        ghost var before := expected;
        for k := 0 to |config[i].workspaces|
          invariant expected + PairsOf(config[i], k) == before + PairsOf(config[i], 0)
        {
          ghost var one := expected;
          expected := expected + [Uid(config[i].address, config[i].workspaces[k])];
          assert one + PairsOf(config[i], k) == expected + PairsOf(config[i], k + 1);
        }
        assert expected == before + PairsOf(config[i], 0);
        assert before + PairsFrom(config, i) == expected + PairsFrom(config, i + 1);
      }
    }

    /** The instance of the runner is looked up by address, and must be there. */
    method StartProcess(uid: Uid) returns (r: Result<(), DaemonError>)
      requires HasAddress(config, uid)
      modifies this`processes, this`signals, this`clock
      ensures Now() == StartOne(old(Now()), uid, oracle)
      ensures var reply := oracle(old(clock));
              r.Ok? <==> reply.clientOk && reply.workspace(uid.workspace).Some? && reply.prepared
      ensures if r.Ok? then processes == old(processes)[uid := |old(signals)|] && signals == old(signals) + [false]
              else r == Err(StartFailed) && processes == old(processes) && signals == old(signals)
    {
      var i := 0;
      while config[i].address != uid.address
        invariant 0 <= i < |config|
        invariant exists k :: i <= k < |config| && config[k].address == uid.address
        decreases |config| - i
      {
        i := i + 1;
      }
      var reply := oracle(clock);
      clock := clock + 1;
      if !reply.clientOk || reply.workspace(uid.workspace).None? || !reply.prepared {
        return Err(StartFailed);
      }
      processes := processes[uid := |signals|];
      signals := signals + [false];
      r := Ok(());
    }

    /** The runner must be there. */
    method StopProcess(uid: Uid)
      requires Valid() && uid in processes
      modifies this`processes, this`signals
      ensures Valid() && StoppedAll(old(Now()), {uid}, Now())
    {
      signals := signals[processes[uid] := true];
      processes := processes - {uid};
    }

    method StopProcesses(toStop: seq<Uid>)
      requires Valid() && forall uid :: uid in toStop ==> uid in processes
      requires forall i, j :: 0 <= i < j < |toStop| ==> toStop[i] != toStop[j]
      modifies this`processes, this`signals
      ensures Valid() && StoppedAll(old(Now()), UpTo(toStop, |toStop|), Now())
    {
      ghost var asked := Now();
      assert UpTo(toStop, 0) == {} && processes - {} == processes;
      for i := 0 to |toStop|
        invariant Valid() && StoppedAll(asked, UpTo(toStop, i), Now())
      {
        ghost var some, before := UpTo(toStop, i), Now();
        StopProcess(toStop[i]);
        StopsAdd(asked, some, before, toStop[i], Now());
        assert UpTo(toStop, i + 1) == some + {toStop[i]};
      }
    }

    /** Stops the runners that are no longer configured and starts those that are missing; a failed start is only logged. */
    method EnsureProcesses() returns (r: Result<(), DaemonError>)
      requires Valid()
      modifies this`processes, this`signals, this`clock
      ensures Valid() && Ensured(old(Now()), config, oracle, r, Now())
    {
      hide InstancesToStart, StoppedAll;
      ghost var m := Now();
      var toStart := GetProcessesToStart();
      if toStart.Err? {
        return Err(toStart.error);
      }
      ghost var asked := Now();
      var toStop := GetProcessesToStop();
      StopProcesses(toStop);
      ghost var stopped := Now();
      assert UpTo(toStop, |toStop|) == NotConfigured(m.processes.Keys, config);
      ToStartAddresses(config, 0, m.processes.Keys, oracle, m.clock, []);
      for i := 0 to |toStart.value|
        invariant Valid() && StartAll(Now(), toStart.value, i, oracle) == StartAll(stopped, toStart.value, 0, oracle)
      {
        var started := StartProcess(toStart.value[i]);
      }
      r := Ok(());
    }
  }

  lemma StopsAdd(m: Runners, some: set<Uid>, mid: Runners, uid: Uid, now: Runners)
    requires StoppedAll(m, some, mid) && StoppedAll(mid, {uid}, now) && uid !in some
    ensures StoppedAll(m, some + {uid}, now)
  {
    assert m.processes - some - {uid} == m.processes - (some + {uid});
    forall t | 0 <= t < |m.signals|
      ensures now.signals[t] <==>
              m.signals[t] || exists x :: x in some + {uid} && x in m.processes && m.processes[x] == t
    {
      assert now.signals[t] <==> mid.signals[t] || (uid in mid.processes && mid.processes[uid] == t);
      assert (exists x :: x in some + {uid} && x in m.processes && m.processes[x] == t) <==>
             (exists x :: x in some && x in m.processes && m.processes[x] == t) ||
             (uid in m.processes && m.processes[uid] == t);
    }
  }

  lemma {:induction false} ToStartAddresses(
    config: Config, i: nat, running: set<Uid>, oracle: Oracle, clock: nat, found: seq<Uid>
  )
    requires i <= |config| && forall uid :: uid in found ==> HasAddress(config, uid)
    ensures var r := InstancesToStart(config, i, running, oracle, clock, found).0;
            r.Ok? ==> forall uid :: uid in r.value ==> HasAddress(config, uid)
    decreases |config| - i
  {
    if i < |config| && oracle(clock).clientOk {
      WorkspacesAddresses(config, i, 0, running, oracle, clock + 1, found);
      var (r, now) := WorkspacesToStart(config[i], 0, running, oracle, clock + 1, found);
      if r.Ok? {
        ToStartAddresses(config, i + 1, running, oracle, now, r.value);
      }
    }
  }

  lemma {:induction false} WorkspacesAddresses(
    config: Config, i: nat, k: nat, running: set<Uid>, oracle: Oracle, clock: nat, found: seq<Uid>
  )
    requires i < |config| && k <= |config[i].workspaces| && forall uid :: uid in found ==> HasAddress(config, uid)
    ensures var r := WorkspacesToStart(config[i], k, running, oracle, clock, found).0;
            r.Ok? ==> forall uid :: uid in r.value ==> HasAddress(config, uid)
    decreases |config[i].workspaces| - k
  {
    if k < |config[i].workspaces| {
      var workspace := oracle(clock).workspace(config[i].workspaces[k]);
      if workspace.Some? {
        var uid := Uid(config[i].address, workspace.value);
        assert HasAddress(config, uid);
        WorkspacesAddresses(config, i, k + 1, running, oracle, clock + 1, if uid in running then found else found + [uid]);
      }
    }
  }

  lemma SomeUid(uids: set<Uid>)
    requires uids != {}
    ensures exists uid :: uid in uids
  {
    assert (forall uid :: uid !in uids) ==> uids == {};
  }

  // ---- What is started

  /** The server returns the workspace it was asked for. */
  ghost predicate Echoes(oracle: Oracle) {
    forall n: nat, id :: oracle(n).workspace(id).Some? ==> oracle(n).workspace(id).value == id
  }

  ghost predicate Distinct(uids: seq<Uid>) {
    forall i, j :: 0 <= i < j < |uids| ==> uids[i] != uids[j]
  }

  /** The pairs from `i` on whose runner is not there, in order. */
  ghost function NotRunning(pairs: seq<Uid>, i: nat, running: set<Uid>): seq<Uid>
    requires i <= |pairs|
    decreases |pairs| - i
  {
    if i == |pairs| then []
    else if pairs[i] in running then NotRunning(pairs, i + 1, running)
    else [pairs[i]] + NotRunning(pairs, i + 1, running)
  }

  lemma {:induction false} NotRunningMembers(pairs: seq<Uid>, i: nat, running: set<Uid>)
    requires i <= |pairs|
    ensures forall uid :: uid in NotRunning(pairs, i, running) <==>
                            uid !in running && exists k :: i <= k < |pairs| && pairs[k] == uid
    decreases |pairs| - i
  {
    if i < |pairs| {
      NotRunningMembers(pairs, i + 1, running);
    }
  }

  lemma {:induction false} NotRunningShift(a: seq<Uid>, b: seq<Uid>, i: nat, running: set<Uid>)
    requires i <= |b|
    ensures NotRunning(a + b, |a| + i, running) == NotRunning(b, i, running)
    decreases |b| - i
  {
    if i < |b| {
      assert (a + b)[|a| + i] == b[i];
      NotRunningShift(a, b, i + 1, running);
    }
  }

  lemma {:induction false} NotRunningSum(a: seq<Uid>, b: seq<Uid>, i: nat, running: set<Uid>)
    requires i <= |a|
    ensures NotRunning(a + b, i, running) == NotRunning(a, i, running) + NotRunning(b, 0, running)
    decreases |a| - i
  {
    if i < |a| {
      assert (a + b)[i] == a[i];
      NotRunningSum(a, b, i + 1, running);
    } else {
      NotRunningShift(a, b, 0, running);
    }
  }

  lemma {:induction false} NotRunningDistinct(pairs: seq<Uid>, i: nat, running: set<Uid>)
    requires i <= |pairs| && Distinct(pairs)
    ensures Distinct(NotRunning(pairs, i, running))
    decreases |pairs| - i
  {
    if i < |pairs| {
      NotRunningMembers(pairs, i + 1, running);
      NotRunningDistinct(pairs, i + 1, running);
    }
  }

  /** `pairs` are what the server returns for the workspaces from `k` on, asked one after the other from interaction `clock`. */
  ghost predicate WorkspacesAnswered(instance: Instance, k: nat, oracle: Oracle, clock: nat, pairs: seq<Uid>)
    requires k <= |instance.workspaces|
  {
    && |pairs| == |instance.workspaces| - k
    && forall j :: 0 <= j < |pairs| ==>
         pairs[j].address == instance.address &&
         oracle(clock + j).workspace(instance.workspaces[k + j]) == Some(pairs[j].workspace)
  }

  /** The same for all instances from `i` on; a client is built before the workspaces of an instance. */
  ghost predicate Answered(config: Config, i: nat, oracle: Oracle, clock: nat, pairs: seq<Uid>)
    requires i <= |config|
    decreases |config| - i
  {
    if i == |config| then pairs == []
    else
      var n := |config[i].workspaces|;
      && oracle(clock).clientOk && n <= |pairs|
      && WorkspacesAnswered(config[i], 0, oracle, clock + 1, pairs[..n])
      && Answered(config, i + 1, oracle, clock + 1 + n, pairs[n..])
  }

  lemma {:induction false} WorkspacesFound(instance: Instance, k: nat, running: set<Uid>, oracle: Oracle, clock: nat, found: seq<Uid>)
    returns (pairs: seq<Uid>)
    requires k <= |instance.workspaces|
    ensures var (r, now) := WorkspacesToStart(instance, k, running, oracle, clock, found);
            r.Ok? ==>
              && r.value == found + NotRunning(pairs, 0, running) && now == clock + |instance.workspaces| - k
              && WorkspacesAnswered(instance, k, oracle, clock, pairs)
    decreases |instance.workspaces| - k
  {
    pairs := [];
    if k < |instance.workspaces| && oracle(clock).workspace(instance.workspaces[k]).Some? {
      var uid := Uid(instance.address, oracle(clock).workspace(instance.workspaces[k]).value);
      var next := if uid in running then found else found + [uid];
      var rest := WorkspacesFound(instance, k + 1, running, oracle, clock + 1, next);
      pairs := [uid] + rest;
      NotRunningShift([uid], rest, 0, running);
      assert found + [uid] + NotRunning(rest, 0, running) == found + ([uid] + NotRunning(rest, 0, running));
    }
  }

  /** What is to start is what the server returned for the configured workspaces and is not running, in their order. */
  lemma {:induction false} ToStartAnswered(config: Config, i: nat, running: set<Uid>, oracle: Oracle, clock: nat, found: seq<Uid>)
    returns (pairs: seq<Uid>)
    requires i <= |config|
    ensures var r := InstancesToStart(config, i, running, oracle, clock, found).0;
            r.Ok? ==> r.value == found + NotRunning(pairs, 0, running) && Answered(config, i, oracle, clock, pairs)
    decreases |config| - i
  {
    hide WorkspacesAnswered;
    pairs := [];
    if i < |config| && oracle(clock).clientOk {
      var n := |config[i].workspaces|;
      var here := WorkspacesFound(config[i], 0, running, oracle, clock + 1, found);
      var (r, now) := WorkspacesToStart(config[i], 0, running, oracle, clock + 1, found);
      if r.Ok? {
        var later := ToStartAnswered(config, i + 1, running, oracle, now, r.value);
        pairs := here + later;
        NotRunningSum(here, later, 0, running);
        assert |here| == n by { AnswersCount(config[i], oracle, clock + 1, here); }
        assert pairs[..n] == here && pairs[n..] == later;
      }
    }
  }

  lemma AnswersCount(instance: Instance, oracle: Oracle, clock: nat, pairs: seq<Uid>)
    requires WorkspacesAnswered(instance, 0, oracle, clock, pairs)
    ensures |pairs| == |instance.workspaces|
  {
  }

  /** An echoing server returns the configured pairs. */
  lemma {:induction false} WorkspacesEcho(instance: Instance, k: nat, oracle: Oracle, clock: nat, pairs: seq<Uid>)
    requires k <= |instance.workspaces| && Echoes(oracle) && WorkspacesAnswered(instance, k, oracle, clock, pairs)
    ensures pairs == PairsOf(instance, k)
    decreases |instance.workspaces| - k
  {
    if k < |instance.workspaces| {
      assert forall j :: 0 <= j < |pairs| - 1 ==> pairs[1..][j] == pairs[j + 1];
      WorkspacesEcho(instance, k + 1, oracle, clock + 1, pairs[1..]);
    }
  }

  lemma {:induction false} AnswersEcho(config: Config, i: nat, oracle: Oracle, clock: nat, pairs: seq<Uid>)
    requires i <= |config| && Echoes(oracle) && Answered(config, i, oracle, clock, pairs)
    ensures pairs == PairsFrom(config, i)
    decreases |config| - i
  {
    hide WorkspacesAnswered;
    if i < |config| {
      var n := |config[i].workspaces|;
      WorkspacesEcho(config[i], 0, oracle, clock + 1, pairs[..n]);
      AnswersEcho(config, i + 1, oracle, clock + 1 + n, pairs[n..]);
    }
  }

  /** What is to start is what is configured and not running, in the order of the configuration. */
  lemma ToStartFound(config: Config, running: set<Uid>, oracle: Oracle, clock: nat)
    requires Echoes(oracle)
    ensures var r := InstancesToStart(config, 0, running, oracle, clock, []).0;
            r.Ok? ==> r.value == NotRunning(Pairs(config), 0, running)
  {
    var pairs := ToStartAnswered(config, 0, running, oracle, clock, []);
    if InstancesToStart(config, 0, running, oracle, clock, []).0.Ok? {
      AnswersEcho(config, 0, oracle, clock, pairs);
    }
  }

  /** The interaction that made the listing fail. */
  ghost predicate FailedAt(config: Config, reply: Reply, error: DaemonError) {
    match error
    case ClientUnavailable => !reply.clientOk
    case UnavailableNetwork =>
      exists i, k :: 0 <= i < |config| && 0 <= k < |config[i].workspaces| && reply.workspace(config[i].workspaces[k]).None?
    case StartFailed => false
  }

  lemma {:induction false} WorkspacesFail(config: Config, i: nat, k: nat, running: set<Uid>, oracle: Oracle, clock: nat, found: seq<Uid>)
    requires i < |config| && k <= |config[i].workspaces|
    ensures var (r, now) := WorkspacesToStart(config[i], k, running, oracle, clock, found);
            if r.Ok? then now == clock + |config[i].workspaces| - k
            else clock < now && FailedAt(config, oracle(now - 1), r.error)
    decreases |config[i].workspaces| - k
  {
    if k < |config[i].workspaces| {
      var workspace := oracle(clock).workspace(config[i].workspaces[k]);
      if workspace.Some? {
        var uid := Uid(config[i].address, workspace.value);
        WorkspacesFail(config, i, k + 1, running, oracle, clock + 1, if uid in running then found else found + [uid]);
      }
    }
  }

  /** The questions asked about the instances from `i` on: one for the client, and one for each workspace. */
  ghost function Questions(config: Config, i: nat): nat
    requires i <= |config|
    decreases |config| - i
  {
    if i == |config| then 0 else 1 + |config[i].workspaces| + Questions(config, i + 1)
  }

  /** The listing asks one question after the other, and fails with the first that has no answer. */
  lemma {:induction false} ToStartFails(config: Config, i: nat, running: set<Uid>, oracle: Oracle, clock: nat, found: seq<Uid>)
    requires i <= |config|
    ensures var (r, now) := InstancesToStart(config, i, running, oracle, clock, found);
            if r.Ok? then now == clock + Questions(config, i)
            else clock < now && FailedAt(config, oracle(now - 1), r.error)
    decreases |config| - i
  {
    if i < |config| && oracle(clock).clientOk {
      WorkspacesFail(config, i, 0, running, oracle, clock + 1, found);
      var (r, now) := WorkspacesToStart(config[i], 0, running, oracle, clock + 1, found);
      if r.Ok? {
        ToStartFails(config, i + 1, running, oracle, now, r.value);
      }
    }
  }

  // ---- Every signal is stored or raised

  ghost predicate StoredSignal(m: Runners, t: nat) {
    exists uid :: uid in m.processes && m.processes[uid] == t
  }

  /** The stored signals are unraised and each belongs to one runner; every other signal was raised. */
  ghost predicate Tracked(m: Runners) {
    && (forall uid :: uid in m.processes ==> m.processes[uid] < |m.signals| && !m.signals[m.processes[uid]])
    && (forall u, v :: u in m.processes && v in m.processes && m.processes[u] == m.processes[v] ==> u == v)
    && (forall t :: 0 <= t < |m.signals| ==> m.signals[t] || StoredSignal(m, t))
  }

  /** A runner that can no longer be told to stop. */
  ghost predicate Lost(m: Runners, t: nat) {
    t < |m.signals| && !m.signals[t] && !StoredSignal(m, t)
  }

  lemma StopKeepsTracked(m: Runners, uids: set<Uid>, now: Runners)
    requires Tracked(m) && StoppedAll(m, uids, now)
    ensures Tracked(now)
  {
    forall t | 0 <= t < |now.signals| ensures now.signals[t] || StoredSignal(now, t) {
      if !m.signals[t] {
        var uid :| uid in m.processes && m.processes[uid] == t;
        assert uid !in uids ==> uid in now.processes;
      }
    }
  }

  lemma StartKeepsTracked(m: Runners, uid: Uid, oracle: Oracle)
    requires Tracked(m) && (CanStart(oracle(m.clock), uid) ==> uid !in m.processes)
    ensures Tracked(StartOne(m, uid, oracle))
  {
    hide CanStart;
    var now := StartOne(m, uid, oracle);
    forall t | 0 <= t < |now.signals| ensures now.signals[t] || StoredSignal(now, t) {
      if t < |m.signals| && !m.signals[t] {
        var x :| x in m.processes && m.processes[x] == t;
        assert x in now.processes && now.processes[x] == t;
      } else if t == |m.signals| {
        assert now.processes[uid] == t;
      }
    }
  }

  lemma {:induction false} LostForGood(m: Runners, uids: seq<Uid>, i: nat, oracle: Oracle, t: nat)
    requires i <= |uids| && Lost(m, t)
    ensures Lost(StartAll(m, uids, i, oracle), t)
    decreases |uids| - i
  {
    if i < |uids| {
      LostForGood(StartOne(m, uids[i], oracle), uids, i + 1, oracle, t);
    }
  }

  lemma RestartLoses(m: Runners, uid: Uid, oracle: Oracle)
    requires Tracked(m) && uid in m.processes && CanStart(oracle(m.clock), uid)
    ensures Lost(StartOne(m, uid, oracle), m.processes[uid])
  {
  }

  lemma TrackedLosesNone(m: Runners, t: nat)
    requires Tracked(m)
    ensures !Lost(m, t)
  {
  }

  /**
   The start at position `k` succeeds, the starts from `i` on beginning at interaction
   `clock`: there is a client, the server knows the workspace, and the folder is prepared.
   */
  ghost predicate Starts(uids: seq<Uid>, i: nat, oracle: Oracle, clock: nat, k: nat)
    requires i <= k < |uids|
  {
    var reply := oracle(clock + (k - i));
    reply.clientOk && reply.workspace(uids[k].workspace).Some? && reply.prepared
  }

  /** Some start from `i` on succeeds although its runner is there, or was started in between. */
  ghost predicate StartsTwice(running: set<Uid>, uids: seq<Uid>, i: nat, oracle: Oracle, clock: nat)
    requires i <= |uids|
  {
    exists j :: i <= j < |uids| && Starts(uids, i, oracle, clock, j) &&
      (uids[j] in running || exists k :: i <= k < j && uids[k] == uids[j] && Starts(uids, i, oracle, clock, k))
  }

  lemma StartsTwiceLater(running: set<Uid>, uids: seq<Uid>, i: nat, oracle: Oracle, clock: nat)
    requires i < |uids| && (Starts(uids, i, oracle, clock, i) ==> uids[i] !in running)
    ensures StartsTwice(running, uids, i, oracle, clock) <==>
            StartsTwice(running + if Starts(uids, i, oracle, clock, i) then {uids[i]} else {}, uids, i + 1, oracle, clock + 1)
  {
    var later := running + if Starts(uids, i, oracle, clock, i) then {uids[i]} else {};
    assert forall k :: i < k < |uids| ==> (Starts(uids, i, oracle, clock, k) <==> Starts(uids, i + 1, oracle, clock + 1, k));
    if StartsTwice(running, uids, i, oracle, clock) {
      var j :| i <= j < |uids| && Starts(uids, i, oracle, clock, j) &&
        (uids[j] in running || exists k :: i <= k < j && uids[k] == uids[j] && Starts(uids, i, oracle, clock, k));
      assert j > i;
      assert Starts(uids, i + 1, oracle, clock + 1, j);
      if uids[j] !in later {
        var k :| i <= k < j && uids[k] == uids[j] && Starts(uids, i, oracle, clock, k);
        assert k > i && Starts(uids, i + 1, oracle, clock + 1, k);
      }
    }
    if StartsTwice(later, uids, i + 1, oracle, clock + 1) {
      var j :| i + 1 <= j < |uids| && Starts(uids, i + 1, oracle, clock + 1, j) &&
        (uids[j] in later || exists k :: i + 1 <= k < j && uids[k] == uids[j] && Starts(uids, i + 1, oracle, clock + 1, k));
      assert Starts(uids, i, oracle, clock, j);
      if uids[j] !in running && uids[j] !in later {
        var k :| i + 1 <= k < j && uids[k] == uids[j] && Starts(uids, i + 1, oracle, clock + 1, k);
        assert Starts(uids, i, oracle, clock, k);
      }
    }
  }

  lemma StartsNow(uids: seq<Uid>, i: nat, oracle: Oracle, clock: nat)
    requires i < |uids|
    ensures Starts(uids, i, oracle, clock, i) <==> CanStart(oracle(clock), uids[i])
  {
  }

  lemma StartsOnTop(running: set<Uid>, uids: seq<Uid>, i: nat, oracle: Oracle, clock: nat)
    requires i < |uids| && Starts(uids, i, oracle, clock, i) && uids[i] in running
    ensures StartsTwice(running, uids, i, oracle, clock)
  {
  }

  /** Starting a series of runners loses a signal if and only if one of them is started on top of itself. */
  lemma {:induction false} SeriesLosesExactly(m: Runners, uids: seq<Uid>, i: nat, oracle: Oracle)
    requires Tracked(m) && i <= |uids|
    ensures Tracked(StartAll(m, uids, i, oracle)) <==> !StartsTwice(m.processes.Keys, uids, i, oracle, m.clock)
    decreases |uids| - i
  {
    hide Tracked, Lost, Starts, CanStart;
    if i < |uids| {
      hide StartsTwice;
      var next, end := StartOne(m, uids[i], oracle), StartAll(m, uids, i, oracle);
      StartsNow(uids, i, oracle, m.clock);
      if CanStart(oracle(m.clock), uids[i]) && uids[i] in m.processes {
        StartsOnTop(m.processes.Keys, uids, i, oracle, m.clock);
        RestartLoses(m, uids[i], oracle);
        LostForGood(next, uids, i + 1, oracle, m.processes[uids[i]]);
        if Tracked(end) {
          TrackedLosesNone(end, m.processes[uids[i]]);
        }
      } else {
        StartKeepsTracked(m, uids[i], oracle);
        SeriesLosesExactly(next, uids, i + 1, oracle);
        StartsTwiceLater(m.processes.Keys, uids, i, oracle, m.clock);
        assert next.processes.Keys == m.processes.Keys + if Starts(uids, i, oracle, m.clock, i) then {uids[i]} else {};
      }
    }
  }

  // ---- One reconciliation, and runs of them

  /** The runners a reconciliation will try to start. */
  ghost function Wanted(m: Runners, config: Config): seq<Uid> {
    NotRunning(Pairs(config), 0, m.processes.Keys)
  }

  ghost function Configured(config: Config): set<Uid> {
    set uid | uid in Pairs(config)
  }

  /** The interaction at which the starts begin. */
  ghost function StartClock(m: Runners, config: Config, oracle: Oracle): nat {
    InstancesToStart(config, 0, m.processes.Keys, oracle, m.clock, []).1
  }

  /** Some start of this runner succeeds. */
  ghost predicate Started(uids: seq<Uid>, i: nat, oracle: Oracle, clock: nat, uid: Uid)
    requires i <= |uids|
  {
    exists k :: i <= k < |uids| && uids[k] == uid && Starts(uids, i, oracle, clock, k)
  }

  lemma StartedLater(uids: seq<Uid>, i: nat, oracle: Oracle, clock: nat, uid: Uid)
    requires i < |uids|
    ensures Started(uids, i, oracle, clock, uid) <==>
            (uids[i] == uid && CanStart(oracle(clock), uid)) || Started(uids, i + 1, oracle, clock + 1, uid)
  {
    assert Starts(uids, i, oracle, clock, i) <==> CanStart(oracle(clock), uids[i]);
    assert forall k :: i < k < |uids| ==> (Starts(uids, i, oracle, clock, k) <==> Starts(uids, i + 1, oracle, clock + 1, k));
  }

  lemma {:induction false} StartsAdd(m: Runners, uids: seq<Uid>, i: nat, oracle: Oracle, uid: Uid)
    requires i <= |uids|
    ensures var now := StartAll(m, uids, i, oracle);
            && (uid in now.processes <==> uid in m.processes || Started(uids, i, oracle, m.clock, uid))
            && (uid in m.processes && (forall k :: i <= k < |uids| ==> uids[k] != uid) ==>
                  now.processes[uid] == m.processes[uid])
    decreases |uids| - i
  {
    hide CanStart;
    if i < |uids| {
      StartedLater(uids, i, oracle, m.clock, uid);
      StartsAdd(StartOne(m, uids[i], oracle), uids, i + 1, oracle, uid);
    }
  }

  /** The two halves of a reconciliation: the stops, then the starts. */
  lemma Halves(m: Runners, config: Config, oracle: Oracle, r: Result<(), DaemonError>, now: Runners) returns (stopped: Runners)
    requires Ensured(m, config, oracle, r, now) && Echoes(oracle) && r.Ok?
    ensures StoppedAll(m.(clock := StartClock(m, config, oracle)), NotConfigured(m.processes.Keys, config), stopped)
    ensures stopped.processes == m.processes - NotConfigured(m.processes.Keys, config)
    ensures stopped.clock == StartClock(m, config, oracle)
    ensures now == StartAll(stopped, Wanted(m, config), 0, oracle)
  {
    hide InstancesToStart, StartAll, PairsFrom, NotRunning, NotConfigured;
    ToStartFound(config, m.processes.Keys, oracle, m.clock);
    var wanted := Wanted(m, config);
    stopped :| StoppedAll(m.(clock := StartClock(m, config, oracle)), NotConfigured(m.processes.Keys, config), stopped) &&
               now == StartAll(stopped, wanted, 0, oracle);
  }

  lemma WantedAre(m: Runners, config: Config)
    ensures forall uid :: uid in Wanted(m, config) <==> uid in Configured(config) && uid !in m.processes
  {
    hide Pairs;
    NotRunningMembers(Pairs(config), 0, m.processes.Keys);
  }

  /**
   An error changes nothing. Otherwise the runners are exactly the configured ones that
   were there already, which keep their signals, and those with a start that succeeded.
   */
  lemma EnsureReconciles(m: Runners, config: Config, oracle: Oracle, r: Result<(), DaemonError>, now: Runners)
    requires Ensured(m, config, oracle, r, now) && Echoes(oracle)
    ensures r.Err? ==> now.processes == m.processes && now.signals == m.signals
    ensures r.Ok? ==> forall uid :: uid in now.processes <==>
              uid in Configured(config) &&
              (uid in m.processes || Started(Wanted(m, config), 0, oracle, StartClock(m, config, oracle), uid))
    ensures r.Ok? ==> forall uid :: uid in m.processes && uid in Configured(config) ==>
              uid in now.processes && now.processes[uid] == m.processes[uid]
  {
    hide InstancesToStart, StartAll, Pairs, Wanted, StartClock, StoppedAll, CanStart, Starts;
    if r.Ok? {
      var stopped := Halves(m, config, oracle, r, now);
      var wanted := Wanted(m, config);
      WantedAre(m, config);
      forall uid
        ensures uid in now.processes <==>
                uid in Configured(config) && (uid in m.processes || Started(wanted, 0, oracle, stopped.clock, uid))
        ensures uid in m.processes && uid in Configured(config) ==>
                uid in now.processes && now.processes[uid] == m.processes[uid]
      {
        StartsAdd(stopped, wanted, 0, oracle, uid);
        assert Started(wanted, 0, oracle, stopped.clock, uid) ==> uid in wanted;
        assert uid !in wanted ==> forall k :: 0 <= k < |wanted| ==> wanted[k] != uid;
      }
    }
  }

  /** When every start succeeds, the runners are exactly the configured ones. */
  lemma AllStartedReconciles(m: Runners, config: Config, oracle: Oracle, r: Result<(), DaemonError>, now: Runners)
    requires Ensured(m, config, oracle, r, now) && Echoes(oracle) && r.Ok?
    requires forall k :: 0 <= k < |Wanted(m, config)| ==>
               Starts(Wanted(m, config), 0, oracle, StartClock(m, config, oracle), k)
    ensures now.processes.Keys == Configured(config)
  {
    hide Ensured, Wanted, StartClock, Starts, Pairs;
    EnsureReconciles(m, config, oracle, r, now);
    WantedAre(m, config);
    var wanted := Wanted(m, config);
    forall uid | uid in Configured(config) && uid !in m.processes
      ensures Started(wanted, 0, oracle, StartClock(m, config, oracle), uid)
    {
      var k :| 0 <= k < |wanted| && wanted[k] == uid;
    }
  }

  /**
   A reconciliation loses a signal if and only if it starts one wanted runner twice with
   success: two positions of the same pair whose starts both succeed.
   */
  lemma EnsureTracks(m: Runners, config: Config, oracle: Oracle, r: Result<(), DaemonError>, now: Runners)
    requires Ensured(m, config, oracle, r, now) && Echoes(oracle) && Tracked(m)
    ensures r.Err? ==> Tracked(now)
    ensures r.Ok? ==> (Tracked(now) <==> !StartsTwice({}, Wanted(m, config), 0, oracle, StartClock(m, config, oracle)))
  {
    hide InstancesToStart, StartAll, Pairs, Wanted, StartClock, StoppedAll, CanStart, Tracked;
    if r.Ok? {
      var stopped := Halves(m, config, oracle, r, now);
      var wanted := Wanted(m, config);
      WantedAre(m, config);
      ClockKeepsTracked(m, StartClock(m, config, oracle));
      StopKeepsTracked(m.(clock := StartClock(m, config, oracle)), NotConfigured(m.processes.Keys, config), stopped);
      SeriesLosesExactly(stopped, wanted, 0, oracle);
      FreshStarts(stopped.processes.Keys, wanted, oracle, stopped.clock);
    } else {
      ClockKeepsTracked(m, now.clock);
    }
  }

  lemma FreshStarts(running: set<Uid>, uids: seq<Uid>, oracle: Oracle, clock: nat)
    requires forall uid :: uid in uids ==> uid !in running
    ensures StartsTwice(running, uids, 0, oracle, clock) <==> StartsTwice({}, uids, 0, oracle, clock)
  {
    hide Starts;
    if StartsTwice({}, uids, 0, oracle, clock) {
      var j :| 0 <= j < |uids| && Starts(uids, 0, oracle, clock, j) &&
        exists k :: 0 <= k < j && uids[k] == uids[j] && Starts(uids, 0, oracle, clock, k);
    }
    if StartsTwice(running, uids, 0, oracle, clock) {
      var j :| 0 <= j < |uids| && Starts(uids, 0, oracle, clock, j) &&
        (uids[j] in running || exists k :: 0 <= k < j && uids[k] == uids[j] && Starts(uids, 0, oracle, clock, k));
      assert uids[j] in uids;
    }
  }

  lemma ClockKeepsTracked(m: Runners, clock: nat)
    requires Tracked(m)
    ensures Tracked(m.(clock := clock))
  {
    var now := m.(clock := clock);
    forall t | 0 <= t < |m.signals| && StoredSignal(m, t) ensures StoredSignal(now, t) {
      var uid :| uid in m.processes && m.processes[uid] == t;
      assert uid in now.processes;
    }
  }

  /** Each state follows from the one before by one reconciliation, successful or not. */
  ghost predicate IsRun(states: seq<Runners>, configs: seq<Config>, results: seq<Result<(), DaemonError>>, oracle: Oracle) {
    && |states| == |configs| + 1 && |results| == |configs|
    && states[0] == Runners(map[], [], 0)
    && forall i :: 0 <= i < |configs| ==> Ensured(states[i], configs[i], oracle, results[i], states[i + 1])
  }

  /**
   Over every run, whatever the configurations, as long as each lists its workspaces
   once: the signal of every runner ever started is stored under one key, or was raised.
   */
  lemma {:induction false} RunTracks(
    states: seq<Runners>, configs: seq<Config>, results: seq<Result<(), DaemonError>>, oracle: Oracle, i: nat
  )
    requires IsRun(states, configs, results, oracle) && Echoes(oracle) && i < |states|
    requires forall k :: 0 <= k < |configs| ==> Distinct(Pairs(configs[k]))
    ensures Tracked(states[i])
    decreases i
  {
    hide Ensured, Pairs;
    if i > 0 {
      RunTracks(states, configs, results, oracle, i - 1);
      NotRunningDistinct(Pairs(configs[i - 1]), 0, states[i - 1].processes.Keys);
      assert Distinct(Wanted(states[i - 1], configs[i - 1]));
      EnsureTracks(states[i - 1], configs[i - 1], oracle, results[i - 1], states[i]);
    }
  }

  /** A workspace listed twice and started twice: the first runner can never be told to stop. */
  lemma DuplicateLosesRunner() returns (oracle: Oracle, now: Runners)
    ensures Echoes(oracle)
    ensures Ensured(Runners(map[], [], 0), [Instance("a", [1, 1])], oracle, Ok(()), now)
    ensures Lost(now, 0)
  {
    oracle := n => Reply(true, id => Some(id), true);
    var m, config, uid := Runners(map[], [], 0), [Instance("a", [1, 1])], Uid("a", 1);
    assert WorkspacesToStart(config[0], 2, {}, oracle, 3, [uid, uid]) == (Ok([uid, uid]), 3);
    assert WorkspacesToStart(config[0], 1, {}, oracle, 2, [uid]) == (Ok([uid, uid]), 3) by { assert [uid] + [uid] == [uid, uid]; }
    assert WorkspacesToStart(config[0], 0, {}, oracle, 1, []) == (Ok([uid, uid]), 3) by { assert [] + [uid] == [uid]; }
    assert InstancesToStart(config, 1, {}, oracle, 3, [uid, uid]) == (Ok([uid, uid]), 3);
    assert InstancesToStart(config, 0, {}, oracle, 0, []) == (Ok([uid, uid]), 3);
    assert m.processes.Keys == {};
    var stopped := Runners(map[], [], 3);
    assert StoppedAll(stopped, NotConfigured({}, config), stopped);
    var first := StartOne(stopped, uid, oracle);
    assert first == Runners(map[uid := 0], [false], 4);
    now := StartOne(first, uid, oracle);
    assert now.processes == map[uid := 1] && now.signals == [false, false];
    assert StartAll(now, [uid, uid], 2, oracle) == now;
    assert StartAll(first, [uid, uid], 1, oracle) == now;
    assert StartAll(stopped, [uid, uid], 0, oracle) == now;
  }
}
