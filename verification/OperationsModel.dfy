/** What a poll for operations computes: the set of configurations received from the
    cloud reconciled with the operations running on the device. */
module OperationsModel {
  import opened Basics
  import opened Sorting

  /** A parsed operation configuration. */
  datatype DeviceOperation = DeviceOperation(pluginName: string, message: string)

  /** A running operation, known by the raw configuration whose message it was started with. */
  datatype Operation = Operation(config: string)

  /** sha and hex: the digest and its printed form; parse: the JSON reading of one raw
      configuration. No digest is empty. */
  datatype Env = Env(sha: string -> string, hex: string -> string, parse: string -> Option<DeviceOperation>)

  ghost predicate Sane(env: Env)
  {
    forall c :: env.sha(c) != ""
  }

  /** Running operations, digests of the configurations last started, the header that reports
      their overall digest, and whether the cloud has answered once. */
  datatype Ops = Ops(running: map<string, Operation>, recorded: map<string, string>, header: string, fetchedFirst: bool)

  const IDLE := Ops(map[], map[], "", false)

  /** What became of the attempt to start an operation. */
  datatype Launch = NoPlugin | NotOperational | StartFailed | Launched

  /** Stops and starts a poll carries out. */
  datatype Deed = Stop(name: string) | Start(name: string)

  datatype Response = Response(status: int, interval: Option<int>, configs: Option<map<string, string>>)

  /** What one poll meets: the operations still active, the connection, the answer of the
      cloud (None: the request failed; configs None: the body does not parse), and what each
      start attempt would give. */
  datatype Poll = Poll(active: set<string>, connected: bool, reply: Option<Response>, launch: string -> Launch)

  // ---------------------------------------------------------------- the sweep

  function Inactive(s: Ops, active: set<string>): set<string>
  {
    set n | n in s.running && n !in active
  }

  /** Operations that are no longer active are forgotten, and the header with them. */
  function Swept(s: Ops, active: set<string>): Ops
  {
    var gone := Inactive(s, active);
    if gone == {} then s
    else s.(running := s.running - gone, recorded := s.recorded - gone, header := "")
  }

  // ------------------------------------------------------------- reconciliation

  /** The recorded digest of a name; a name without one reads as the empty digest. */
  function Recorded(recorded: map<string, string>, n: string): string
  {
    if n in recorded then recorded[n] else ""
  }

  function Incoming(env: Env, configs: map<string, string>): map<string, string>
  {
    map n | n in configs :: env.sha(configs[n])
  }

  /** Names whose incoming digest is not the recorded one. */
  function Differing(env: Env, recorded: map<string, string>, configs: map<string, string>): set<string>
  {
    set n | n in configs && Recorded(recorded, n) != env.sha(configs[n])
  }

  /** Those of them whose configuration parses. */
  function Changed(env: Env, recorded: map<string, string>, configs: map<string, string>): map<string, DeviceOperation>
  {
    map n | n in Differing(env, recorded, configs) && env.parse(configs[n]).Some? :: env.parse(configs[n]).value
  }

  /** Running operations that the cloud no longer lists. */
  function Removed(s: Ops, configs: map<string, string>): set<string>
  {
    set n | n in s.recorded && n !in configs && n in s.running
  }

  function Pruned(s: Ops, configs: map<string, string>): Ops
  {
    s.(running := s.running - Removed(s, configs), recorded := s.recorded - Removed(s, configs))
  }

  function Started(configs: map<string, string>, changed: set<string>, launch: string -> Launch): map<string, Operation>
    requires changed <= configs.Keys
  {
    map n | n in changed && launch(n) == Launched :: Operation(configs[n])
  }

  function StartedDigests(env: Env, configs: map<string, string>, changed: set<string>,
      launch: string -> Launch): map<string, string>
    requires changed <= configs.Keys
  {
    map n | n in changed && launch(n) == Launched :: env.sha(configs[n])
  }

  /** The operations named by changed stopped, and started where launch lets them. */
  function Restarted(env: Env, s: Ops, configs: map<string, string>, changed: set<string>,
      launch: string -> Launch): Ops
    requires changed <= configs.Keys
  {
    s.(running := (s.running - changed) + Started(configs, changed, launch),
       recorded := s.recorded + StartedDigests(env, configs, changed, launch))
  }

  function Reconciled(env: Env, s: Ops, configs: map<string, string>, launch: string -> Launch): Ops
  {
    Restarted(env, Pruned(s, configs), configs, Changed(env, s.recorded, configs).Keys, launch)
  }

  // ------------------------------------------------------------- overall digest

  /** Recorded digests in the order of xs, one after the other. */
  function Digests(recorded: map<string, string>, xs: seq<string>): string
    requires forall x :: x in xs ==> x in recorded
  {
    if xs == [] then "" else Digests(recorded, xs[..|xs| - 1]) + recorded[xs[|xs| - 1]]
  }

  /** The header for a set of recorded digests: the digest of all of them in name order. */
  ghost function Overall(env: Env, recorded: map<string, string>): string
  {
    env.hex(env.sha(Digests(recorded, Ordered(recorded.Keys))))
  }

  // --------------------------------------------------------------------- a poll

  const HOUR := 3_600_000_000_000
  const ALREADY_REPORTED := 208
  const OK := 200
  const INTERNAL_ERROR := 500

  function Requested(r: Response): int
  {
    if r.interval.Some? then r.interval.value else 0
  }

  /** State after a poll, and the polling interval it asks for. */
  ghost function Polled(env: Env, s: Ops, p: Poll): (Ops, int)
  {
    var t := Swept(s, p.active);
    if !p.connected || p.reply == None then (t, 0)
    else
      var r := p.reply.value;
      if r.status == ALREADY_REPORTED then (t.(fetchedFirst := true), Requested(r))
      else if r.status == INTERNAL_ERROR then (t, HOUR)
      else if r.status != OK then (t, Requested(r))
      else
        var u := t.(fetchedFirst := true);
        if r.configs == None then (u, Requested(r))
        else
          var v := Reconciled(env, u, r.configs.value, p.launch);
          (v.(header := Overall(env, v.recorded)), Requested(r))
  }

  /** State after any sequence of polls. */
  ghost function Polls(env: Env, ps: seq<Poll>): Ops
  {
    if ps == [] then IDLE else Polled(env, Polls(env, ps[..|ps| - 1]), ps[|ps| - 1]).0
  }

  /** The configurations a poll reconciles with, when it gets that far. */
  function Fetched(p: Poll): Option<map<string, string>>
  {
    if p.connected && p.reply.Some? && p.reply.value.status == OK then p.reply.value.configs else None
  }

  // ------------------------------------------------------ what every poll keeps

  /** Each running operation was started with the configuration whose digest is recorded. */
  ghost predicate Backed(env: Env, s: Ops)
  {
    forall n :: n in s.running ==> n in s.recorded && s.recorded[n] == env.sha(s.running[n].config)
  }

  /** The header is empty or the overall digest of what is recorded. */
  ghost predicate HeaderCurrent(env: Env, s: Ops)
  {
    s.header == "" || s.header == Overall(env, s.recorded)
  }

  /** Every recorded operation runs. */
  predicate Agree(s: Ops)
  {
    s.recorded.Keys <= s.running.Keys
  }

  lemma SweptKeeps(env: Env, s: Ops, active: set<string>)
    requires Backed(env, s) && HeaderCurrent(env, s)
    ensures Backed(env, Swept(s, active)) && HeaderCurrent(env, Swept(s, active))
    ensures Agree(s) ==> Agree(Swept(s, active))
  {
  }

  lemma ReconciledBacked(env: Env, s: Ops, configs: map<string, string>, launch: string -> Launch)
    requires Backed(env, s)
    ensures Backed(env, Reconciled(env, s, configs, launch))
  {
  }

  /** After any sequence of polls, whatever the answers, failures and start errors. */
  lemma {:induction false} EveryPollKeeps(env: Env, ps: seq<Poll>)
    ensures Backed(env, Polls(env, ps)) && HeaderCurrent(env, Polls(env, ps))
  {
    hide Overall;
    hide Swept;
    hide Reconciled;
    if ps != [] {
      var n := |ps| - 1;
      EveryPollKeeps(env, ps[..n]);
      var s, p := Polls(env, ps[..n]), ps[n];
      SweptKeeps(env, s, p.active);
      if Fetched(p).Some? {
        ReconciledBacked(env, Swept(s, p.active).(fetchedFirst := true), Fetched(p).value, p.launch);
      }
    }
  }

  // --------------------------------------------------------------- convergence

  /** The operation named n could be brought to its new configuration. */
  predicate Starts(env: Env, configs: map<string, string>, launch: string -> Launch, n: string)
    requires n in configs
  {
    env.parse(configs[n]).Some? && launch(n) == Launched
  }

  /** A reconciliation records exactly the incoming digests if and only if every changed
      configuration parses and starts and every recorded name the cloud dropped was running. */
  lemma RecordsIncomingIff(env: Env, s: Ops, configs: map<string, string>, launch: string -> Launch)
    requires Sane(env)
    ensures Reconciled(env, s, configs, launch).recorded == Incoming(env, configs)
            <==> && (forall n :: n in Differing(env, s.recorded, configs) ==> Starts(env, configs, launch, n))
                 && (forall n :: n in s.recorded && n !in configs ==> n in s.running)
  {
    var t, want := Reconciled(env, s, configs, launch).recorded, Incoming(env, configs);
    if (forall n :: n in Differing(env, s.recorded, configs) ==> Starts(env, configs, launch, n))
       && (forall n :: n in s.recorded && n !in configs ==> n in s.running)
    {
      forall n
        ensures n in t <==> n in want
        ensures n in t ==> t[n] == want[n]
      {
        RecordedAfter(env, s, configs, launch, n);
      }
    } else if n :| n in Differing(env, s.recorded, configs) && !Starts(env, configs, launch, n) {
      RecordedAfter(env, s, configs, launch, n);
    } else {
      var n :| n in s.recorded && n !in configs && n !in s.running;
      RecordedAfter(env, s, configs, launch, n);
    }
  }

  /** So after any sequence of polls whose last one fetched configurations, the header is the
      overall digest of what is recorded, and that is what the cloud sent if and only if every
      listed operation that changed or went inactive parses and starts and every recorded name
      the cloud dropped was running. */
  lemma FetchConvergesIff(env: Env, ps: seq<Poll>, p: Poll)
    requires Sane(env) && Fetched(p).Some?
    ensures var s, t, configs := Polls(env, ps), Polls(env, ps + [p]), Fetched(p).value;
            && t.header == Overall(env, t.recorded)
            && (t.recorded == Incoming(env, configs)
                <==> && (forall n :: n in configs && Stale(env, s, p, n) ==> Starts(env, configs, p.launch, n))
                     && (forall n :: n in s.recorded && n !in configs ==> n in s.running))
  {
    var s, configs := Polls(env, ps), Fetched(p).value;
    forall n
      ensures n in Differing(env, Swept(s, p.active).recorded, configs) <==> n in configs && Stale(env, s, p, n)
      ensures n in Swept(s, p.active).recorded <==> n in s.recorded && !WentInactive(s, p, n)
      ensures n in Swept(s, p.active).running <==> n in s.running && !WentInactive(s, p, n)
    {
      SweptAt(env, s, p, n);
    }
    hide Overall;
    hide Swept;
    hide Reconciled;
    hide Differing;
    hide Stale;
    assert (ps + [p])[..|ps|] == ps;
    RecordsIncomingIff(env, Swept(s, p.active).(fetchedFirst := true), configs, p.launch);
  }

  // ---------------------------------------------------------- inactive operations

  predicate WentInactive(s: Ops, p: Poll, n: string)
  {
    n in s.running && n !in p.active
  }

  /** The operation went inactive or its listed configuration is not the one recorded. */
  predicate Stale(env: Env, s: Ops, p: Poll, n: string)
    requires Fetched(p).Some? && n in Fetched(p).value
  {
    WentInactive(s, p, n) || Recorded(s.recorded, n) != env.sha(Fetched(p).value[n])
  }

  lemma SweptAt(env: Env, s: Ops, p: Poll, n: string)
    requires Sane(env) && Fetched(p).Some?
    ensures var t, configs := Swept(s, p.active), Fetched(p).value;
            && (n in Differing(env, t.recorded, configs) <==> n in configs && Stale(env, s, p, n))
            && (n in t.recorded <==> n in s.recorded && !WentInactive(s, p, n))
            && (n in t.running <==> n in s.running && !WentInactive(s, p, n))
  {
    assert WentInactive(s, p, n) <==> n in Inactive(s, p.active);
  }

  /** What runs under one name after a reconciliation. */
  lemma RunsAt(env: Env, s: Ops, configs: map<string, string>, launch: string -> Launch, n: string)
    requires Sane(env) && Backed(env, s)
    ensures var t := Reconciled(env, s, configs, launch);
            && (n in t.running <==>
                  && n in configs
                  && if n in Differing(env, s.recorded, configs) && env.parse(configs[n]).Some?
                     then launch(n) == Launched else n in s.running)
            && (n in Differing(env, s.recorded, configs) && Starts(env, configs, launch, n) ==>
                  t.running[n] == Operation(configs[n]) && n in t.recorded && t.recorded[n] == env.sha(configs[n]))
  {
    RunsBy(env, s, configs, launch, n);
    RecordsBy(env, s, configs, launch, n);
    MembersAt(env, s, configs, n);
    hide Reconciled;
    hide Changed;
    hide Removed;
    hide Differing;
  }

  lemma MembersAt(env: Env, s: Ops, configs: map<string, string>, n: string)
    ensures n in Changed(env, s.recorded, configs).Keys
            <==> n in Differing(env, s.recorded, configs) && env.parse(configs[n]).Some?
    ensures n in Removed(s, configs) <==> n in s.recorded && n !in configs && n in s.running
    ensures n in Differing(env, s.recorded, configs) ==> n in configs
  {
  }

  lemma RecordsBy(env: Env, s: Ops, configs: map<string, string>, launch: string -> Launch, n: string)
    ensures var t := Reconciled(env, s, configs, launch);
            n in Changed(env, s.recorded, configs).Keys && launch(n) == Launched ==>
              n in configs && n in t.recorded && t.recorded[n] == env.sha(configs[n])
  {
  }

  lemma PolledFetched(env: Env, s: Ops, p: Poll)
    requires Fetched(p).Some?
    ensures var t, v := Polled(env, s, p).0,
                        Reconciled(env, Swept(s, p.active).(fetchedFirst := true), Fetched(p).value, p.launch);
            t.running == v.running && t.recorded == v.recorded
  {
    hide Overall;
    hide Reconciled;
    hide Swept;
  }

  /** After a poll that fetched configurations, a listed operation runs if and only if it starts,
      when it changed or went inactive and parses, or was running and active, when not; no other
      runs. It runs as listed if and only if it parses and starts, when it changed or went
      inactive, or ran before, when not. */
  lemma RunsAfterPollIff(env: Env, s: Ops, p: Poll, n: string)
    requires Sane(env) && Backed(env, s) && Fetched(p).Some?
    ensures var t, configs := Polled(env, s, p).0, Fetched(p).value;
            n in t.running <==>
              && n in configs
              && if Stale(env, s, p, n) && env.parse(configs[n]).Some? then p.launch(n) == Launched
                 else n in s.running && !WentInactive(s, p, n)
    ensures var t, configs := Polled(env, s, p).0, Fetched(p).value;
            n in configs ==>
              ((n in t.running && env.sha(t.running[n].config) == env.sha(configs[n]))
               <==> if Stale(env, s, p, n) then Starts(env, configs, p.launch, n) else n in s.running)
    ensures var t, configs := Polled(env, s, p).0, Fetched(p).value;
            n in configs && Stale(env, s, p, n) && Starts(env, configs, p.launch, n) ==>
              && n in t.running && t.running[n] == Operation(configs[n])
              && n in t.recorded && t.recorded[n] == env.sha(configs[n])
  {
    var swept := Swept(s, p.active).(fetchedFirst := true);
    SweptAt(env, s, p, n);
    SweptBacked(env, s, p.active);
    PolledFetched(env, s, p);
    RunsAt(env, swept, Fetched(p).value, p.launch, n);
    if n in Fetched(p).value {
      RunningAfter(env, swept, Fetched(p).value, p.launch, n);
    }
    hide Polled;
    hide Reconciled;
    hide Swept;
    hide Differing;
  }

  lemma SweptBacked(env: Env, s: Ops, active: set<string>)
    requires Backed(env, s)
    ensures Backed(env, Swept(s, active).(fetchedFirst := true))
  {
  }

  /** An operation that went inactive is neither running nor recorded after the poll, unless the
      poll started it again. */
  lemma InactiveForgotten(env: Env, s: Ops, p: Poll, n: string)
    requires Sane(env) && WentInactive(s, p, n)
    requires Fetched(p).Some? && n in Fetched(p).value ==> !Starts(env, Fetched(p).value, p.launch, n)
    ensures var t := Polled(env, s, p).0; n !in t.running && n !in t.recorded
  {
    assert n in Inactive(s, p.active);
    hide Overall;
  }

  /** A poll that fetches nothing leaves every other operation as it was, and empties the header
      exactly when some operation went inactive. */
  lemma SweepLeavesOthers(env: Env, s: Ops, p: Poll)
    requires Fetched(p).None?
    ensures var t := Polled(env, s, p).0;
            && (forall n :: !WentInactive(s, p, n) ==>
                  && (n in t.running <==> n in s.running) && (n in s.running ==> t.running[n] == s.running[n])
                  && (n in t.recorded <==> n in s.recorded) && (n in s.recorded ==> t.recorded[n] == s.recorded[n]))
            && ((exists n :: WentInactive(s, p, n)) ==> t.header == "")
            && ((forall n :: !WentInactive(s, p, n)) ==> t.header == s.header)
  {
    assert forall n :: WentInactive(s, p, n) <==> n in Inactive(s, p.active);
    hide Overall;
  }

  /** The next poll is when the cloud asked for it, after an hour when it reported an internal
      error, and at the poller's own pace when it gave no answer; the cloud counts as heard once
      it has answered 200 or 208. */
  lemma AnswerKinds(env: Env, s: Ops, p: Poll)
    ensures var (t, interval) := Polled(env, s, p);
            && (!p.connected || p.reply == None ==> interval == 0 && t.fetchedFirst == s.fetchedFirst)
            && (p.connected && p.reply.Some? ==>
                  var r := p.reply.value;
                  && interval == (if r.status == 500 then 3_600_000_000_000
                                  else if r.interval.Some? then r.interval.value else 0)
                  && t.fetchedFirst == (s.fetchedFirst || r.status == 200 || r.status == 208))
  {
    hide Overall;
  }

  /** The digest recorded for one name by a reconciliation. */
  lemma RecordedAfter(env: Env, s: Ops, configs: map<string, string>, launch: string -> Launch, n: string)
    requires Sane(env)
    ensures var t := Reconciled(env, s, configs, launch).recorded;
            Recorded(t, n) ==
              if n in configs then
                (if Recorded(s.recorded, n) != env.sha(configs[n]) && Starts(env, configs, launch, n)
                 then env.sha(configs[n]) else Recorded(s.recorded, n))
              else if n in s.running then "" else Recorded(s.recorded, n)
    ensures var t := Reconciled(env, s, configs, launch);
            n in t.recorded <==>
              if n in configs then n in s.recorded
                  || Starts(env, configs, launch, n) else n in s.recorded && n !in s.running
  {
  }

  /** Every listed configuration runs after a reconciliation if and only if each changed one
      parses and starts and each unchanged one was running; nothing else runs in any case. */
  lemma EveryConfigRunsIff(env: Env, s: Ops, configs: map<string, string>, launch: string -> Launch)
    requires Sane(env) && Backed(env, s)
    ensures Reconciled(env, s, configs, launch).running.Keys <= configs.Keys
    ensures var t := Reconciled(env, s, configs, launch);
            (forall n :: n in configs ==> n in t.running && env.sha(t.running[n].config) == env.sha(configs[n]))
            <==> (forall n :: n in configs ==>
                    if n in Differing(env, s.recorded, configs) then Starts(env, configs, launch, n)
                        else n in s.running)
  {
    forall n | n in configs
      ensures var t := Reconciled(env, s, configs, launch);
              (n in t.running && env.sha(t.running[n].config) == env.sha(configs[n]))
              <==> if n in Differing(env, s.recorded, configs) then Starts(env, configs, launch, n) else n in s.running
    {
      RunningAfter(env, s, configs, launch, n);
    }
  }

  lemma RunningAfter(env: Env, s: Ops, configs: map<string, string>, launch: string -> Launch, n: string)
    requires Sane(env) && Backed(env, s) && n in configs
    ensures var t := Reconciled(env, s, configs, launch);
            (n in t.running && env.sha(t.running[n].config) == env.sha(configs[n]))
            <==> if n in Differing(env, s.recorded, configs) then Starts(env, configs, launch, n) else n in s.running
  {
  }

  /** If every recorded operation runs, the same holds after a reconciliation unless a
      restart failed. */
  lemma AgreeIff(env: Env, s: Ops, configs: map<string, string>, launch: string -> Launch)
    requires Agree(s)
    ensures Agree(Reconciled(env, s, configs, launch))
            <==> forall n :: n in Changed(env, s.recorded, configs) && n in s.recorded ==> launch(n) == Launched
  {
    var t := Reconciled(env, s, configs, launch);
    var changed := Changed(env, s.recorded, configs);
    if n :| n in changed && n in s.recorded && launch(n) != Launched {
      assert n in t.recorded && n !in t.running;
    } else {
      forall n | n in t.recorded
        ensures n in t.running
      {
        assert n in changed && n in s.recorded ==> launch(n) == Launched;
      }
    }
  }

  lemma RestartedNone(env: Env, s: Ops, configs: map<string, string>, launch: string -> Launch)
    ensures Restarted(env, s, configs, {}, launch) == s
  {
  }

  lemma PrunedNone(s: Ops, configs: map<string, string>)
    requires s.recorded.Keys <= configs.Keys
    ensures Removed(s, configs) == {} && Pruned(s, configs) == s
  {
  }

  lemma NoneDiffers(env: Env, recorded: map<string, string>, configs: map<string, string>)
    requires recorded == Incoming(env, configs)
    ensures recorded.Keys == configs.Keys && Changed(env, recorded, configs).Keys == {}
  {
  }

  /** Once the incoming digests are recorded, polling them again stops, starts and records nothing. */
  lemma SecondPollIdle(env: Env, s: Ops, configs: map<string, string>, launch: string -> Launch)
    requires s.recorded == Incoming(env, configs)
    ensures Reconciled(env, s, configs, launch) == s && DeedsOf(env, s, configs, launch) == {}
  {
    hide Incoming;
    hide Changed;
    hide Pruned;
    hide Restarted;
    NoneDiffers(env, s.recorded, configs);
    PrunedNone(s, configs);
    RestartedNone(env, s, configs, launch);
  }

  /** A restart that fails leaves the old digest recorded: when the cloud goes back to the old
      configuration nothing is started, although the header reports it as running. */
  lemma FailedRestartThenRevert(env: Env, s: Ops, n: string, c: string, c': string,
                                launch: string -> Launch, launch': string -> Launch)
    requires Sane(env) && env.sha(c') != env.sha(c) && env.parse(c').Some?
    requires s.running == map[n := Operation(c)] && s.recorded == map[n := env.sha(c)]
    requires launch(n) != Launched
    ensures var t := Reconciled(env, s, map[n := c'], launch);
            var u := Reconciled(env, t, map[n := c], launch');
            && n !in u.running
            && u.recorded == Incoming(env, map[n := c])
            && DeedsOf(env, t, map[n := c], launch') == {}
  {
    var t := Reconciled(env, s, map[n := c'], launch);
    RecordedAfter(env, s, map[n := c'], launch, n);
    assert t.recorded == map[n := env.sha(c)];
    assert n !in t.running;
    SecondPollIdle(env, t, map[n := c], launch');
  }

  // --------------------------------------------------------------------- deeds

  /** Stops and starts of the restart loop. */
  function RestartDeeds(running: set<string>, changed: set<string>, launch: string -> Launch): set<Deed>
  {
    (set n | n in changed && n in running :: Stop(n)) + (set n | n in changed && launch(n) == Launched :: Start(n))
  }

  function StopsOf(names: set<string>): set<Deed>
  {
    set n | n in names :: Stop(n)
  }

  /** What a reconciliation stops and starts: nothing that has not changed or been removed. */
  function DeedsOf(env: Env, s: Ops, configs: map<string, string>, launch: string -> Launch): set<Deed>
  {
    StopsOf(Removed(s, configs)) + RestartDeeds(s.running.Keys, Changed(env, s.recorded, configs).Keys, launch)
  }

  lemma DeedsAt(env: Env, s: Ops, configs: map<string, string>, launch: string -> Launch, n: string)
    ensures var deeds, changed := DeedsOf(env, s, configs, launch), Changed(env, s.recorded, configs).Keys;
            && (Stop(n) in deeds <==> n in Removed(s, configs) || (n in changed && n in s.running))
            && (Start(n) in deeds <==> n in changed && launch(n) == Launched)
  {
    hide Changed;
    hide Removed;
  }

  lemma RunsBy(env: Env, s: Ops, configs: map<string, string>, launch: string -> Launch, n: string)
    ensures var t, changed := Reconciled(env, s, configs, launch), Changed(env, s.recorded, configs).Keys;
            && (n in t.running <==>
                  if n in changed then launch(n) == Launched else n in s.running && n !in Removed(s, configs))
            && (n in changed && launch(n) == Launched ==> n in configs && t.running[n] == Operation(configs[n]))
            && (n in Removed(s, configs) ==> n in s.running && n !in changed)
  {
  }

  /** The stops and starts account for what runs: what ran before and was not stopped, and what
      was started. Only running operations are stopped. */
  lemma DeedsExplainRunning(env: Env, s: Ops, configs: map<string, string>, launch: string -> Launch, n: string)
    ensures var t, deeds := Reconciled(env, s, configs, launch), DeedsOf(env, s, configs, launch);
            && (n in t.running <==> (n in s.running && Stop(n) !in deeds) || Start(n) in deeds)
            && (Stop(n) in deeds ==> n in s.running)
            && (Start(n) in deeds ==> n in configs && n in t.running && t.running[n] == Operation(configs[n]))
  {
    DeedsAt(env, s, configs, launch, n);
    RunsBy(env, s, configs, launch, n);
    hide Reconciled;
    hide DeedsOf;
    hide Changed;
    hide Removed;
  }

  /** An operation that is neither changed nor removed is left alone. */
  lemma UnchangedUntouched(env: Env, s: Ops, configs: map<string, string>, launch: string -> Launch, n: string)
    requires n in s.running && n in configs && Recorded(s.recorded, n) == env.sha(configs[n])
    ensures Stop(n) !in DeedsOf(env, s, configs, launch) && Start(n) !in DeedsOf(env, s, configs, launch)
    ensures var t := Reconciled(env, s, configs, launch); n in t.running && t.running[n] == s.running[n]
  {
  }

  // -------------------------------------------------------------------- header

  /** The recorded digests in name order. */
  ghost function DigestList(recorded: map<string, string>, xs: seq<string>): (ds: seq<string>)
    requires forall x :: x in xs ==> x in recorded
    ensures |ds| == |xs| && forall i :: 0 <= i < |xs| ==> ds[i] == recorded[xs[i]]
  {
    if xs == [] then [] else DigestList(recorded, xs[..|xs| - 1]) + [recorded[xs[|xs| - 1]]]
  }

  lemma {:induction false} DigestsLength(m: map<string, string>, xs: seq<string>, width: nat)
    requires forall x :: x in xs ==> x in m && |m[x]| == width
    ensures |Digests(m, xs)| == width * |xs|
  {
    if xs != [] {
      var n: nat := |xs| - 1;
      DigestsLength(m, xs[..n], width);
      assert width * (n + 1) == width * n + width;
    }
  }

  lemma {:induction false} FixedWidth(m: map<string, string>, xs: seq<string>, m': map<string, string>,
      xs': seq<string>, width: nat)
    requires width > 0
    requires forall x :: x in xs ==> x in m && |m[x]| == width
    requires forall x :: x in xs' ==> x in m' && |m'[x]| == width
    ensures Digests(m, xs) == Digests(m', xs') <==> DigestList(m, xs) == DigestList(m', xs')
  {
    if xs == [] || xs' == [] {
      DigestsLength(m, xs, width);
      DigestsLength(m', xs', width);
    } else {
      var n, n' := |xs| - 1, |xs'| - 1;
      FixedWidth(m, xs[..n], m', xs'[..n'], width);
      LastChunk(Digests(m, xs[..n]), m[xs[n]], Digests(m', xs'[..n']), m'[xs'[n']]);
      LastChunk(DigestList(m, xs[..n]), [m[xs[n]]], DigestList(m', xs'[..n']), [m'[xs'[n']]]);
    }
  }

  lemma LastChunk<T>(a: seq<T>, x: seq<T>, b: seq<T>, y: seq<T>)
    requires |x| == |y|
    ensures a + x == b + y <==> a == b && x == y
  {
    if a + x == b + y {
      assert a == (a + x)[..|a|] && b == (b + y)[..|b|];
      assert x == (a + x)[|a|..] && y == (b + y)[|b|..];
    }
  }

  /** With a collision-free digest of fixed width, two headers are equal exactly when the
      digests in name order are: the names themselves do not enter. */
  lemma SameHeaderIff(env: Env, m: map<string, string>, m': map<string, string>, width: nat)
    requires width > 0
    requires forall c, c' :: env.sha(c) == env.sha(c') ==> c == c'
    requires forall c, c' :: env.hex(c) == env.hex(c') ==> c == c'
    requires (forall x :: x in m ==> |m[x]| == width) && (forall x :: x in m' ==> |m'[x]| == width)
    ensures Overall(env, m) == Overall(env, m')
            <==> DigestList(m, Ordered(m.Keys)) == DigestList(m', Ordered(m'.Keys))
  {
    FixedWidth(m, Ordered(m.Keys), m', Ordered(m'.Keys), width);
  }
}
