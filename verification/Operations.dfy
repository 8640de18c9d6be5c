/** The operations poller in the source's form: an object whose maps are updated by the
    loops of a poll, each ranging over a map in an arbitrary order. */
module Operations {
  import opened Basics
  import opened OperationsModel
  import opened Sorting

  class Poller {
    const env: Env
    var running: map<string, Operation>
    var operationConfigs: map<string, string>
    var opHashHeader: string
    var fetchedFirst: bool

    constructor (env: Env)
      ensures this.env == env && Now() == IDLE
    {
      this.env := env;
      running, operationConfigs, opHashHeader, fetchedFirst := map[], map[], "", false;
    }

    ghost function Now(): Ops
      reads this
    {
      Ops(running, operationConfigs, opHashHeader, fetchedFirst)
    }

    /** Drop the operations that are no longer active. */
    method SweepInactive(active: set<string>)
      modifies this
      ensures Now() == Swept(old(Now()), active)
    {
      ghost var s, gone := Now(), {};
      var left := running.Keys;
      NothingInactive(s, active);
      hide Inactive;
      while left != {}
        invariant left <= s.running.Keys && gone == Inactive(s, active) - left
        invariant running == s.running - gone && operationConfigs == s.recorded - gone
        invariant opHashHeader == (if gone == {} then s.header else "") && fetchedFirst == s.fetchedFirst
        decreases left
      {
        var name :| name in left;
        DifferenceNext(Inactive(s, active), left, name);
        InInactive(s, active, name);
        left := left - {name};
        if name !in active {
          MinusNext(s.running, gone, name);
          MinusNext(s.recorded, gone, name);
          running := running - {name};
          operationConfigs := operationConfigs - {name};
          opHashHeader := "";
          gone := gone + {name};
        }
      }
    }

    /** Digests of the configurations received. */
    method HashIncoming(configs: map<string, string>) returns (incomingHashes: map<string, string>)
      ensures incomingHashes == Incoming(env, configs)
    {
      incomingHashes := map[];
      var left := configs.Keys;
      while left != {}
        invariant left <= configs.Keys
        invariant incomingHashes == map n | n in configs && n !in left :: env.sha(configs[n])
        decreases left
      {
        var name :| name in left;
        left := left - {name};
        incomingHashes := incomingHashes[name := env.sha(configs[name])];
      }
    }

    /** The received configurations whose digest is new and that parse. */
    method Compare(configs: map<string, string>, incomingHashes: map<string, string>)
      returns (changedConfigs: map<string, DeviceOperation>)
      requires incomingHashes == Incoming(env, configs)
      ensures changedConfigs == Changed(env, operationConfigs, configs)
    {
      changedConfigs := map[];
      ghost var all := Changed(env, operationConfigs, configs);
      var left := incomingHashes.Keys;
      while left != {}
        invariant left <= configs.Keys
        invariant changedConfigs == map n | n in all && n !in left :: all[n]
        decreases left
      {
        var name :| name in left;
        left := left - {name};
        var ehash := if name in operationConfigs then operationConfigs[name] else "";
        if ehash != incomingHashes[name] {
          var op := env.parse(configs[name]);
          if op == None {
            continue;
          }
          changedConfigs := changedConfigs[name := op.value];
        }
      }
    }

    /** Stop and forget running operations the cloud no longer lists. */
    method DeleteRemoved(configs: map<string, string>, incomingHashes: map<string, string>) returns (deeds: seq<Deed>)
      requires incomingHashes.Keys == configs.Keys
      modifies this`running, this`operationConfigs
      ensures Now() == Pruned(old(Now()), configs)
      ensures Lists(deeds, StopsOf(Removed(old(Now()), configs)))
    {
      ghost var s := Now();
      deeds := [];
      var left := operationConfigs.Keys;
      ghost var gone := {};
      NothingRemoved(s, configs);
      hide Removed;
      hide StopsOf;
      hide Lists;
      while left != {}
        invariant left <= s.recorded.Keys && gone == Removed(s, configs) - left
        invariant running == s.running - gone && operationConfigs == s.recorded - gone
        invariant Lists(deeds, StopsOf(gone))
        decreases left
      {
        var name :| name in left;
        DifferenceNext(Removed(s, configs), left, name);
        InRemoved(s, configs, name);
        left := left - {name};
        if name !in incomingHashes && name in running {
          StopsNext(deeds, gone, name);
          MinusNext(s.running, gone, name);
          MinusNext(s.recorded, gone, name);
          deeds := deeds + [Stop(name)];
          running := running - {name};
          operationConfigs := operationConfigs - {name};
          gone := gone + {name};
        }
      }
    }

    /** Stop one changed operation if it runs and start it again if that is possible. */
    method RestartOne(name: string, config: string, hash: string, outcome: Launch, given: seq<Deed>)
        returns (deeds: seq<Deed>)
      modifies this`running, this`operationConfigs
      ensures var rest := if name in old(running) then old(running) - {name} else old(running);
              running == if outcome == Launched then rest[name := Operation(config)] else rest
      ensures operationConfigs == if outcome == Launched then old(operationConfigs)[name := hash]
              else old(operationConfigs)
      ensures var mid := if name in old(running) then given + [Stop(name)] else given;
              deeds == if outcome == Launched then mid + [Start(name)] else mid
    {
      deeds := given;
      if name in running {
        deeds := deeds + [Stop(name)];
        running := running - {name};
      }
      if outcome == NoPlugin || outcome == NotOperational || outcome == StartFailed {
        return;
      }
      deeds := deeds + [Start(name)];
      running := running[name := Operation(config)];
      operationConfigs := operationConfigs[name := hash];
    }

    /** Restart the changed operations, met in any order. */
    method Restart(configs: map<string, string>, incomingHashes: map<string, string>,
                   changedConfigs: map<string, DeviceOperation>, launch: string -> Launch, given: seq<Deed>,
                   ghost before: set<Deed>)
      returns (deeds: seq<Deed>)
      requires incomingHashes == Incoming(env, configs) && changedConfigs.Keys <= configs.Keys
      requires Lists(given, before)
      requires forall d :: d in before ==> d.Stop? && d.name !in changedConfigs
      modifies this`running, this`operationConfigs
      ensures Now() == Restarted(env, old(Now()), configs, changedConfigs.Keys, launch)
      ensures Lists(deeds, before + RestartDeeds(old(running.Keys), changedConfigs.Keys, launch))
    {
      ghost var s, done, start := Now(), {}, running.Keys;
      deeds := given;
      var left := changedConfigs.Keys;
      RestartedNone(env, s, configs, launch);
      NoRestartDeeds(start, before, launch);
      ghost var r := s;
      hide Restarted;
      hide RestartDeeds;
      hide Lists;
      hide Incoming;
      while left != {}
        invariant left <= changedConfigs.Keys && done == changedConfigs.Keys - left
        invariant r == Restarted(env, s, configs, done, launch)
        invariant running == r.running && operationConfigs == r.recorded
        invariant Lists(deeds, before + RestartDeeds(start, done, launch))
        decreases left
      {
        var name :| name in left;
        RestartedNext(env, s, configs, done, name, launch);
        RestartedRuns(env, s, configs, done, name, launch);
        RestartDeedsNext(deeds, before, start, done, name, launch);
        DifferenceNext(changedConfigs.Keys, left, name);
        IncomingAt(env, configs, name);
        deeds := RestartOne(name, configs[name], incomingHashes[name], launch(name), deeds);
        left, done := left - {name}, done + {name};
        r := Restarted(env, s, configs, done, launch);
      }
      assert done == changedConfigs.Keys;
      RestartedKeeps(env, s, configs, done, launch);
    }

    /** Feed the recorded digests to the hash in the order of configs. */
    method WriteDigests(configs: seq<string>) returns (written: string)
      requires forall x :: x in configs ==> x in operationConfigs
      ensures written == Digests(operationConfigs, configs)
    {
      written := "";
      for i := 0 to |configs|
        invariant written == Digests(operationConfigs, configs[..i])
      {
        assert configs[..i + 1][..i] == configs[..i];
        written := written + operationConfigs[configs[i]];
      }
      assert configs[..|configs|] == configs;
    }

    /** The overall digest, over the recorded ones sorted by name. */
    method RecalculateHash()
      modifies this`opHashHeader
      ensures Now() == old(Now()).(header := Overall(env, operationConfigs))
    {
      var names := Enumerate(operationConfigs.Keys);
      SortOrders(names, operationConfigs.Keys);
      var written := WriteDigests(Sort(names));
      opHashHeader := env.hex(env.sha(written));
    }

    /** The part of a poll that follows a 200 answer with readable configurations. */
    method Reconcile(configs: map<string, string>, launch: string -> Launch) returns (deeds: seq<Deed>)
      modifies this
      ensures var v := Reconciled(env, old(Now()), configs, launch);
              Now() == v.(header := Overall(env, v.recorded))
      ensures Lists(deeds, DeedsOf(env, old(Now()), configs, launch))
    {
      ghost var s := Now();
      var incomingHashes := HashIncoming(configs);
      var changedConfigs := Compare(configs, incomingHashes);
      deeds := DeleteRemoved(configs, incomingHashes);
      RestartSeesSame(env, s, configs, launch);
      deeds := Restart(configs, incomingHashes, changedConfigs, launch, deeds, StopsOf(Removed(s, configs)));
      RecalculateHash();
    }

    method PollOnce(p: Poll) returns (cloudPollReq: int, deeds: seq<Deed>)
      modifies this
      ensures (Now(), cloudPollReq) == Polled(env, old(Now()), p)
      ensures Lists(deeds, match Fetched(p)
                           case None => {}
                           case Some(configs) => DeedsOf(env, Swept(old(Now()), p.active), configs, p.launch))
    {
      cloudPollReq, deeds := 0, [];
      SweepInactive(p.active);
      if !p.connected {
        return;
      }
      if p.reply == None {
        return;
      }
      var r := p.reply.value;
      if r.interval.Some? {
        cloudPollReq := r.interval.value;
      }
      match r.status {
        case 208 =>
          fetchedFirst := true;
          return;
        case 200 =>
          fetchedFirst := true;
        case 500 =>
          cloudPollReq := HOUR;
          return;
        case _ =>
          return;
      }
      if r.configs == None {
        return;
      }
      deeds := Reconcile(r.configs.value, p.launch);
    }

    /** Any sequence of polls, from the start of the emulator. */
    method Run(polls: seq<Poll>)
      requires Now() == IDLE
      modifies this
      ensures Now() == Polls(env, polls)
      ensures Backed(env, Now()) && HeaderCurrent(env, Now())
    {
      for i := 0 to |polls|
        invariant Now() == Polls(env, polls[..i])
      {
        assert polls[..i + 1][..i] == polls[..i];
        var req, deeds := PollOnce(polls[i]);
      }
      assert polls[..|polls|] == polls;
      EveryPollKeeps(env, polls);
    }
  }

  lemma NothingInactive(s: Ops, active: set<string>)
    ensures s.running - {} == s.running && s.recorded - {} == s.recorded
    ensures Inactive(s, active) - s.running.Keys == {} && Inactive(s, active) - {} == Inactive(s, active)
  {
  }

  lemma InInactive(s: Ops, active: set<string>, n: string)
    requires n in s.running
    ensures n in Inactive(s, active) <==> n !in active
  {
  }

  lemma NothingRemoved(s: Ops, configs: map<string, string>)
    ensures s.running - {} == s.running && s.recorded - {} == s.recorded
    ensures Removed(s, configs) - s.recorded.Keys == {} && Removed(s, configs) - {} == Removed(s, configs)
    ensures Lists([], StopsOf({}))
  {
  }

  lemma InRemoved(s: Ops, configs: map<string, string>, n: string)
    requires n in s.recorded
    ensures n in Removed(s, configs) <==> n !in configs && n in s.running
  {
  }

  lemma StopsNext(deeds: seq<Deed>, gone: set<string>, n: string)
    requires Lists(deeds, StopsOf(gone)) && n !in gone
    ensures Lists(deeds + [Stop(n)], StopsOf(gone + {n}))
  {
    ListsAppend(deeds, StopsOf(gone), Stop(n));
    assert StopsOf(gone + {n}) == StopsOf(gone) + {Stop(n)};
  }

  lemma RestartedNext(env: Env, s: Ops, configs: map<string, string>, done: set<string>, n: string,
      launch: string -> Launch)
    requires done <= configs.Keys && n in configs && n !in done
    ensures var t := Restarted(env, s, configs, done, launch);
            Restarted(env, s, configs, done + {n}, launch) ==
               var rest := if n in t.running then t.running - {n} else t.running;
               if launch(n) == Launched
               then t.(running := rest[n := Operation(configs[n])], recorded := t.recorded[n := env.sha(configs[n])])
               else t.(running := rest)
  {
    var t := Restarted(env, s, configs, done, launch);
    MinusAbsent(t.running, n);
    PutBack(t.running, n, Operation(configs[n]));
    var ops, digests := Started(configs, done, launch), StartedDigests(env, configs, done, launch);
    if launch(n) == Launched {
      assert Started(configs, done + {n}, launch) == ops[n := Operation(configs[n])];
      assert StartedDigests(env, configs, done + {n}, launch) == digests[n := env.sha(configs[n])];
      ReplaceNext(s.running, done, ops, n, Operation(configs[n]));
      AddNext(s.recorded, digests, n, env.sha(configs[n]));
    } else {
      assert Started(configs, done + {n}, launch) == ops;
      assert StartedDigests(env, configs, done + {n}, launch) == digests;
      RemoveNext(s.running, done, ops, n);
    }
  }

  lemma RestartedRuns(env: Env, s: Ops, configs: map<string, string>, done: set<string>, n: string,
      launch: string -> Launch)
    requires done <= configs.Keys && n !in done
    ensures n in Restarted(env, s, configs, done, launch).running <==> n in s.running
  {
  }

  lemma RestartedKeeps(env: Env, s: Ops, configs: map<string, string>, done: set<string>, launch: string -> Launch)
    requires done <= configs.Keys
    ensures var t := Restarted(env, s, configs, done, launch); t.header == s.header && t.fetchedFirst == s.fetchedFirst
  {
  }

  lemma IncomingAt(env: Env, configs: map<string, string>, n: string)
    requires n in configs
    ensures n in Incoming(env, configs) && Incoming(env, configs)[n] == env.sha(configs[n])
  {
  }

  lemma MinusAbsent<V>(m: map<string, V>, n: string)
    ensures n !in m ==> m - {n} == m
  {
  }

  lemma PutBack<V>(m: map<string, V>, n: string, v: V)
    ensures (m - {n})[n := v] == m[n := v]
  {
  }

  lemma ReplaceNext<V>(m: map<string, V>, done: set<string>, up: map<string, V>, n: string, v: V)
    ensures (m - (done + {n})) + up[n := v] == ((m - done) + up)[n := v]
  {
  }

  lemma AddNext<V>(m: map<string, V>, up: map<string, V>, n: string, v: V)
    ensures m + up[n := v] == (m + up)[n := v]
  {
  }

  lemma RemoveNext<V>(m: map<string, V>, done: set<string>, up: map<string, V>, n: string)
    requires n !in up
    ensures (m - (done + {n})) + up == ((m - done) + up) - {n}
  {
  }

  lemma NoRestartDeeds(running: set<string>, before: set<Deed>, launch: string -> Launch)
    ensures before + RestartDeeds(running, {}, launch) == before
  {
  }

  lemma RestartDeedsNext(deeds: seq<Deed>, before: set<Deed>, running: set<string>, done: set<string>, n: string,
                         launch: string -> Launch)
    requires Lists(deeds, before + RestartDeeds(running, done, launch)) && n !in done
    requires Stop(n) !in before && Start(n) !in before
    ensures var mid := if n in running then deeds + [Stop(n)] else deeds;
            Lists(if launch(n) == Launched then mid + [Start(n)] else mid,
                  before + RestartDeeds(running, done + {n}, launch))
  {
    var all := before + RestartDeeds(running, done, launch);
    var mid := if n in running then deeds + [Stop(n)] else deeds;
    var all' := if n in running then all + {Stop(n)} else all;
    if n in running {
      ListsAppend(deeds, all, Stop(n));
    }
    if launch(n) == Launched {
      ListsAppend(mid, all', Start(n));
      assert before + RestartDeeds(running, done + {n}, launch) == all' + {Start(n)};
    } else {
      assert before + RestartDeeds(running, done + {n}, launch) == all';
    }
  }

  /** Deleting what the cloud dropped does not touch what is restarted. */
  lemma RestartSeesSame(env: Env, s: Ops, configs: map<string, string>, launch: string -> Launch)
    ensures var changed := Changed(env, s.recorded, configs).Keys;
            RestartDeeds(Pruned(s, configs).running.Keys, changed, launch)
                == RestartDeeds(s.running.Keys, changed, launch)
  {
  }
}
