/** Properties of the whole monitoring loop of the package copy, over the events received before
    the user interrupts it, and of the automount bracket around it. */
module RunProperties {
  import opened Wrappers
  import opened PyStrings
  import opened Host
  import opened UsbDevice
  import opened DeviceUtils
  import opened AutoMountHandler
  import opened DeviceManager
  import AdmissionProperties

  /** The seen set as the events alone determine it: a complete add inserts its node, a remove
      drops it, anything else leaves it. */
  function Track(seen: set<string>, e: Event): set<string>
  {
    if e.action == "add" && Complete(e) then seen + {e.deviceNode}
    else if e.action == "remove" then seen - {e.deviceNode}
    else seen
  }

  function SeenAfter(seen: set<string>, events: seq<Event>): set<string>
    decreases |events|
  {
    if events == [] then seen
    else Track(SeenAfter(seen, events[..|events| - 1]), events[|events| - 1])
  }

  /** The event puts a question to the user: a fresh complete add the predictor did not allow. */
  predicate Prompts(seen: set<string>, e: Event, a: Answers)
  {
    e.action == "add" && Complete(e) && e.deviceNode !in seen && a.prediction != Some(Allow)
  }

  function PromptCount(seen: set<string>, events: seq<Event>, answers: seq<Answers>): nat
    requires |answers| == |events|
    decreases |events|
  {
    if events == [] then 0
    else
      var n := |events| - 1;
      PromptCount(seen, events[..n], answers[..n]) + (if Prompts(SeenAfter(seen, events[..n]), events[n], answers[n]) then 1 else 0)
  }

  // ---------------------------------------------------------------------------------------
  // one step

  lemma StepSeen(s: EngineState, e: Event, a: Answers, cfg: Config)
    ensures StepSpec(s, e, a, cfg).state.seen == Track(s.seen, e)
  {
  }

  /** The log only grows, by one record exactly when the user is asked. */
  lemma StepLog(s: EngineState, e: Event, a: Answers, cfg: Config)
    ensures var r := StepSpec(s, e, a, cfg);
      && Prior(s.world.log) <= Prior(r.state.world.log)
      && |Prior(r.state.world.log)| == |Prior(s.world.log)| + (if Prompts(s.seen, e, a) then 1 else 0)
  {
  }

  lemma StepCounts(s: EngineState, e: Event, a: Answers, cfg: Config)
    ensures var r := StepSpec(s, e, a, cfg);
      forall v :: CountOf(s.world.counts, v) <= CountOf(r.state.world.counts, v)
  {
    AdmissionProperties.CountsChangeOnlyOnRememberedAllow(s, e, a, cfg);
  }

  lemma MountKeepsRules(w: World, cfg: Config, d: USBDevice, bd: Path)
    ensures MountSpec(w, cfg, d, bd).0.rules == w.rules
  {
    var mp := MountPoint(cfg.user, d.serial);
    assert Exec(w, Mkdir(mp), cfg).rules == w.rules;
  }

  lemma UnmountKeepsRules(w: World, cfg: Config, node: string)
    ensures UnmountSpec(w, cfg, node).0.rules == w.rules
  {
  }

  lemma BlockKeepsOtherRules(w: World, cfg: Config, d: USBDevice, view: UdevView)
    ensures forall f :: f != BLACKLIST_RULES ==> Lines(BlockSpec(w, cfg, d, view).rules, f) == Lines(w.rules, f)
  {
    var tee := TeeAppend(BLACKLIST_RULES, Some(BlockRule(d.vendorId, d.productId)));
    ToggleUnfold(w, tee, cfg);
    UpdateKeepsFiles(Exec(w, tee, cfg), cfg);
  }

  /** An event writes no rule file but the blacklist. */
  lemma StepRules(s: EngineState, e: Event, a: Answers, cfg: Config)
    ensures var r := StepSpec(s, e, a, cfg);
      forall f :: f != BLACKLIST_RULES ==> Lines(r.state.world.rules, f) == Lines(s.world.rules, f)
  {
    if AdmissionProperties.FreshAdd(s, e) {
      var d := EventDevice(e);
      var logged := s.world.(log := AppendRecord(s.world.log, Decided(Vars(d), a.choice)));
      var bd := GetLsblkDevice(d.deviceNode, a.view.usbDevices, a.view.partitions);
      if Truthy(bd) {
        MountKeepsRules(s.world, cfg, d, bd.value);
        MountKeepsRules(logged, cfg, d, bd.value);
      }
      BlockKeepsOtherRules(logged, cfg, d, a.view);
    } else if e.action == "remove" && e.deviceNode in s.seen {
      UnmountKeepsRules(s.world, cfg, e.deviceNode);
    }
  }

  // ---------------------------------------------------------------------------------------
  // the loop

  /** The seen set after the loop is the reference fold over the events handled. */
  lemma {:induction false} RunSeen(s: EngineState, events: seq<Event>, answers: seq<Answers>, cfg: Config)
    requires |answers| == |events|
    ensures var r := RunSpec(s, events, answers, cfg);
      r.state.seen == SeenAfter(s.seen, events[..r.handled])
    decreases |events|
  {
    if events != [] {
      var n := |events| - 1;
      RunSeen(s, events[..n], answers[..n], cfg);
      var r := RunSpec(s, events[..n], answers[..n], cfg);
      if r.err.None? {
        var st := StepSpec(r.state, events[n], answers[n], cfg);
        assert RunSpec(s, events, answers, cfg) == RunResult(st.state, n + 1, st.err);
        StepSeen(r.state, events[n], answers[n], cfg);
        assert events[..n][..n] == events[..n];
        assert events[..n + 1] == events;
        assert SeenAfter(s.seen, events) == Track(SeenAfter(s.seen, events[..n]), events[n]);
      } else {
        assert RunSpec(s, events, answers, cfg) == r;
        assert events[..n][..r.handled] == events[..r.handled];
      }
    }
  }

  /** The last event of a run that raised nothing before it keeps the log invariant. */
  lemma RunLogLast(s: EngineState, events: seq<Event>, answers: seq<Answers>, cfg: Config)
    requires |answers| == |events| && events != []
    requires var n := |events| - 1;
      var r := RunSpec(s, events[..n], answers[..n], cfg);
      && r.err.None?
      && Prior(s.world.log) <= Prior(r.state.world.log)
      && |Prior(r.state.world.log)| == |Prior(s.world.log)| + PromptCount(s.seen, events[..n], answers[..n])
    ensures var r := RunSpec(s, events, answers, cfg);
      && Prior(s.world.log) <= Prior(r.state.world.log)
      && |Prior(r.state.world.log)| == |Prior(s.world.log)| + PromptCount(s.seen, events, answers)
  {
    var n := |events| - 1;
    var r := RunSpec(s, events[..n], answers[..n], cfg);
    RunSeen(s, events[..n], answers[..n], cfg);
    assert events[..n][..n] == events[..n];
    assert r.state.seen == SeenAfter(s.seen, events[..n]);
    StepLog(r.state, events[n], answers[n], cfg);
  }

  /** The log is append-only, and grows by exactly one record per question put to the user. */
  lemma {:induction false} RunLog(s: EngineState, events: seq<Event>, answers: seq<Answers>, cfg: Config)
    requires |answers| == |events|
    ensures var r := RunSpec(s, events, answers, cfg);
      && Prior(s.world.log) <= Prior(r.state.world.log)
      && |Prior(r.state.world.log)| == |Prior(s.world.log)| + PromptCount(s.seen, events[..r.handled], answers[..r.handled])
    decreases |events|
  {
    if events != [] {
      var n := |events| - 1;
      RunLog(s, events[..n], answers[..n], cfg);
      var r := RunSpec(s, events[..n], answers[..n], cfg);
      if r.err.None? {
        assert events[..n][..n] == events[..n] && answers[..n][..n] == answers[..n];
        RunLogLast(s, events, answers, cfg);
        assert events[..n + 1] == events && answers[..n + 1] == answers;
      } else {
        assert events[..n][..r.handled] == events[..r.handled];
        assert answers[..n][..r.handled] == answers[..r.handled];
      }
    }
  }

  /** No vendor's allow count ever goes down. */
  lemma {:induction false} RunCounts(s: EngineState, events: seq<Event>, answers: seq<Answers>, cfg: Config)
    requires |answers| == |events|
    ensures var r := RunSpec(s, events, answers, cfg);
      forall v :: CountOf(s.world.counts, v) <= CountOf(r.state.world.counts, v)
    decreases |events|
  {
    if events != [] {
      var n := |events| - 1;
      RunCounts(s, events[..n], answers[..n], cfg);
      var r := RunSpec(s, events[..n], answers[..n], cfg);
      if r.err.None? {
        StepCounts(r.state, events[n], answers[n], cfg);
      }
    }
  }

  /** The loop writes no rule file but the blacklist. */
  lemma {:induction false} RunRules(s: EngineState, events: seq<Event>, answers: seq<Answers>, cfg: Config)
    requires |answers| == |events|
    ensures var r := RunSpec(s, events, answers, cfg);
      forall f :: f != BLACKLIST_RULES ==> Lines(r.state.world.rules, f) == Lines(s.world.rules, f)
    decreases |events|
  {
    if events != [] {
      var n := |events| - 1;
      RunRules(s, events[..n], answers[..n], cfg);
      var r := RunSpec(s, events[..n], answers[..n], cfg);
      if r.err.None? {
        StepRules(r.state, events[n], answers[n], cfg);
      }
    }
  }

  // ---------------------------------------------------------------------------------------
  // the automount bracket

  /** Automounting is switched off before the first event; it is switched back on (the override
      file emptied) only when the loop ends by the interrupt, and an exception leaves the
      override line in place. */
  lemma MonitorAutomount(s: EngineState, events: seq<Event>, answers: seq<Answers>, cfg: Config)
    requires |answers| == |events|
    ensures var r := MonitorSpec(s, events, answers, cfg);
      && s.world.trace + Issued(DISABLE_COMMANDS, cfg) <= r.state.world.trace
      && (r.err.None? ==>
            && r.handled == |events|
            && r.state.world.trace[|r.state.world.trace| - |Issued(ENABLE_COMMANDS, cfg)|..] == Issued(ENABLE_COMMANDS, cfg))
      && (r.err.None? && Accepted(ENABLE_COMMANDS[0], cfg) ==> Lines(r.state.world.rules, AUTOMOUNT_RULES) == [])
      && (r.err.Some? && Accepted(DISABLE_COMMANDS[0], cfg) ==>
            Lines(r.state.world.rules, AUTOMOUNT_RULES) == Lines(s.world.rules, AUTOMOUNT_RULES) + [DISABLE_RULE])
      && (r.err.Some? && !Accepted(DISABLE_COMMANDS[0], cfg) ==>
            Lines(r.state.world.rules, AUTOMOUNT_RULES) == Lines(s.world.rules, AUTOMOUNT_RULES))
  {
    var start := EngineState(s.seen, Attempt(s.world, DISABLE_COMMANDS, cfg));
    var run := RunSpec(start, events, answers, cfg);
    DisableAppendsRule(s.world, cfg);
    RunRules(start, events, answers, cfg);
    if run.err.None? {
      EnableEmptiesRules(run.state.world, cfg);
      var t := run.state.world.trace + Issued(ENABLE_COMMANDS, cfg);
      assert t[|t| - |Issued(ENABLE_COMMANDS, cfg)|..] == Issued(ENABLE_COMMANDS, cfg);
    }
  }

  // ---------------------------------------------------------------------------------------
  // an attach / detach cycle

  /** The attaching half of the cycle: the prompt's record is appended and the device mounted;
      with the remember box ticked the vendor's count is raised too. */
  lemma AllowedAddMounts(s: EngineState, e: Event, a: Answers, cfg: Config, bd: Path)
    requires AdmissionProperties.FreshAdd(s, e) && a.prediction != Some(Allow) && a.choice == Allow
    requires (a.autoAllow ==> !s.world.counts.NoCounts?) && cfg.refused == {}
    requires GetLsblkDevice(e.deviceNode, a.view.usbDevices, a.view.partitions) == Some(bd) && bd != ""
    ensures var r1 := StepSpec(s, e, a, cfg);
      var mp := MountPoint(cfg.user, EventDevice(e).serial);
      && r1.err.None? && r1.state.seen == s.seen + {e.deviceNode}
      && r1.state.world.log == Log(Prior(s.world.log) + [Decided(Vars(EventDevice(e)), Allow)])
      && r1.state.world.trace == s.world.trace + (if mp in s.world.dirs then [] else [Mkdir(mp)]) + [Mount(bd, mp)]
      && mp in r1.state.world.dirs
      && r1.state.world.counts == (if a.autoAllow then BumpCount(s.world.counts, e.vendorId.value).0 else s.world.counts)
  {
    var logged := s.world.(log := AppendRecord(s.world.log, Decided(Vars(EventDevice(e)), Allow)));
    var m := MountSpec(logged, cfg, EventDevice(e), bd);
    assert m.1.None?;
    assert StepSpec(s, e, a, cfg).state.world.(counts := m.0.counts) == m.0;
  }

  /** A device the user allows is mounted at /media/<user>/<serial>; when no earlier record of
      the log names its node, its removal finds the record the prompt wrote, unmounts that
      directory and deletes it. */
  lemma AllowThenRemoveUnmounts(s: EngineState, e: Event, rm: Event, a: Answers, a2: Answers, cfg: Config, bd: Path)
    requires AdmissionProperties.FreshAdd(s, e) && a.prediction != Some(Allow) && a.choice == Allow
    requires a.autoAllow ==> !s.world.counts.NoCounts?
    requires AdmissionProperties.NoRecordFor(Prior(s.world.log), e.deviceNode) && cfg.refused == {}
    requires GetLsblkDevice(e.deviceNode, a.view.usbDevices, a.view.partitions) == Some(bd) && bd != ""
    requires rm.action == "remove" && rm.deviceNode == e.deviceNode
    ensures var r1 := StepSpec(s, e, a, cfg);
      var r2 := StepSpec(r1.state, rm, a2, cfg);
      var mp := MountPoint(cfg.user, EventDevice(e).serial);
      var pre := if mp in s.world.dirs then [] else [Mkdir(mp)];
      && r1.err.None? && r2.err.None?
      && r2.state.world.trace == s.world.trace + pre + [Mount(bd, mp), Umount(mp), RemoveTree(mp)]
      && r2.state.seen == s.seen
      && mp !in r2.state.world.dirs
  {
    AllowedAddMounts(s, e, a, cfg, bd);
    AdmissionProperties.PromptedRecordFindsMountPoint(Prior(s.world.log), e, Allow);
    var r1 := StepSpec(s, e, a, cfg);
    var mp := MountPoint(cfg.user, EventDevice(e).serial);
    assert r1.state.world.log == Log(Prior(s.world.log) + [Decided(Vars(EventDevice(e)), Allow)]);
    assert rm.deviceNode in r1.state.seen && mp in r1.state.world.dirs;
    RemoveUnmountsRecorded(r1.state, rm, a2, cfg, EventDevice(e).serial);
    var pre := if mp in s.world.dirs then [] else [Mkdir(mp)];
    CycleTrace(s.world.trace + pre, r1.state.world.trace, StepSpec(r1.state, rm, a2, cfg).state.world.trace, bd, mp);
  }

  lemma CycleTrace(t0: seq<Command>, t1: seq<Command>, t2: seq<Command>, bd: Path, mp: Path)
    requires t1 == t0 + [Mount(bd, mp)] && t2 == t1 + [Umount(mp)] + [RemoveTree(mp)]
    ensures t2 == t0 + [Mount(bd, mp), Umount(mp), RemoveTree(mp)]
  {
    assert [Mount(bd, mp)] + [Umount(mp)] + [RemoveTree(mp)] == [Mount(bd, mp), Umount(mp), RemoveTree(mp)];
    ConcatAssoc(t0, [Mount(bd, mp)], [Umount(mp)]);
    ConcatAssoc(t0, [Mount(bd, mp)] + [Umount(mp)], [RemoveTree(mp)]);
  }

  /** The detaching half of the cycle: removing a seen node whose first log record names
      `serial` unmounts that record's mount point, then deletes it when the directory exists. */
  lemma RemoveUnmountsRecorded(st: EngineState, rm: Event, a: Answers, cfg: Config, serial: string)
    requires rm.action == "remove" && rm.deviceNode in st.seen && cfg.refused == {}
    requires st.world.log.Log? && MountRecord(st.world.log.entries, rm.deviceNode).Ok?
    requires MountRecord(st.world.log.entries, rm.deviceNode).value.Some?
    requires MountRecord(st.world.log.entries, rm.deviceNode).value.value.serial == serial
    ensures var r := StepSpec(st, rm, a, cfg);
      var mp := MountPoint(cfg.user, serial);
      && r.err.None? && r.state.seen == st.seen - {rm.deviceNode}
      && r.state.world.trace == st.world.trace + [Umount(mp)] + (if mp in st.world.dirs then [RemoveTree(mp)] else [])
      && mp !in r.state.world.dirs
  {
    AdmissionProperties.RemoveOfHandledNode(st, rm, a, cfg);
    UnmountCommands(st.world, cfg, rm.deviceNode);
  }

  /** The log persists across attachments: when it already holds a record for the node from an
      earlier device, the removal unmounts and deletes the OLD record's mount point, not the one
      the new device was mounted at. */
  lemma StaleRecordUnmountsOldMountPoint(s: EngineState, e: Event, rm: Event, a: Answers, a2: Answers, cfg: Config, i: int)
    requires AdmissionProperties.FreshAdd(s, e) && a.prediction != Some(Allow) && a.choice == Allow
    requires s.world.log.Log? && FirstRecordFor(s.world.log.entries, e.deviceNode, i)
    requires RecordDetails(s.world.log.entries[i]).Ok? && cfg.refused == {}
    requires rm.action == "remove" && rm.deviceNode == e.deviceNode
    ensures var r1 := StepSpec(s, e, a, cfg);
      var r2 := StepSpec(r1.state, rm, a2, cfg);
      var stale := MountPoint(cfg.user, s.world.log.entries[i]["serial"]);
      r1.err.None? ==>
        && r2.err.None?
        && r2.state.world.trace == r1.state.world.trace + [Umount(stale)] +
             (if stale in r1.state.world.dirs then [RemoveTree(stale)] else [])
        && (s.world.log.entries[i]["serial"] != EventDevice(e).serial ==>
              stale != MountPoint(cfg.user, EventDevice(e).serial))
  {
    if MountPoint(cfg.user, s.world.log.entries[i]["serial"]) == MountPoint(cfg.user, EventDevice(e).serial) {
      MountPointInjective(cfg.user, s.world.log.entries[i]["serial"], EventDevice(e).serial);
    }
    var entries := s.world.log.entries;
    var rec := Decided(Vars(EventDevice(e)), Allow);
    AdmissionProperties.StaleRecordWins(entries, e.deviceNode, i, rec);
    MountRecordFirst(entries, e.deviceNode, i);
    var r1 := StepSpec(s, e, a, cfg);
    assert r1.state.world.log == Log(entries + [rec]) && rm.deviceNode in r1.state.seen;
    RemoveUnmountsRecorded(r1.state, rm, a2, cfg, entries[i]["serial"]);
  }

  // ---------------------------------------------------------------------------------------
  // duplicate suppression over the loop

  /** Once a complete add of `node` is handled, the node stays seen until an event removes it. */
  lemma {:induction false} NoRemoveKeepsNode(seen: set<string>, events: seq<Event>, i: nat, n: nat)
    requires i < n <= |events|
    requires events[i].action == "add" && Complete(events[i])
    requires forall k :: i < k < n ==> !(events[k].action == "remove" && events[k].deviceNode == events[i].deviceNode)
    ensures events[i].deviceNode in SeenAfter(seen, events[..n])
    decreases n
  {
    assert events[..n][..n - 1] == events[..n - 1];
    if n > i + 1 {
      NoRemoveKeepsNode(seen, events, i, n - 1);
    }
  }

  /** Two complete adds of one node with no remove of it between them: the later one is skipped,
      whatever device it reports and whatever the loop did in between. */
  lemma LaterAddIsSkipped(s: EngineState, events: seq<Event>, answers: seq<Answers>, cfg: Config, i: nat, j: nat)
    requires |answers| == |events| && i < j < |events|
    requires events[i].action == "add" && Complete(events[i])
    requires events[j].action == "add" && Complete(events[j]) && events[j].deviceNode == events[i].deviceNode
    requires forall k :: i < k < j ==> !(events[k].action == "remove" && events[k].deviceNode == events[i].deviceNode)
    requires RunSpec(s, events[..j], answers[..j], cfg).err.None?
    ensures var r := RunSpec(s, events[..j], answers[..j], cfg);
      StepSpec(r.state, events[j], answers[j], cfg) == StepResult(r.state, Skipped, None)
  {
    var r := RunSpec(s, events[..j], answers[..j], cfg);
    RunSeen(s, events[..j], answers[..j], cfg);
    assert events[..j][..j] == events[..j];
    NoRemoveKeepsNode(s.seen, events, i, j);
  }
}
