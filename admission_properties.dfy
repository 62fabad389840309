/** Properties of one iteration of the package copy's monitoring loop. */
module AdmissionProperties {
  import opened Wrappers
  import opened PyStrings
  import opened Host
  import opened UsbDevice
  import opened DeviceUtils
  import opened DeviceManager
  import opened Search

  predicate FreshAdd(s: EngineState, e: Event)
  {
    e.action == "add" && Complete(e) && e.deviceNode !in s.seen
  }

  /** An add event missing its vendor or product id changes nothing. */
  lemma IncompleteAddIsDropped(s: EngineState, e: Event, a: Answers, cfg: Config)
    requires e.action == "add" && !Complete(e)
    ensures StepSpec(s, e, a, cfg) == StepResult(s, Dropped, None)
  {
  }

  /** A second add for a node already handled changes nothing and asks nobody. */
  lemma DuplicateAddIsSkipped(s: EngineState, e: Event, a: Answers, cfg: Config)
    requires e.action == "add" && Complete(e) && e.deviceNode in s.seen
    ensures StepSpec(s, e, a, cfg) == StepResult(s, Skipped, None)
  {
  }

  /** A fresh complete add is remembered before anything else and is either auto-allowed (the
      predictor said 'allow') or put to the user. */
  lemma FreshAddIsHandled(s: EngineState, e: Event, a: Answers, cfg: Config)
    requires FreshAdd(s, e)
    ensures var r := StepSpec(s, e, a, cfg);
      && r.state.seen == s.seen + {e.deviceNode}
      && r.route == (if a.prediction == Some(Allow) then AutoAllowed else Prompted(a.choice, a.autoAllow))
  {
  }

  /** Whatever happens to the first add, an immediate repeat of it is skipped. */
  lemma RepeatedAddIsSkipped(s: EngineState, e: Event, a1: Answers, a2: Answers, cfg: Config)
    requires e.action == "add" && Complete(e)
    ensures var r1 := StepSpec(s, e, a1, cfg);
      StepSpec(r1.state, e, a2, cfg) == StepResult(r1.state, Skipped, None)
  {
  }

  /** The predictor's allow goes straight to allow_usb_device: no log record, no counter. */
  lemma PredictedAllowLeavesNoRecord(s: EngineState, e: Event, a: Answers, cfg: Config)
    requires FreshAdd(s, e) && a.prediction == Some(Allow)
    ensures var r := StepSpec(s, e, a, cfg);
      && r.state.world.log == s.world.log
      && r.state.world.counts == s.world.counts
      && (r.state.world, r.err) == AllowSpec(s.world, cfg, EventDevice(e), a.view)
  {
  }

  /** A prompted decision appends exactly one record: the device's fields plus the decision. */
  lemma PromptLogsOneRecord(s: EngineState, e: Event, a: Answers, cfg: Config)
    requires FreshAdd(s, e) && a.prediction != Some(Allow)
    ensures var r := StepSpec(s, e, a, cfg);
      var rec := r.state.world.log.entries[|Prior(s.world.log)|];
      && r.state.world.log.Log?
      && r.state.world.log.entries == Prior(s.world.log) + [rec]
      && rec.Keys == {"vendor_id", "product_id", "serial", "device_node", "decision"}
      && rec["vendor_id"] == e.vendorId.value && rec["product_id"] == e.productId.value
      && rec["serial"] == EventDevice(e).serial && rec["device_node"] == e.deviceNode
      && rec["decision"] == DecisionText(a.choice)
  {
    var r := StepSpec(s, e, a, cfg);
    var rec := Decided(Vars(EventDevice(e)), a.choice);
    assert r.state.world.log == AppendRecord(s.world.log, rec);
  }

  /** A user block writes the rule denying the device's vendor and product when udev resolves
      the node and `tee` succeeds; it never raises and never touches the counts. */
  lemma BlockChoiceWritesRule(s: EngineState, e: Event, a: Answers, cfg: Config)
    requires FreshAdd(s, e) && a.prediction != Some(Allow) && a.choice == Block
    ensures var r := StepSpec(s, e, a, cfg);
      var tee := TeeAppend(BLACKLIST_RULES, Some(BlockRule(e.vendorId.value, e.productId.value)));
      && r.err.None?
      && r.state.world.counts == s.world.counts
      && (!Truthy(GetBlockDevice(a.view.udevInfo)) ==> r.state.world.rules == s.world.rules && r.state.world.trace == s.world.trace)
      && (Truthy(GetBlockDevice(a.view.udevInfo)) && Accepted(tee, cfg) ==>
            Lines(r.state.world.rules, BLACKLIST_RULES) == Lines(s.world.rules, BLACKLIST_RULES) + [BlockRule(e.vendorId.value, e.productId.value)])
  {
    var d := EventDevice(e);
    var logged := s.world.(log := AppendRecord(s.world.log, Decided(Vars(d), a.choice)));
    var tee := TeeAppend(BLACKLIST_RULES, Some(BlockRule(d.vendorId, d.productId)));
    if Truthy(GetBlockDevice(a.view.udevInfo)) && Accepted(tee, cfg) {
      AutoMountHandler.ToggleUnfold(logged, tee, cfg);
      AutoMountHandler.UpdateKeepsFiles(Exec(logged, tee, cfg), cfg);
    }
  }

  /** A remembered user allow whose mount raised nothing bumps the vendor's counter by one
      (from 0 when absent) and no other; a missing counts file raises FileNotFoundError. */
  lemma RememberedAllowCounts(s: EngineState, e: Event, a: Answers, cfg: Config)
    requires FreshAdd(s, e) && a.prediction != Some(Allow) && a.choice == Allow && a.autoAllow
    requires AllowSpec(s.world, cfg, EventDevice(e), a.view).1.None?
    ensures var r := StepSpec(s, e, a, cfg);
      var v := e.vendorId.value;
      && (s.world.counts.NoCounts? ==> r.err == Some(FileNotFoundError(COUNTS_FILE)) && r.state.world.counts == s.world.counts)
      && (!s.world.counts.NoCounts? ==>
            && r.err.None? && r.state.world.counts.Counts?
            && r.state.world.counts.counts[v] == CountOf(s.world.counts, v) + 1
            && forall u :: u in Known(s.world.counts) && u != v ==> r.state.world.counts.counts[u] == Known(s.world.counts)[u])
  {
    var d := EventDevice(e);
    var logged := s.world.(log := AppendRecord(s.world.log, Decided(Vars(d), a.choice)));
    assert AllowSpec(logged, cfg, d, a.view).1 == AllowSpec(s.world, cfg, d, a.view).1;
  }

  /** The counts change only through a remembered, prompted allow whose mount raised nothing. */
  lemma CountsChangeOnlyOnRememberedAllow(s: EngineState, e: Event, a: Answers, cfg: Config)
    ensures var r := StepSpec(s, e, a, cfg);
      r.state.world.counts != s.world.counts ==>
        && FreshAdd(s, e) && a.prediction != Some(Allow) && a.choice == Allow && a.autoAllow
        && r.err.None? && r.state.world.counts == BumpCount(s.world.counts, e.vendorId.value).0
  {
  }

  /** mount_device neither reads nor writes the counts. */
  lemma MountIgnoresCounts(w: World, cfg: Config, d: USBDevice, bd: Path, other: CountsFile)
    ensures MountSpec(w.(counts := other), cfg, d, bd) == (MountSpec(w, cfg, d, bd).0.(counts := other), MountSpec(w, cfg, d, bd).1)
  {
    var mp := MountPoint(cfg.user, d.serial);
    ExecIgnoresCounts(w, Mkdir(mp), cfg, other);
    ExecIgnoresCounts(w, Mount(bd, mp), cfg, other);
    ExecIgnoresCounts(Exec(w, Mkdir(mp), cfg), Mount(bd, mp), cfg, other);
  }

  /** unmount_device neither reads nor writes the counts. */
  lemma UnmountIgnoresCounts(w: World, cfg: Config, node: string, other: CountsFile)
    ensures UnmountSpec(w.(counts := other), cfg, node) == (UnmountSpec(w, cfg, node).0.(counts := other), UnmountSpec(w, cfg, node).1)
  {
    if w.log.Log? && MountRecord(w.log.entries, node).Ok? && MountRecord(w.log.entries, node).value.Some? {
      var mp := MountPoint(cfg.user, MountRecord(w.log.entries, node).value.value.serial);
      ExecIgnoresCounts(w, Umount(mp), cfg, other);
      ExecIgnoresCounts(Exec(w, Umount(mp), cfg), RemoveTree(mp), cfg, other);
    }
  }

  /** allow_usb_device and block_usb_device neither read nor write the counts. */
  lemma HandlersIgnoreCounts(w: World, cfg: Config, d: USBDevice, view: UdevView, other: CountsFile)
    ensures AllowSpec(w.(counts := other), cfg, d, view) ==
      (AllowSpec(w, cfg, d, view).0.(counts := other), AllowSpec(w, cfg, d, view).1)
    ensures BlockSpec(w.(counts := other), cfg, d, view) == BlockSpec(w, cfg, d, view).(counts := other)
  {
    var bd := GetLsblkDevice(d.deviceNode, view.usbDevices, view.partitions);
    if Truthy(bd) {
      MountIgnoresCounts(w, cfg, d, bd.value, other);
    }
    AttemptIgnoresCounts(w, BlockCommands(d.vendorId, d.productId), cfg, other);
  }

  /** Two results of one event agree on everything but the counts and the exception. */
  predicate SameDecision(r1: StepResult, r2: StepResult)
  {
    && r1.route == r2.route && r1.state.seen == r2.state.seen
    && r1.state.world.log == r2.state.world.log
    && r1.state.world.rules == r2.state.world.rules
    && r1.state.world.dirs == r2.state.world.dirs
    && r1.state.world.trace == r2.state.world.trace
  }

  lemma FreshAddIgnoresCounts(s: EngineState, e: Event, a: Answers, cfg: Config, other: CountsFile)
    requires FreshAdd(s, e)
    ensures SameDecision(StepSpec(s, e, a, cfg), StepSpec(s.(world := s.world.(counts := other)), e, a, cfg))
  {
    if a.prediction == Some(Allow) {
      HandlersIgnoreCounts(s.world, cfg, EventDevice(e), a.view, other);
    } else {
      PromptIgnoresCounts(s, e, a, cfg, other);
    }
  }

  lemma PromptIgnoresCounts(s: EngineState, e: Event, a: Answers, cfg: Config, other: CountsFile)
    requires FreshAdd(s, e) && a.prediction != Some(Allow)
    ensures SameDecision(StepSpec(s, e, a, cfg), StepSpec(s.(world := s.world.(counts := other)), e, a, cfg))
  {
    var s2 := s.(world := s.world.(counts := other));
    var d := EventDevice(e);
    var logged := s.world.(log := AppendRecord(s.world.log, Decided(Vars(d), a.choice)));
    assert s2.world.(log := AppendRecord(s.world.log, Decided(Vars(d), a.choice))) == logged.(counts := other);
    HandlersIgnoreCounts(logged, cfg, d, a.view, other);
    if a.choice == Allow {
      PromptedAllowIgnoresCounts(s, e, a, cfg, other, logged);
    }
  }

  lemma PromptedAllowIgnoresCounts(s: EngineState, e: Event, a: Answers, cfg: Config, other: CountsFile, logged: World)
    requires FreshAdd(s, e) && a.prediction != Some(Allow) && a.choice == Allow
    requires logged == s.world.(log := AppendRecord(s.world.log, Decided(Vars(EventDevice(e)), Allow)))
    requires AllowSpec(logged.(counts := other), cfg, EventDevice(e), a.view) ==
      (AllowSpec(logged, cfg, EventDevice(e), a.view).0.(counts := other), AllowSpec(logged, cfg, EventDevice(e), a.view).1)
    ensures SameDecision(StepSpec(s, e, a, cfg), StepSpec(s.(world := s.world.(counts := other)), e, a, cfg))
  {
    var s2 := s.(world := s.world.(counts := other));
    assert s2.world.(log := AppendRecord(s.world.log, Decided(Vars(EventDevice(e)), Allow))) == logged.(counts := other);
  }

  /** The decision never depends on the counts: with any other counts file the event takes the
      same branch and leaves the same seen set, log, rule files, directories and trace. */
  lemma DecisionIgnoresCounts(s: EngineState, e: Event, a: Answers, cfg: Config, other: CountsFile)
    ensures SameDecision(StepSpec(s, e, a, cfg), StepSpec(s.(world := s.world.(counts := other)), e, a, cfg))
  {
    if FreshAdd(s, e) {
      FreshAddIgnoresCounts(s, e, a, cfg, other);
    } else if e.action == "remove" && e.deviceNode in s.seen {
      UnmountIgnoresCounts(s.world, cfg, e.deviceNode, other);
    }
  }

  /** A remove of a handled node forgets it and runs unmount_device. */
  lemma RemoveOfHandledNode(s: EngineState, e: Event, a: Answers, cfg: Config)
    requires e.action == "remove" && e.deviceNode in s.seen
    ensures var r := StepSpec(s, e, a, cfg);
      && r.state.seen == s.seen - {e.deviceNode} && r.route == Detached
      && (r.state.world, r.err) == UnmountSpec(s.world, cfg, e.deviceNode)
  {
  }

  /** A remove of a node never handled, or any other action, changes nothing. */
  lemma OtherEventsChangeNothing(s: EngineState, e: Event, a: Answers, cfg: Config)
    requires e.action != "add" && !(e.action == "remove" && e.deviceNode in s.seen)
    ensures StepSpec(s, e, a, cfg) == StepResult(s, if e.action == "remove" then Untracked else Ignored, None)
  {
  }

  /** After a remove the same node is handled afresh by its next complete add. */
  lemma RemoveThenAddIsFresh(s: EngineState, rm: Event, add: Event, a1: Answers, a2: Answers, cfg: Config)
    requires rm.action == "remove" && add.action == "add" && Complete(add)
    requires rm.deviceNode == add.deviceNode
    ensures var r1 := StepSpec(s, rm, a1, cfg);
      var r2 := StepSpec(r1.state, add, a2, cfg);
      && r2.route != Skipped
      && r2.state.seen == (s.seen - {rm.deviceNode}) + {rm.deviceNode}
  {
  }

  /** No record of the log mentions `node`, and each has a device_node for the lookup to read. */
  predicate NoRecordFor(entries: seq<StrDict>, node: string)
  {
    forall j :: 0 <= j < |entries| ==> "device_node" in entries[j] && entries[j]["device_node"] != node
  }

  /** The record an unmount looks up is the one a prompted add appended for the node, provided
      no earlier record of the log names that node. */
  lemma PromptedRecordFindsMountPoint(entries: seq<StrDict>, e: Event, choice: Decision)
    requires Complete(e) && NoRecordFor(entries, e.deviceNode)
    ensures MountRecord(entries + [Decided(Vars(EventDevice(e)), choice)], e.deviceNode)
      == Ok(Some(Details(EventDevice(e).serial, e.vendorId.value, e.productId.value)))
  {
    var all := entries + [Decided(Vars(EventDevice(e)), choice)];
    assert forall j :: 0 <= j < |entries| ==> all[j] == entries[j];
    assert FirstRecordFor(all, e.deviceNode, |entries|);
    MountRecordFirst(all, e.deviceNode, |entries|);
  }

  /** A record already in the log for the same node wins: the lookup at removal returns the old
      record's details, whatever the new device's serial, since unmount_device takes the first match. */
  lemma StaleRecordWins(entries: seq<StrDict>, node: string, i: int, rec: StrDict)
    requires FirstRecordFor(entries, node, i)
    ensures MountRecord(entries + [rec], node) == MountRecord(entries, node)
  {
    var all := entries + [rec];
    assert forall j :: 0 <= j < |entries| ==> all[j] == entries[j];
    assert FirstRecordFor(all, node, i);
    MountRecordFirst(all, node, i);
    MountRecordFirst(entries, node, i);
  }

  /** A device the predictor allowed leaves no record, so removing it while the log holds no
      record for its node raises KeyError('serial') and unmounts nothing. */
  lemma AutoAllowedThenRemovedCrashes(s: EngineState, e: Event, rm: Event, a: Answers, a2: Answers, cfg: Config)
    requires FreshAdd(s, e) && a.prediction == Some(Allow)
    requires s.world.log.Log? && NoRecordFor(s.world.log.entries, e.deviceNode)
    requires rm.action == "remove" && rm.deviceNode == e.deviceNode
    ensures var r1 := StepSpec(s, e, a, cfg);
      r1.err.None? ==>
        var r2 := StepSpec(r1.state, rm, a2, cfg);
        r2.err == Some(KeyError("serial")) && r2.state.world == r1.state.world
  {
  }

  /** The udev line `E: DEVNAME=/dev/sda1`. */
  const SDA1_LINE: string := "E: " + DEVNAME_KEY + "/dev/sda1"

  lemma DevNameSda1()
    ensures GetBlockDevice(Some([SDA1_LINE])) == Some("/dev/sda1")
  {
    DevNameLineValue("E: ", "/dev/sda1");
    assert IsFirst([SDA1_LINE], IsDevNameLine, 0);
    GetBlockDeviceFirstLine([SDA1_LINE], 0);
  }

  /** Attaching vendor 0x1234, product 0x5678, serial ABC at /dev/sda1 with no prediction, the
      user choosing block without remembering, and udev reporting DEVNAME=/dev/sda1: one record
      with decision "block", one blacklist line for that vendor and product, the counts
      unchanged, and the node seen. */
  lemma BlockScenario(s: EngineState, cfg: Config)
    requires "/dev/sda1" !in s.seen && cfg.refused == {}
    ensures var e := Event("add", Some("0x1234"), Some("0x5678"), Some("ABC"), "/dev/sda1");
      var a := Answers(None, Block, false, UdevView([], [], Some([SDA1_LINE])));
      var r := StepSpec(s, e, a, cfg);
      && r.err.None? && r.route == Prompted(Block, false)
      && r.state.seen == s.seen + {"/dev/sda1"}
      && r.state.world.log == Log(Prior(s.world.log) + [map[
           "vendor_id" := "0x1234", "product_id" := "0x5678", "serial" := "ABC",
           "device_node" := "/dev/sda1", "decision" := "block"]])
      && Lines(r.state.world.rules, BLACKLIST_RULES) == Lines(s.world.rules, BLACKLIST_RULES) + [BlockRule("0x1234", "0x5678")]
      && r.state.world.counts == s.world.counts
  {
    var e := Event("add", Some("0x1234"), Some("0x5678"), Some("ABC"), "/dev/sda1");
    var a := Answers(None, Block, false, UdevView([], [], Some([SDA1_LINE])));
    assert Complete(e);
    FreshAddIsHandled(s, e, a, cfg);
    PromptLogsOneRecord(s, e, a, cfg);
    DevNameSda1();
    BlockChoiceWritesRule(s, e, a, cfg);
  }
}
