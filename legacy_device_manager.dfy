/** The admission engine of the top-level copy (core/device_manager.py): the same add handling
    as the package copy, but with no remove branch, no automount bracket, and commands issued
    straight to subprocess without a status check. */
module LegacyDeviceManager {
  import opened Wrappers
  import opened PyStrings
  import opened Host
  import opened UsbDevice
  import opened DeviceUtils
  import DM = DeviceManager
  import LegacyDeviceUtils

  /** allow_usb_device: resolve the node; when it resolves, `mkdir` the mount point if it is
      absent, then `sudo mount` the block device there. */
  function AllowSpec(w: World, cfg: Config, d: USBDevice, view: DM.UdevView): (r: World)
    ensures r.log == w.log && r.counts == w.counts
    ensures !Truthy(GetLsblkDevice(d.deviceNode, view.usbDevices, view.partitions)) ==> r == w
    ensures Truthy(GetLsblkDevice(d.deviceNode, view.usbDevices, view.partitions)) ==>
      var mp := MountPoint(cfg.user, d.serial);
      r.trace == w.trace + (if mp in w.dirs then [] else [Mkdir(mp)]) +
        [Mount(GetLsblkDevice(d.deviceNode, view.usbDevices, view.partitions).value, mp)]
  {
    var blockDevice := GetLsblkDevice(d.deviceNode, view.usbDevices, view.partitions);
    if !Truthy(blockDevice) then w
    else
      var mp := MountPoint(cfg.user, d.serial);
      RunAll(w, (if mp in w.dirs then [] else [Mkdir(mp)]) + [Mount(blockDevice.value, mp)], cfg)
  }

  /** block_usb_device: resolve the node; when it resolves, append the rule, reload, trigger. */
  function BlockSpec(w: World, cfg: Config, d: USBDevice, view: DM.UdevView): (r: World)
    ensures r.log == w.log && r.counts == w.counts
    ensures !Truthy(GetBlockDevice(view.udevInfo)) ==> r == w
    ensures Truthy(GetBlockDevice(view.udevInfo)) ==> r.trace == w.trace + DM.BlockCommands(d.vendorId, d.productId)
  {
    if !Truthy(GetBlockDevice(view.udevInfo)) then w
    else RunAll(w, DM.BlockCommands(d.vendorId, d.productId), cfg)
  }

  /** One iteration of the loop: only `add` events are handled. */
  function StepSpec(s: DM.EngineState, e: DM.Event, a: DM.Answers, cfg: Config): (r: DM.StepResult)
    ensures s.seen <= r.state.seen
    ensures s.world.trace <= r.state.world.trace
  {
    if e.action != "add" then DM.StepResult(s, DM.Ignored, None)
    else if !DM.Complete(e) then DM.StepResult(s, DM.Dropped, None)
    else if e.deviceNode in s.seen then DM.StepResult(s, DM.Skipped, None)
    else
      var seen := s.seen + {e.deviceNode};
      var d := DM.EventDevice(e);
      if a.prediction == Some(Allow) then
        DM.StepResult(DM.EngineState(seen, AllowSpec(s.world, cfg, d, a.view)), DM.AutoAllowed, None)
      else
        var route := DM.Prompted(a.choice, a.autoAllow);
        var logged := s.world.(log := AppendRecord(s.world.log, Decided(Vars(d), a.choice)));
        if a.choice == Allow then
          var w := AllowSpec(logged, cfg, d, a.view);
          if !a.autoAllow then DM.StepResult(DM.EngineState(seen, w), route, None)
          else
            var (counts, err) := DM.BumpCount(w.counts, d.vendorId);
            DM.StepResult(DM.EngineState(seen, w.(counts := counts)), route, err)
        else
          DM.StepResult(DM.EngineState(seen, BlockSpec(logged, cfg, d, a.view)), route, None)
  }

  /** The loop over the events received before the interrupt, up to the first exception. */
  function RunSpec(s: DM.EngineState, events: seq<DM.Event>, answers: seq<DM.Answers>, cfg: Config): (r: DM.RunResult)
    requires |answers| == |events|
    ensures r.handled <= |events|
    ensures r.err.None? ==> r.handled == |events|
    ensures r.err.Some? ==> r.handled > 0
    decreases |events|
  {
    if events == [] then DM.RunResult(s, 0, None)
    else
      var n := |events| - 1;
      var r := RunSpec(s, events[..n], answers[..n], cfg);
      if r.err.Some? then r
      else
        var st := StepSpec(r.state, events[n], answers[n], cfg);
        DM.RunResult(st.state, r.handled + 1, st.err)
  }

  /** Incomplete and repeated adds, and every other action, change nothing. */
  lemma NothingHappensWithoutFreshAdd(s: DM.EngineState, e: DM.Event, a: DM.Answers, cfg: Config)
    requires !(e.action == "add" && DM.Complete(e) && e.deviceNode !in s.seen)
    ensures var r := StepSpec(s, e, a, cfg);
      r.state == s && r.err.None? &&
      r.route == (if e.action != "add" then DM.Ignored else if !DM.Complete(e) then DM.Dropped else DM.Skipped)
  {
  }

  /** A record is written exactly when the user is asked, holding the user's decision; any
      decision but allow blocks. */
  lemma LogOnlyOnPrompt(s: DM.EngineState, e: DM.Event, a: DM.Answers, cfg: Config)
    requires e.action == "add" && DM.Complete(e) && e.deviceNode !in s.seen
    ensures var r := StepSpec(s, e, a, cfg);
      var d := DM.EventDevice(e);
      && r.state.seen == s.seen + {e.deviceNode}
      && (a.prediction == Some(Allow) ==> r.state.world == AllowSpec(s.world, cfg, d, a.view) && r.route == DM.AutoAllowed)
      && (a.prediction != Some(Allow) ==> r.state.world.log == AppendRecord(s.world.log, Decided(Vars(d), a.choice)))
      && (a.prediction != Some(Allow) && a.choice == Block ==>
            r.state.world == BlockSpec(s.world.(log := r.state.world.log), cfg, d, a.view))
  {
  }

  /** The counts change only for a remembered prompted allow, by the package copy's update. */
  lemma CountsOnlyOnRememberedAllow(s: DM.EngineState, e: DM.Event, a: DM.Answers, cfg: Config)
    ensures var r := StepSpec(s, e, a, cfg);
      r.state.world.counts ==
        if e.action == "add" && DM.Complete(e) && e.deviceNode !in s.seen && a.prediction != Some(Allow) && a.choice == Allow && a.autoAllow
        then DM.BumpCount(s.world.counts, e.vendorId.value).0
        else s.world.counts
  {
  }

  /** After an exception the later events are never handled. */
  lemma {:induction false} RunStopsAtError(s: DM.EngineState, events: seq<DM.Event>, answers: seq<DM.Answers>, cfg: Config, k: nat)
    requires |answers| == |events| && k <= |events|
    requires RunSpec(s, events[..k], answers[..k], cfg).err.Some?
    ensures RunSpec(s, events, answers, cfg) == RunSpec(s, events[..k], answers[..k], cfg)
    decreases |events| - k
  {
    if k < |events| {
      var n := |events| - 1;
      assert events[..n][..k] == events[..k] && answers[..n][..k] == answers[..k];
      RunStopsAtError(s, events[..n], answers[..n], cfg, k);
    } else {
      assert events[..k] == events && answers[..k] == answers;
    }
  }

  /** With only add events handled, the seen set never shrinks. */
  lemma {:induction false} SeenNeverShrinks(s: DM.EngineState, events: seq<DM.Event>, answers: seq<DM.Answers>, cfg: Config)
    requires |answers| == |events|
    ensures s.seen <= RunSpec(s, events, answers, cfg).state.seen
    ensures forall i :: 0 <= i < RunSpec(s, events, answers, cfg).handled && events[i].action == "add" && DM.Complete(events[i]) ==>
      events[i].deviceNode in RunSpec(s, events, answers, cfg).state.seen
    decreases |events|
  {
    if events != [] {
      var n := |events| - 1;
      SeenNeverShrinks(s, events[..n], answers[..n], cfg);
      var r := RunSpec(s, events[..n], answers[..n], cfg);
      if r.err.None? {
        var st := StepSpec(r.state, events[n], answers[n], cfg);
        assert forall i :: 0 <= i < n ==> events[..n][i] == events[i];
      }
    }
  }

  /** When the launcher refuses nothing, this copy and the package copy handle an add event
      identically: unchecked and checked command runs cannot be told apart. */
  lemma CopiesAgreeOnAdd(s: DM.EngineState, e: DM.Event, a: DM.Answers, cfg: Config)
    requires e.action == "add" && cfg.refused == {}
    ensures StepSpec(s, e, a, cfg) == DM.StepSpec(s, e, a, cfg)
  {
    if DM.Complete(e) && e.deviceNode !in s.seen {
      var d := DM.EventDevice(e);
      var logged := s.world.(log := AppendRecord(s.world.log, Decided(Vars(d), a.choice)));
      HandlersAgree(s.world, cfg, d, a.view);
      HandlersAgree(logged, cfg, d, a.view);
    }
  }

  lemma HandlersAgree(w: World, cfg: Config, d: USBDevice, view: DM.UdevView)
    requires cfg.refused == {}
    ensures DM.AllowSpec(w, cfg, d, view) == (AllowSpec(w, cfg, d, view), None)
    ensures DM.BlockSpec(w, cfg, d, view) == BlockSpec(w, cfg, d, view)
  {
    var bd := GetLsblkDevice(d.deviceNode, view.usbDevices, view.partitions);
    if Truthy(bd) {
      MountAgrees(w, cfg, d, bd.value);
    }
    AttemptIsRunAll(w, DM.BlockCommands(d.vendorId, d.productId), cfg);
  }

  lemma MountAgrees(w: World, cfg: Config, d: USBDevice, bd: Path)
    requires cfg.refused == {}
    ensures var mp := MountPoint(cfg.user, d.serial);
      MountSpec(w, cfg, d, bd) == (RunAll(w, (if mp in w.dirs then [] else [Mkdir(mp)]) + [Mount(bd, mp)], cfg), None)
  {
    var mp := MountPoint(cfg.user, d.serial);
    var cmds := (if mp in w.dirs then [] else [Mkdir(mp)]) + [Mount(bd, mp)];
    assert Accepted(Mkdir(mp), cfg);
    AttemptIsRunAll(w, cmds, cfg);
    if mp in w.dirs {
      assert cmds == [Mount(bd, mp)] && cmds[1..] == [];
      assert Attempt(w, cmds, cfg) == Exec(w, Mount(bd, mp), cfg);
    } else {
      assert cmds == [Mkdir(mp), Mount(bd, mp)] && cmds[1..] == [Mount(bd, mp)] && cmds[1..][1..] == [];
      assert Attempt(w, cmds, cfg) == Attempt(Exec(w, Mkdir(mp), cfg), [Mount(bd, mp)], cfg);
      assert Attempt(Exec(w, Mkdir(mp), cfg), [Mount(bd, mp)], cfg) == Exec(Exec(w, Mkdir(mp), cfg), Mount(bd, mp), cfg);
    }
  }

  class USBDeviceManager {
    var seen: set<string>
    const host: Host

    ghost function State(): DM.EngineState
      reads this, host
    {
      DM.EngineState(seen, host.State())
    }

    constructor (host: Host)
      ensures seen == {} && this.host == host
    {
      seen := {};
      this.host := host;
    }

    method AllowUsbDevice(device: USBDevice, view: DM.UdevView)
      modifies host
      ensures host.State() == AllowSpec(old(host.State()), host.cfg, device, view)
    {
      var blockDevice := GetLsblkDevice(device.deviceNode, view.usbDevices, view.partitions);
      if !Truthy(blockDevice) {
        return;
      }
      var mountPoint := MountPoint(host.cfg.user, device.serial);
      var mkdir: seq<Command> := if mountPoint in host.dirs then [] else [Mkdir(mountPoint)];
      LegacyDeviceUtils.IssueUnchecked(host, mkdir + [Mount(blockDevice.value, mountPoint)]);
    }

    method BlockUsbDevice(device: USBDevice, view: DM.UdevView)
      modifies host
      ensures host.State() == BlockSpec(old(host.State()), host.cfg, device, view)
    {
      var blockDevice := GetBlockDevice(view.udevInfo);
      if !Truthy(blockDevice) {
        return;
      }
      LegacyDeviceUtils.IssueUnchecked(host, DM.BlockCommands(device.vendorId, device.productId));
    }

    /** The body of the `for device in iter(monitor.poll, None)` loop. */
    method Step(e: DM.Event, a: DM.Answers) returns (route: DM.Route, err: Option<Error>)
      modifies this, host
      ensures DM.StepResult(State(), route, err) == StepSpec(old(State()), e, a, host.cfg)
    {
      if e.action != "add" {
        return DM.Ignored, None;
      }
      if !Truthy(e.vendorId) || !Truthy(e.productId) {
        return DM.Dropped, None;
      }
      if e.deviceNode in seen {
        return DM.Skipped, None;
      }
      seen := seen + {e.deviceNode};
      var usbDevice := NewUSBDevice(e.vendorId.value, e.productId.value, e.serial, e.deviceNode);
      if a.prediction == Some(Allow) {
        AllowUsbDevice(usbDevice, a.view);
        return DM.AutoAllowed, None;
      }
      route, err := DM.Prompted(a.choice, a.autoAllow), None;
      var logged := LogUsbDevice(host, Vars(usbDevice), a.choice);
      if a.choice == Allow {
        AllowUsbDevice(usbDevice, a.view);
        if !a.autoAllow {
          return;
        }
        err := DM.UpdateVendorCount(host, e.vendorId.value);
      } else {
        BlockUsbDevice(usbDevice, a.view);
      }
    }

    /** monitor_usb_devices over the events received before the user interrupts. */
    method MonitorUsbDevices(events: seq<DM.Event>, answers: seq<DM.Answers>) returns (handled: nat, err: Option<Error>)
      requires |answers| == |events|
      modifies this, host
      ensures DM.RunResult(State(), handled, err) == RunSpec(old(State()), events, answers, host.cfg)
    {
      ghost var start := State();
      handled, err := 0, None;
      while handled < |events| && err.None?
        invariant handled <= |events|
        invariant DM.RunResult(State(), handled, err) == RunSpec(start, events[..handled], answers[..handled], host.cfg)
      {
        var route;
        route, err := Step(events[handled], answers[handled]);
        assert events[..handled + 1][..handled] == events[..handled];
        assert answers[..handled + 1][..handled] == answers[..handled];
        handled := handled + 1;
      }
      if err.Some? {
        RunStopsAtError(start, events, answers, host.cfg, handled);
      } else {
        assert events[..handled] == events && answers[..handled] == answers;
      }
    }
  }
}
