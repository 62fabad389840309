/** The admission engine of the package copy (Ubuntu_USB_Device_Manager_Program/core):
    one sequential loop over udev events that drops incomplete `add` events, suppresses
    duplicate device nodes, asks the predictor and then the user, logs the user's decision,
    counts remembered allows per vendor, and mounts (allow) or writes a udev block rule (block);
    a `remove` of a handled node forgets it and unmounts it. */
module DeviceManager {
  import opened Wrappers
  import opened PyStrings
  import opened Host
  import opened UsbDevice
  import opened DeviceUtils
  import opened AutoMountHandler

  /** A udev event: its action and the properties ID_VENDOR_ID, ID_MODEL_ID, ID_SERIAL_SHORT
      (each possibly missing) and the device node. */
  datatype Event = Event(
    action: string,
    vendorId: Option<string>,
    productId: Option<string>,
    serial: Option<string>,
    deviceNode: string)

  /** What udev reports while the event is handled: the usb and partition device lists used by
      get_lsblk_device, and the `udevadm info` output lines used by get_block_device. */
  datatype UdevView = UdevView(usbDevices: seq<UsbNode>, partitions: seq<Partition>, udevInfo: Option<seq<string>>)

  /** The collaborators' answers for one event: the predictor ('allow', 'block' or None), the
      prompt's decision and auto-allow checkbox, and the udev view. */
  datatype Answers = Answers(prediction: Option<Decision>, choice: Decision, autoAllow: bool, view: UdevView)

  /** Which branch of the loop body handled an event. */
  datatype Route =
    | Dropped                                   // add with vendor or product id missing
    | Skipped                                   // add for a node already handled
    | AutoAllowed                               // predictor said 'allow'
    | Prompted(choice: Decision, autoAllow: bool) // the user was asked
    | Detached                                  // remove of a handled node
    | Untracked                                 // remove of a node never handled
    | Ignored                                   // any other action

  /** The engine's state: the seen-device set and the machine. */
  datatype EngineState = EngineState(seen: set<string>, world: World)

  datatype StepResult = StepResult(state: EngineState, route: Route, err: Option<Error>)

  datatype RunResult = RunResult(state: EngineState, handled: nat, err: Option<Error>)

  predicate Complete(e: Event)
  {
    Truthy(e.vendorId) && Truthy(e.productId)
  }

  /** The record the loop builds for a complete event. */
  function EventDevice(e: Event): (d: USBDevice)
    requires Complete(e)
    ensures d.vendorId == e.vendorId.value && d.productId == e.productId.value
    ensures d.deviceNode == e.deviceNode && d.serial != ""
  {
    NewUSBDevice(e.vendorId.value, e.productId.value, e.serial, e.deviceNode)
  }

  // ---------------------------------------------------------------------------------------
  // vendor allow counts

  /** The counts as json.load gives them; an unparsable file reads as {}. */
  function Known(c: CountsFile): map<string, int>
  {
    if c.Counts? then c.counts else map[]
  }

  function CountOf(c: CountsFile, vendor: string): int
  {
    if vendor in Known(c) then Known(c)[vendor] else 0
  }

  /** The counter update of the loop: open the file 'r+' (a missing file raises
      FileNotFoundError), load it ({} when unparsable), add 1 to the vendor (absent: from 0),
      write it back. */
  function BumpCount(c: CountsFile, vendor: string): (r: (CountsFile, Option<Error>))
    ensures c.NoCounts? ==> r == (c, Some(FileNotFoundError(COUNTS_FILE)))
    ensures !c.NoCounts? ==> r.1.None? && r.0.Counts?
    ensures !c.NoCounts? ==> r.0.counts.Keys == Known(c).Keys + {vendor}
    ensures !c.NoCounts? ==> r.0.counts[vendor] == CountOf(c, vendor) + 1
    ensures !c.NoCounts? ==> forall u :: u in Known(c) && u != vendor ==> r.0.counts[u] == Known(c)[u]
  {
    if c.NoCounts? then (c, Some(FileNotFoundError(COUNTS_FILE)))
    else
      var m := if vendor in Known(c) then Known(c) else Known(c)[vendor := 0];
      (Counts(m[vendor := m[vendor] + 1]), None)
  }

  // ---------------------------------------------------------------------------------------
  // block rule

  const RULE_VENDOR: string := "ATTR{idVendor}==\""
  const RULE_PRODUCT: string := "\", ATTR{idProduct}==\""
  const RULE_DENY: string := "\", ATTR{authorized}=\"0\""

  /** `ATTR{idVendor}=="<v>", ATTR{idProduct}=="<p>", ATTR{authorized}="0"` */
  function BlockRule(vendorId: string, productId: string): string
  {
    RULE_VENDOR + (vendorId + (RULE_PRODUCT + (productId + RULE_DENY)))
  }

  /** How udev reads such a rule back: the vendor and product it denies. */
  function ParseBlockRule(line: string): Option<(string, string)>
  {
    ReadTwoFields(line, RULE_VENDOR, RULE_PRODUCT, RULE_DENY, '"')
  }

  /** The rule denies exactly the device's vendor and product (ids hold no double quote). */
  lemma BlockRuleRoundTrip(vendorId: string, productId: string)
    requires '"' !in vendorId && '"' !in productId
    ensures ParseBlockRule(BlockRule(vendorId, productId)) == Some((vendorId, productId))
  {
    ReadTwoFieldsRoundTrip(RULE_VENDOR, RULE_PRODUCT, RULE_DENY, vendorId, productId, '"');
  }

  function BlockCommands(vendorId: string, productId: string): seq<Command>
  {
    [TeeAppend(BLACKLIST_RULES, Some(BlockRule(vendorId, productId)))] + UPDATE_COMMANDS
  }

  // ---------------------------------------------------------------------------------------
  // allow / block

  /** allow_usb_device: resolve the node with get_lsblk_device; nothing happens when that gives
      a falsy value, otherwise mount_device. */
  function AllowSpec(w: World, cfg: Config, d: USBDevice, view: UdevView): (r: (World, Option<Error>))
    ensures r.0.log == w.log && r.0.counts == w.counts && w.trace <= r.0.trace
    ensures !Truthy(GetLsblkDevice(d.deviceNode, view.usbDevices, view.partitions)) ==> r == (w, None)
  {
    var blockDevice := GetLsblkDevice(d.deviceNode, view.usbDevices, view.partitions);
    if !Truthy(blockDevice) then (w, None)
    else MountSpec(w, cfg, d, blockDevice.value)
  }

  /** block_usb_device: resolve the node with get_block_device; nothing happens when that gives
      a falsy value, otherwise `tee -a` of the block rule and update_udev_rules in one try. */
  function BlockSpec(w: World, cfg: Config, d: USBDevice, view: UdevView): (r: World)
    ensures r.log == w.log && r.counts == w.counts && w.trace <= r.trace
    ensures !Truthy(GetBlockDevice(view.udevInfo)) ==> r == w
    ensures Truthy(GetBlockDevice(view.udevInfo)) ==> r.trace == w.trace + Issued(BlockCommands(d.vendorId, d.productId), cfg)
  {
    if !Truthy(GetBlockDevice(view.udevInfo)) then w
    else Attempt(w, BlockCommands(d.vendorId, d.productId), cfg)
  }

  // ---------------------------------------------------------------------------------------
  // the loop

  /** One iteration of the monitoring loop. */
  function StepSpec(s: EngineState, e: Event, a: Answers, cfg: Config): (r: StepResult)
    ensures s.world.trace <= r.state.world.trace
  {
    if e.action == "add" then
      if !Complete(e) then StepResult(s, Dropped, None)
      else if e.deviceNode in s.seen then StepResult(s, Skipped, None)
      else
        var seen := s.seen + {e.deviceNode};
        var d := EventDevice(e);
        if a.prediction == Some(Allow) then
          var (w, err) := AllowSpec(s.world, cfg, d, a.view);
          StepResult(EngineState(seen, w), AutoAllowed, err)
        else
          var route := Prompted(a.choice, a.autoAllow);
          var logged := s.world.(log := AppendRecord(s.world.log, Decided(Vars(d), a.choice)));
          if a.choice == Allow then
            var (w, err) := AllowSpec(logged, cfg, d, a.view);
            if err.Some? || !a.autoAllow then StepResult(EngineState(seen, w), route, err)
            else
              var (counts, err') := BumpCount(w.counts, d.vendorId);
              StepResult(EngineState(seen, w.(counts := counts)), route, err')
          else
            StepResult(EngineState(seen, BlockSpec(logged, cfg, d, a.view)), route, None)
    else if e.action == "remove" then
      if e.deviceNode in s.seen then
        var (w, err) := UnmountSpec(s.world, cfg, e.deviceNode);
        StepResult(EngineState(s.seen - {e.deviceNode}, w), Detached, err)
      else StepResult(s, Untracked, None)
    else StepResult(s, Ignored, None)
  }

  /** The loop over a finite prefix of the event stream: it ends after the event whose handling
      raised an exception, or after the last event. */
  function RunSpec(s: EngineState, events: seq<Event>, answers: seq<Answers>, cfg: Config): (r: RunResult)
    requires |answers| == |events|
    ensures r.handled <= |events|
    ensures r.err.None? ==> r.handled == |events|
    ensures r.err.Some? ==> r.handled > 0
    ensures s.world.trace <= r.state.world.trace
    decreases |events|
  {
    if events == [] then RunResult(s, 0, None)
    else
      var n := |events| - 1;
      var r := RunSpec(s, events[..n], answers[..n], cfg);
      if r.err.Some? then r
      else
        var st := StepSpec(r.state, events[n], answers[n], cfg);
        RunResult(st.state, r.handled + 1, st.err)
  }

  /** monitor_usb_devices: disable automounting, run the loop, and when the user interrupts
      (after the last event) enable automounting again; an exception ends the loop without it. */
  function MonitorSpec(s: EngineState, events: seq<Event>, answers: seq<Answers>, cfg: Config): (r: RunResult)
    requires |answers| == |events|
    ensures r.handled <= |events| && (r.err.None? ==> r.handled == |events|)
    ensures s.world.trace + Issued(DISABLE_COMMANDS, cfg) <= r.state.world.trace
  {
    var start := EngineState(s.seen, Attempt(s.world, DISABLE_COMMANDS, cfg));
    var r := RunSpec(start, events, answers, cfg);
    if r.err.None? then RunResult(EngineState(r.state.seen, Attempt(r.state.world, ENABLE_COMMANDS, cfg)), r.handled, None)
    else r
  }

  /** After an exception the later events are never handled. */
  lemma {:induction false} RunStopsAtError(s: EngineState, events: seq<Event>, answers: seq<Answers>, cfg: Config, k: nat)
    requires |answers| == |events| && k <= |events|
    requires RunSpec(s, events[..k], answers[..k], cfg).err.Some?
    ensures RunSpec(s, events, answers, cfg) == RunSpec(s, events[..k], answers[..k], cfg)
    decreases |events| - k
  {
    if k < |events| {
      var n := |events| - 1;
      assert events[..n][..k] == events[..k] && answers[..n][..k] == answers[..k];
      RunStopsAtError(s, events[..n], answers[..n], cfg, k);
    } else {
      assert events[..k] == events && answers[..k] == answers;
    }
  }

  /** The counter update of the loop on the machine's counts file; nothing else changes. */
  method UpdateVendorCount(host: Host, vendorId: string) returns (err: Option<Error>)
    modifies host
    ensures host.State() == old(host.State()).(counts := host.counts)
    ensures (host.counts, err) == BumpCount(old(host.counts), vendorId)
  {
    var vendorAllowCount: map<string, int>;
    match host.counts {
      case NoCounts => return Some(FileNotFoundError(COUNTS_FILE));
      case CorruptCounts => vendorAllowCount := map[];
      case Counts(m) => vendorAllowCount := m;
    }
    if vendorId !in vendorAllowCount {
      vendorAllowCount := vendorAllowCount[vendorId := 0];
    }
    vendorAllowCount := vendorAllowCount[vendorId := vendorAllowCount[vendorId] + 1];
    host.counts := Counts(vendorAllowCount);
    return None;
  }

  class USBDeviceManager {
    var seen: set<string>
    const host: Host

    ghost function State(): EngineState
      reads this, host
    {
      EngineState(seen, host.State())
    }

    constructor (host: Host)
      ensures seen == {} && this.host == host
    {
      seen := {};
      this.host := host;
    }

    method AllowUsbDevice(device: USBDevice, view: UdevView) returns (err: Option<Error>)
      modifies host
      ensures (host.State(), err) == AllowSpec(old(host.State()), host.cfg, device, view)
    {
      var blockDevice := GetLsblkDevice(device.deviceNode, view.usbDevices, view.partitions);
      if !Truthy(blockDevice) {
        return None;
      }
      err := MountDevice(host, device, blockDevice.value);
    }

    method BlockUsbDevice(device: USBDevice, view: UdevView)
      modifies host
      ensures host.State() == BlockSpec(old(host.State()), host.cfg, device, view)
    {
      var blockDevice := GetBlockDevice(view.udevInfo);
      if !Truthy(blockDevice) {
        return;
      }
      var rule := BlockRule(device.vendorId, device.productId);
      var appended := host.Execute(TeeAppend(BLACKLIST_RULES, Some(rule)));
      if appended {
        var err := UpdateUdevRules(host);
      }
      ToggleUnfold(old(host.State()), TeeAppend(BLACKLIST_RULES, Some(rule)), host.cfg);
    }

    /** The body of the `for device in iter(monitor.poll, None)` loop. */
    method Step(e: Event, a: Answers) returns (route: Route, err: Option<Error>)
      modifies this, host
      ensures StepResult(State(), route, err) == StepSpec(old(State()), e, a, host.cfg)
    {
      if e.action == "add" {
        if !Truthy(e.vendorId) || !Truthy(e.productId) {
          return Dropped, None;
        }
        if e.deviceNode in seen {
          return Skipped, None;
        }
        seen := seen + {e.deviceNode};
        var usbDevice := NewUSBDevice(e.vendorId.value, e.productId.value, e.serial, e.deviceNode);
        if a.prediction == Some(Allow) {
          err := AllowUsbDevice(usbDevice, a.view);
          return AutoAllowed, err;
        }
        route := Prompted(a.choice, a.autoAllow);
        var logged := LogUsbDevice(host, Vars(usbDevice), a.choice);
        if a.choice == Allow {
          err := AllowUsbDevice(usbDevice, a.view);
          if err.Some? || !a.autoAllow {
            return;
          }
          err := UpdateVendorCount(host, e.vendorId.value);
        } else {
          BlockUsbDevice(usbDevice, a.view);
          err := None;
        }
      } else if e.action == "remove" {
        if e.deviceNode in seen {
          seen := seen - {e.deviceNode};
          err := UnmountDevice(host, e.deviceNode);
          return Detached, err;
        }
        return Untracked, None;
      } else {
        return Ignored, None;
      }
    }

    /** monitor_usb_devices over the events received before the user interrupts. */
    method MonitorUsbDevices(events: seq<Event>, answers: seq<Answers>) returns (handled: nat, err: Option<Error>)
      requires |answers| == |events|
      modifies this, host
      ensures RunResult(State(), handled, err) == MonitorSpec(old(State()), events, answers, host.cfg)
    {
      DisableAutoMount(host);
      ghost var start := State();
      handled, err := 0, None;
      while handled < |events| && err.None?
        invariant handled <= |events|
        invariant RunResult(State(), handled, err) == RunSpec(start, events[..handled], answers[..handled], host.cfg)
      {
        var route;
        route, err := Step(events[handled], answers[handled]);
        assert events[..handled + 1][..handled] == events[..handled];
        assert answers[..handled + 1][..handled] == answers[..handled];
        handled := handled + 1;
      }
      if err.Some? {
        RunStopsAtError(start, events, answers, host.cfg, handled);
      } else {
        assert events[..handled] == events && answers[..handled] == answers;
        EnableAutoMount(host);
      }
    }
  }
}
