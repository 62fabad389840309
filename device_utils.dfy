/** Helpers of the admission engine: resolving a USB device node to a block device, the decision
    log, reloading udev, and mounting / unmounting under /media/<user>/<serial>. */
module DeviceUtils {
  import opened Wrappers
  import opened PyStrings
  import opened Search
  import opened Host
  import opened UsbDevice

  /** An admission decision, written to the log as "allow" or "block". */
  datatype Decision = Allow | Block

  function DecisionText(d: Decision): string
  {
    match d
    case Allow => "allow"
    case Block => "block"
  }

  // ---------------------------------------------------------------------------------------
  // get_block_device: the DEVNAME= line of `udevadm info --query=all --name <node>`

  const DEVNAME_NAME: string := "DEVNAME"
  const DEVNAME_KEY: string := DEVNAME_NAME + "="

  predicate IsDevNameLine(line: string)
  {
    Contains(line, DEVNAME_KEY)
  }

  lemma DevNameLineHasEquals(line: string)
    requires IsDevNameLine(line)
    ensures '=' in line
  {
    ContainsChar(line, DEVNAME_KEY, 7);
  }

  /** Line `i` is the first DEVNAME= line and `v` is its second '='-separated field. */
  ghost predicate ReportsBlockDevice(lines: seq<string>, i: int, v: string)
  {
    IsFirst(lines, IsDevNameLine, i) && '=' in lines[i] && v == Split(lines[i], '=')[1]
  }

  /** `output` is the udevadm output split into lines, or None when udevadm failed
      (CalledProcessError). The result is `line.split('=')[1]` of the first line holding
      "DEVNAME=", or None when there is no such line. */
  function GetBlockDevice(output: Option<seq<string>>): (r: Option<string>)
    ensures output.None? ==> r.None?
    ensures output.Some? ==>
      (r.None? <==> forall i :: 0 <= i < |output.value| ==> !IsDevNameLine(output.value[i]))
    ensures r.Some? ==> output.Some? && exists i :: ReportsBlockDevice(output.value, i, r.value)
  {
    match output
    case None => None
    case Some(lines) =>
      match FirstIndex(lines, IsDevNameLine)
      case None => None
      case Some(i) =>
        DevNameLineHasEquals(lines[i]);
        assert ReportsBlockDevice(lines, i, Split(lines[i], '=')[1]);
        Some(Split(lines[i], '=')[1])
  }

  /** The first DEVNAME= line decides, whatever follows it. */
  lemma GetBlockDeviceFirstLine(lines: seq<string>, i: int)
    requires IsFirst(lines, IsDevNameLine, i)
    ensures '=' in lines[i]
    ensures GetBlockDevice(Some(lines)) == Some(Split(lines[i], '=')[1])
  {
    DevNameLineHasEquals(lines[i]);
    FirstIndexIsFirst(lines, IsDevNameLine, i);
  }

  /** A udevadm property line `<prefix>DEVNAME=<value>` yields `value`, provided neither the
      prefix (such as "E: ") nor the value holds another '='. */
  lemma DevNameLineValue(prefix: string, value: string)
    requires '=' !in prefix && '=' !in value
    ensures IsDevNameLine(prefix + DEVNAME_KEY + value)
    ensures Split(prefix + DEVNAME_KEY + value, '=')[1] == value
  {
    assert DEVNAME_KEY[..|DEVNAME_KEY| - 1] == DEVNAME_NAME;
    assert '=' !in DEVNAME_NAME;
    SplitAfterKey(prefix, DEVNAME_KEY, value, '=');
  }

  // ---------------------------------------------------------------------------------------
  // get_lsblk_device: the first partition below the USB device with the given node

  /** A device of the udev `usb` subsystem: its sys path (its identity) and its node, if any. */
  datatype UsbNode = UsbNode(sysPath: string, deviceNode: Option<string>)

  /** A device of the udev `block` subsystem of type partition: its node and the sys paths of its ancestors. */
  datatype Partition = Partition(deviceNode: Option<string>, ancestors: seq<string>)

  /** `i` is the first usb device with node `node`, and `j` the first partition below it. */
  ghost predicate ParentAndPartition(usb: seq<UsbNode>, parts: seq<Partition>, node: string, i: int, j: int)
  {
    && 0 <= i < |usb| && usb[i].deviceNode == Some(node)
    && (forall k :: 0 <= k < i ==> usb[k].deviceNode != Some(node))
    && 0 <= j < |parts| && usb[i].sysPath in parts[j].ancestors
    && (forall k :: 0 <= k < j ==> usb[i].sysPath !in parts[k].ancestors)
  }

  function GetLsblkDevice(node: string, usb: seq<UsbNode>, parts: seq<Partition>): (r: Option<string>)
    ensures (forall i :: 0 <= i < |usb| ==> usb[i].deviceNode != Some(node)) ==> r.None?
    ensures r.Some? ==> exists i, j :: ParentAndPartition(usb, parts, node, i, j) && r == parts[j].deviceNode
  {
    match FirstIndex(usb, (d: UsbNode) => d.deviceNode == Some(node))
    case None => None
    case Some(i) =>
      match FirstIndex(parts, (q: Partition) => usb[i].sysPath in q.ancestors)
      case None => None
      case Some(j) =>
        assert ParentAndPartition(usb, parts, node, i, j);
        parts[j].deviceNode
  }

  /** The first partition below the first matching usb device decides. */
  lemma GetLsblkDeviceFound(usb: seq<UsbNode>, parts: seq<Partition>, node: string, i: int, j: int)
    requires ParentAndPartition(usb, parts, node, i, j)
    ensures GetLsblkDevice(node, usb, parts) == parts[j].deviceNode
  {
    FirstIndexIsFirst(usb, (d: UsbNode) => d.deviceNode == Some(node), i);
    FirstIndexIsFirst(parts, (q: Partition) => usb[i].sysPath in q.ancestors, j);
  }

  /** When no partition lies below the usb device the result is None. */
  lemma GetLsblkDeviceNoPartition(usb: seq<UsbNode>, parts: seq<Partition>, node: string, i: int)
    requires 0 <= i < |usb| && usb[i].deviceNode == Some(node)
    requires forall k :: 0 <= k < i ==> usb[k].deviceNode != Some(node)
    requires forall k :: 0 <= k < |parts| ==> usb[i].sysPath !in parts[k].ancestors
    ensures GetLsblkDevice(node, usb, parts).None?
  {
    FirstIndexIsFirst(usb, (d: UsbNode) => d.deviceNode == Some(node), i);
  }

  // ---------------------------------------------------------------------------------------
  // log_usb_device

  /** What `json.load` gives for the log file: its list, or [] when the file had to be created
      or could not be parsed. */
  function Prior(l: LogFile): seq<StrDict>
  {
    if l.Log? then l.entries else []
  }

  /** The device info with its `decision` field set. */
  function Decided(info: StrDict, decision: Decision): (r: StrDict)
    ensures r.Keys == info.Keys + {"decision"}
    ensures r["decision"] == DecisionText(decision)
    ensures forall k :: k in info && k != "decision" ==> r[k] == info[k]
  {
    info["decision" := DecisionText(decision)]
  }

  /** The log file after appending `rec`: earlier records kept in order, `rec` last. */
  function AppendRecord(l: LogFile, rec: StrDict): (r: LogFile)
    ensures r.Log? && |r.entries| == |Prior(l)| + 1
    ensures r.entries[..|Prior(l)|] == Prior(l) && r.entries[|Prior(l)|] == rec
  {
    Log(Prior(l) + [rec])
  }

  /** log_usb_device: sets `decision` in the caller's dict (returned as `logged`) and appends it. */
  method LogUsbDevice(h: Host, deviceInfo: StrDict, decision: Decision) returns (logged: StrDict)
    modifies h
    ensures logged == Decided(deviceInfo, decision)
    ensures h.State() == old(h.State()).(log := AppendRecord(old(h.log), logged))
  {
    if h.log.NoLog? {
      h.log := Log([]);
    }
    var logs: seq<StrDict>;
    match h.log {
      case Log(entries) => logs := entries;
      case _ => logs := [];
    }
    logged := deviceInfo["decision" := DecisionText(decision)];
    logs := logs + [logged];
    h.log := Log(logs);
  }

  /** Starting from a missing or unparsable log, the log holds exactly the new record. */
  lemma LogStartsEmpty(l: LogFile, rec: StrDict)
    requires !l.Log?
    ensures AppendRecord(l, rec) == Log([rec])
  {
  }

  // ---------------------------------------------------------------------------------------
  // update_udev_rules

  const UPDATE_COMMANDS: seq<Command> := [UdevReload, UdevTrigger]

  /** The exception a `try` block of commands raises: that of its first refused command. */
  function Raised(cmds: seq<Command>, cfg: Config): (r: Option<Error>)
    ensures r.None? <==> FirstRefused(cmds, cfg).None?
  {
    match FirstRefused(cmds, cfg)
    case None => None
    case Some(c) => Some(CalledProcessError(c))
  }

  /** update_udev_rules: `udevadm control --reload`, then `udevadm trigger`; an exception of the
      launcher propagates to the caller. */
  method UpdateUdevRules(h: Host) returns (err: Option<Error>)
    modifies h
    ensures h.State() == Attempt(old(h.State()), UPDATE_COMMANDS, h.cfg)
    ensures err == Raised(UPDATE_COMMANDS, h.cfg)
  {
    var i := 0;
    while i < |UPDATE_COMMANDS|
      invariant 0 <= i <= |UPDATE_COMMANDS|
      invariant FirstRefused(UPDATE_COMMANDS[..i], h.cfg).None?
      invariant h.State() == Attempt(old(h.State()), UPDATE_COMMANDS[..i], h.cfg)
    {
      var c := UPDATE_COMMANDS[i];
      var ok := h.Execute(c);
      AttemptSnoc(old(h.State()), UPDATE_COMMANDS[..i], c, h.cfg);
      assert UPDATE_COMMANDS[..i + 1] == UPDATE_COMMANDS[..i] + [c];
      if !ok {
        AttemptStops(old(h.State()), UPDATE_COMMANDS[..i + 1], UPDATE_COMMANDS[i + 1..], h.cfg);
        assert UPDATE_COMMANDS[..i + 1] + UPDATE_COMMANDS[i + 1..] == UPDATE_COMMANDS;
        return Some(CalledProcessError(c));
      }
      i := i + 1;
    }
    assert UPDATE_COMMANDS[..i] == UPDATE_COMMANDS;
    return None;
  }

  /** Reload always comes first and trigger only after a reload that succeeded. */
  lemma UpdateOrder(w: World, cfg: Config)
    ensures Attempt(w, UPDATE_COMMANDS, cfg).trace ==
      w.trace + (if Accepted(UdevReload, cfg) then [UdevReload, UdevTrigger] else [UdevReload])
  {
    assert UPDATE_COMMANDS[1..] == [UdevTrigger];
    assert [UdevTrigger][1..] == [];
  }

  // ---------------------------------------------------------------------------------------
  // mount_device / unmount_device

  /** The mount point `/media/<user>/<serial>`. */
  function MountPoint(user: string, serial: string): (p: Path)
    ensures |p| == |"/media/" + user + "/"| + |serial|
    ensures p[..|"/media/" + user + "/"|] == "/media/" + user + "/"
    ensures p[|"/media/" + user + "/"|..] == serial
  {
    "/media/" + user + "/" + serial
  }

  /** Distinct serials of one user get distinct mount points. */
  lemma MountPointInjective(user: string, s1: string, s2: string)
    requires MountPoint(user, s1) == MountPoint(user, s2)
    ensures s1 == s2
  {
    assert s1 == MountPoint(user, s1)[|"/media/" + user + "/"|..];
  }

  /** mount_device: `mkdir` (outside the try, so its failure propagates) when the mount point is
      absent, then `mount <block device> <mount point>` (its failure is caught). */
  function MountSpec(w: World, cfg: Config, d: USBDevice, blockDevice: Path): (r: (World, Option<Error>))
    ensures r.0.log == w.log && r.0.counts == w.counts
    ensures var mp := MountPoint(cfg.user, d.serial);
      var pre := if mp in w.dirs then [] else [Mkdir(mp)];
      && (r.1.None? <==> (mp in w.dirs || Accepted(Mkdir(mp), cfg)))
      && (r.1.None? ==> r.0.trace == w.trace + pre + [Mount(blockDevice, mp)] && mp in r.0.dirs)
      && (r.1.Some? ==> r.0.trace == w.trace + pre && r.1 == Some(CalledProcessError(Mkdir(mp))))
  {
    var mp := MountPoint(cfg.user, d.serial);
    if mp !in w.dirs then
      var w1 := Exec(w, Mkdir(mp), cfg);
      if !Accepted(Mkdir(mp), cfg) then (w1, Some(CalledProcessError(Mkdir(mp))))
      else (Exec(w1, Mount(blockDevice, mp), cfg), None)
    else (Exec(w, Mount(blockDevice, mp), cfg), None)
  }

  method MountDevice(h: Host, d: USBDevice, blockDevice: Path) returns (err: Option<Error>)
    modifies h
    ensures (h.State(), err) == MountSpec(old(h.State()), h.cfg, d, blockDevice)
  {
    var mountPoint := MountPoint(h.cfg.user, d.serial);
    if mountPoint !in h.dirs {
      var made := h.Execute(Mkdir(mountPoint));
      if !made {
        return Some(CalledProcessError(Mkdir(mountPoint)));
      }
    }
    var mounted := h.Execute(Mount(blockDevice, mountPoint));
    return None;
  }

  /** The fields unmount_device copies out of a log record. */
  datatype Details = Details(serial: string, vendorId: string, productId: string)

  /** Copying `serial`, `vendor_id`, `product_id` out of a record, each lookup raising KeyError. */
  function RecordDetails(e: StrDict): (r: Result<Details, Error>)
    ensures r.Ok? <==> "serial" in e && "vendor_id" in e && "product_id" in e
    ensures r.Ok? ==> r.value == Details(e["serial"], e["vendor_id"], e["product_id"])
  {
    if "serial" !in e then Err(KeyError("serial"))
    else if "vendor_id" !in e then Err(KeyError("vendor_id"))
    else if "product_id" !in e then Err(KeyError("product_id"))
    else Ok(Details(e["serial"], e["vendor_id"], e["product_id"]))
  }

  /** Record `i` is the first whose device_node is `node`, and every record before it has one. */
  ghost predicate FirstRecordFor(entries: seq<StrDict>, node: string, i: int)
  {
    && 0 <= i < |entries| && "device_node" in entries[i] && entries[i]["device_node"] == node
    && forall j :: 0 <= j < i ==> "device_node" in entries[j] && entries[j]["device_node"] != node
  }

  /** The lookup loop of unmount_device: the details of the first record for `node`,
      Ok(None) when no record has it, KeyError when a record lacks a field it reads. */
  function MountRecord(entries: seq<StrDict>, node: string): (r: Result<Option<Details>, Error>)
    ensures r == Ok(None) <==>
      forall j :: 0 <= j < |entries| ==> "device_node" in entries[j] && entries[j]["device_node"] != node
    ensures r.Ok? && r.value.Some? ==>
      exists i :: FirstRecordFor(entries, node, i) && RecordDetails(entries[i]) == Ok(r.value.value)
    decreases |entries|
  {
    if entries == [] then Ok(None)
    else if "device_node" !in entries[0] then Err(KeyError("device_node"))
    else if entries[0]["device_node"] == node then
      match RecordDetails(entries[0])
      case Ok(d) =>
        assert FirstRecordFor(entries, node, 0);
        Ok(Some(d))
      case Err(e) => Err(e)
    else
      var r := MountRecord(entries[1..], node);
      assert forall j :: 1 <= j < |entries| ==> entries[j] == entries[1..][j - 1];
      assert forall i :: FirstRecordFor(entries[1..], node, i) ==> FirstRecordFor(entries, node, i + 1);
      r
  }

  /** The first record for the node decides, whatever later records say. */
  lemma {:induction false} MountRecordFirst(entries: seq<StrDict>, node: string, i: int)
    requires FirstRecordFor(entries, node, i)
    ensures MountRecord(entries, node) ==
      match RecordDetails(entries[i]) case Ok(d) => Ok(Some(d)) case Err(e) => Err(e)
    decreases i
  {
    if i > 0 {
      assert FirstRecordFor(entries[1..], node, i - 1);
      MountRecordFirst(entries[1..], node, i - 1);
    }
  }

  /** The `for entry in log_entries` loop of unmount_device, filling `device_details`. */
  method FindDeviceDetails(entries: seq<StrDict>, node: string) returns (r: Result<Option<Details>, Error>)
    ensures r == MountRecord(entries, node)
  {
    var i := 0;
    while i < |entries|
      invariant 0 <= i <= |entries|
      invariant MountRecord(entries, node) == MountRecord(entries[i..], node)
    {
      var entry := entries[i];
      if "device_node" !in entry {
        return Err(KeyError("device_node"));
      }
      if entry["device_node"] == node {
        if "serial" !in entry { return Err(KeyError("serial")); }
        var serial := entry["serial"];
        if "vendor_id" !in entry { return Err(KeyError("vendor_id")); }
        var vendorId := entry["vendor_id"];
        if "product_id" !in entry { return Err(KeyError("product_id")); }
        var productId := entry["product_id"];
        return Ok(Some(Details(serial, vendorId, productId)));
      }
      assert entries[i..][1..] == entries[i + 1..];
      i := i + 1;
    }
    return Ok(None);
  }

  /** unmount_device: read the log (a missing or unparsable file raises), take the mount point
      from the first record for the node (none: the error is logged and `device_details['serial']`
      raises KeyError), `umount` it and, only after a successful umount and only if the directory
      still exists, `rm -rf` it. Launcher failures inside the try are caught. */
  function UnmountSpec(w: World, cfg: Config, node: string): (r: (World, Option<Error>))
    ensures r.0.log == w.log && r.0.counts == w.counts && w.trace <= r.0.trace
  {
    match w.log
    case NoLog => (w, Some(FileNotFoundError(LOG_FILE)))
    case CorruptLog => (w, Some(JsonDecodeError(LOG_FILE)))
    case Log(entries) =>
      match MountRecord(entries, node)
      case Err(e) => (w, Some(e))
      case Ok(None) => (w, Some(KeyError("serial")))
      case Ok(Some(details)) =>
        var mp := MountPoint(cfg.user, details.serial);
        var w1 := Exec(w, Umount(mp), cfg);
        if Accepted(Umount(mp), cfg) && mp in w1.dirs then (Exec(w1, RemoveTree(mp), cfg), None)
        else (w1, None)
  }

  method UnmountDevice(h: Host, node: string) returns (err: Option<Error>)
    modifies h
    ensures (h.State(), err) == UnmountSpec(old(h.State()), h.cfg, node)
  {
    var entries: seq<StrDict>;
    match h.log {
      case NoLog => return Some(FileNotFoundError(LOG_FILE));
      case CorruptLog => return Some(JsonDecodeError(LOG_FILE));
      case Log(es) => entries := es;
    }
    var found := FindDeviceDetails(entries, node);
    var details: Details;
    match found {
      case Err(e) => return Some(e);
      case Ok(None) => return Some(KeyError("serial"));
      case Ok(Some(dd)) => details := dd;
    }
    var mountPoint := MountPoint(h.cfg.user, details.serial);
    var unmounted := h.Execute(Umount(mountPoint));
    if unmounted && mountPoint in h.dirs {
      var removed := h.Execute(RemoveTree(mountPoint));
    }
    return None;
  }

  /** Which commands an unmount issues: none when the lookup fails; otherwise umount, followed by
      rm -rf only when the umount succeeded and the directory exists. */
  lemma UnmountCommands(w: World, cfg: Config, node: string)
    ensures var r := UnmountSpec(w, cfg, node);
      && (r.1.Some? ==> r.0 == w)
      && (w.log.Log? && MountRecord(w.log.entries, node) == Ok(None) ==> r.1 == Some(KeyError("serial")))
      && (r.1.None? ==>
            w.log.Log? && MountRecord(w.log.entries, node).Ok? && MountRecord(w.log.entries, node).value.Some? &&
            var mp := MountPoint(cfg.user, MountRecord(w.log.entries, node).value.value.serial);
            r.0.trace == w.trace + [Umount(mp)] +
              (if Accepted(Umount(mp), cfg) && mp in w.dirs then [RemoveTree(mp)] else []))
  {
  }
}
