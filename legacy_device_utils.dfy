/** The helpers of the top-level copy (core/device_utils.py) that differ from the package copy:
    its commands go straight to subprocess without an exit-status check, so none of them ever
    raises, and its allow/block helpers take the device as a dict. Its log_usb_device and
    get_block_device are the package copy's (DeviceUtils.LogUsbDevice, DeviceUtils.GetBlockDevice). */
module LegacyDeviceUtils {
  import opened Wrappers
  import opened PyStrings
  import opened Host
  import opened DeviceUtils
  import opened DeviceManager

  /** Hand each command to `subprocess.Popen(...).communicate(...)` in order; no status is checked. */
  method IssueUnchecked(h: Host, cmds: seq<Command>)
    modifies h
    ensures h.State() == RunAll(old(h.State()), cmds, h.cfg)
  {
    for i := 0 to |cmds|
      invariant h.State() == RunAll(old(h.State()), cmds[..i], h.cfg)
    {
      var ok := h.Execute(cmds[i]);
      RunAllSnoc(old(h.State()), cmds[..i], cmds[i], h.cfg);
      assert cmds[..i + 1] == cmds[..i] + [cmds[i]];
    }
    assert cmds[..|cmds|] == cmds;
  }

  /** allow_usb_device(device_info): only prints the vendor and product ids, so it can do nothing
      but raise KeyError when one of them is missing. */
  function AllowUsbDevice(deviceInfo: StrDict): (r: Option<Error>)
    ensures r.None? <==> "vendor_id" in deviceInfo && "product_id" in deviceInfo
    ensures "vendor_id" !in deviceInfo ==> r == Some(KeyError("vendor_id"))
    ensures "vendor_id" in deviceInfo && "product_id" !in deviceInfo ==> r == Some(KeyError("product_id"))
  {
    if "vendor_id" !in deviceInfo then Some(KeyError("vendor_id"))
    else if "product_id" !in deviceInfo then Some(KeyError("product_id"))
    else None
  }

  /** block_usb_device(device_info, sudo_password): the opening message reads vendor_id and
      product_id, then the node is read from the `device` key (KeyError when one is missing);
      `udevInfo` is the udevadm output for that node. Nothing is issued when the node does not
      resolve; otherwise the rule is appended and udev reloaded and triggered, unchecked. */
  function BlockSpec(w: World, cfg: Config, deviceInfo: StrDict, udevInfo: Option<seq<string>>): (r: (World, Option<Error>))
    ensures r.0.log == w.log && r.0.counts == w.counts
    ensures "vendor_id" !in deviceInfo ==> r == (w, Some(KeyError("vendor_id")))
    ensures "vendor_id" in deviceInfo && "product_id" !in deviceInfo ==> r == (w, Some(KeyError("product_id")))
    ensures "vendor_id" in deviceInfo && "product_id" in deviceInfo && "device" !in deviceInfo ==> r == (w, Some(KeyError("device")))
    ensures r.1.None? <==> "vendor_id" in deviceInfo && "product_id" in deviceInfo && "device" in deviceInfo
    ensures r.1.None? && !Truthy(GetBlockDevice(udevInfo)) ==> r.0 == w
    ensures r.1.None? && Truthy(GetBlockDevice(udevInfo)) ==>
      r.0.trace == w.trace + BlockCommands(deviceInfo["vendor_id"], deviceInfo["product_id"])
  {
    if AllowUsbDevice(deviceInfo).Some? then (w, AllowUsbDevice(deviceInfo))
    else if "device" !in deviceInfo then (w, Some(KeyError("device")))
    else if !Truthy(GetBlockDevice(udevInfo)) then (w, None)
    else (RunAll(w, BlockCommands(deviceInfo["vendor_id"], deviceInfo["product_id"]), cfg), None)
  }

  method BlockUsbDevice(h: Host, deviceInfo: StrDict, udevInfo: Option<seq<string>>) returns (err: Option<Error>)
    modifies h
    ensures (h.State(), err) == BlockSpec(old(h.State()), h.cfg, deviceInfo, udevInfo)
  {
    if "vendor_id" !in deviceInfo {
      return Some(KeyError("vendor_id"));
    }
    if "product_id" !in deviceInfo {
      return Some(KeyError("product_id"));
    }
    if "device" !in deviceInfo {
      return Some(KeyError("device"));
    }
    var blockDevice := GetBlockDevice(udevInfo);
    if !Truthy(blockDevice) {
      return None;
    }
    var rule := BlockRule(deviceInfo["vendor_id"], deviceInfo["product_id"]);
    IssueUnchecked(h, [TeeAppend(BLACKLIST_RULES, Some(rule))] + UPDATE_COMMANDS);
    return None;
  }

  /** Without status checks a refused tee cannot stop the reload and trigger: all three are
      issued in order, and the rule reaches the blacklist exactly when tee is accepted. */
  lemma {:induction false} BlockIssuesAll(w: World, cfg: Config, vendorId: string, productId: string)
    ensures var r := RunAll(w, BlockCommands(vendorId, productId), cfg);
      var tee := TeeAppend(BLACKLIST_RULES, Some(BlockRule(vendorId, productId)));
      && r.trace == w.trace + [tee, UdevReload, UdevTrigger]
      && Lines(r.rules, BLACKLIST_RULES) == Lines(w.rules, BLACKLIST_RULES) + (if Accepted(tee, cfg) then [BlockRule(vendorId, productId)] else [])
      && (forall f :: f != BLACKLIST_RULES ==> Lines(r.rules, f) == Lines(w.rules, f))
      && r.dirs == w.dirs
  {
    var cmds := BlockCommands(vendorId, productId);
    var tee := cmds[0];
    var w1 := Exec(w, tee, cfg);
    var w2 := Exec(w1, UdevReload, cfg);
    assert cmds[1..] == [UdevReload, UdevTrigger];
    assert [UdevReload, UdevTrigger][1..] == [UdevTrigger];
    assert RunAll(w, cmds, cfg) == RunAll(w1, [UdevReload, UdevTrigger], cfg);
    assert RunAll(w1, [UdevReload, UdevTrigger], cfg) == RunAll(w2, [UdevTrigger], cfg);
    assert RunAll(w2, [UdevTrigger], cfg) == RunAll(Exec(w2, UdevTrigger, cfg), [], cfg);
  }
}
