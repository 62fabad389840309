# USB admission engine of Ubuntu-Device-Manager, in Dafny

This project models the USB admission engine of the Ubuntu-Device-Manager Python program. The engine is a single loop over udev events:

- an `add` event missing its vendor or product id is dropped;
- a device node that was already handled is skipped;
- a new node is remembered, then the predictor is asked;
- when the predictor says `'allow'`, the device is mounted with no question and no log record;
- otherwise the user is asked, the answer is appended to the JSON decision log, a remembered allow bumps the vendor's counter, and the device is mounted (allow) or a udev rule denying it is appended (block);
- in the package copy only, a `remove` of a handled node forgets the node and unmounts it. That copy also disables desktop automounting before the loop and enables it again on Ctrl+C.

The repository holds two copies of this code, and both are modelled:

- the package copy under `Ubuntu_USB_Device_Manager_Program/` (modules `DeviceManager`, `DeviceUtils`, `AutoMountHandler`);
- the older top-level copy under `core/` and `utils/` (modules `LegacyDeviceManager`, `LegacyDeviceUtils`, `LegacyAutoMountHandler`).

Code that is the same in both copies is modelled once:

- `log_usb_device`: `core/device_utils.py:8-24` and `Ubuntu_USB_Device_Manager_Program/core/device_utils.py:53-70`;
- `get_block_device`: `core/device_utils.py:32-46` and `Ubuntu_USB_Device_Manager_Program/core/device_utils.py:12-26`;
- `disable_auto_mount` in both `auto_mount_handler.py` files;
- the serial default of `USBDevice`;
- the counter update.

How the machine is modelled:

- **The machine.** Class `Host.Host` holds everything the engine changes: the trace of commands handed to the shell; the rule files as lists of lines; the set of existing directories; the decision log file (`NoLog`, `CorruptLog` or `Log(records)`); and the counts file (`NoCounts`, `CorruptCounts` or `Counts(map)`).
- **Failing commands.** `Config.refused` is the set of commands that fail.
  - The package copy wraps its launcher calls in `try ... except CalledProcessError`. It is modelled with a launcher that raises on failure: `Host.Attempt` runs commands in order and stops after the first failure.
  - The older copy calls `subprocess` without checking any status. It is modelled by `Host.RunAll`, which issues every command.
- **Exceptions.** A Python exception that escapes the loop is an `Error` result. It ends the loop, so `enable_auto_mount` is not reached.
- **Outside collaborators.** The predictor, the prompt and udev's device lists are inputs. They are the `Answers` of each event. The prompt's answer is `Allow` or `Block`, because `Ubuntu_USB_Device_Manager_Program/gui/usb_alert.py:55-62` maps every dialog response to one of those two. This makes the `else: continue` at `Ubuntu_USB_Device_Manager_Program/core/device_manager.py:135-136` unreachable, so it has no counterpart in the model.
- **Method against spec.** Every imperative method is proved equal to a pure specification function: `Step` against `StepSpec`, `MonitorUsbDevices` against `MonitorSpec`, and so on. The properties are lemmas about those functions. The whole-run lemmas compare the loop with independent reference folds over the event list: `RunProperties.SeenAfter` for the seen set and `RunProperties.PromptCount` for the log.

Behaviours of the code worth knowing, each modelled as written:

- **No decision of the engine depends on the vendor counts.** The loop reads `data/vendor_allow_counts.json` only to increment it: it opens the file `'r+'`, loads it, adds one to the vendor and writes it back (`Ubuntu_USB_Device_Manager_Program/core/device_manager.py:118-130`). A missing file makes a remembered allow raise `FileNotFoundError`, which ends the loop (`AdmissionProperties.RememberedAllowCounts`). The predictor (`Ubuntu USB Device Manager Program/ml_model/model.py:84-96`) reads the same file and answers 'allow' for a vendor with at least five remembered allows; here the predictor is a free input, so that feedback is not modelled. `AdmissionProperties.DecisionIgnoresCounts` proves the narrower fact: with the predictor's and the prompt's answers held fixed, the contents of the counts file change no branch and no state other than the counts; only whether the call raised can differ.
- **The predictor's allow writes no decision record.** Only prompted decisions are logged.
- **A remove with no matching record crashes.** The lookup failure is only logged, and then `device_details['serial']` raises `KeyError`, which ends the monitoring loop. A device the predictor allowed gets no record. When no earlier record names its node either, removing it triggers this (`AdmissionProperties.AutoAllowedThenRemovedCrashes`). When an earlier record does, the next bullet applies.
- **A stale log record decides the unmount.** The log persists across runs and attachments, and `unmount_device` takes the first record whose device_node matches. When the log already holds a record for the node from an earlier device, removing a new device on that node unmounts and deletes the earlier device's mount point, not the new one (`RunProperties.StaleRecordUnmountsOldMountPoint`).
- **Enable does not restore the rule file.** `enable_auto_mount` of the package copy truncates the override file rather than restoring it. The older copy's version appends nothing, so the override line stays (`LegacyAutoMountHandler.DisableThenEnableKeepsLine`).
- **Some imports are undefined as written:**
  - `core/device_manager.py:8` imports `get_lsblk_device` and `utils/auto_mount_handler.py:4` imports `update_udev_rules` from `core/device_utils.py`, which defines neither. The model uses the package copy's definitions for both (`DeviceUtils.GetLsblkDevice`, `DeviceUtils.UpdateUdevRules`).
  - `main.py` is not part of this model.

## Model

| member | source | states |
|---|---|---|
| PyStrings.Split | Ubuntu_USB_Device_Manager_Program/core/device_utils.py:22 | `str.split` with a one-character separator: at least one piece, at least two when the separator occurs, no piece holds it, and joining the pieces gives the input back |
| Search.FirstIndex | Ubuntu_USB_Device_Manager_Program/core/device_utils.py:36-39 | the first-match scan finds nothing exactly when no element matches; otherwise it finds the first matching element |
| Host.Exec | Ubuntu_USB_Device_Manager_Program/core/device_utils.py:93 | a launched command is appended to the trace; a failed one changes no file and no directory; neither changes the log or the counts |
| Host.Attempt | Ubuntu_USB_Device_Manager_Program/utils/auto_mount_handler.py:11-20 | commands in one `try` reach the launcher up to and including the first failure, and no further |
| Host.RunAll | core/device_manager.py:81-83 | commands issued without a status check all reach the launcher, in order |
| Host.AttemptStops | Ubuntu_USB_Device_Manager_Program/utils/auto_mount_handler.py:11-20 | once a command in a `try` has raised, appending more commands changes nothing |
| Host.AttemptIsRunAll | core/device_manager.py:71-83 | when no command fails, checked and unchecked runs give the same machine state |
| Host.Host.Execute | Ubuntu_USB_Device_Manager_Program/core/device_utils.py:100 | reports whether the command succeeded, and the new machine state is `Exec` of the old one |
| UsbDevice.NewUSBDevice | core/usb_device.py:3-7 | vendor id, product id and node are stored unchanged; a falsy serial (None or "") becomes "Unknown", any other serial is kept; the stored serial is never empty; `__post_init__` at `Ubuntu_USB_Device_Manager_Program/core/usb_device.py:12-14` does the same |
| UsbDevice.Vars | Ubuntu_USB_Device_Manager_Program/core/usb_device.py:7-10 | `vars(device)` has exactly the keys vendor_id, product_id, serial, device_node, holding the record's fields |
| UsbDevice.Repr | core/usb_device.py:9-10 | the text starts with `USBDevice(vendor_id=` and ends with `)`; `UsbDevice.ReprRoundTrip` shows it keeps every field |
| UsbDevice.ReprRoundTrip | core/usb_device.py:9-10 | for fields without commas, the `USBDevice(vendor_id=..., product_id=..., serial=..., device_node=...)` text reads back to the same record |
| DeviceUtils.GetBlockDevice | Ubuntu_USB_Device_Manager_Program/core/device_utils.py:12-26 | None when udevadm fails or no line holds "DEVNAME="; otherwise the second '='-field of the first such line; `core/device_utils.py:32-46` is the same parser |
| DeviceUtils.GetBlockDeviceFirstLine | Ubuntu_USB_Device_Manager_Program/core/device_utils.py:20-22 | whatever later lines say, the first DEVNAME= line decides the result |
| DeviceUtils.DevNameLineValue | Ubuntu_USB_Device_Manager_Program/core/device_utils.py:22 | for a line `<prefix>DEVNAME=<value>` with no other '=', the parser returns exactly `<value>` |
| DeviceUtils.GetLsblkDevice | Ubuntu_USB_Device_Manager_Program/core/device_utils.py:29-50 | None when no usb device has the node; any result is the node of a partition whose ancestors hold the first usb device with that node |
| DeviceUtils.GetLsblkDeviceFound | Ubuntu_USB_Device_Manager_Program/core/device_utils.py:46-48 | the first partition under the first matching usb device is returned |
| DeviceUtils.GetLsblkDeviceNoPartition | Ubuntu_USB_Device_Manager_Program/core/device_utils.py:41-50 | when no partition lies under the usb device, the result is None |
| DeviceUtils.Decided | Ubuntu_USB_Device_Manager_Program/core/device_utils.py:66 | the record is the device info plus a `decision` field holding "allow" or "block", with all other fields unchanged |
| DeviceUtils.AppendRecord | Ubuntu_USB_Device_Manager_Program/core/device_utils.py:60-70 | the new log holds the earlier records unchanged and in order, followed by exactly the new record |
| DeviceUtils.LogStartsEmpty | Ubuntu_USB_Device_Manager_Program/core/device_utils.py:56-64 | a missing or unparsable log becomes the list holding only the new record |
| DeviceUtils.LogUsbDevice | core/device_utils.py:8-24 | the caller's dict gains `decision`, and the log gains that dict as its last record; nothing else changes |
| DeviceUtils.UpdateUdevRules | Ubuntu_USB_Device_Manager_Program/core/device_utils.py:73-79 | reload, then trigger, stopping at the first failure, whose CalledProcessError is returned to the caller |
| DeviceUtils.UpdateOrder | Ubuntu_USB_Device_Manager_Program/core/device_utils.py:76-79 | reload is issued first, and trigger only after a successful reload |
| DeviceUtils.MountPoint | Ubuntu_USB_Device_Manager_Program/core/device_utils.py:88 | the mount point is `/media/<user>/` followed by the serial |
| DeviceUtils.MountPointInjective | Ubuntu_USB_Device_Manager_Program/core/device_utils.py:88 | different serials of one user get different mount points |
| DeviceUtils.MountSpec | Ubuntu_USB_Device_Manager_Program/core/device_utils.py:82-103 | mkdir is issued only when the mount point is absent, and its failure raises; mount of the given block device follows, and its failure is caught; the log and counts are unchanged |
| DeviceUtils.MountDevice | Ubuntu_USB_Device_Manager_Program/core/device_utils.py:82-103 | the new machine state and the exception are those of `MountSpec` |
| DeviceUtils.RecordDetails | Ubuntu_USB_Device_Manager_Program/core/device_utils.py:117-119 | serial, vendor_id and product_id are copied from the record; a missing field raises KeyError |
| DeviceUtils.MountRecord | Ubuntu_USB_Device_Manager_Program/core/device_utils.py:114-121 | no result exactly when every record has a different device_node; otherwise the details of the first record for the node |
| DeviceUtils.MountRecordFirst | Ubuntu_USB_Device_Manager_Program/core/device_utils.py:115-121 | the first record for the node decides, whatever later records hold |
| DeviceUtils.FindDeviceDetails | Ubuntu_USB_Device_Manager_Program/core/device_utils.py:114-121 | the lookup loop returns the `MountRecord` result |
| DeviceUtils.UnmountSpec | Ubuntu_USB_Device_Manager_Program/core/device_utils.py:106-143 | the trace only grows; the log and the counts are unchanged |
| DeviceUtils.UnmountCommands | Ubuntu_USB_Device_Manager_Program/core/device_utils.py:122-141 | no record for the node raises KeyError('serial'); a failed lookup issues nothing; otherwise umount of `/media/<user>/<serial>` is issued, followed by `rm -rf` only when umount succeeded and the directory exists |
| DeviceUtils.UnmountDevice | Ubuntu_USB_Device_Manager_Program/core/device_utils.py:106-143 | the new machine state and the exception are those of `UnmountSpec` |
| AutoMountHandler.DisableAutoMount | Ubuntu_USB_Device_Manager_Program/utils/auto_mount_handler.py:7-20 | tee of the override line, then reload and trigger, in one try that catches failures; `utils/auto_mount_handler.py:7-20` is the same |
| AutoMountHandler.EnableAutoMount | Ubuntu_USB_Device_Manager_Program/utils/auto_mount_handler.py:23-35 | truncate of the override file, then reload and trigger, in one try that catches failures |
| AutoMountHandler.DisableAppendsRule | Ubuntu_USB_Device_Manager_Program/utils/auto_mount_handler.py:9-13 | the override file gains exactly the UDISKS_IGNORE line after its earlier lines; no other file and no directory changes |
| AutoMountHandler.DisableTwiceDuplicates | Ubuntu_USB_Device_Manager_Program/utils/auto_mount_handler.py:10-13 | two disables leave the line twice |
| AutoMountHandler.EnableEmptiesRules | Ubuntu_USB_Device_Manager_Program/utils/auto_mount_handler.py:25-28 | a successful truncate empties the override file whatever it held; no other file changes |
| AutoMountHandler.DisableThenEnable | Ubuntu_USB_Device_Manager_Program/utils/auto_mount_handler.py:23-35 | disable followed by a successful enable leaves the override file empty |
| AutoMountHandler.ToggleTrace | Ubuntu_USB_Device_Manager_Program/utils/auto_mount_handler.py:13-16 | each toggle issues its file command, then reload, then trigger |
| LegacyAutoMountHandler.EnableAutoMount | utils/auto_mount_handler.py:23-35 | a payload-less `tee -a`, then reload and trigger, in one try |
| LegacyAutoMountHandler.EnableChangesNoLines | utils/auto_mount_handler.py:25-28 | this enable changes the lines of no file, and no directory |
| LegacyAutoMountHandler.DisableThenEnableKeepsLine | utils/auto_mount_handler.py:7-35 | disable followed by this enable leaves the override line in place |
| DeviceManager.EventDevice | Ubuntu_USB_Device_Manager_Program/core/device_manager.py:80-99 | the record built from a complete event carries its vendor id, product id and node, and a non-empty serial |
| DeviceManager.BumpCount | Ubuntu_USB_Device_Manager_Program/core/device_manager.py:118-130 | a missing counts file raises FileNotFoundError; otherwise an unparsable file counts as {}, the vendor's count rises by one (from 0 when absent), other vendors keep theirs, and no key is lost |
| DeviceManager.UpdateVendorCount | Ubuntu_USB_Device_Manager_Program/core/device_manager.py:118-130 | the counts file and the error become those of `BumpCount`, and nothing else on the machine changes; the top-level copy (core/device_manager.py:141-153) runs the same update |
| DeviceManager.BlockRuleRoundTrip | Ubuntu_USB_Device_Manager_Program/core/device_manager.py:50-51 | for ids without quotes, the rule line reads back as exactly the device's vendor and product; `core/device_manager.py:66` writes the same line |
| DeviceManager.AllowSpec | Ubuntu_USB_Device_Manager_Program/core/device_manager.py:26-37 | nothing is issued when the node does not resolve to a partition; the log and the counts are never touched |
| DeviceManager.BlockSpec | Ubuntu_USB_Device_Manager_Program/core/device_manager.py:39-63 | nothing is issued when udevadm does not resolve the node; otherwise tee of the rule, reload and trigger are issued up to the first failure; the log and the counts are never touched |
| DeviceManager.USBDeviceManager.constructor | Ubuntu_USB_Device_Manager_Program/core/device_manager.py:22-24 | the seen set starts empty |
| DeviceManager.USBDeviceManager.AllowUsbDevice | Ubuntu_USB_Device_Manager_Program/core/device_manager.py:26-37 | the new machine state and the exception are those of `AllowSpec` |
| DeviceManager.USBDeviceManager.BlockUsbDevice | Ubuntu_USB_Device_Manager_Program/core/device_manager.py:39-63 | the new machine state is that of `BlockSpec` |
| DeviceManager.StepSpec | Ubuntu_USB_Device_Manager_Program/core/device_manager.py:78-144 | one event never removes a command from the trace |
| DeviceManager.USBDeviceManager.Step | Ubuntu_USB_Device_Manager_Program/core/device_manager.py:78-144 | the new seen set, machine state, branch taken and exception are those of `StepSpec` |
| DeviceManager.RunSpec | Ubuntu_USB_Device_Manager_Program/core/device_manager.py:76-144 | with no exception every event is handled; an exception ends the loop after the event that raised it |
| DeviceManager.MonitorSpec | Ubuntu_USB_Device_Manager_Program/core/device_manager.py:65-149 | disable's commands come first in the trace, before any event is handled; with no exception every event is handled (`RunProperties.MonitorAutomount` proves the enable bracket) |
| DeviceManager.RunStopsAtError | Ubuntu_USB_Device_Manager_Program/core/device_manager.py:76-146 | events after the one that raised are never handled |
| DeviceManager.USBDeviceManager.MonitorUsbDevices | Ubuntu_USB_Device_Manager_Program/core/device_manager.py:65-149 | disable, then the loop, then enable only if the loop was ended by the interrupt; the result is `MonitorSpec` |
| AdmissionProperties.IncompleteAddIsDropped | Ubuntu_USB_Device_Manager_Program/core/device_manager.py:86-88 | an add with vendor or product id missing leaves seen set, log, counts and trace unchanged |
| AdmissionProperties.DuplicateAddIsSkipped | Ubuntu_USB_Device_Manager_Program/core/device_manager.py:91-93 | an add for a seen node changes nothing: no prompt, no record, no command |
| AdmissionProperties.FreshAddIsHandled | Ubuntu_USB_Device_Manager_Program/core/device_manager.py:96-109 | a fresh complete add inserts exactly its node, and goes to auto-allow when the predictor says 'allow' and to the prompt otherwise |
| AdmissionProperties.RepeatedAddIsSkipped | Ubuntu_USB_Device_Manager_Program/core/device_manager.py:91-96 | an add repeated immediately after a complete add of the same node is skipped, whatever the first one did |
| AdmissionProperties.PredictedAllowLeavesNoRecord | Ubuntu_USB_Device_Manager_Program/core/device_manager.py:104-106 | a predicted allow writes no log record and no count, and is exactly `allow_usb_device` |
| AdmissionProperties.PromptLogsOneRecord | Ubuntu_USB_Device_Manager_Program/core/device_manager.py:109-112 | a prompted decision appends exactly one record, holding exactly the device's vendor_id, product_id, serial and device_node and the user's decision |
| AdmissionProperties.BlockChoiceWritesRule | Ubuntu_USB_Device_Manager_Program/core/device_manager.py:43-59 | a user block never raises and never touches the counts; an unresolved node gets no command; otherwise a successful tee appends the vendor/product rule to the blacklist |
| AdmissionProperties.RememberedAllowCounts | Ubuntu_USB_Device_Manager_Program/core/device_manager.py:114-130 | a remembered allow whose mount raised nothing adds one to that vendor's count, from 0 when absent, and leaves other vendors unchanged; a missing counts file raises FileNotFoundError |
| AdmissionProperties.CountsChangeOnlyOnRememberedAllow | Ubuntu_USB_Device_Manager_Program/core/device_manager.py:114-133 | an allow without the box, a block, a predicted allow or any other event leaves the counts unchanged |
| AdmissionProperties.DecisionIgnoresCounts | Ubuntu_USB_Device_Manager_Program/core/device_manager.py:98-133 | with any other counts file the event takes the same branch and gives the same seen set, log, rules, directories and trace |
| AdmissionProperties.RemoveOfHandledNode | Ubuntu_USB_Device_Manager_Program/core/device_manager.py:137-144 | a remove of a seen node drops exactly that node and runs `unmount_device` |
| AdmissionProperties.OtherEventsChangeNothing | Ubuntu_USB_Device_Manager_Program/core/device_manager.py:137-139 | a remove of an unseen node, or any other action, changes nothing |
| AdmissionProperties.RemoveThenAddIsFresh | Ubuntu_USB_Device_Manager_Program/core/device_manager.py:137-140 | after a remove, a complete add of the same node is handled afresh |
| AdmissionProperties.PromptedRecordFindsMountPoint | Ubuntu_USB_Device_Manager_Program/core/device_utils.py:114-121 | when no earlier record names the node, the record a prompted add appends is the one found at removal, giving back the device's serial, vendor and product |
| AdmissionProperties.StaleRecordWins | Ubuntu_USB_Device_Manager_Program/core/device_utils.py:115-121 | when the log already holds a record for the node, appending a new record does not change what the lookup finds |
| AdmissionProperties.AutoAllowedThenRemovedCrashes | Ubuntu_USB_Device_Manager_Program/core/device_utils.py:122-126 | a predictor-allowed device, removed while the log holds no record for its node, raises KeyError('serial') and unmounts nothing |
| AdmissionProperties.BlockScenario | Ubuntu_USB_Device_Manager_Program/core/device_manager.py:109-133 | attaching 0x1234:0x5678 serial ABC at /dev/sda1, with the user choosing block, gives one "block" record, one blacklist line, unchanged counts and the node seen |
| RunProperties.StepSeen | Ubuntu_USB_Device_Manager_Program/core/device_manager.py:86-140 | one event changes the seen set as the reference `Track` says: a complete add inserts its node, a remove drops it, anything else leaves it |
| RunProperties.StepLog | Ubuntu_USB_Device_Manager_Program/core/device_manager.py:102-112 | one event keeps the earlier records and adds one record exactly when the user is asked |
| RunProperties.StepCounts | Ubuntu_USB_Device_Manager_Program/core/device_manager.py:118-130 | one event never lowers any vendor's count |
| RunProperties.StepRules | Ubuntu_USB_Device_Manager_Program/core/device_manager.py:26-63 | one event changes the lines of no rule file but the blacklist |
| RunProperties.RunSeen | Ubuntu_USB_Device_Manager_Program/core/device_manager.py:96-140 | after the loop the seen set is the reference fold over the handled events: a complete add inserts, a remove drops |
| RunProperties.RunLog | Ubuntu_USB_Device_Manager_Program/core/device_manager.py:109-112 | the log is append-only and grows by exactly one record per prompted event |
| RunProperties.RunCounts | Ubuntu_USB_Device_Manager_Program/core/device_manager.py:118-130 | no vendor's count ever decreases over the loop |
| RunProperties.RunRules | Ubuntu_USB_Device_Manager_Program/core/device_manager.py:49-59 | the loop writes no rule file but the blacklist |
| RunProperties.MonitorAutomount | Ubuntu_USB_Device_Manager_Program/core/device_manager.py:72-148 | disable is issued before any event; on the interrupt, enable's commands end the trace and a successful truncate empties the override file; after an exception the override line stays |
| RunProperties.AllowThenRemoveUnmounts | Ubuntu_USB_Device_Manager_Program/core/device_utils.py:82-141 | when no earlier record names the node, a user-allowed device (remember box ticked or not, with a counts file present when ticked) is mounted at /media/<user>/<serial>, and its removal unmounts and deletes exactly that directory |
| RunProperties.AllowedAddMounts | Ubuntu_USB_Device_Manager_Program/core/device_manager.py:109-115 | a fresh complete add that the user allows is logged with one record and mounted at /media/<user>/<serial>, which exists afterwards; the node becomes seen; the vendor's count rises only when the remember box is ticked (with a counts file present) |
| RunProperties.RemoveUnmountsRecorded | Ubuntu_USB_Device_Manager_Program/core/device_utils.py:114-141 | removing a seen node whose first log record names a serial unmounts that serial's mount point, deletes it when the directory exists, raises nothing, and the node is no longer seen |
| RunProperties.StaleRecordUnmountsOldMountPoint | Ubuntu_USB_Device_Manager_Program/core/device_utils.py:114-141 | when the log already holds a record for the node, removing a newly allowed device (remember box ticked or not) unmounts that old record's mount point, which differs from the new one when the serials differ |
| RunProperties.NoRemoveKeepsNode | Ubuntu_USB_Device_Manager_Program/core/device_manager.py:96-140 | after a complete add, the node stays in the seen set until an event removes it |
| RunProperties.LaterAddIsSkipped | Ubuntu_USB_Device_Manager_Program/core/device_manager.py:91-96 | of two complete adds of one node with no remove of it between them, the later one is skipped, whatever device it reports and whatever the loop did in between |
| LegacyDeviceUtils.IssueUnchecked | core/device_utils.py:79-81 | every command is handed to subprocess in order, whatever the outcome |
| LegacyDeviceUtils.AllowUsbDevice | core/device_utils.py:27-29 | it does nothing but raise KeyError when vendor_id or product_id is missing |
| LegacyDeviceUtils.BlockSpec | core/device_utils.py:49-86 | KeyError for a missing vendor_id, product_id or device key, in that order; nothing is issued when the node does not resolve; otherwise tee, reload and trigger are all issued |
| LegacyDeviceUtils.BlockUsbDevice | core/device_utils.py:49-86 | the new machine state and the exception are those of `BlockSpec` |
| LegacyDeviceUtils.BlockIssuesAll | core/device_utils.py:69-81 | tee, reload and trigger are all issued even when tee fails; the rule reaches the blacklist exactly when tee succeeds |
| LegacyDeviceManager.AllowSpec | core/device_manager.py:24-53 | nothing is issued when the node does not resolve; otherwise mkdir of /media/<user>/<serial> only if absent, then mount, with no status check |
| LegacyDeviceManager.BlockSpec | core/device_manager.py:55-88 | nothing is issued when the node does not resolve; otherwise the rule's tee, reload and trigger are all issued |
| LegacyDeviceManager.StepSpec | core/device_manager.py:99-156 | an event never shrinks the seen set and never removes a command from the trace |
| LegacyDeviceManager.RunSpec | core/device_manager.py:98-156 | with no exception every event is handled; an exception ends the loop after the event that raised it |
| LegacyDeviceManager.RunStopsAtError | core/device_manager.py:98-156 | events after the one that raised are never handled |
| LegacyDeviceManager.NothingHappensWithoutFreshAdd | core/device_manager.py:100-115 | incomplete adds, repeated adds and every non-add event change nothing |
| LegacyDeviceManager.LogOnlyOnPrompt | core/device_manager.py:118-156 | a fresh add is remembered; a predicted allow writes no record; a prompt writes one record with the user's decision; any decision but allow blocks |
| LegacyDeviceManager.CountsOnlyOnRememberedAllow | core/device_manager.py:141-153 | the counts change only for a remembered prompted allow, by the same update as the package copy |
| LegacyDeviceManager.SeenNeverShrinks | core/device_manager.py:100-118 | over the loop the seen set never shrinks, and it holds every node of a handled complete add |
| LegacyDeviceManager.CopiesAgreeOnAdd | core/device_manager.py:100-156 | when no command fails, this copy handles an add event exactly as the package copy does |
| LegacyDeviceManager.USBDeviceManager.constructor | core/device_manager.py:20-22 | the seen set starts empty |
| LegacyDeviceManager.USBDeviceManager.AllowUsbDevice | core/device_manager.py:24-53 | the new machine state is that of `AllowSpec` |
| LegacyDeviceManager.USBDeviceManager.BlockUsbDevice | core/device_manager.py:55-88 | the new machine state is that of `BlockSpec` |
| LegacyDeviceManager.USBDeviceManager.Step | core/device_manager.py:100-156 | the new seen set, machine state, branch taken and exception are those of `StepSpec` |
| LegacyDeviceManager.USBDeviceManager.MonitorUsbDevices | core/device_manager.py:90-159 | the loop, with no automount bracket; the result is `RunSpec` |

## Left out

- udev and pyudev (`monitor.poll`, `context.list_devices`, `udevadm info`) are not modelled. Each event's device lists and udevadm output are inputs (`UdevView`), and a failed udevadm is `None`.
- The GTK prompt is an input: a decision plus the auto-allow box. The sklearn predictor is an input too: `Some(Allow)`, `Some(Block)` or `None`. Its own rule of allowing a vendor with five or more counted allows, which reads the counts file this engine writes, is therefore not modelled.
- `whoami` is the fixed `Config.user`. `os.path.exists` is membership in the modelled directory set.
- `Config.refused` is one fixed set: a command either always fails or never fails, whatever the directories, the rule files or the moment it runs.
- sudo password piping and the whitespace splitting of command strings are not modelled. A serial containing a space would split the mount and rm commands differently in the real program.
- Failing commands that do not raise are not modelled for the package copy. The launcher shown in the repository ignores exit status. The package copy is modelled with a launcher that raises `CalledProcessError` for each failing command, as its `try` blocks expect. With no failing command, as `Host.AttemptIsRunAll` shows, the two readings coincide.
- Byte layout of the JSON files is not modelled. `seek(0)` without truncate can leave trailing bytes when the new text is shorter than the old; the model treats each write as replacing the whole file.
- JSON values of other shapes are not modelled, for example a log that is not a list of string maps.
- A device node that is `None` is not modelled.
- pyudev's own truthiness of a found device (a Mapping whose length could be 0) is not modelled; a found usb device always counts as found.
- `time.sleep` during debouncing is not modelled; an incomplete event is simply dropped.
- KeyboardInterrupt is assumed to arrive after the last event of the sequence. An interrupt in the middle of a handler is not modelled, and neither is concurrency.
- The logger and `print` output are not modelled.
- `USBDevice.__repr__` of the package copy (`str(self.__dict__)`) is left out: it is Python's dict formatting.
- UsbDevice.ReprRoundTrip: holds only for fields without commas, since the text has no quoting.
- DeviceManager.BlockRuleRoundTrip: holds only for ids without double quotes, since the rule text has no escaping.
- The older copy's `mkdir` runs without sudo while its mount runs with sudo. That difference is not modelled; both go through the same acceptance set.
- `main.py`, `ml_model/model.py`, the GUI files, `log_cleaner.py` and `src/scanner.c` are not part of this model.
