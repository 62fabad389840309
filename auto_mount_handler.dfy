/** Switching the desktop's own automounting off and on through the override rule file
    /etc/udev/rules.d/99-disable-usb-automount.rules, each time followed by a udev reload and
    trigger. Launcher failures are caught inside each toggle, so a toggle never raises. */
module AutoMountHandler {
  import opened Wrappers
  import opened Host
  import opened DeviceUtils

  /** The override line telling udisks to ignore new block devices. */
  const DISABLE_RULE: string := "ACTION==\"add\", SUBSYSTEM==\"block\", ENV{UDISKS_IGNORE}=\"1\""

  const DISABLE_COMMANDS: seq<Command> := [TeeAppend(AUTOMOUNT_RULES, Some(DISABLE_RULE))] + UPDATE_COMMANDS
  const ENABLE_COMMANDS: seq<Command> := [Truncate(AUTOMOUNT_RULES)] + UPDATE_COMMANDS

  /** The reload and trigger commands change no file and no directory. */
  lemma UpdateKeepsFiles(w: World, cfg: Config)
    ensures Attempt(w, UPDATE_COMMANDS, cfg).rules == w.rules
    ensures Attempt(w, UPDATE_COMMANDS, cfg).dirs == w.dirs
  {
    assert UPDATE_COMMANDS[1..] == [UdevTrigger];
    assert [UdevTrigger][1..] == [];
  }

  /** A toggle whose first command writes the rule file: the write, then reload and trigger.
      This is the one-step unfolding of `Attempt` on `[c] + UPDATE_COMMANDS`. */
  lemma ToggleUnfold(w: World, c: Command, cfg: Config)
    ensures Attempt(w, [c] + UPDATE_COMMANDS, cfg) ==
      if Accepted(c, cfg) then Attempt(Exec(w, c, cfg), UPDATE_COMMANDS, cfg) else Exec(w, c, cfg)
  {
    assert ([c] + UPDATE_COMMANDS)[0] == c;
    assert ([c] + UPDATE_COMMANDS)[1..] == UPDATE_COMMANDS;
  }

  /** disable_auto_mount: `tee -a` of the override line, then update_udev_rules, in one try. */
  method DisableAutoMount(h: Host)
    modifies h
    ensures h.State() == Attempt(old(h.State()), DISABLE_COMMANDS, h.cfg)
  {
    var written := h.Execute(TeeAppend(AUTOMOUNT_RULES, Some(DISABLE_RULE)));
    if written {
      var err := UpdateUdevRules(h);
    }
    ToggleUnfold(old(h.State()), TeeAppend(AUTOMOUNT_RULES, Some(DISABLE_RULE)), h.cfg);
  }

  /** enable_auto_mount: `truncate -s 0` of the override file, then update_udev_rules, in one try. */
  method EnableAutoMount(h: Host)
    modifies h
    ensures h.State() == Attempt(old(h.State()), ENABLE_COMMANDS, h.cfg)
  {
    var truncated := h.Execute(Truncate(AUTOMOUNT_RULES));
    if truncated {
      var err := UpdateUdevRules(h);
    }
    ToggleUnfold(old(h.State()), Truncate(AUTOMOUNT_RULES), h.cfg);
  }

  /** Disabling appends exactly the override line to the override file, keeps its earlier lines,
      and leaves every other file and the directories alone; when the append fails nothing changes. */
  lemma DisableAppendsRule(w: World, cfg: Config)
    ensures var r := Attempt(w, DISABLE_COMMANDS, cfg);
      && (Accepted(DISABLE_COMMANDS[0], cfg) ==>
            Lines(r.rules, AUTOMOUNT_RULES) == Lines(w.rules, AUTOMOUNT_RULES) + [DISABLE_RULE])
      && (!Accepted(DISABLE_COMMANDS[0], cfg) ==> r.rules == w.rules)
      && (forall f :: f != AUTOMOUNT_RULES ==> Lines(r.rules, f) == Lines(w.rules, f))
      && r.dirs == w.dirs
  {
    var c := TeeAppend(AUTOMOUNT_RULES, Some(DISABLE_RULE));
    ToggleUnfold(w, c, cfg);
    UpdateKeepsFiles(Exec(w, c, cfg), cfg);
  }

  /** The append does not deduplicate: two disables leave the override line twice. */
  lemma DisableTwiceDuplicates(w: World, cfg: Config)
    requires Accepted(DISABLE_COMMANDS[0], cfg)
    ensures Lines(Attempt(Attempt(w, DISABLE_COMMANDS, cfg), DISABLE_COMMANDS, cfg).rules, AUTOMOUNT_RULES)
         == Lines(w.rules, AUTOMOUNT_RULES) + [DISABLE_RULE, DISABLE_RULE]
  {
    DisableAppendsRule(w, cfg);
    DisableAppendsRule(Attempt(w, DISABLE_COMMANDS, cfg), cfg);
  }

  /** Enabling empties the override file whatever it held, touching no other file. */
  lemma EnableEmptiesRules(w: World, cfg: Config)
    ensures var r := Attempt(w, ENABLE_COMMANDS, cfg);
      && (Accepted(ENABLE_COMMANDS[0], cfg) ==> AUTOMOUNT_RULES in r.rules && r.rules[AUTOMOUNT_RULES] == [])
      && (!Accepted(ENABLE_COMMANDS[0], cfg) ==> r.rules == w.rules)
      && (forall f :: f != AUTOMOUNT_RULES ==> Lines(r.rules, f) == Lines(w.rules, f))
      && r.dirs == w.dirs
  {
    var c := Truncate(AUTOMOUNT_RULES);
    ToggleUnfold(w, c, cfg);
    UpdateKeepsFiles(Exec(w, c, cfg), cfg);
  }

  /** Disable followed by a successful enable leaves the override file empty. */
  lemma DisableThenEnable(w: World, cfg: Config)
    requires Accepted(ENABLE_COMMANDS[0], cfg)
    ensures Lines(Attempt(Attempt(w, DISABLE_COMMANDS, cfg), ENABLE_COMMANDS, cfg).rules, AUTOMOUNT_RULES) == []
  {
    EnableEmptiesRules(Attempt(w, DISABLE_COMMANDS, cfg), cfg);
  }

  /** Each toggle issues its file command first, then reload, then trigger, stopping at the
      first command the launcher refuses. */
  lemma ToggleTrace(w: World, cfg: Config)
    ensures Attempt(w, DISABLE_COMMANDS, cfg).trace == w.trace + Issued(DISABLE_COMMANDS, cfg)
    ensures Attempt(w, ENABLE_COMMANDS, cfg).trace == w.trace + Issued(ENABLE_COMMANDS, cfg)
    ensures FirstRefused(DISABLE_COMMANDS, cfg).None? ==>
      Attempt(w, DISABLE_COMMANDS, cfg).trace ==
        w.trace + [TeeAppend(AUTOMOUNT_RULES, Some(DISABLE_RULE)), UdevReload, UdevTrigger]
    ensures FirstRefused(ENABLE_COMMANDS, cfg).None? ==>
      Attempt(w, ENABLE_COMMANDS, cfg).trace == w.trace + [Truncate(AUTOMOUNT_RULES), UdevReload, UdevTrigger]
  {
  }
}
