/** The automount toggles of the top-level copy (utils/auto_mount_handler.py). Its disable is the
    package copy's (AutoMountHandler.DisableAutoMount); its enable runs `tee -a` on the override
    file with nothing on standard input, which appends nothing, so the override line stays. */
module LegacyAutoMountHandler {
  import opened Wrappers
  import opened Host
  import opened DeviceUtils
  import opened AutoMountHandler

  const LEGACY_ENABLE_COMMANDS: seq<Command> := [TeeAppend(AUTOMOUNT_RULES, None)] + UPDATE_COMMANDS

  /** enable_auto_mount: a payload-less `tee -a`, then update_udev_rules, in one try. */
  method EnableAutoMount(h: Host)
    modifies h
    ensures h.State() == Attempt(old(h.State()), LEGACY_ENABLE_COMMANDS, h.cfg)
  {
    var appended := h.Execute(TeeAppend(AUTOMOUNT_RULES, None));
    if appended {
      var err := UpdateUdevRules(h);
    }
    ToggleUnfold(old(h.State()), TeeAppend(AUTOMOUNT_RULES, None), h.cfg);
  }

  /** This enable changes the lines of no file and no directory. */
  lemma EnableChangesNoLines(w: World, cfg: Config)
    ensures var r := Attempt(w, LEGACY_ENABLE_COMMANDS, cfg);
      && (forall f :: Lines(r.rules, f) == Lines(w.rules, f))
      && r.dirs == w.dirs
  {
    var c := TeeAppend(AUTOMOUNT_RULES, None);
    ToggleUnfold(w, c, cfg);
    UpdateKeepsFiles(Exec(w, c, cfg), cfg);
  }

  /** So a disable followed by this enable leaves the override line in place. */
  lemma DisableThenEnableKeepsLine(w: World, cfg: Config)
    requires Accepted(DISABLE_COMMANDS[0], cfg)
    ensures Lines(Attempt(Attempt(w, DISABLE_COMMANDS, cfg), LEGACY_ENABLE_COMMANDS, cfg).rules, AUTOMOUNT_RULES)
         == Lines(w.rules, AUTOMOUNT_RULES) + [DISABLE_RULE]
  {
    DisableAppendsRule(w, cfg);
    EnableChangesNoLines(Attempt(w, DISABLE_COMMANDS, cfg), cfg);
  }
}
