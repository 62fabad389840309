/** The machine the device manager runs on, reduced to what the manager can observe or change:
    the commands handed to the privileged launcher, the two udev rule files, the directories
    that exist, the JSON decision log and the JSON vendor-allow counter file. */
module Host {
  import opened Wrappers
  import opened PyStrings

  type Path = string

  const BLACKLIST_RULES: Path := "/etc/udev/rules.d/99-usb-blacklist.rules"
  const AUTOMOUNT_RULES: Path := "/etc/udev/rules.d/99-disable-usb-automount.rules"
  const LOG_FILE: Path := "data/usb_device_logs.json"
  const COUNTS_FILE: Path := "data/vendor_allow_counts.json"

  /** The fixed vocabulary of privileged shell commands. */
  datatype Command =
    | Mkdir(dir: Path)                              // mkdir <dir>
    | Mount(device: Path, dir: Path)                // mount <device> <dir>
    | Umount(dir: Path)                             // umount <dir>
    | RemoveTree(dir: Path)                         // rm -rf <dir>
    | TeeAppend(file: Path, payload: Option<string>) // tee -a <file>, with one input line or none
    | Truncate(file: Path)                          // truncate -s 0 <file>
    | UdevReload                                    // udevadm control --reload
    | UdevTrigger                                   // udevadm trigger

  /** The Python exceptions that the modelled code can raise. */
  datatype Error =
    | FileNotFoundError(path: Path)
    | JsonDecodeError(path: Path)
    | KeyError(key: string)
    | CalledProcessError(cmd: Command)

  /** The decision log file: absent, not valid JSON, or a list of records. */
  datatype LogFile = NoLog | CorruptLog | Log(entries: seq<StrDict>)

  /** The vendor-allow counter file: absent, not valid JSON, or a vendor -> count object. */
  datatype CountsFile = NoCounts | CorruptCounts | Counts(counts: map<string, int>)

  /** What does not change while the manager runs: the user `whoami` reports, and the
      commands for which the launcher raises CalledProcessError. */
  datatype Config = Config(user: string, refused: set<Command>)

  /** A snapshot of everything the manager can change. */
  datatype World = World(
    trace: seq<Command>,
    rules: map<Path, seq<string>>,
    dirs: set<Path>,
    log: LogFile,
    counts: CountsFile)

  /** The lines of a rule file; a missing file reads as empty. */
  function Lines(rules: map<Path, seq<string>>, f: Path): seq<string>
  {
    if f in rules then rules[f] else []
  }

  predicate Accepted(c: Command, cfg: Config)
  {
    c !in cfg.refused
  }

  /** What a command that succeeds does to the files and directories. */
  function Effect(w: World, c: Command): (r: World)
    ensures r.trace == w.trace && r.log == w.log && r.counts == w.counts
    ensures c.TeeAppend? || c.Truncate? ==>
      forall f :: f != c.file ==> Lines(r.rules, f) == Lines(w.rules, f)
    ensures c.TeeAppend? ==>
      Lines(r.rules, c.file) == Lines(w.rules, c.file) + (if c.payload.Some? then [c.payload.value] else [])
    ensures c.Truncate? ==> c.file in r.rules && r.rules[c.file] == []
    ensures !c.TeeAppend? && !c.Truncate? ==> r.rules == w.rules
    ensures !c.Mkdir? && !c.RemoveTree? ==> r.dirs == w.dirs
  {
    match c
    case Mkdir(d) => w.(dirs := w.dirs + {d})
    case RemoveTree(d) => w.(dirs := w.dirs - {d})
    case TeeAppend(f, payload) =>
      w.(rules := w.rules[f := Lines(w.rules, f) + (if payload.Some? then [payload.value] else [])])
    case Truncate(f) => w.(rules := w.rules[f := []])
    case _ => w
  }

  /** Handing one command to the launcher: it is recorded, and takes effect if it succeeds. */
  function Exec(w: World, c: Command, cfg: Config): (r: World)
    ensures r.trace == w.trace + [c]
    ensures r.log == w.log && r.counts == w.counts
    ensures !Accepted(c, cfg) ==> r.rules == w.rules && r.dirs == w.dirs
  {
    var w1 := w.(trace := w.trace + [c]);
    if Accepted(c, cfg) then Effect(w1, c) else w1
  }

  /** The first command of `cmds` the launcher refuses, if any. */
  function FirstRefused(cmds: seq<Command>, cfg: Config): (r: Option<Command>)
    ensures r.None? <==> forall i :: 0 <= i < |cmds| ==> Accepted(cmds[i], cfg)
    ensures r.Some? ==> r.value in cmds && !Accepted(r.value, cfg)
  {
    if cmds == [] then None
    else if !Accepted(cmds[0], cfg) then Some(cmds[0])
    else FirstRefused(cmds[1..], cfg)
  }

  /** The commands that reach the launcher when `cmds` run in order inside one `try`:
      everything up to and including the first one that raises. */
  function Issued(cmds: seq<Command>, cfg: Config): (r: seq<Command>)
    ensures r <= cmds
    ensures FirstRefused(cmds, cfg).None? ==> r == cmds
    ensures FirstRefused(cmds, cfg).Some? ==>
      r != [] && r[|r| - 1] == FirstRefused(cmds, cfg).value &&
      forall i :: 0 <= i < |r| - 1 ==> Accepted(r[i], cfg)
  {
    if cmds == [] then []
    else if !Accepted(cmds[0], cfg) then [cmds[0]]
    else
      var rest := Issued(cmds[1..], cfg);
      assert FirstRefused(cmds, cfg) == FirstRefused(cmds[1..], cfg);
      [cmds[0]] + rest
  }

  /** Running `cmds` in order, stopping after the first command that raises. */
  function Attempt(w: World, cmds: seq<Command>, cfg: Config): (r: World)
    ensures r.trace == w.trace + Issued(cmds, cfg)
    ensures r.log == w.log && r.counts == w.counts
    decreases |cmds|
  {
    if cmds == [] then w
    else
      var w1 := Exec(w, cmds[0], cfg);
      if Accepted(cmds[0], cfg) then
        var r := Attempt(w1, cmds[1..], cfg);
        ConcatAssoc(w.trace, [cmds[0]], Issued(cmds[1..], cfg));
        r
      else w1
  }

  lemma ConcatAssoc<T>(a: seq<T>, b: seq<T>, c: seq<T>)
    ensures a + b + c == a + (b + c)
  {
  }

  /** Running every command of `cmds` in order whatever the outcome (no exit status is checked). */
  function RunAll(w: World, cmds: seq<Command>, cfg: Config): (r: World)
    ensures r.trace == w.trace + cmds
    ensures r.log == w.log && r.counts == w.counts
    decreases |cmds|
  {
    if cmds == [] then w
    else
      var w1 := Exec(w, cmds[0], cfg);
      assert w.trace + cmds == w1.trace + cmds[1..];
      RunAll(w1, cmds[1..], cfg)
  }

  /** Attempting one more command after a run in which none raised. */
  lemma {:induction false} AttemptSnoc(w: World, cmds: seq<Command>, c: Command, cfg: Config)
    requires FirstRefused(cmds, cfg).None?
    ensures Attempt(w, cmds + [c], cfg) == Exec(Attempt(w, cmds, cfg), c, cfg)
    decreases |cmds|
  {
    if cmds != [] {
      assert (cmds + [c])[1..] == cmds[1..] + [c];
      AttemptSnoc(Exec(w, cmds[0], cfg), cmds[1..], c, cfg);
    }
  }

  /** Once a command has raised, the commands after it never run. */
  lemma {:induction false} AttemptStops(w: World, cmds: seq<Command>, rest: seq<Command>, cfg: Config)
    requires FirstRefused(cmds, cfg).Some?
    ensures Attempt(w, cmds + rest, cfg) == Attempt(w, cmds, cfg)
    decreases |cmds|
  {
    assert (cmds + rest)[0] == cmds[0];
    if Accepted(cmds[0], cfg) {
      assert (cmds + rest)[1..] == cmds[1..] + rest;
      AttemptStops(Exec(w, cmds[0], cfg), cmds[1..], rest, cfg);
    }
  }

  /** Running more commands without a status check only ever appends to the trace. */
  lemma {:induction false} RunAllSnoc(w: World, cmds: seq<Command>, c: Command, cfg: Config)
    ensures RunAll(w, cmds + [c], cfg) == Exec(RunAll(w, cmds, cfg), c, cfg)
    decreases |cmds|
  {
    if cmds != [] {
      assert (cmds + [c])[1..] == cmds[1..] + [c];
      RunAllSnoc(Exec(w, cmds[0], cfg), cmds[1..], c, cfg);
    }
  }

  /** When no command is refused, stopping at the first failure and not checking at all agree. */
  lemma {:induction false} AttemptIsRunAll(w: World, cmds: seq<Command>, cfg: Config)
    requires FirstRefused(cmds, cfg).None?
    ensures Attempt(w, cmds, cfg) == RunAll(w, cmds, cfg)
    decreases |cmds|
  {
    if cmds != [] {
      assert Accepted(cmds[0], cfg);
      AttemptIsRunAll(Exec(w, cmds[0], cfg), cmds[1..], cfg);
    }
  }

  /** A command neither reads nor writes the counts file. */
  lemma ExecIgnoresCounts(w: World, c: Command, cfg: Config, other: CountsFile)
    ensures Exec(w.(counts := other), c, cfg) == Exec(w, c, cfg).(counts := other)
  {
    var w1 := w.(trace := w.trace + [c]);
    assert w.(counts := other).(trace := w.trace + [c]) == w1.(counts := other);
    if Accepted(c, cfg) {
      match c
      case TeeAppend(f, payload) =>
        assert Effect(w1.(counts := other), c) == Effect(w1, c).(counts := other);
      case _ =>
    }
  }

  /** The launcher's commands neither read nor write the counts file. */
  lemma {:induction false} AttemptIgnoresCounts(w: World, cmds: seq<Command>, cfg: Config, other: CountsFile)
    ensures Attempt(w.(counts := other), cmds, cfg) == Attempt(w, cmds, cfg).(counts := other)
    decreases |cmds|
  {
    if cmds != [] {
      ExecIgnoresCounts(w, cmds[0], cfg, other);
      AttemptIgnoresCounts(Exec(w, cmds[0], cfg), cmds[1..], cfg, other);
    }
  }

  /** The machine, as an object whose state the launcher and the Python code change in place. */
  class Host {
    var trace: seq<Command>
    var rules: map<Path, seq<string>>
    var dirs: set<Path>
    var log: LogFile
    var counts: CountsFile
    const cfg: Config

    ghost function State(): World
      reads this
    {
      World(trace, rules, dirs, log, counts)
    }

    constructor (cfg: Config, w: World)
      ensures State() == w && this.cfg == cfg
    {
      this.cfg := cfg;
      trace, rules, dirs, log, counts := w.trace, w.rules, w.dirs, w.log, w.counts;
    }

    /** RootProcessLauncher.execute / execute_with_input: run one command as root.
        `ok` is false when the launcher raises CalledProcessError for it. */
    method Execute(c: Command) returns (ok: bool)
      modifies this
      ensures ok == Accepted(c, cfg)
      ensures State() == Exec(old(State()), c, cfg)
    {
      trace := trace + [c];
      ok := c !in cfg.refused;
      if ok {
        match c
        case Mkdir(d) => dirs := dirs + {d};
        case RemoveTree(d) => dirs := dirs - {d};
        case TeeAppend(f, payload) =>
          rules := rules[f := Lines(rules, f) + (if payload.Some? then [payload.value] else [])];
        case Truncate(f) => rules := rules[f := []];
        case _ =>
      }
    }
  }
}
