/**
 `XrayInstaller.apply_config` (backend/app/services/ssh_installer.py): a script of shell
 commands over a remote host, each of which may fail, time out or lose the connection,
 with or without having done its work.
 */
module RemoteApply {
  import opened Wrappers

  type Text = string

  /**
   The configuration file, whether root owns it and its mode is 644, the temporary file of this apply,
   the backups (newest first), whether the service is active and which configuration it started with.
   */
  datatype Host = Host(live: Option<Text>, rootOwns: bool, mode644: bool, temp: Option<Text>, backups: seq<Text>,
                       active: bool, loaded: Option<Text>)

  datatype Command =
    | WriteTemp(text: Text) | OwnTemp | ModeTemp | Validate | Backup | Install | OwnLive | ModeLive
    | Restart | IsActive | ShowPorts | Rollback

  /** What the service manager does on its own account while a command runs. */
  datatype Whim = Steady | Stops | Starts

  datatype Fate = Completes | Fails(code: int) | TimesOut | Breaks

  /**
   One turn of the world.  A command that does not complete may still have changed the
   files, or restarted the service, or left part of a file behind; a file that is created gets the
   owner and mode of the moment.
   */
  datatype Move = Move(fate: Fate, files: bool, restarts: bool, part: Option<Text>, whim: Whim, rootOwns: bool,
                       mode644: bool)

  type World = nat -> Move

  /** The validator installed on the host. */
  type Validator = Text -> bool

  /** Everything outside the panel's control. */
  datatype Env = Env(world: World, accepts: Validator)

  datatype Reply = Exit(code: int, active: bool) | LocalTimeout | Broken

  const REMOTE_TIMEOUT_CODES: set<int> := {124, 137}
  const APT_LOCK_EXIT_CODE: int := 73

  /** `cp` replaces its target in one piece and leaves the owner and mode of a file that exists. */
  function Copied(h: Host, text: Text, m: Move): Host {
    if h.live.Some? then h.(live := Some(text))
    else h.(live := Some(text), rootOwns := m.rootOwns, mode644 := m.mode644)
  }

  /** The files after the command. */
  function FilesAfter(c: Command, h: Host, m: Move): Host {
    match c
    case WriteTemp(text) => h.(temp := if m.fate.Completes? || m.files then Some(text) else m.part)
    case Backup => if (m.fate.Completes? || m.files) && h.live.Some? then h.(backups := [h.live.value] + h.backups)
        else h
    case Install => if (m.fate.Completes? || m.files) && h.temp.Some? then Copied(h, h.temp.value, m) else h
    // it ends in `|| true`: completing promises nothing
    case OwnLive => if m.files then h.(rootOwns := true) else h
    case ModeLive => if m.fate.Completes? || m.files then h.(mode644 := true) else h
    // so does every part of the rollback command
    case Rollback =>
      if h.backups != [] && m.files
      then h.(live := Some(h.backups[0]), rootOwns := m.rootOwns, mode644 := m.mode644) else h
    case _ => h
  }

  function ServiceAfter(c: Command, h: Host, m: Move): Host {
    var restarted := (c.Restart? && (m.fate.Completes? || m.restarts))
        || (c.Rollback? && h.backups != [] && m.restarts);
    var ran := if restarted then h.(active := true, loaded := h.live) else h;
    match m.whim
    case Steady => ran
    case Stops => ran.(active := false)
    case Starts => if ran.active then ran else ran.(active := true, loaded := ran.live)
  }

  function HostAfter(c: Command, h: Host, m: Move): Host {
    ServiceAfter(c, FilesAfter(c, h, m), m)
  }

  function ReplyTo(c: Command, h: Host, m: Move, env: Env): Reply {
    match m.fate
    case Completes =>
      (match c
       case Validate => Exit(if h.temp.Some? && env.accepts(h.temp.value) then 0 else 1, false)
       case Install => Exit(if h.temp.Some? then 0 else 1, false)
       case IsActive => Exit(if h.active then 0 else 3, h.active)
       case _ => Exit(0, false))
    case Fails(code) => Exit(if code == 0 then 1 else code, false)
    case TimesOut => LocalTimeout
    case Breaks => Broken
  }

  predicate MayFail(c: Command) {
    c.IsActive? || c.ShowPorts? || c.Rollback?
  }

  /** `_exec` raises. */
  predicate Raises(c: Command, r: Reply) {
    match r
    case Exit(code, _) => code in REMOTE_TIMEOUT_CODES || code == APT_LOCK_EXIT_CODE || (code != 0 && !MayFail(c))
    case LocalTimeout => true
    case Broken => true
  }

  datatype LogEntry = LogEntry(error: bool, command: Option<Command>, code: Option<int>)

  /** What `_exec` logs: the start of the command, then how it went, unless the channel broke. */
  function Logged(c: Command, r: Reply): seq<LogEntry> {
    [LogEntry(false, Some(c), None)] +
    match r
    case Exit(code, _) => [LogEntry(code != 0, Some(c), Some(code))]
    case LocalTimeout => [LogEntry(true, Some(c), None)]
    case Broken => []
  }

  datatype Step = Step(command: Command, before: Host, reply: Reply, after: Host)

  /** A connection: the host, what was done on it so far, and whether an exception cut the script. */
  datatype Session = Session(host: Host, trace: seq<Step>, logs: seq<LogEntry>, cut: bool)

  function AfterExec(s: Session, c: Command, m: Move, env: Env): Session {
    if s.cut then s else
    var reply := ReplyTo(c, s.host, m, env);
    var after := HostAfter(c, s.host, m);
    Session(after, s.trace + [Step(c, s.host, reply, after)], s.logs + Logged(c, reply), Raises(c, reply))
  }

  /** Command `k` of the script. */
  function Script(text: Text, k: nat): Command
    requires k < 11
  {
    match k
    case 0 => WriteTemp(text)
    case 1 => OwnTemp
    case 2 => ModeTemp
    case 3 => Validate
    case 4 => Backup
    case 5 => Install
    case 6 => OwnLive
    case 7 => ModeLive
    case 8 => Restart
    case 9 => IsActive
    case _ => ShowPorts
  }

  /** The first `k` commands of the script, cut at the first exception. */
  function Play(s: Session, text: Text, env: Env, k: nat): Session
    requires k <= 11
  {
    if k == 0 then s else AfterExec(Play(s, text, env, k - 1), Script(text, k - 1), env.world(k - 1), env)
  }

  function Opened(h: Host): Session {
    Session(h, [], [LogEntry(false, None, None)], false)
  }

  function Played(h: Host, text: Text, env: Env): Session {
    Play(Opened(h), text, env, 11)
  }

  predicate SawActive(s: Session) {
    |s.trace| > 9 && s.trace[9].reply == Exit(0, true)
  }

  /** What follows the script: an inactive service is rolled back. */
  function Concluded(s: Session, env: Env): (Session, bool) {
    if s.cut then (s, false)
    else if SawActive(s) then (s, true)
    else (AfterExec(s.(logs := s.logs + [LogEntry(true, None, None)]), Rollback, env.world(11), env), false)
  }

  /** The whole apply on an open connection: the host afterwards and the result. */
  function Applied(h: Host, text: Text, env: Env): (Session, bool) {
    Concluded(Played(h, text, env), env)
  }

  // ---------- what every prefix of the script keeps ----------

  /** The old configuration, if there was one, is the newest backup. */
  predicate BackedUp(h: Host, now: Host) {
    now.backups == (if h.live.Some? then [h.live.value] else []) + h.backups
  }

  /** The trace holds a successful validation of exactly `text`, and a completed backup after it. */
  ghost predicate Vetted(trace: seq<Step>, text: Text, env: Env) {
    exists i, j :: 0 <= i < j < |trace| && trace[i].command == Validate && trace[i].reply == Exit(0, false)
      && trace[i].before.temp == Some(text) && env.accepts(text) && trace[j].command == Backup
         && trace[j].reply == Exit(0, false)
  }

  predicate Untouched(h: Host, now: Host) {
    now.live == h.live && now.backups == h.backups
  }

  predicate Switched(h: Host, text: Text, now: Host) {
    now.live == Some(text) && BackedUp(h, now)
  }

  /** Where the host stands after `k` commands, none of which raised. */
  ghost predicate InStep(h: Host, text: Text, env: Env, s: Session, k: nat) {
    && |s.trace| == k
    && (k >= 1 ==> s.host.temp == Some(text))
    && (k >= 4 ==>
        env.accepts(text) && s.trace[3] == Step(Validate, s.trace[3].before, Exit(0, false), s.trace[3].after)
            && s.trace[3].before.temp == Some(text))
    && (k >= 5 ==> s.trace[4].command == Backup && s.trace[4].reply == Exit(0, false))
    && (k < 5 ==> Untouched(h, s.host))
    && (k == 5 ==> s.host.live == h.live && BackedUp(h, s.host))
    && (k >= 6 ==> Switched(h, text, s.host))
    && (k >= 9 ==> s.host.active ==> s.host.loaded == Some(text))
    && (k >= 10 ==> s.trace[9].command == IsActive
                    && (SawActive(s) ==> s.trace[9].before.active && s.trace[9].before.loaded == Some(text)))
  }

  /** Where an exception can leave the host: not switched, or switched after validation and backup. */
  ghost predicate Sound(h: Host, text: Text, env: Env, s: Session) {
    || (s.host.live == h.live && (Untouched(h, s.host) || BackedUp(h, s.host)))
    || (Switched(h, text, s.host) && Vetted(s.trace, text, env))
  }

  lemma InStepIsSound(h: Host, text: Text, env: Env, s: Session, k: nat)
    requires InStep(h, text, env, s, k)
    ensures Sound(h, text, env, s)
  {
    if k >= 5 {
      assert s.trace[3].command == Validate && s.trace[4].command == Backup;
    }
  }

  lemma ExecKeepsStep(h: Host, text: Text, env: Env, s: Session, m: Move, k: nat)
    requires k < 11 && !s.cut && InStep(h, text, env, s, k)
    ensures var next := AfterExec(s, Script(text, k), m, env);
            if next.cut then Sound(h, text, env, next) else InStep(h, text, env, next, k + 1)
  {
    if k < 5 {
      FirstCommands(h, text, env, s, m, k);
    } else {
      LastCommands(h, text, env, s, m, k);
    }
  }

  lemma FirstCommands(h: Host, text: Text, env: Env, s: Session, m: Move, k: nat)
    requires k < 5 && !s.cut && InStep(h, text, env, s, k)
    ensures var next := AfterExec(s, Script(text, k), m, env);
            if next.cut then Sound(h, text, env, next) else InStep(h, text, env, next, k + 1)
  {
  }

  lemma LastCommands(h: Host, text: Text, env: Env, s: Session, m: Move, k: nat)
    requires 5 <= k < 11 && !s.cut && InStep(h, text, env, s, k)
    ensures var next := AfterExec(s, Script(text, k), m, env);
            if next.cut then Sound(h, text, env, next) else InStep(h, text, env, next, k + 1)
  {
    var next := AfterExec(s, Script(text, k), m, env);
    assert next.trace[3] == s.trace[3] && next.trace[4] == s.trace[4];
  }

  lemma {:induction false} PlayIsSound(h: Host, text: Text, env: Env, k: nat)
    requires k <= 11
    ensures var s := Play(Opened(h), text, env, k);
            Sound(h, text, env, s) && (!s.cut ==> InStep(h, text, env, s, k))
  {
    if k > 0 {
      var before := Play(Opened(h), text, env, k - 1);
      PlayIsSound(h, text, env, k - 1);
      if !before.cut {
        ExecKeepsStep(h, text, env, before, env.world(k - 1), k - 1);
        var s := Play(Opened(h), text, env, k);
        if !s.cut {
          InStepIsSound(h, text, env, s, k);
        }
      }
    }
  }

  // ---------- every moment of an apply ----------

  /** The live configuration changes in one step only, to the new text, validated and backed up before. */
  ghost predicate OnlyInstallSwitches(h: Host, text: Text, env: Env, trace: seq<Step>) {
    forall i :: 0 <= i < |trace| && trace[i].after.live != trace[i].before.live && trace[i].command != Rollback ==>
      && trace[i].command == Install && trace[i].before.live == h.live && trace[i].after.live == Some(text)
      && Vetted(trace[..i], text, env) && BackedUp(h, trace[i].before)
  }

  /** A step that switches nothing, or switches as promised, extends a trace. */
  lemma OneMoreStep(h: Host, text: Text, env: Env, trace: seq<Step>, step: Step)
    requires OnlyInstallSwitches(h, text, env, trace)
    requires step.after.live != step.before.live && step.command != Rollback ==>
               && step.command == Install && step.before.live == h.live && step.after.live == Some(text)
               && Vetted(trace, text, env) && BackedUp(h, step.before)
    ensures OnlyInstallSwitches(h, text, env, trace + [step])
  {
    var longer := trace + [step];
    assert forall i :: 0 <= i <= |trace| ==> longer[..i] == trace[..i];
    assert trace[..|trace|] == trace;
  }

  lemma SwitchStep(h: Host, text: Text, env: Env, s: Session, m: Move, k: nat)
    requires k < 11 && !s.cut && InStep(h, text, env, s, k) && OnlyInstallSwitches(h, text, env, s.trace)
    ensures OnlyInstallSwitches(h, text, env, AfterExec(s, Script(text, k), m, env).trace)
  {
    var c := Script(text, k);
    if k == 5 {
      assert s.trace[3].command == Validate && s.trace[4].command == Backup;
    }
    OneMoreStep(h, text, env, s.trace, Step(c, s.host, ReplyTo(c, s.host, m, env), HostAfter(c, s.host, m)));
  }

  lemma {:induction false} OneSwitch(h: Host, text: Text, env: Env, k: nat)
    requires k <= 11
    ensures OnlyInstallSwitches(h, text, env, Play(Opened(h), text, env, k).trace)
  {
    if k > 0 {
      var before := Play(Opened(h), text, env, k - 1);
      OneSwitch(h, text, env, k - 1);
      PlayIsSound(h, text, env, k - 1);
      if !before.cut {
        SwitchStep(h, text, env, before, env.world(k - 1), k - 1);
      }
    }
  }

  /** Over every world, at every moment up to the rollback. */
  lemma SwitchesOnlyWhenVetted(h: Host, text: Text, env: Env)
    ensures OnlyInstallSwitches(h, text, env, Applied(h, text, env).0.trace)
  {
    OneSwitch(h, text, env, 11);
    var s, after := Played(h, text, env), Applied(h, text, env).0;
    if !s.cut && !SawActive(s) {
      OneMoreStep(h, text, env, s.trace, after.trace[|s.trace|]);
    }
  }

  // ---------- results ----------

  /**
   Success: the new text is live, was vetted, the old one is kept, and the service was seen active
   on the new text.
   */
  lemma OkMeansServing(h: Host, text: Text, env: Env)
    requires Applied(h, text, env).1
    ensures var s := Applied(h, text, env).0;
            && Switched(h, text, s.host) && Vetted(s.trace, text, env)
            && s.trace[9].command == IsActive && s.trace[9].before.active && s.trace[9].before.loaded == Some(text)
  {
    PlayIsSound(h, text, env, 11);
    var s := Played(h, text, env);
    assert s.trace[3].command == Validate && s.trace[4].command == Backup;
  }

  function Commands(trace: seq<Step>): seq<Command> {
    seq(|trace|, i requires 0 <= i < |trace| => trace[i].command)
  }

  /** The commands of an apply after the first, in their order. */
  const COMMANDS := [OwnTemp, ModeTemp, Validate, Backup, Install, OwnLive, ModeLive, Restart, IsActive, ShowPorts]

  lemma {:induction false} TraceIsScript(h: Host, text: Text, env: Env, k: nat)
    requires k <= 11
    ensures var s := Play(Opened(h), text, env, k);
            && |s.trace| <= k && (!s.cut ==> |s.trace| == k)
            && forall i :: 0 <= i < |s.trace| ==> s.trace[i].command == Script(text, i)
  {
    if k > 0 {
      TraceIsScript(h, text, env, k - 1);
    }
  }

  lemma ScriptIsList(text: Text, k: nat)
    requires k < 11
    ensures Script(text, k) == ([WriteTemp(text)] + COMMANDS)[k]
  {
  }

  /**
   Whatever the world does, an apply issues the commands of this list in this order up to the one that
   raised, all of them if none did, and then at most a rollback.
   */
  lemma CommandsAreInOrder(h: Host, text: Text, env: Env)
    ensures var done, issued := Commands(Applied(h, text, env).0.trace), [WriteTemp(text)] + COMMANDS;
            if Played(h, text, env).cut then done <= issued
            else done == issued + (if SawActive(Played(h, text, env)) then [] else [Rollback])
  {
    TraceIsScript(h, text, env, 11);
    var s, issued := Played(h, text, env), [WriteTemp(text)] + COMMANDS;
    forall k: nat | k < 11
      ensures Script(text, k) == issued[k]
    {
      ScriptIsList(text, k);
    }
    if s.cut {
      assert Commands(s.trace) == issued[..|s.trace|];
    } else {
      assert Commands(s.trace) == issued;
    }
  }

  /** A reply that ends the script: none, a code of a timeout or of a held lock, or any failure but of a query. */
  predicate EndsScript(step: Step) {
    || !step.reply.Exit? || step.reply.code in {73, 124, 137}
    || (step.reply.code != 0 && step.command != IsActive && step.command != ShowPorts)
  }

  /** The script is cut at the first reply that ends it, and there is none before. */
  lemma {:induction false} CutExactlyWhen(h: Host, text: Text, env: Env, k: nat)
    requires k <= 11
    ensures var s := Play(Opened(h), text, env, k);
            && (s.cut <==> s.trace != [] && EndsScript(s.trace[|s.trace| - 1]))
            && forall i :: 0 <= i < |s.trace| - 1 ==> !EndsScript(s.trace[i])
  {
    if k > 0 {
      CutExactlyWhen(h, text, env, k - 1);
      CutByOne(Play(Opened(h), text, env, k - 1), Script(text, k - 1), env.world(k - 1), env);
    }
  }

  lemma CutByOne(s: Session, c: Command, m: Move, env: Env)
    requires c != Rollback && (s.cut <==> s.trace != [] && EndsScript(s.trace[|s.trace| - 1]))
    requires forall i :: 0 <= i < |s.trace| - 1 ==> !EndsScript(s.trace[i])
    ensures var next := AfterExec(s, c, m, env);
            && (next.cut <==> next.trace != [] && EndsScript(next.trace[|next.trace| - 1]))
            && forall i :: 0 <= i < |next.trace| - 1 ==> !EndsScript(next.trace[i])
  {
  }

  /** After the commands that set them, mode 644 holds, and root owns the file if its command did its work. */
  predicate Placed(s: Session, env: Env, k: nat) {
    (k >= 7 && env.world(6).files ==> s.host.rootOwns) && (k >= 8 ==> s.host.mode644)
  }

  lemma ExecPlaces(s: Session, text: Text, env: Env, k: nat)
    requires k < 11 && !s.cut && Placed(s, env, k)
    ensures var next := AfterExec(s, Script(text, k), env.world(k), env);
            !next.cut ==> Placed(next, env, k + 1)
  {
  }

  lemma {:induction false} PlayPlaces(h: Host, text: Text, env: Env, k: nat)
    requires k <= 11
    ensures !Play(Opened(h), text, env, k).cut ==> Placed(Play(Opened(h), text, env, k), env, k)
  {
    if k > 0 {
      PlayPlaces(h, text, env, k - 1);
      if !Play(Opened(h), text, env, k - 1).cut {
        ExecPlaces(Play(Opened(h), text, env, k - 1), text, env, k - 1);
      }
    }
  }

  /** After a success the live file has mode 644, and root owns it unless the change of owner failed unnoticed. */
  lemma OkMeansPlaced(h: Host, text: Text, env: Env)
    requires Applied(h, text, env).1
    ensures var s := Applied(h, text, env).0;
            s.host.mode644 && (env.world(6).files ==> s.host.rootOwns)
  {
    PlayPlaces(h, text, env, 11);
  }

  /** When an exception cuts the script, nothing is rolled back: old before the copy, new after it. */
  lemma CutScriptIsNotRolledBack(h: Host, text: Text, env: Env)
    requires Played(h, text, env).cut
    ensures var s := Applied(h, text, env).0;
            && (s.host.live == h.live || Switched(h, text, s.host))
            && (|s.trace| <= 5 ==> s.host.live == h.live)
            && (|s.trace| >= 7 ==> Switched(h, text, s.host))
  {
    PlayIsSound(h, text, env, 11);
    CutBySize(h, text, env, 11);
  }

  /** What an exception after `|s.trace|` commands leaves. */
  predicate CutAt(h: Host, text: Text, s: Session) {
    && (|s.trace| <= 5 ==> s.host.live == h.live)
    && (|s.trace| >= 7 ==> Switched(h, text, s.host))
  }

  lemma StepCut(h: Host, text: Text, env: Env, s: Session, m: Move, k: nat)
    requires k < 11 && !s.cut && InStep(h, text, env, s, k)
    ensures CutAt(h, text, AfterExec(s, Script(text, k), m, env))
  {
  }

  lemma {:induction false} CutBySize(h: Host, text: Text, env: Env, k: nat)
    requires k <= 11
    ensures var s := Play(Opened(h), text, env, k); s.cut ==> CutAt(h, text, s)
  {
    if k > 0 {
      var before := Play(Opened(h), text, env, k - 1);
      CutBySize(h, text, env, k - 1);
      PlayIsSound(h, text, env, k - 1);
      if !before.cut {
        StepCut(h, text, env, before, env.world(k - 1), k - 1);
      }
    }
  }

  /** A rollback is issued exactly when every command went through and the service was not seen active. */
  lemma RollbackExactlyWhen(h: Host, text: Text, env: Env)
    ensures (exists i ::
             0 <= i < |Applied(h, text, env).0.trace| && Applied(h, text, env).0.trace[i].command == Rollback)
            <==> !Played(h, text, env).cut && !SawActive(Played(h, text, env))
  {
    NoRollbackInScript(h, text, env, 11);
    var s, after := Played(h, text, env), Applied(h, text, env).0;
    if !s.cut && !SawActive(s) {
      assert after.trace[|s.trace|].command == Rollback;
    }
  }

  lemma {:induction false} NoRollbackInScript(h: Host, text: Text, env: Env, k: nat)
    requires k <= 11
    ensures forall i :: 0 <= i < |Play(Opened(h), text, env, k).trace| ==>
              Play(Opened(h), text, env, k).trace[i].command != Rollback
  {
    if k > 0 {
      NoRollbackInScript(h, text, env, k - 1);
    }
  }

  /** What a rollback makes of the host, whatever it answers. */
  lemma RollbackEffect(s: Session, env: Env)
    requires !s.cut && !SawActive(s)
    ensures var after, m := Concluded(s, env).0.host, env.world(11);
            && after.live == (if m.files && s.host.backups != [] then Some(s.host.backups[0]) else s.host.live)
            && after.backups == s.host.backups
            && (m.restarts && s.host.backups != [] && after.active ==> after.loaded == after.live)
  {
  }

  /**
   A rollback restores the old configuration exactly when its copy was made, which its
   exit code does not tell; with its restart the service runs on the old one again.
   */
  lemma RollbackRestoresExactlyWhen(h: Host, text: Text, env: Env)
    requires !Played(h, text, env).cut && !SawActive(Played(h, text, env)) && h.live.Some?
    ensures var s := Applied(h, text, env).0;
            && (s.host.live == h.live <==> env.world(11).files || h.live == Some(text))
            && (s.host.live != h.live ==> s.host.live == Some(text))
            && (env.world(11).files && env.world(11).restarts && s.host.active ==> s.host.loaded == h.live)
            && BackedUp(h, s.host)
  {
    PlayIsSound(h, text, env, 11);
    RollbackEffect(Played(h, text, env), env);
  }

  /** Every command completes, the service stops by itself, and the rollback runs in full. */
  const UNLUCKY := Move(Completes, true, true, None, Stops, true, true)

  function UnluckyEnv(accepts: Validator): Env {
    Env((k: nat) => UNLUCKY, accepts)
  }

  lemma {:induction false} UnluckyScriptCompletes(h: Host, text: Text, env: Env, k: nat)
    requires k <= 11 && env.accepts(text) && forall j :: env.world(j) == UNLUCKY
    ensures var s := Play(Opened(h), text, env, k);
            !s.cut && |s.trace| == k && (k > 0 ==> s.host.temp == Some(text) && !s.host.active)
                && (k > 9 ==> !SawActive(s))
  {
    if k > 0 {
      UnluckyScriptCompletes(h, text, env, k - 1);
      UnluckyStep(Play(Opened(h), text, env, k - 1), text, env, k - 1);
    }
  }

  lemma UnluckyStep(s: Session, text: Text, env: Env, k: nat)
    requires k < 11 && env.accepts(text) && !s.cut && |s.trace| == k
             && (k > 0 ==> s.host.temp == Some(text) && !s.host.active)
    ensures var after := AfterExec(s, Script(text, k), UNLUCKY, env);
            && !after.cut && |after.trace| == k + 1 && after.host.temp == Some(text) && !after.host.active
            && (k == 9 ==> !SawActive(after)) && (k > 9 ==> SawActive(after) == SawActive(s))
  {
  }

  lemma StaleBackupRestored(h: Host, text: Text, env: Env)
    requires h.live.None? && h.backups != [] && env.accepts(text) && forall j :: env.world(j) == UNLUCKY
    ensures Applied(h, text, env).0.host.live == Some(h.backups[0])
  {
    UnluckyScriptCompletes(h, text, env, 11);
    PlayIsSound(h, text, env, 11);
    RollbackEffect(Played(h, text, env), env);
  }

  lemma OldOrNew(h: Host, text: Text, env: Env)
    requires h.live.Some? || h.backups == [] || h.backups[0] == text || !env.accepts(text)
    ensures Applied(h, text, env).0.host.live in {h.live, Some(text)}
  {
    var s := Played(h, text, env);
    PlayIsSound(h, text, env, 11);
    if !s.cut && !SawActive(s) {
      RollbackEffect(s, env);
    }
  }

  /** Whether every world leaves the old or the new configuration; with no live file, a stale backup may win. */
  lemma OldOrNewExactlyWhen(h: Host, text: Text, accepts: Validator)
    ensures (forall world :: Applied(h, text, Env(world, accepts)).0.host.live in {h.live, Some(text)})
            <==> h.live.Some? || h.backups == [] || h.backups[0] == text || !accepts(text)
  {
    if h.live.Some? || h.backups == [] || h.backups[0] == text || !accepts(text) {
      forall world: World
        ensures Applied(h, text, Env(world, accepts)).0.host.live in {h.live, Some(text)}
      {
        OldOrNew(h, text, Env(world, accepts));
      }
    } else {
      StaleBackupRestored(h, text, UnluckyEnv(accepts));
    }
  }

  // ---------- logs ----------

  function Started(logs: seq<LogEntry>): seq<Command> {
    if logs == [] then []
    else
      var last := logs[|logs| - 1];
      Started(logs[..|logs| - 1])
          + (if last.command.Some? && last.code.None? && !last.error then [last.command.value] else [])
  }

  lemma StartedAppend(logs: seq<LogEntry>, e: LogEntry)
    ensures Started(logs + [e]) ==
            Started(logs) + (if e.command.Some? && e.code.None? && !e.error then [e.command.value] else [])
  {
    assert (logs + [e])[..|logs|] == logs;
  }

  lemma InTwo(logs: seq<LogEntry>, a: LogEntry, b: LogEntry)
    ensures logs + ([a] + [b]) == logs + [a] + [b]
  {
  }

  lemma LoggedNamesOne(logs: seq<LogEntry>, c: Command, r: Reply)
    ensures Started(logs + Logged(c, r)) == Started(logs) + [c]
  {
    var first := LogEntry(false, Some(c), None);
    StartedAppend(logs, first);
    match r {
      case Exit(code, _) =>
        NamesNone(logs + [first], LogEntry(code != 0, Some(c), Some(code)));
        InTwo(logs, first, LogEntry(code != 0, Some(c), Some(code)));
      case LocalTimeout =>
        NamesNone(logs + [first], LogEntry(true, Some(c), None));
        InTwo(logs, first, LogEntry(true, Some(c), None));
      case Broken =>
        assert logs + ([first] + []) == logs + [first];
    }
  }

  lemma NamesNone(logs: seq<LogEntry>, e: LogEntry)
    requires e.code.Some? || e.error
    ensures Started(logs + [e]) == Started(logs)
  {
    StartedAppend(logs, e);
    assert Started(logs) + [] == Started(logs);
  }

  lemma ExecLogs(s: Session, c: Command, m: Move, env: Env)
    requires Started(s.logs) == Commands(s.trace)
    ensures Started(AfterExec(s, c, m, env).logs) == Commands(AfterExec(s, c, m, env).trace)
  {
    if !s.cut {
      LoggedNamesOne(s.logs, c, ReplyTo(c, s.host, m, env));
      assert Commands(AfterExec(s, c, m, env).trace) == Commands(s.trace) + [c];
    }
  }

  lemma {:induction false} PlayLogs(h: Host, text: Text, env: Env, k: nat)
    requires k <= 11
    ensures var s := Play(Opened(h), text, env, k); Started(s.logs) == Commands(s.trace)
  {
    if k > 0 {
      PlayLogs(h, text, env, k - 1);
      ExecLogs(Play(Opened(h), text, env, k - 1), Script(text, k - 1), env.world(k - 1), env);
    }
  }

  /** The log names exactly the commands issued, in order, whatever cut the script. */
  lemma LogsNameEveryCommand(h: Host, text: Text, env: Env)
    ensures var s := Applied(h, text, env).0; Started(s.logs) == Commands(s.trace)
  {
    PlayLogs(h, text, env, 11);
    var s := Played(h, text, env);
    if !s.cut && !SawActive(s) {
      var noted := s.logs + [LogEntry(true, None, None)];
      assert noted[..|noted| - 1] == s.logs;
      ExecLogs(s.(logs := noted), Rollback, env.world(11), env);
    }
  }

  /** What the log says of how commands ended: the exit code of each, as an error unless it is zero. */
  function Ended(logs: seq<LogEntry>): seq<(Command, int, bool)> {
    if logs == [] then []
    else
      var last := logs[|logs| - 1];
      Ended(logs[..|logs| - 1])
          + (if last.command.Some? && last.code.Some? then [(last.command.value, last.code.value, last.error)] else [])
  }

  function ExitCodes(trace: seq<Step>): seq<(Command, int, bool)> {
    if trace == [] then []
    else
      var last := trace[|trace| - 1];
      ExitCodes(trace[..|trace| - 1])
          + (if last.reply.Exit? then [(last.command, last.reply.code, last.reply.code != 0)] else [])
  }

  lemma EndedAppend(logs: seq<LogEntry>, e: LogEntry)
    ensures Ended(logs + [e]) ==
            Ended(logs) + (if e.command.Some? && e.code.Some? then [(e.command.value, e.code.value, e.error)] else [])
  {
    assert (logs + [e])[..|logs|] == logs;
  }

  lemma LoggedTellsTheCode(logs: seq<LogEntry>, c: Command, r: Reply)
    ensures Ended(logs + Logged(c, r)) == Ended(logs) + (if r.Exit? then [(c, r.code, r.code != 0)] else [])
  {
    var first := LogEntry(false, Some(c), None);
    TellsNone(logs, first);
    match r {
      case Exit(code, _) =>
        EndedAppend(logs + [first], LogEntry(code != 0, Some(c), Some(code)));
        InTwo(logs, first, LogEntry(code != 0, Some(c), Some(code)));
      case LocalTimeout =>
        TellsNone(logs + [first], LogEntry(true, Some(c), None));
        InTwo(logs, first, LogEntry(true, Some(c), None));
      case Broken =>
        assert logs + ([first] + []) == logs + [first];
    }
    assert Ended(logs) + [] == Ended(logs);
  }

  lemma TellsNone(logs: seq<LogEntry>, e: LogEntry)
    requires e.code.None?
    ensures Ended(logs + [e]) == Ended(logs)
  {
    EndedAppend(logs, e);
    assert Ended(logs) + [] == Ended(logs);
  }

  lemma ExecTellsTheCode(s: Session, c: Command, m: Move, env: Env)
    requires Ended(s.logs) == ExitCodes(s.trace)
    ensures Ended(AfterExec(s, c, m, env).logs) == ExitCodes(AfterExec(s, c, m, env).trace)
  {
    if !s.cut {
      var next := AfterExec(s, c, m, env);
      LoggedTellsTheCode(s.logs, c, ReplyTo(c, s.host, m, env));
      assert next.trace[..|s.trace|] == s.trace;
    }
  }

  lemma {:induction false} PlayTellsCodes(h: Host, text: Text, env: Env, k: nat)
    requires k <= 11
    ensures var s := Play(Opened(h), text, env, k); Ended(s.logs) == ExitCodes(s.trace)
  {
    if k == 0 {
      assert Opened(h).logs[..0] == [];
    } else {
      PlayTellsCodes(h, text, env, k - 1);
      ExecTellsTheCode(Play(Opened(h), text, env, k - 1), Script(text, k - 1), env.world(k - 1), env);
    }
  }

  /** The log has the exit code of every command that returned one, in order, marked as an error unless it is zero. */
  lemma LogsTellEveryCode(h: Host, text: Text, env: Env)
    ensures var s := Applied(h, text, env).0; Ended(s.logs) == ExitCodes(s.trace)
  {
    PlayTellsCodes(h, text, env, 11);
    var s := Played(h, text, env);
    if !s.cut && !SawActive(s) {
      var noted := s.logs + [LogEntry(true, None, None)];
      assert noted[..|noted| - 1] == s.logs;
      ExecTellsTheCode(s.(logs := noted), Rollback, env.world(11), env);
    }
  }

  // ---------- the script as the source runs it ----------

  /** The value of an `await self._exec(...)`: a raised exception ends the caller. */
  datatype Awaited = Raised | Returned(reply: Reply) {
    predicate IsFailure() { Raised? }
    function PropagateFailure(): Awaited requires Raised? { Raised }
    function Extract(): Reply requires Returned? { reply }
  }

  /** Consecutive sessions of one script; a cut one is the last. */
  ghost predicate IsPlan(plan: seq<Session>, text: Text, env: Env) {
    && |plan| == 12
    && (forall k {:trigger env.world(k)} :: 0 <= k < 11 ==>
        plan[k + 1] == AfterExec(plan[k], Script(text, k), env.world(k), env))
    && (forall k {:trigger env.world(k)} :: 0 <= k < 11 && plan[k + 1].cut ==> plan[11] == plan[k + 1])
  }

  predicate IsLastReply(trace: seq<Step>, reply: Reply) {
    trace != [] && trace[|trace| - 1].reply == reply
  }

  ghost function Plan(s: Session, text: Text, env: Env): seq<Session> {
    seq(12, k requires 0 <= k < 12 => Play(s, text, env, k))
  }

  /** The reply the source keeps as `status` is the one the specification looks at. */
  ghost predicate StatusIsLast(plan: seq<Session>)
    requires |plan| == 12
  {
    !plan[11].cut ==> forall r :: IsLastReply(plan[10].trace, r) ==> (SawActive(plan[11]) <==> r == Exit(0, true))
  }

  lemma PlanIsPlan(h: Host, text: Text, env: Env)
    ensures var plan := Plan(Opened(h), text, env);
            IsPlan(plan, text, env) && StatusIsLast(plan) && plan[0] == Opened(h) && plan[11] == Played(h, text, env)
  {
    assert Plan(Opened(h), text, env)[0] == Play(Opened(h), text, env, 0);
    PlaySticks(Opened(h), text, env);
    PlayIsSound(h, text, env, 10);
    LastExec(Play(Opened(h), text, env, 10), ShowPorts, env.world(10), env);
  }

  lemma LastExec(s: Session, c: Command, m: Move, env: Env)
    requires !s.cut ==> |s.trace| == 10
    ensures var after := AfterExec(s, c, m, env);
            !after.cut ==> forall r :: IsLastReply(s.trace, r) ==> (SawActive(after) <==> r == Exit(0, true))
  {
  }

  class Installer {
    const env: Env
    var host: Host
    var logs: seq<LogEntry>
    ghost var trace: seq<Step>

    ghost function State(cut: bool): Session
      reads this
    {
      Session(host, trace, logs, cut)
    }

    constructor (h: Host, env: Env)
      ensures State(false) == Session(h, [], [], false) && this.env == env
    {
      this.env, host, logs, trace := env, h, [], [];
    }

    method Exec(c: Command, turn: nat) returns (r: Awaited)
      modifies this
      ensures State(r.Raised?) == AfterExec(old(State(false)), c, env.world(turn), env)
      ensures r.Returned? ==> r.reply == ReplyTo(c, old(host), env.world(turn), env)
    {
      logs := logs + [LogEntry(false, Some(c), None)];
      var reply := ReplyTo(c, host, env.world(turn), env);
      trace := trace + [Step(c, host, reply, HostAfter(c, host, env.world(turn)))];
      host := HostAfter(c, host, env.world(turn));
      match reply {
        case LocalTimeout =>
          logs := logs + [LogEntry(true, Some(c), None)];
          return Raised;
        case Broken =>
          return Raised;
        case Exit(code, _) =>
          logs := logs + [LogEntry(code != 0, Some(c), Some(code))];
          if code in REMOTE_TIMEOUT_CODES || code == APT_LOCK_EXIT_CODE || (code != 0 && !MayFail(c)) {
            return Raised;
          }
          return Returned(reply);
      }
    }

    /** Command `k` of the script; `plan` holds the sessions the specification passes through. */
    method Issue(c: Command, k: nat, text: Text, ghost plan: seq<Session>) returns (r: Awaited)
      requires k < 11 && c == Script(text, k) && IsPlan(plan, text, env) && State(false) == plan[k]
      modifies this
      ensures State(r.Raised?) == plan[k + 1] && (r.Raised? ==> plan[11] == plan[k + 1])
      ensures r.Returned? ==> IsLastReply(plan[k + 1].trace, r.reply)
    {
      r := Exec(c, k);
      assert env.world(k) == env.world(k);
      assert plan[k + 1].cut == r.Raised?;
    }

    /** The new text in the temporary file, checked by the validator. */
    method SendConfig(text: Text, ghost plan: seq<Session>) returns (r: Awaited)
      requires IsPlan(plan, text, env) && State(false) == plan[0]
      modifies this
      ensures State(r.Raised?) == plan[if r.Raised? then 11 else 4]
    {
      var _ :- Issue(WriteTemp(text), 0, text, plan);
      var _ :- Issue(OwnTemp, 1, text, plan);
      var _ :- Issue(ModeTemp, 2, text, plan);
      r := Issue(Validate, 3, text, plan);
    }

    /** The backup and the copy over the live file, with its owner and mode. */
    method PlaceConfig(text: Text, ghost plan: seq<Session>) returns (r: Awaited)
      requires IsPlan(plan, text, env) && State(false) == plan[4]
      modifies this
      ensures State(r.Raised?) == plan[if r.Raised? then 11 else 8]
    {
      var _ :- Issue(Backup, 4, text, plan);
      var _ :- Issue(Install, 5, text, plan);
      var _ :- Issue(OwnLive, 6, text, plan);
      r := Issue(ModeLive, 7, text, plan);
    }

    /** The body of `try` up to the status check; `status` is the reply of `systemctl is-active`. */
    method RunScript(text: Text, ghost plan: seq<Session>) returns (status: Awaited)
      requires IsPlan(plan, text, env) && State(false) == plan[0]
      modifies this
      ensures State(status.Raised?) == plan[11]
      ensures status.Returned? ==> IsLastReply(plan[10].trace, status.reply)
    {
      var _ :- SendConfig(text, plan);
      var _ :- PlaceConfig(text, plan);
      var _ :- Issue(Restart, 8, text, plan);
      var active :- Issue(IsActive, 9, text, plan);
      var _ :- Issue(ShowPorts, 10, text, plan);
      return Returned(active);
    }

    /** The body of `try` on an open connection. */
    method ApplyConnected(text: Text, ghost plan: seq<Session>) returns (ok: bool, raised: bool)
      requires IsPlan(plan, text, env) && State(false) == plan[0] && StatusIsLast(plan)
      modifies this
      ensures (State(raised), ok) == Concluded(plan[11], env)
    {
      var status := RunScript(text, plan);
      if status.Raised? {
        return false, true;
      }
      if status.reply.Exit? && status.reply.code == 0 && status.reply.active {
        return true, false;
      }
      logs := logs + [LogEntry(true, None, None)];
      var rollback := Exec(Rollback, 11);
      return false, rollback.Raised?;
    }

    /** `apply_config`, given what the rendering and the connection attempt gave. */
    method ApplyConfig(rendered: Result<Text, string>, connects: bool) returns (ok: bool)
      requires logs == [] && trace == []
      modifies this
      ensures rendered.Failure? || !connects ==> !ok && host == old(host) && trace == []
      ensures rendered.Success? && connects ==>
                var (s, good) := Applied(old(host), rendered.value, env);
                && ok == good && host == s.host && trace == s.trace
                && logs == s.logs + (if s.cut then [LogEntry(true, None, None)] else []) + [LogEntry(!ok, None, None)]
    {
      if rendered.Failure? {
        logs := logs + [LogEntry(true, None, None), LogEntry(true, None, None)];
        return false;
      }
      if !connects {
        logs := logs + [LogEntry(true, None, None), LogEntry(true, None, None)];
        return false;
      }
      logs := logs + [LogEntry(false, None, None)];
      assert logs == [LogEntry(false, None, None)];
      var raised;
      ghost var plan := Plan(State(false), rendered.value, env);
      PlanIsPlan(old(host), rendered.value, env);
      ok, raised := ApplyConnected(rendered.value, plan);
      if raised {
        logs := logs + [LogEntry(true, None, None)];
      }
      logs := logs + [LogEntry(!ok, None, None)];
    }
  }

  /** Once cut, the rest of the script does nothing. */
  lemma {:induction false} PlaySticks(s: Session, text: Text, env: Env)
    ensures forall k :: 0 <= k < 11 && Play(s, text, env, k).cut ==> Play(s, text, env, 11) == Play(s, text, env, k)
  {
    forall k | 0 <= k < 11 && Play(s, text, env, k).cut
      ensures Play(s, text, env, 11) == Play(s, text, env, k)
    {
      for j := k to 11
        invariant Play(s, text, env, j) == Play(s, text, env, k)
      {
        assert Play(s, text, env, j + 1) == Play(s, text, env, j);
      }
    }
  }
}
