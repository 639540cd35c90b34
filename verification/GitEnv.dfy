/**
 * The environment a git child process gets.
 *
 * A key stands for its class of matching keys: on Windows, where the case of a key does not
 * matter, its upper-case form; elsewhere the key itself.
 */
module GitEnv {
  import opened Wrappers

  type Env = map<string, string>

  /** What a command says of its environment: a value to set, or `None` to leave the key out. */
  type Overrides = map<string, Option<string>>

  const GIT_SSH: string := "GIT_SSH"
  const GIT_SSH_COMMAND: string := "GIT_SSH_COMMAND"
  const GIT_SSH_VARIANT: string := "GIT_SSH_VARIANT"
  const GIT_TERMINAL_PROMPT: string := "GIT_TERMINAL_PROMPT"
  const LC_ALL: string := "LC_ALL"
  const LANG: string := "LANG"
  const BATCH_SSH: string := "ssh -o BatchMode=yes -o ConnectTimeout=10"
  const ZERO: string := "0"
  const C_LOCALE: string := "C"

  predicate IsGit(key: string) {
    |key| >= 4 && (key[0] == 'G' || key[0] == 'g') && (key[1] == 'I' || key[1] == 'i')
    && (key[2] == 'T' || key[2] == 't') && key[3] == '_'
  }

  predicate IsTransport(key: string) {
    key == GIT_SSH || key == GIT_SSH_COMMAND || key == GIT_SSH_VARIANT
  }

  lemma Names()
    ensures IsGit(GIT_SSH) && IsGit(GIT_SSH_COMMAND) && IsGit(GIT_SSH_VARIANT) && IsGit(GIT_TERMINAL_PROMPT)
    ensures !IsGit(LC_ALL) && !IsGit(LANG) && LC_ALL != LANG
    ensures !IsTransport(GIT_TERMINAL_PROMPT) && GIT_SSH != GIT_SSH_COMMAND
  {
    assert GIT_TERMINAL_PROMPT[4] == 'T' && GIT_SSH[4] == 'S' && GIT_SSH_COMMAND[4] == 'S' && GIT_SSH_VARIANT[4] == 'S';
    assert |GIT_SSH| == 7 && |GIT_SSH_COMMAND| == 15;
    assert LC_ALL[0] == 'L' && LANG[0] == 'L' && LC_ALL[1] == 'C' && LANG[1] == 'A';
  }

  // ----------------------------------------------------------------- one key

  /** What a command says of one key. */
  datatype Setting = Unset | LeftOut | Given(value: string)

  function SettingOf(overrides: Overrides, key: string): Setting {
    if key !in overrides then Unset else if overrides[key].None? then LeftOut else Given(overrides[key].value)
  }

  /** What removing a key leaves: a cleared command forgets it, another one remembers to leave it out. */
  function Gone(cleared: bool): Setting {
    if cleared then Unset else LeftOut
  }

  function Value(env: Env, key: string): Option<string> {
    if key in env then Some(env[key]) else None
  }

  /** What the child sees of a key: the process's value unless cleared or overridden. */
  function Seen(process: Env, cleared: bool, setting: Setting, key: string): Option<string> {
    match setting
    case Given(value) => Some(value)
    case LeftOut => None
    case Unset => if cleared then None else Value(process, key)
  }

  function Reapplied(cleared: bool, before: Setting, explicit: Overrides, key: string): Setting {
    if key !in explicit || !IsTransport(key) then before
    else if explicit[key].Some? then Given(explicit[key].value)
    else Gone(cleared)
  }

  /** The setting of a key after lite mode was applied. */
  function LiteSetting(process: Env, cleared: bool, before: Setting, key: string): Setting {
    var explicit := IsGit(key) && before != Unset;
    if !IsGit(key) then before
    else if IsTransport(key) && explicit then (if before.Given? then before else Gone(cleared))
    else if IsTransport(key) && key in process then Given(process[key])
    else if key in process || explicit then Gone(cleared)
    else Unset
  }

  // ------------------------------------------------------------------ the command

  method Sanitize(env: Env) returns (r: Env)
    ensures forall key :: Value(r, key) == if IsGit(key) && !IsTransport(key) then None else Value(env, key)
  {
    r := map key | key in env && (!IsGit(key) || IsTransport(key)) :: env[key];
  }

  datatype Origin = Smart | Lite | Captured

  class Command {
    var cleared: bool
    var overrides: Overrides

    constructor ()
      ensures !cleared && overrides == map[]
    {
      cleared := false;
      overrides := map[];
    }

    function Says(key: string): Setting
      reads this
    {
      SettingOf(overrides, key)
    }

    method Set(key: string, value: string)
      modifies this`overrides
      ensures forall k :: Says(k) == if k == key then Given(value) else old(Says(k))
    {
      overrides := overrides[key := Some(value)];
    }

    method Remove(key: string)
      modifies this`overrides
      ensures forall k :: Says(k) == if k == key then Gone(cleared) else old(Says(k))
    {
      if cleared { overrides := overrides - {key}; } else { overrides := overrides[key := None]; }
    }

    method Clear()
      modifies this
      ensures cleared && overrides == map[]
    {
      cleared := true;
      overrides := map[];
    }

    method SetAll(env: Env)
      modifies this`overrides
      ensures forall k :: Says(k) == if k in env then Given(env[k]) else old(Says(k))
    {
      var remaining := env.Keys;
      while remaining != {}
        invariant remaining <= env.Keys
        invariant forall k :: Says(k) == if k in env && k !in remaining then Given(env[k]) else old(Says(k))
        decreases |remaining|
      {
        var key :| key in remaining;
        Set(key, env[key]);
        remaining := remaining - {key};
      }
    }

    predicate Has(key: string)
      reads this
    {
      Says(key).Given?
    }

    method RemoveAll(keys: set<string>)
      modifies this`overrides
      ensures forall k :: Says(k) == if k in keys then Gone(cleared) else old(Says(k))
    {
      var remaining := keys;
      while remaining != {}
        invariant remaining <= keys
        invariant forall k :: Says(k) == if k in keys && k !in remaining then Gone(cleared) else old(Says(k))
        decreases |remaining|
      {
        var key :| key in remaining;
        Remove(key);
        remaining := remaining - {key};
      }
    }

    /** Sets again, or leaves out again, what the command said of the transport keys. */
    method Reapply(explicit: Overrides)
      modifies this`overrides
      ensures forall k :: Says(k) == Reapplied(cleared, old(Says(k)), explicit, k)
    {
      var remaining := explicit.Keys;
      while remaining != {}
        invariant remaining <= explicit.Keys
        invariant forall k :: Says(k) == if k in remaining then old(Says(k)) else Reapplied(cleared, old(Says(k)), explicit, k)
        decreases |remaining|
      {
        var key :| key in remaining;
        remaining := remaining - {key};
        if !IsTransport(key) { continue; }
        if explicit[key].Some? { Set(key, explicit[key].value); } else { Remove(key); }
      }
    }

    method ApplyLite(process: Env)
      modifies this`overrides
      ensures forall k :: Says(k) == LiteSetting(process, cleared, old(Says(k)), k)
    {
      var explicit := map key | key in overrides && IsGit(key) :: overrides[key];
      var inherited := map key | key in process && IsTransport(key) && key !in explicit :: process[key];
      RemoveAll(set key | key in process.Keys + explicit.Keys && IsGit(key));
      SetAll(inherited);
      Reapply(explicit);
      forall k | IsTransport(k) ensures IsGit(k) { TransportIsGit(k); }
    }

    method ApplyCaptured(env: Env)
      modifies this
      ensures cleared && forall k :: Says(k) == if k in env then Given(env[k]) else Unset
    {
      Clear();
      SetAll(env);
    }

    method ForceNonInteractive()
      modifies this`overrides
      ensures forall k :: Says(k) == Forced(old(Has(GIT_SSH) || Has(GIT_SSH_COMMAND)), old(Says(k)), k)
    {
      Names();
      Set(GIT_TERMINAL_PROMPT, ZERO);
      if !Has(GIT_SSH_COMMAND) && !Has(GIT_SSH) { Set(GIT_SSH_COMMAND, BATCH_SSH); }
    }

    method PinLocale()
      modifies this`overrides
      ensures forall k :: Says(k) == if k == LC_ALL || k == LANG then Given(C_LOCALE) else old(Says(k))
    {
      Set(LC_ALL, C_LOCALE);
      Set(LANG, C_LOCALE);
    }

    /** What the child sees of a key. */
    function Child(process: Env, key: string): Option<string>
      reads this
    {
      Seen(process, cleared, Says(key), key)
    }

    /** The overrides after the environment was chosen; a captured one replaces everything. */
    method ChooseEnvironment(process: Env, origin: Origin, captured: Option<Env>)
      modifies this
      ensures forall k :: Child(process, k) == Chosen(process, old(cleared), old(Says(k)), origin, captured, k)
      ensures forall k :: IsTransport(k) ==> (Has(k) <==> Child(process, k).Some?)
    {
      forall k | IsTransport(k) ensures IsGit(k) { TransportIsGit(k); }
      if origin.Captured? && captured.Some? {
        var env := Sanitize(captured.value);
        ApplyCaptured(env);
      } else {
        ApplyLite(process);
      }
    }

    /** Everything that is done to the environment of a git command before it is started. */
    method ApplyGitEnvironment(process: Env, origin: Origin, captured: Option<Env>)
      modifies this
      ensures forall k ::
                Child(process, k) ==
                FinalValue(process, old(cleared), old(Says(GIT_SSH)), old(Says(GIT_SSH_COMMAND)), old(Says(k)), origin, captured, k)
    {
      ChooseEnvironment(process, origin, captured);
      ForceNonInteractive();
      PinLocale();
    }
  }

  lemma TransportIsGit(key: string)
    requires IsTransport(key)
    ensures IsGit(key)
  {
    Names();
  }

  // ------------------------------------------------------------ what the child gets

  /** A key of the chosen environment. */
  function Chosen(process: Env, cleared: bool, before: Setting, origin: Origin, captured: Option<Env>, key: string)
    : Option<string>
  {
    if IsGit(key) && !IsTransport(key) then None
    else if origin.Captured? && captured.Some? then Value(captured.value, key)
    else if !IsGit(key) then Seen(process, cleared, before, key)
    else if before.Unset? then Value(process, key)
    else Seen(process, cleared, before, key)
  }

  function Forced(sshSet: bool, before: Setting, key: string): Setting {
    if key == GIT_TERMINAL_PROMPT then Given(ZERO)
    else if key == GIT_SSH_COMMAND && !sshSet then Given(BATCH_SSH)
    else before
  }

  /** A key of the child's environment; `ssh` and `sshCommand` are what the command said of those two. */
  function FinalValue(process: Env, cleared: bool, ssh: Setting, sshCommand: Setting, before: Setting,
                      origin: Origin, captured: Option<Env>, key: string): Option<string>
  {
    if key == LC_ALL || key == LANG then Some(C_LOCALE)
    else if key == GIT_TERMINAL_PROMPT then Some(ZERO)
    else if key == GIT_SSH_COMMAND && !SshChosen(process, cleared, ssh, sshCommand, origin, captured) then Some(BATCH_SSH)
    else Chosen(process, cleared, before, origin, captured, key)
  }

  predicate SshChosen(process: Env, cleared: bool, ssh: Setting, sshCommand: Setting, origin: Origin, captured: Option<Env>) {
    || Chosen(process, cleared, ssh, origin, captured, GIT_SSH).Some?
    || Chosen(process, cleared, sshCommand, origin, captured, GIT_SSH_COMMAND).Some?
  }

  function Final(process: Env, cleared: bool, overrides: Overrides, origin: Origin, captured: Option<Env>, key: string)
    : Option<string>
  {
    FinalValue(process, cleared, SettingOf(overrides, GIT_SSH), SettingOf(overrides, GIT_SSH_COMMAND),
               SettingOf(overrides, key), origin, captured, key)
  }

  /** A key is one of git's when it begins with GIT_ in whatever case. */
  lemma IsGitIff(key: string)
    ensures IsGit(key) <==> |key| >= 4 && key[..4] in {"GIT_", "GIt_", "GiT_", "Git_", "gIT_", "gIt_", "giT_", "git_"}
  {
    if |key| >= 4 {
      var head := key[..4];
      assert head == [key[0], key[1], key[2], key[3]];
      assert forall name ::
        name in {"GIT_", "GIt_", "GiT_", "Git_", "gIT_", "gIt_", "giT_", "git_"} ==>
          name == [name[0], name[1], name[2], name[3]];
      assert IsGit(key) ==> head in {"GIT_", "GIt_", "GiT_", "Git_", "gIT_", "gIt_", "giT_", "git_"};
    }
  }

  /** Of git's variables the child gets only the transport settings and the prompt switch, which is off. */
  lemma OnlyCarriedGitVariables(process: Env, cleared: bool, overrides: Overrides, origin: Origin, captured: Option<Env>, key: string)
    requires IsGit(key) && Final(process, cleared, overrides, origin, captured, key).Some?
    ensures
      || key == "GIT_SSH" || key == "GIT_SSH_COMMAND" || key == "GIT_SSH_VARIANT"
      || (key == "GIT_TERMINAL_PROMPT" && Final(process, cleared, overrides, origin, captured, key) == Some("0"))
  {
    Names();
  }

  /** The child never asks: the prompt is off and one of the two ssh settings is there. */
  lemma NeverInteractive(process: Env, cleared: bool, overrides: Overrides, origin: Origin, captured: Option<Env>)
    ensures Final(process, cleared, overrides, origin, captured, "GIT_TERMINAL_PROMPT") == Some("0")
    ensures Final(process, cleared, overrides, origin, captured, "GIT_SSH").Some?
            || Final(process, cleared, overrides, origin, captured, "GIT_SSH_COMMAND").Some?
    ensures Final(process, cleared, overrides, origin, captured, "GIT_SSH_COMMAND")
            == Some("ssh -o BatchMode=yes -o ConnectTimeout=10")
            || SshChosen(process, cleared, SettingOf(overrides, GIT_SSH), SettingOf(overrides, GIT_SSH_COMMAND), origin, captured)
  {
    Names();
  }

  /** In lite mode: the command leaves the ssh program out, or neither it nor the process has one. */
  predicate NoSshProgram(process: Env, overrides: Overrides) {
    SettingOf(overrides, GIT_SSH).LeftOut? || (SettingOf(overrides, GIT_SSH).Unset? && GIT_SSH !in process)
  }

  /**
   * In lite mode a transport setting of the command wins over an inherited one.  So does leaving
   * one out, except that an ssh command is set after all when there is no ssh program either;
   * a key nobody mentions is the process's, with the same exception.
   */
  lemma ExplicitTransportWins(process: Env, cleared: bool, overrides: Overrides, origin: Origin, captured: Option<Env>, key: string)
    requires key == "GIT_SSH" || key == "GIT_SSH_COMMAND" || key == "GIT_SSH_VARIANT"
    requires !origin.Captured? || captured.None?
    ensures var final := Final(process, cleared, overrides, origin, captured, key);
            match SettingOf(overrides, key)
            case Given(value) => final == Some(value)
            case LeftOut => final.None? <==> !(key == GIT_SSH_COMMAND && NoSshProgram(process, overrides))
            case Unset =>
              final == if key in process then Some(process[key])
                       else if key == GIT_SSH_COMMAND && NoSshProgram(process, overrides) then Some(BATCH_SSH)
                       else None
  {
    Names();
    TransportIsGit(key);
  }

  /** The exception occurs: a command that leaves only the ssh command out gets one nevertheless. */
  lemma LeftOutSshCommandIsSet(process: Env, origin: Origin)
    requires GIT_SSH !in process && !origin.Captured?
    ensures var overrides: Overrides := map[GIT_SSH_COMMAND := None];
            SettingOf(overrides, GIT_SSH_COMMAND) == LeftOut
            && Final(process, false, overrides, origin, None, GIT_SSH_COMMAND) == Some(BATCH_SSH)
  {
    Names();
  }

  /** Git speaks the C locale, whatever the command, the process or the captured environment say. */
  lemma LocaleIsPinned(process: Env, cleared: bool, overrides: Overrides, origin: Origin, captured: Option<Env>)
    ensures Final(process, cleared, overrides, origin, captured, "LC_ALL") == Some("C")
    ensures Final(process, cleared, overrides, origin, captured, "LANG") == Some("C")
  {}

  /** Every variable that is not git's, apart from the locale, is the one of the source. */
  lemma OtherVariablesAreTheSource(process: Env, cleared: bool, overrides: Overrides, origin: Origin, captured: Option<Env>, key: string)
    requires !IsGit(key) && key != "LC_ALL" && key != "LANG"
    ensures Final(process, cleared, overrides, origin, captured, key) ==
            if origin.Captured? && captured.Some? then Value(captured.value, key)
            else Seen(process, cleared, SettingOf(overrides, key), key)
  {
    Names();
  }

  /** A captured environment forgets everything the command and the process said. */
  lemma CapturedForgetsTheCommand(process: Env, process': Env, cleared: bool, cleared': bool, overrides: Overrides,
                                  overrides': Overrides, captured: Env, key: string)
    ensures Final(process, cleared, overrides, Captured, Some(captured), key)
            == Final(process', cleared', overrides', Captured, Some(captured), key)
  {
    Names();
  }
}
