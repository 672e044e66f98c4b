/**
 * The client's configuration: the check that a loaded configuration has the rule files the
 * automation needs, and the process-wide manager that loads the configuration file once.
 */
module ClientConfig {
  import opened Optional
  import opened JsonModel
  import Constants

  // ---------------------------------------------------------------------------------------------
  // verify_config

  const MissingRules := "!!!  Client configuration file is missing 'rules' section"
  const MissingParserRules := "!!!  Client configuration missing 'parser_rules' in 'rules' section"
  const MissingPlaybookRules := "!!!  Client configuration missing 'playbook_rules' in 'rules' section"

  /**
   * The messages `verify_config` prints, in order; `None` when a truthy `rules` value is not a
   * dict, where its `.get` raises before anything is printed.
   */
  function Report(config: seq<Member>): Option<seq<string>>
  {
    if !Present(config, "rules") then Some([MissingRules])
    else
      var rules := Lookup(config, "rules").value;
      if !rules.Obj? then None
      else
        Some((if Present(rules.members, "parser_rules") then [] else [MissingParserRules])
             + (if Present(rules.members, "playbook_rules") then [] else [MissingPlaybookRules]))
  }

  /** The configuration is accepted exactly when `rules` is a dict with truthy `parser_rules` and `playbook_rules`. */
  lemma ReportIff(config: seq<Member>)
    ensures Report(config) == Some([]) <==>
      Present(config, "rules") && Lookup(config, "rules").value.Obj?
      && Present(Lookup(config, "rules").value.members, "parser_rules")
      && Present(Lookup(config, "rules").value.members, "playbook_rules")
    ensures Report(config).None? <==> Present(config, "rules") && !Lookup(config, "rules").value.Obj?
  {
    if Report(config).Some? && Present(config, "rules") {
      assert |Report(config).value| == 0 ==> Present(Lookup(config, "rules").value.members, "parser_rules");
    }
  }

  /**
   * A missing `rules` section is reported alone, without looking inside; otherwise each missing
   * rule key is reported on its own line, parser rules first.
   */
  lemma ReportMessages(config: seq<Member>)
    requires Report(config).Some?
    ensures var printed := Report(config).value;
      && (!Present(config, "rules") ==> printed == [MissingRules])
      && (Present(config, "rules") ==>
            var rules := Lookup(config, "rules").value.members;
            && MissingRules !in printed
            && (MissingParserRules in printed <==> !Present(rules, "parser_rules"))
            && (MissingPlaybookRules in printed <==> !Present(rules, "playbook_rules"))
            && |printed| == (if Present(rules, "parser_rules") then 0 else 1) + (if Present(rules, "playbook_rules") then 0 else 1))
  {
  }

  /**
   * `verify_config`: a `critical_error` flag set by each failed check in turn. Returns `None`
   * when the `.get` on a non-dict `rules` value raises.
   */
  method VerifyConfig(config: seq<Member>) returns (valid: Option<bool>, printed: seq<string>)
    ensures valid.Some? ==> (valid.value <==> printed == [])
    ensures valid.Some? <==> Report(config).Some?
    ensures valid.Some? ==> printed == Report(config).value
  {
    var critical := false;
    printed := [];
    var rules := Lookup(config, "rules");
    if rules.None? || !Truthy(rules.value) {
      printed := printed + [MissingRules];
      critical := true;
    } else if !rules.value.Obj? {
      return None, printed;
    } else {
      var parserRules := Lookup(rules.value.members, "parser_rules");
      if parserRules.None? || !Truthy(parserRules.value) {
        printed := printed + [MissingParserRules];
        critical := true;
      }
      var playbookRules := Lookup(rules.value.members, "playbook_rules");
      if playbookRules.None? || !Truthy(playbookRules.value) {
        printed := printed + [MissingPlaybookRules];
        critical := true;
      }
    }
    valid := Some(!critical);
  }

  // ---------------------------------------------------------------------------------------------
  // The manager

  /**
   * Where the configuration is read from: the given path, or, when none or an empty one is
   * given, the package's own configuration file as the resource locator places it.
   */
  function ConfigPath(given: Option<string>, locate: (string, string) -> string): (path: string)
  {
    if given.None? || given.value == "" then locate(Constants.PackageName, Constants.ClientConfigPath) else given.value
  }

  /**
   * Without a path the package default is used; a non-empty path is used as given. Both falsy
   * arguments name the same file, and handing the resolved path back in resolves to it again.
   */
  lemma ConfigPathDefault(given: Option<string>, locate: (string, string) -> string)
    ensures given.None? ==> ConfigPath(given, locate) == locate("cyber_radar", "config/client_config.toml")
    ensures given == Some("") ==> ConfigPath(given, locate) == locate("cyber_radar", "config/client_config.toml")
    ensures given.Some? && given.value != "" ==> ConfigPath(given, locate) == given.value
    ensures ConfigPath(None, locate) == ConfigPath(Some(""), locate)
    ensures ConfigPath(given, locate) != "" ==> ConfigPath(Some(ConfigPath(given, locate)), locate) == ConfigPath(given, locate)
  {
  }

  /** The loaded configuration: the path it came from and the parsed file. */
  class Configuration {
    var configPath: string
    var config: seq<Member>

    constructor (path: string, contents: seq<Member>)
      ensures configPath == path && config == contents
    {
      configPath := path;
      config := contents;
    }
  }

  /**
   * The class-level `instance` slot of the manager. `files` is the file system as the TOML
   * loader sees it: the parsed contents of a path, `None` where there is no such file.
   */
  class Manager {
    var instance: Configuration?

    constructor ()
      ensures instance == null
    {
      instance := null;
    }

    /**
     * Constructing the manager: the first construction loads the file (exit 1 when it is
     * missing); every later one returns the same configuration and ignores its path.
     */
    method Construct(given: Option<string>, locate: (string, string) -> string, files: string -> Option<seq<Member>>)
      returns (exit: Option<int>, r: Configuration?)
      modifies this
      ensures old(instance) != null ==> exit.None? && r == old(instance) && instance == old(instance)
      ensures old(instance) == null && files(ConfigPath(given, locate)).None? ==> exit == Some(1) && instance == null
      ensures old(instance) == null && files(ConfigPath(given, locate)).Some? ==>
        && exit.None? && r != null && fresh(r) && instance == r
        && r.configPath == ConfigPath(given, locate) && r.config == files(ConfigPath(given, locate)).value
    {
      if instance == null {
        var path := ConfigPath(given, locate);
        var loaded := files(path);
        if loaded.None? {
          return Some(1), null;
        }
        instance := new Configuration(path, loaded.value);
      }
      exit := None;
      r := instance;
    }
  }

  /** Two constructions with different paths: the second gets the first one's configuration. */
  method ConstructTwice(m: Manager, first: Option<string>, second: Option<string>,
                        locate: (string, string) -> string, files: string -> Option<seq<Member>>)
    returns (a: Configuration?, b: Configuration?)
    requires m.instance == null && files(ConfigPath(first, locate)).Some?
    modifies m
    ensures a != null && a == b && m.instance == a
    ensures a.configPath == ConfigPath(first, locate) && a.config == files(ConfigPath(first, locate)).value
  {
    var exit1, exit2;
    exit1, a := m.Construct(first, locate, files);
    exit2, b := m.Construct(second, locate, files);
  }
}
