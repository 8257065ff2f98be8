/**
 * `check_env` (run_red.py:112-172): take the credentials, prefix and
 * default roles from the environment or the command line, reject
 * inconsistent ones, and write the rest into the bot's settings.
 * `exit(1)` becomes an `Err` result; printed warnings become a list.
 */
module Credentials {
  import opened Base

  /** The process environment. */
  type Env = map<string, string>

  /** The command-line options `check_env` reads; None when an option is absent. */
  datatype Args = Args(token: Option<string>, email: Option<string>, password: Option<string>,
                       prefix: Option<string>, admin: Option<string>, mod: Option<string>)

  /** The role names of the settings' defaults (`default_settings['default']`). */
  datatype Defaults = Defaults(adminRole: string, modRole: string)

  /** The reasons `check_env` exits 1, in the order it tests them. */
  datatype Rejection =
    | BothTokenAndEmail
    | InvalidToken
    | InvalidEmail
    | MissingPassword
    | NoCredentials
    | NoPrefix

  /** The warnings `check_env` prints before overwriting a stored value. */
  datatype Warning = NewCredentials | NewPrefix | NewAdmin | NewMod

  /** Tokens shorter than this are refused. */
  const MinTokenLength: nat := 50

  /** `os.environ.get(name, arg)`: a variable that is set wins, even when it is empty. */
  function Lookup(env: Env, name: string, arg: Option<string>): (v: Option<string>)
  {
    if name in env then Some(env[name]) else arg
  }

  /** The values `check_env` works with once the environment has overridden the options. */
  function Effective(env: Env, args: Args): (e: Args)
  {
    Args(Lookup(env, "RED_TOKEN", args.token), Lookup(env, "RED_EMAIL", args.email),
         Lookup(env, "RED_PASSWORD", args.password), Lookup(env, "RED_PREFIX", args.prefix),
         Lookup(env, "RED_ADMIN", args.admin), Lookup(env, "RED_MOD", args.mod))
  }

  /**
   * Each of the six values comes from its environment variable when that is
   * set, even to the empty string, and from the command-line option only
   * when it is not; a variable set but empty makes the value count as not
   * given, whatever the option says.
   */
  lemma EnvironmentOverridesOptions(env: Env, args: Args)
    ensures var e := Effective(env, args);
      Overrides(env, "RED_TOKEN", args.token, e.token) && Overrides(env, "RED_EMAIL", args.email, e.email) &&
      Overrides(env, "RED_PASSWORD", args.password, e.password) && Overrides(env, "RED_PREFIX", args.prefix, e.prefix) &&
      Overrides(env, "RED_ADMIN", args.admin, e.admin) && Overrides(env, "RED_MOD", args.mod, e.mod)
  {
  }

  /** `v` is the variable `name` when it is set, else the option; an empty variable is not given. */
  predicate Overrides(env: Env, name: string, arg: Option<string>, v: Option<string>) {
    (name in env ==> v == Some(env[name])) &&
    (name !in env ==> v == arg) &&
    (name in env && env[name] == "" ==> !Given(v))
  }

  /** Python truthiness of a string that may be None: present and not empty. */
  predicate Given(v: Option<string>) {
    v.Some? && v.value != ""
  }

  /** The rejection chain at run_red.py:117-128. */
  function Reject(token: Option<string>, email: Option<string>, password: Option<string>): (r: Option<Rejection>)
  {
    if Given(token) && Given(email) then Some(BothTokenAndEmail)
    else if Given(token) && ('@' in token.value || |token.value| < MinTokenLength) then Some(InvalidToken)
    else if Given(email) && '@' !in email.value then Some(InvalidEmail)
    else if Given(email) && !Given(password) then Some(MissingPassword)
    else None
  }

  /**
   * What the chain accepts: a token alone, of at least 50 characters and
   * without `@`; or an email alone, with `@` and with a password; or neither.
   */
  lemma AcceptedCredentials(token: Option<string>, email: Option<string>, password: Option<string>)
    ensures Reject(token, email, password).None? <==>
      (Given(token) ==> !Given(email) && '@' !in token.value && |token.value| >= MinTokenLength) &&
      (Given(email) ==> '@' in email.value && Given(password))
  {
  }

  /** Each rule is reported only when every earlier rule passed. */
  lemma RejectionOrder(token: Option<string>, email: Option<string>, password: Option<string>)
    ensures Given(token) && Given(email) ==> Reject(token, email, password) == Some(BothTokenAndEmail)
    ensures Reject(token, email, password) == Some(InvalidToken) ==> !Given(email)
    ensures Reject(token, email, password) == Some(InvalidEmail) ==> !Given(token)
    ensures Reject(token, email, password) == Some(MissingPassword) ==> !Given(token) && '@' in email.value
    ensures Reject(token, email, password) != Some(NoCredentials) && Reject(token, email, password) != Some(NoPrefix)
  {
  }

  /** The bot's stored settings, as far as `check_env` reads and writes them. */
  class Settings {
    var token: Option<string>
    var email: Option<string>
    var password: Option<string>
    var prefixes: seq<string>
    var defaultAdmin: string
    var defaultMod: string
    /** Whether the store already holds usable credentials. */
    var loginCredentials: bool

    constructor (token: Option<string>, email: Option<string>, password: Option<string>, prefixes: seq<string>,
                 defaultAdmin: string, defaultMod: string, loginCredentials: bool)
      ensures this.token == token && this.email == email && this.password == password
      ensures this.prefixes == prefixes && this.defaultAdmin == defaultAdmin && this.defaultMod == defaultMod
      ensures this.loginCredentials == loginCredentials
    {
      this.token, this.email, this.password := token, email, password;
      this.prefixes, this.defaultAdmin, this.defaultMod := prefixes, defaultAdmin, defaultMod;
      this.loginCredentials := loginCredentials;
    }
  }

  /**
   * The credential step (run_red.py:117-142): the rejection chain, then a
   * token replaces only the stored token, or an email replaces the stored
   * email and password; with neither, the stored credentials must do.
   * `Ok(w)` tells whether the overwrite warning was printed.
   */
  method ApplyCredentials(token: Option<string>, email: Option<string>, password: Option<string>, s: Settings)
    returns (r: Result<bool, Rejection>)
    modifies s`token, s`email, s`password
    ensures Reject(token, email, password).Some? ==> r == Err(Reject(token, email, password).value) && unchanged(s)
    ensures Reject(token, email, password).None? ==>
      (r == Err(NoCredentials) <==> !Given(token) && !Given(email) && !s.loginCredentials)
    ensures r.Err? ==> unchanged(s) && (r.error == NoCredentials || Reject(token, email, password).Some?)
    ensures r.Ok? ==>
      s.token == (if Given(token) then token else old(s.token)) &&
      s.email == (if !Given(token) && Given(email) then email else old(s.email)) &&
      s.password == (if !Given(token) && Given(email) then password else old(s.password))
    ensures r.Ok? ==>
      (r.value <==> (Given(token) && Given(old(s.email))) || (Given(email) && Given(old(s.token))) ||
                    (Given(email) && old(s.password) != password))
  {
    if Given(token) && Given(email) {
      return Err(BothTokenAndEmail);
    } else if Given(token) && ('@' in token.value || |token.value| < MinTokenLength) {
      return Err(InvalidToken);
    } else if Given(email) && '@' !in email.value {
      return Err(InvalidEmail);
    } else if Given(email) && !Given(password) {
      return Err(MissingPassword);
    }
    var warn := (Given(token) && Given(s.email)) || (Given(email) && Given(s.token)) ||
                (Given(email) && s.password != password);
    if Given(token) {
      s.token := token;
    } else if Given(email) {
      s.email := email;
      s.password := password;
    } else if !s.loginCredentials {
      return Err(NoCredentials);
    }
    return Ok(warn);
  }

  /**
   * The prefix step (run_red.py:146-155): a given prefix becomes the only
   * one; without one the stored list must not be empty. `Ok(w)` tells
   * whether the overwrite warning was printed.
   */
  method ApplyPrefix(prefix: Option<string>, s: Settings) returns (r: Result<bool, Rejection>)
    modifies s`prefixes
    ensures r.Err? <==> !Given(prefix) && old(s.prefixes) == []
    ensures r.Err? ==> r.error == NoPrefix
    ensures s.prefixes == if Given(prefix) then [prefix.value] else old(s.prefixes)
    ensures r.Ok? ==> s.prefixes != [] && r.value == (Given(prefix) && old(s.prefixes) != [] && old(s.prefixes) != [prefix.value])
  {
    if Given(prefix) {
      var warn := s.prefixes != [] && (|s.prefixes| != 1 || prefix.value != s.prefixes[0]);
      s.prefixes := [prefix.value];
      return Ok(warn);
    } else if s.prefixes == [] {
      return Err(NoPrefix);
    }
    return Ok(false);
  }

  /**
   * A role step (run_red.py:157-171): the stored role after the step, and
   * whether the overwrite warning is printed. A given role always replaces
   * the stored one; the warning is skipped when the stored role is still
   * the default or already equal to the new one.
   */
  function ReplaceRole(role: Option<string>, default: string, current: string): (r: (string, bool))
    ensures r.0 == current <==> !Given(role) || role.value == current
    ensures r.0 != current ==> Given(role) && r.0 == role.value
    ensures r.1 <==> r.0 != current && current != default
  {
    if Given(role) then (role.value, default != current && current != role.value) else (current, false)
  }

  /** The default role name only decides the warning, never the stored role. */
  lemma DefaultRoleOnlyWarns(role: Option<string>, d1: string, d2: string, current: string)
    ensures ReplaceRole(role, d1, current).0 == ReplaceRole(role, d2, current).0
  {
  }

  /**
   * `check_env(args, s)`. On `Ok` the settings are saved; on `Err` the
   * program exits 1 before saving, with whatever was already written to
   * the settings object left in memory.
   */
  method CheckEnv(env: Env, args: Args, defaults: Defaults, s: Settings) returns (r: Result<set<Warning>, Rejection>)
    modifies s
    ensures var e := Effective(env, args);
      Reject(e.token, e.email, e.password).Some? ==> r == Err(Reject(e.token, e.email, e.password).value) && unchanged(s)
    ensures r == Err(NoCredentials) ==> unchanged(s)
    ensures var e := Effective(env, args);
      r.Ok? || r == Err(NoPrefix) ==>
        s.token == (if Given(e.token) then e.token else old(s.token)) &&
        s.email == (if !Given(e.token) && Given(e.email) then e.email else old(s.email)) &&
        s.password == (if !Given(e.token) && Given(e.email) then e.password else old(s.password))
    ensures var e := Effective(env, args);
      r == Err(NoPrefix) <==>
        Reject(e.token, e.email, e.password).None? && (Given(e.token) || Given(e.email) || old(s.loginCredentials)) &&
        !Given(e.prefix) && old(s.prefixes) == []
    ensures var e := Effective(env, args);
      r.Ok? ==>
        s.prefixes == (if Given(e.prefix) then [e.prefix.value] else old(s.prefixes)) && s.prefixes != [] &&
        s.defaultAdmin == ReplaceRole(e.admin, defaults.adminRole, old(s.defaultAdmin)).0 &&
        s.defaultMod == ReplaceRole(e.mod, defaults.modRole, old(s.defaultMod)).0 &&
        (NewAdmin in r.value <==> ReplaceRole(e.admin, defaults.adminRole, old(s.defaultAdmin)).1) &&
        (NewMod in r.value <==> ReplaceRole(e.mod, defaults.modRole, old(s.defaultMod)).1)
    ensures var e := Effective(env, args);
      r.Ok? <==>
        Reject(e.token, e.email, e.password).None? && (Given(e.token) || Given(e.email) || old(s.loginCredentials)) &&
        (Given(e.prefix) || old(s.prefixes) != [])
    ensures var e := Effective(env, args);
      r == Err(NoCredentials) <==>
        Reject(e.token, e.email, e.password).None? && !Given(e.token) && !Given(e.email) && !old(s.loginCredentials)
    ensures var e := Effective(env, args);
      r.Ok? ==>
        (NewCredentials in r.value <==>
          (Given(e.token) && Given(old(s.email))) || (Given(e.email) && Given(old(s.token))) ||
          (Given(e.email) && old(s.password) != e.password)) &&
        (NewPrefix in r.value <==> Given(e.prefix) && old(s.prefixes) != [] && old(s.prefixes) != [e.prefix.value])
    ensures r.Err? ==> s.prefixes == old(s.prefixes) && s.defaultAdmin == old(s.defaultAdmin) && s.defaultMod == old(s.defaultMod)
    ensures s.loginCredentials == old(s.loginCredentials)
  {
    var e := Effective(env, args);
    var warnings: set<Warning> := {};
    var credentials := ApplyCredentials(e.token, e.email, e.password, s);
    if credentials.Err? {
      return Err(credentials.error);
    }
    if credentials.value {
      warnings := warnings + {NewCredentials};
    }
    var prefix := ApplyPrefix(e.prefix, s);
    if prefix.Err? {
      return Err(prefix.error);
    }
    if prefix.value {
      warnings := warnings + {NewPrefix};
    }
    var admin := ReplaceRole(e.admin, defaults.adminRole, s.defaultAdmin);
    s.defaultAdmin := admin.0;
    if admin.1 {
      warnings := warnings + {NewAdmin};
    }
    var mod := ReplaceRole(e.mod, defaults.modRole, s.defaultMod);
    s.defaultMod := mod.0;
    if mod.1 {
      warnings := warnings + {NewMod};
    }
    return Ok(warnings);
  }
}
