/**
 Start-up of the desktop shell's server (electron/main.js): the environment is overlaid
 on the persisted file, missing secrets are generated and the file is written back.
 */
module EnvBootstrap {
  import opened JsText
  import opened JsObject
  import opened EnvFile

  /** The variables the start-up looks at. */
  datatype Names = Names(jwt: string, key: string, version: string, api: string, bootstrapped: string)

  const NAMES := Names("JWT_SECRET", "STORAGE_ENCRYPTION_KEY", "STORAGE_ENCRYPTION_KEY_VERSION",
                       "API_KEY_SECRET", "OMNIROUTE_BOOTSTRAPPED")
  const HEADER := "# Auto-generated by OmniRoute bootstrap"
  const VERSION := "v1"

  predicate Secret(v: string) { v != "" && Trimmed(v) && '\n' !in v }

  ghost predicate Usable(names: Names) {
    && names.jwt != names.key && names.jwt != names.version && names.jwt != names.api
    && names.key != names.version && names.key != names.api && names.version != names.api
    && names.bootstrapped !in {names.jwt, names.key, names.version, names.api}
    && forall n :: n in {names.jwt, names.key, names.version, names.api} ==> Printable((n, VERSION))
  }

  /** Hexadecimal text of random bytes. */
  datatype Random = Random(jwt: string, key: string, api: string)

  predicate Fresh(random: Random) { Secret(random.jwt) && Secret(random.key) && Secret(random.api) }

  // ----- the start-up on values -----

  /** `{ ...base, ...top }` */
  function Overlay(base: Env, top: Env): Env {
    if top == [] then base
    else Put(Overlay(base, top[..|top| - 1]), top[|top| - 1].0, top[|top| - 1].1)
  }

  predicate Missing(env: Env, key: string) { Get(env, key).GetOr("") == "" }

  datatype State = State(server: Env, persisted: Env, changed: bool) {
    function Store(key: string, value: string): State {
      State(Put(server, key, value), Put(persisted, key, value), true)
    }

    function Require(key: string, value: string): State {
      if Missing(server, key) then Store(key, value) else this
    }

    /** The encryption key comes with its version. */
    function RequireKey(names: Names, value: string): State {
      if Missing(server, names.key) then Store(names.key, value).Store(names.version, VERSION) else this
    }
  }

  /** What stays the same between starts. */
  datatype Machine = Machine(names: Names, preferred: Env, process: Env) {
    function Given(): Env { Overlay(preferred, process) }

    function Initial(persisted: Env): State {
      State(Overlay(Overlay(persisted, preferred), process), persisted, false)
    }

    /** The state once all secrets are there, or None when the start is refused. */
    function Secrets(persisted: Env, random: Random, encrypted: bool): Option<State> {
      var s := Initial(persisted).Require(names.jwt, random.jwt);
      if Missing(s.server, names.key) && encrypted then None
      else Some(s.RequireKey(names, random.key).Require(names.api, random.api))
    }

    /** The object read from the file. */
    function Read(file: Option<string>): Env { if file.Some? then Parse(file.value) else [] }

    /** The file after a start; `saved` tells whether the write succeeded. */
    function Written(file: Option<string>, state: Option<State>, saved: bool): Option<string> {
      if state.Some? && state.value.changed && saved then Some(Print(HEADER, state.value.persisted)) else file
    }

    ghost predicate Valid() { Usable(names) && DistinctKeys(preferred) && DistinctKeys(process) }
  }

  function ServerEnv(names: Names, state: State): Env {
    if state.changed then Put(state.server, names.bootstrapped, "true") else state.server
  }

  /** The start-up. Gives None when it is refused; otherwise the server's environment. */
  method Start(machine: Machine, file: Option<string>, random: Random, encrypted: bool, saved: bool)
    returns (server: Option<Env>, written: Option<string>)
    ensures var state := machine.Secrets(machine.Read(file), random, encrypted);
      && written == machine.Written(file, state, saved)
      && server == if state.Some? then Some(ServerEnv(machine.names, state.value)) else None
  {
    var names := machine.names;
    var persisted := ParseEnvFile(file);
    var serverEnv := Overlay(Overlay(persisted, machine.preferred), machine.process);
    var changed := false;
    if Missing(serverEnv, names.jwt) {
      serverEnv, persisted := Put(serverEnv, names.jwt, random.jwt), Put(persisted, names.jwt, random.jwt);
      changed := true;
    }
    if Missing(serverEnv, names.key) {
      if encrypted { return None, file; }
      serverEnv, persisted := Put(serverEnv, names.key, random.key), Put(persisted, names.key, random.key);
      serverEnv, persisted := Put(serverEnv, names.version, VERSION), Put(persisted, names.version, VERSION);
      changed := true;
    }
    if Missing(serverEnv, names.api) {
      serverEnv, persisted := Put(serverEnv, names.api, random.api), Put(persisted, names.api, random.api);
      changed := true;
    }
    written := file;
    if changed {
      serverEnv := Put(serverEnv, names.bootstrapped, "true");
      if saved { written := Some(Print(HEADER, persisted)); }
    }
    server := Some(serverEnv);
  }

  // ----- what each variable ends up as -----

  lemma {:induction false} OverlayIs(base: Env, top: Env)
    requires DistinctKeys(base) && DistinctKeys(top)
    ensures DistinctKeys(Overlay(base, top))
    ensures forall k :: Get(Overlay(base, top), k) == if Get(top, k).Some? then Get(top, k) else Get(base, k)
  {
    if top == [] {
      assert forall k :: Get(top, k).None?;
    } else {
      var n := |top| - 1;
      var init, last := top[..n], top[n];
      OverlayIs(base, init);
      PutIs(Overlay(base, init), last.0, last.1);
      PutIs(init, last.0, last.1);
      assert Put(init, last.0, last.1) == init + [last] == top;
    }
  }

  /** The value a variable has before anything is generated. */
  function Seen(given: Env, persisted: Env, key: string): Option<string> {
    if Get(given, key).Some? then Get(given, key) else Get(persisted, key)
  }

  lemma InitialIs(machine: Machine, persisted: Env)
    requires machine.Valid() && DistinctKeys(persisted)
    ensures var s := machine.Initial(persisted);
      DistinctKeys(s.server) && DistinctKeys(machine.Given())
      && forall k :: Get(s.server, k) == Seen(machine.Given(), persisted, k)
  {
    OverlayIs(persisted, machine.preferred);
    OverlayIs(Overlay(persisted, machine.preferred), machine.process);
    OverlayIs(machine.preferred, machine.process);
  }

  /** Both environments keep their shape, and the persisted one stays printable. */
  ghost predicate Sound(s: State) { DistinctKeys(s.server) && PrintableEnv(s.persisted) }

  lemma StoreIs(s: State, key: string, value: string, k: string)
    requires Sound(s) && Printable((key, VERSION)) && Secret(value)
    ensures var r := s.Store(key, value);
      && Sound(r)
      && Get(r.server, k) == (if k == key then Some(value) else Get(s.server, k))
      && Get(r.persisted, k) == if k == key then Some(value) else Get(s.persisted, k)
  {
    PutIs(s.server, key, value);
    PutIs(s.persisted, key, value);
    assert Printable((key, value));
  }

  predicate Plain(name: string) {
    name != "" && forall i :: 0 <= i < |name| ==> name[i] == '_' || 'A' <= name[i] <= 'Z'
  }

  lemma PlainIsPrintable(name: string)
    requires Plain(name)
    ensures Printable((name, VERSION))
  {
  }

  lemma NamesArePlain()
    ensures Plain(NAMES.jwt) && Plain(NAMES.api)
  {
  }

  lemma KeyNameIsPlain()
    ensures Plain(NAMES.key)
  {
  }

  lemma VersionNameIsPlain()
    ensures Plain(NAMES.version)
  {
  }

  lemma NamesDiffer(jwt: string, key: string, version: string, api: string, bootstrapped: string)
    requires |jwt| == 10 && |key| == 22 && |version| == 30 && |api| == 14 && |bootstrapped| == 22
    requires key[0] == 'S' && bootstrapped[0] == 'O'
    ensures jwt != key && jwt != version && jwt != api && key != version && key != api && version != api
    ensures bootstrapped !in {jwt, key, version, api}
  {
  }

  lemma NamesAreUsable()
    ensures Usable(NAMES)
  {
    NamesArePlain();
    KeyNameIsPlain();
    VersionNameIsPlain();
    var n := NAMES;
    NamesDiffer(n.jwt, n.key, n.version, n.api, n.bootstrapped);
    PlainIsPrintable(n.jwt);
    PlainIsPrintable(n.key);
    PlainIsPrintable(n.version);
    PlainIsPrintable(n.api);
  }

  lemma HeaderIsHeader()
    ensures IsHeader(HEADER)
  {
  }

  /** The value a start generates for a variable, if any, judged by the overlaid environment. */
  function Generated(names: Names, server: Env, random: Random, k: string): Option<string> {
    if k == names.jwt && Missing(server, names.jwt) then Some(random.jwt)
    else if k == names.key && Missing(server, names.key) then Some(random.key)
    else if k == names.version && Missing(server, names.key) then Some(VERSION)
    else if k == names.api && Missing(server, names.api) then Some(random.api)
    else None
  }

  predicate Incomplete(names: Names, server: Env) {
    Missing(server, names.jwt) || Missing(server, names.key) || Missing(server, names.api)
  }

  lemma RequireIs(s: State, key: string, value: string, k: string)
    requires Sound(s) && Printable((key, VERSION)) && Secret(value)
    ensures var r, gone := s.Require(key, value), Missing(s.server, key);
      && Sound(r) && r.changed == (s.changed || gone)
      && Get(r.server, k) == (if k == key && gone then Some(value) else Get(s.server, k))
      && Get(r.persisted, k) == if k == key && gone then Some(value) else Get(s.persisted, k)
  {
    StoreIs(s, key, value, k);
  }

  lemma RequireKeyIs(s: State, names: Names, value: string, k: string)
    requires Sound(s) && Usable(names) && Secret(value)
    ensures var r, gone := s.RequireKey(names, value), Missing(s.server, names.key);
      var put := if k == names.version then Some(VERSION) else if k == names.key then Some(value) else None;
      && Sound(r) && r.changed == (s.changed || gone)
      && Get(r.server, k) == (if gone && put.Some? then put else Get(s.server, k))
      && Get(r.persisted, k) == if gone && put.Some? then put else Get(s.persisted, k)
  {
    StoreIs(s, names.key, value, k);
    StoreIs(s.Store(names.key, value), names.version, VERSION, k);
  }

  lemma MissingIs(names: Names, i: State, random: Random)
    requires Usable(names) && Sound(i) && Fresh(random)
    ensures var s1 := i.Require(names.jwt, random.jwt); var s2 := s1.RequireKey(names, random.key);
      && Sound(s1) && Sound(s2) && Sound(s2.Require(names.api, random.api))
      && Missing(s1.server, names.key) == Missing(i.server, names.key)
      && Missing(s2.server, names.api) == Missing(i.server, names.api)
  {
    var s1 := i.Require(names.jwt, random.jwt);
    RequireIs(i, names.jwt, random.jwt, names.key);
    RequireIs(i, names.jwt, random.jwt, names.api);
    RequireKeyIs(s1, names, random.key, names.api);
    RequireIs(s1.RequireKey(names, random.key), names.api, random.api, names.api);
  }

  lemma SecretsStep(names: Names, i: State, random: Random, s1: State, s2: State, s3: State, k: string)
    requires Usable(names) && Sound(i) && Sound(s1) && Sound(s2) && Fresh(random) && !i.changed
    requires s1 == i.Require(names.jwt, random.jwt) && s2 == s1.RequireKey(names, random.key)
    requires s3 == s2.Require(names.api, random.api)
    requires Missing(s1.server, names.key) == Missing(i.server, names.key)
    requires Missing(s2.server, names.api) == Missing(i.server, names.api)
    ensures var g := Generated(names, i.server, random, k);
      && s3.changed == Incomplete(names, i.server)
      && Get(s3.server, k) == (if g.Some? then g else Get(i.server, k))
      && Get(s3.persisted, k) == if g.Some? then g else Get(i.persisted, k)
  {
    RequireIs(i, names.jwt, random.jwt, k);
    RequireKeyIs(s1, names, random.key, k);
    RequireIs(s2, names.api, random.api, k);
  }

  /** The secrets are settled by changing exactly the generated variables, in both environments. */
  lemma SecretsAre(machine: Machine, persisted: Env, random: Random, encrypted: bool, k: string)
    requires machine.Valid() && PrintableEnv(persisted) && Fresh(random)
    ensures var names, i, s := machine.names, machine.Initial(persisted).server,
        machine.Secrets(persisted, random, encrypted);
      var g := Generated(names, i, random, k);
      && (s.None? <==> Missing(i, names.key) && encrypted)
      && (s.Some? ==>
        && Sound(s.value) && s.value.changed == Incomplete(names, i)
        && Get(s.value.server, k) == (if g.Some? then g else Get(i, k))
        && Get(s.value.persisted, k) == if g.Some? then g else Get(persisted, k))
  {
    var names, i := machine.names, machine.Initial(persisted);
    InitialIs(machine, persisted);
    MissingIs(names, i, random);
    var s1 := i.Require(names.jwt, random.jwt);
    var s2 := s1.RequireKey(names, random.key);
    SecretsStep(names, i, random, s1, s2, s2.Require(names.api, random.api), k);
  }

  // ----- starting again -----

  /** The outside environment sets some secret to the empty string. */
  predicate Blanked(machine: Machine) {
    var given := machine.Given();
    || Get(given, machine.names.jwt) == Some("") || Get(given, machine.names.key) == Some("")
    || Get(given, machine.names.api) == Some("")
  }

  /** What the file of a finished start reads as. */
  lemma SavedFileReads(machine: Machine, file: Option<string>, random: Random, encrypted: bool)
    requires machine.Valid() && Fresh(random)
    ensures PrintableEnv(machine.Read(file))
    ensures var s := machine.Secrets(machine.Read(file), random, encrypted);
      s.Some? ==> machine.Read(machine.Written(file, s, true)) == s.value.persisted
  {
    if file.Some? { ParsedIsPrintable(file.value); }
    var persisted := machine.Read(file);
    var s := machine.Secrets(persisted, random, encrypted);
    SecretsAre(machine, persisted, random, encrypted, machine.names.jwt);
    if s.Some? {
      HeaderIsHeader();
      PrintedParses(HEADER, s.value.persisted);
    }
  }

  lemma SeenAgain(machine: Machine, persisted: Env, persisted': Env, k: string)
    requires machine.Valid() && DistinctKeys(persisted) && DistinctKeys(persisted')
    ensures Get(machine.Initial(persisted).server, k) == Seen(machine.Given(), persisted, k)
    ensures Get(machine.Initial(persisted').server, k) == Seen(machine.Given(), persisted', k)
  {
    InitialIs(machine, persisted);
    InitialIs(machine, persisted');
  }

  /** A missing secret is generated, and not empty. */
  lemma SecretIsGenerated(names: Names, server: Env, random: Random, k: string)
    requires Usable(names) && Fresh(random) && k in {names.jwt, names.key, names.api}
    ensures var g := Generated(names, server, random, k);
      (g.Some? <==> Missing(server, k)) && (g.Some? ==> g.value != "")
  {
  }

  /** Once generated, a variable is missing only where the outside blanks it. */
  lemma GeneratedIsSeen(given: Env, persisted: Env, persisted': Env, k: string, g: Option<string>)
    requires Get(persisted', k) == if g.Some? then g else Get(persisted, k)
    requires (g.Some? <==> Seen(given, persisted, k).GetOr("") == "") && (g.Some? ==> g.value != "")
    ensures Seen(given, persisted', k).GetOr("") == "" <==> Get(given, k) == Some("")
  {
  }

  /** With the file of a finished start, a secret is missing exactly when the outside blanks it. */
  lemma MissingAgain(machine: Machine, persisted: Env, random: Random, encrypted: bool, k: string)
    requires machine.Valid() && PrintableEnv(persisted) && Fresh(random)
    requires k in {machine.names.jwt, machine.names.key, machine.names.api}
    requires machine.Secrets(persisted, random, encrypted).Some?
    ensures var s := machine.Secrets(persisted, random, encrypted).value;
      Missing(machine.Initial(s.persisted).server, k) <==> Get(machine.Given(), k) == Some("")
  {
    SecretsAre(machine, persisted, random, encrypted, k);
    var s := machine.Secrets(persisted, random, encrypted).value;
    SeenAgain(machine, persisted, s.persisted, k);
    SecretIsGenerated(machine.names, machine.Initial(persisted).server, random, k);
    GeneratedIsSeen(machine.Given(), persisted, s.persisted, k,
                    Generated(machine.names, machine.Initial(persisted).server, random, k));
  }

  /** The start went through and generated nothing. */
  predicate Quiet(state: Option<State>) { state.Some? && !state.value.changed }

  /**
   After a start that went through, the next one on the same machine generates nothing exactly
   when the first generated nothing, or its secrets reached the file and none of them is blanked.
   */
  lemma NextStartIsQuietExactly(machine: Machine, file: Option<string>, random: Random, encrypted: bool, saved: bool,
                                random': Random, encrypted': bool)
    requires machine.Valid() && Fresh(random) && Fresh(random')
    requires machine.Secrets(machine.Read(file), random, encrypted).Some?
    ensures var s := machine.Secrets(machine.Read(file), random, encrypted);
      Quiet(machine.Secrets(machine.Read(machine.Written(file, s, saved)), random', encrypted'))
      <==> !s.value.changed || (saved && !Blanked(machine))
  {
    var persisted := machine.Read(file);
    var s := machine.Secrets(persisted, random, encrypted).value;
    SavedFileReads(machine, file, random, encrypted);
    SecretsAre(machine, persisted, random, encrypted, machine.names.jwt);
    SecretsAre(machine, persisted, random', encrypted', machine.names.jwt);
    if saved && s.changed {
      SecretsAre(machine, s.persisted, random', encrypted', machine.names.jwt);
      MissingAgain(machine, persisted, random, encrypted, machine.names.jwt);
      MissingAgain(machine, persisted, random, encrypted, machine.names.key);
      MissingAgain(machine, persisted, random, encrypted, machine.names.api);
    }
  }

  lemma ServerEnvIs(names: Names, s: State, k: string)
    requires DistinctKeys(s.server)
    ensures Get(ServerEnv(names, s), k) == if s.changed && k == names.bootstrapped then Some("true")
        else Get(s.server, k)
  {
    PutIs(s.server, names.bootstrapped, "true");
  }

  /**
   What a start that is not refused hands to the server: the environment as it was overlaid,
   with the generated variables and, if there are any, the flag that tells so. The flag is not persisted.
   */
  lemma StartGives(machine: Machine, persisted: Env, random: Random, encrypted: bool, k: string)
    requires machine.Valid() && PrintableEnv(persisted) && Fresh(random)
    ensures var names, i, s := machine.names, machine.Initial(persisted).server,
        machine.Secrets(persisted, random, encrypted);
      var g := Generated(names, i, random, k);
      s.Some? ==>
        && Get(ServerEnv(names, s.value), k)
             == (if Incomplete(names, i) && k == names.bootstrapped then Some("true") else if g.Some? then g
                 else Get(i, k))
        && Get(s.value.persisted, k) == if g.Some? then g else Get(persisted, k)
  {
    SecretsAre(machine, persisted, random, encrypted, k);
    var s := machine.Secrets(persisted, random, encrypted);
    if s.Some? { ServerEnvIs(machine.names, s.value, k); }
  }

  // ----- one start, spelled out -----

  /** What a variable is before anything is generated: the process counts first, then the preferred file. */
  function Outside(machine: Machine, persisted: Env, k: string): Option<string> {
    if Get(machine.process, k).Some? then Get(machine.process, k)
    else if Get(machine.preferred, k).Some? then Get(machine.preferred, k)
    else Get(persisted, k)
  }

  predicate Gone(machine: Machine, persisted: Env, k: string) { Outside(machine, persisted, k) in {None, Some("")} }

  lemma OutsideIs(machine: Machine, persisted: Env, k: string)
    requires machine.Valid() && DistinctKeys(persisted)
    ensures Get(machine.Initial(persisted).server, k) == Outside(machine, persisted, k)
    ensures Missing(machine.Initial(persisted).server, k) <==> Gone(machine, persisted, k)
  {
    OverlayIs(persisted, machine.preferred);
    OverlayIs(Overlay(persisted, machine.preferred), machine.process);
  }

  /**
   What a start makes of each variable: a secret that is missing or empty gets its random text, the version is set
   along with the key, the flag is raised when anything was missing, and all other variables are as they were. All
   but the flag is stored. The start is refused exactly when the key is missing and something is encrypted already.
   */
  lemma StartSets(machine: Machine, persisted: Env, random: Random, encrypted: bool, k: string)
    requires machine.Valid() && PrintableEnv(persisted) && Fresh(random)
    ensures var names, s := machine.names, machine.Secrets(persisted, random, encrypted);
      var jwt, key, api := Gone(machine, persisted, names.jwt), Gone(machine, persisted, names.key),
                           Gone(machine, persisted, names.api);
      && (s.None? <==> key && encrypted)
      && (s.Some? ==>
        var server, stored := ServerEnv(names, s.value), s.value.persisted;
        && (k == names.jwt && jwt ==> Get(server, k) == Get(stored, k) == Some(random.jwt))
        && (k == names.key && key ==> Get(server, k) == Get(stored, k) == Some(random.key))
        && (k == names.version && key ==> Get(server, k) == Get(stored, k) == Some("v1"))
        && (k == names.api && api ==> Get(server, k) == Get(stored, k) == Some(random.api))
        && (k == names.bootstrapped && (jwt || key || api) ==>
              Get(server, k) == Some("true") && Get(stored, k) == Get(persisted, k))
        && (!(k == names.jwt && jwt) && !(k == names.key && key) && !(k == names.version && key)
            && !(k == names.api && api) && !(k == names.bootstrapped && (jwt || key || api)) ==>
              Get(server, k) == Outside(machine, persisted, k) && Get(stored, k) == Get(persisted, k)))
  {
    var names := machine.names;
    SecretsAre(machine, persisted, random, encrypted, k);
    StartGives(machine, persisted, random, encrypted, k);
    OutsideIs(machine, persisted, k);
    OutsideIs(machine, persisted, names.jwt);
    OutsideIs(machine, persisted, names.key);
    OutsideIs(machine, persisted, names.api);
  }

  // ----- the next start -----

  /** The first start overrode a version of the key set from outside, while generating the key. */
  predicate OverrodeVersion(machine: Machine, initial: Env) {
    var version := Get(machine.Given(), machine.names.version);
    Missing(initial, machine.names.key) && version.Some? && version != Some(VERSION)
  }

  /** The first start raised the flag that it generated something, and it was not up from outside. */
  predicate RaisedFlag(names: Names, initial: Env) {
    Incomplete(names, initial) && Get(initial, names.bootstrapped) != Some("true")
  }

  lemma QuietStartGives(machine: Machine, persisted: Env, random: Random, encrypted: bool, k: string)
    requires machine.Valid() && PrintableEnv(persisted) && Fresh(random)
    requires Quiet(machine.Secrets(persisted, random, encrypted))
    ensures var s := machine.Secrets(persisted, random, encrypted).value;
      Get(ServerEnv(machine.names, s), k) == Get(machine.Initial(persisted).server, k)
  {
    SecretsAre(machine, persisted, random, encrypted, k);
  }

  /** The value of a variable with the first start, and with one that finds what the first generated. */
  lemma AgreesExactly(names: Names, initial: Env, random: Random, k: string, given: Option<string>,
                      persisted: Option<string>)
    requires Usable(names) && Fresh(random) && Get(initial, k) == if given.Some? then given else persisted
    requires k in {names.jwt, names.key, names.api} ==> given != Some("")
    ensures var g := Generated(names, initial, random, k);
      var first := if Incomplete(names, initial) && k == names.bootstrapped then Some("true")
                   else if g.Some? then g else Get(initial, k);
      var next := if given.Some? then given else if g.Some? then g else persisted;
      next == first
      <==> && !(k == names.version && Missing(initial, names.key) && given.Some? && given != Some(VERSION))
           && !(k == names.bootstrapped && RaisedFlag(names, initial))
  {
  }

  /**
   The server of a quiet next start sees every variable as the server before it did, with two
   exceptions: a version of the key that the first start overrode, and the flag it raised.
   */
  lemma NextStartSees(machine: Machine, file: Option<string>, random: Random, encrypted: bool,
                      random': Random, encrypted': bool, k: string)
    requires machine.Valid() && Fresh(random) && Fresh(random')
    ensures var names, s := machine.names, machine.Secrets(machine.Read(file), random, encrypted);
      var s' := machine.Secrets(machine.Read(machine.Written(file, s, true)), random', encrypted');
      var initial := machine.Initial(machine.Read(file)).server;
      s.Some? && !Blanked(machine) ==>
        && s'.Some?
        && (Get(ServerEnv(names, s'.value), k) == Get(ServerEnv(names, s.value), k)
            <==> && !(k == names.version && OverrodeVersion(machine, initial))
                 && !(k == names.bootstrapped && RaisedFlag(names, initial)))
  {
    var persisted := machine.Read(file);
    SavedFileReads(machine, file, random, encrypted);
    SecretsAre(machine, persisted, random, encrypted, k);
    StartGives(machine, persisted, random, encrypted, k);
    var state := machine.Secrets(persisted, random, encrypted);
    if state.Some? && !Blanked(machine) {
      var stored := state.value.persisted;
      NextStartIsQuietExactly(machine, file, random, encrypted, true, random', encrypted');
      QuietStartGives(machine, stored, random', encrypted', k);
      SeenAgain(machine, persisted, stored, k);
      AgreesExactly(machine.names, machine.Initial(persisted).server, random, k, Get(machine.Given(), k),
          Get(persisted, k));
    }
  }

  // ----- all later starts -----

  /** What differs between starts. */
  datatype Chance = Chance(random: Random, encrypted: bool, saved: bool)

  function Restart(machine: Machine, file: Option<string>, chance: Chance): Option<string> {
    machine.Written(file, machine.Secrets(machine.Read(file), chance.random, chance.encrypted), chance.saved)
  }

  /** The file after a run of starts. */
  function FileAfter(machine: Machine, file: Option<string>, starts: seq<Chance>): Option<string> {
    if starts == [] then file
    else Restart(machine, FileAfter(machine, file, starts[..|starts| - 1]), starts[|starts| - 1])
  }

  /** Once a start has stored its secrets and none is blanked, no later start writes or generates anything. */
  lemma {:induction false} LaterStartsAreQuiet(machine: Machine, file: Option<string>, first: Chance,
                                               starts: seq<Chance>)
    requires machine.Valid() && !Blanked(machine) && Fresh(first.random) && first.saved
    requires machine.Secrets(machine.Read(file), first.random, first.encrypted).Some?
    requires forall i :: 0 <= i < |starts| ==> Fresh(starts[i].random)
    ensures FileAfter(machine, Restart(machine, file, first), starts) == Restart(machine, file, first)
    ensures starts != [] ==> var last := starts[|starts| - 1];
      Quiet(machine.Secrets(machine.Read(Restart(machine, file, first)), last.random, last.encrypted))
  {
    if starts == [] {
    } else {
      var last := starts[|starts| - 1];
      LaterStartsAreQuiet(machine, file, first, starts[..|starts| - 1]);
      NextStartIsQuietExactly(machine, file, first.random, first.encrypted, true, last.random, last.encrypted);
    }
  }
}
