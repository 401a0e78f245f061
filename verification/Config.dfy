/** internal/config/config.go: the configuration record, its defaults, and its file.

    The JSON codec is a pair of functions that undo each other; `Document` is what a decoded object
    says, with absent keys told apart where the code does. */
module Config {
  import opened Text
  import opened FileSystem

  const DEFAULT_SERVER_URL := "wss://proxy.distil.net/ws"
  const DEFAULT_TIMEOUT_MS: int := 30000
  const DEFAULT_LOG_LEVEL := "info"
  const DEFAULT_UPGRADE_CHECK_HOURS: int := 6

  datatype Settings = Settings(
    apiKey: string, email: string, legacyProxyKey: string, server: string, timeoutMS: int, logLevel: string,
    autoUpgrade: bool, upgradeCheckHours: int,
    autoUpgradeSet: bool)                 // not in the file: the file named auto_upgrade

  /** Keys with `omitempty` are absent when their value is zero; auto_upgrade is always written. */
  datatype Document = Document(
    apiKey: string, email: Option<string>, proxyKey: Option<string>, server: Option<string>,
    timeoutMS: Option<int>, logLevel: Option<string>,
    autoUpgrade: bool, autoUpgradeNamed: bool, upgradeCheckHours: Option<int>)

  datatype Codec = Codec(encode: Document -> Bytes, decode: Bytes -> Option<Document>) {
    ghost predicate Lossless() {
      forall doc :: decode(encode(doc)) == Some(doc)
    }
  }

  datatype Error =
    | NotFound | Unreadable | Undecodable
    | LegacyKey | BadAPIKey | NoServer | BadTimeout | NoLogLevel | BadCheckHours | BadLogLevel
    | Storage

  datatype Result = Ok(settings: Settings) | Err(error: Error)

  // ---- defaults and validation -------------------------------------------------------------

  function Defaulted(s: Settings): Settings {
    s.(server := if TrimSpace(s.server) == "" then DEFAULT_SERVER_URL else s.server,
       timeoutMS := if s.timeoutMS <= 0 then DEFAULT_TIMEOUT_MS else s.timeoutMS,
       logLevel := if TrimSpace(s.logLevel) == "" then DEFAULT_LOG_LEVEL else s.logLevel,
       autoUpgrade := s.autoUpgrade || !s.autoUpgradeSet,
       upgradeCheckHours := if s.upgradeCheckHours <= 0 then DEFAULT_UPGRADE_CHECK_HOURS else s.upgradeCheckHours)
  }

  class Object {
    var apiKey: string
    var email: string
    var legacyProxyKey: string
    var server: string
    var timeoutMS: int
    var logLevel: string
    var autoUpgrade: bool
    var upgradeCheckHours: int
    var autoUpgradeSet: bool

    function Value(): Settings
      reads this
    {
      Settings(apiKey, email, legacyProxyKey, server, timeoutMS, logLevel, autoUpgrade, upgradeCheckHours, autoUpgradeSet)
    }

    constructor (s: Settings)
      ensures Value() == s
    {
      apiKey, email, legacyProxyKey, server := s.apiKey, s.email, s.legacyProxyKey, s.server;
      timeoutMS, logLevel, autoUpgrade := s.timeoutMS, s.logLevel, s.autoUpgrade;
      upgradeCheckHours, autoUpgradeSet := s.upgradeCheckHours, s.autoUpgradeSet;
    }

    method ApplyDefaults()
      modifies this
      ensures Value() == Defaulted(old(Value()))
    {
      if TrimSpace(server) == "" {
        server := DEFAULT_SERVER_URL;
      }
      if timeoutMS <= 0 {
        timeoutMS := DEFAULT_TIMEOUT_MS;
      }
      if TrimSpace(logLevel) == "" {
        logLevel := DEFAULT_LOG_LEVEL;
      }
      if !autoUpgradeSet {
        autoUpgrade := true;
      }
      if upgradeCheckHours <= 0 {
        upgradeCheckHours := DEFAULT_UPGRADE_CHECK_HOURS;
      }
    }
  }

  predicate IsSupportedLogLevel(level: string) {
    ToLower(TrimSpace(level)) in {"debug", "info", "warn", "warning", "error"}
  }

  predicate ValidAPIKey(key: string) {
    (HasPrefix(key, "dk_") && |key| > 3) || (HasPrefix(key, "dpk_") && |key| > 4)
  }

  function Validate(s: Settings): Option<Error> {
    if TrimSpace(s.apiKey) == "" && TrimSpace(s.legacyProxyKey) != "" then Some(LegacyKey)
    else if !ValidAPIKey(s.apiKey) then Some(BadAPIKey)
    else if TrimSpace(s.server) == "" then Some(NoServer)
    else if s.timeoutMS <= 0 then Some(BadTimeout)
    else if TrimSpace(s.logLevel) == "" then Some(NoLogLevel)
    else if s.upgradeCheckHours <= 0 then Some(BadCheckHours)
    else if !IsSupportedLogLevel(s.logLevel) then Some(BadLogLevel)
    else None
  }

  // ---- the file ----------------------------------------------------------------------------

  function NonZero(s: string): Option<string> {
    if s == "" then None else Some(s)
  }

  function NonZeroInt(n: int): Option<int> {
    if n == 0 then None else Some(n)
  }

  function ToDocument(s: Settings): Document {
    Document(s.apiKey, NonZero(s.email), NonZero(s.legacyProxyKey), NonZero(s.server), NonZeroInt(s.timeoutMS),
             NonZero(s.logLevel), s.autoUpgrade, true, NonZeroInt(s.upgradeCheckHours))
  }

  function OrEmpty(o: Option<string>): string {
    if o.Some? then o.value else ""
  }

  function OrZero(o: Option<int>): int {
    if o.Some? then o.value else 0
  }

  function FromDocument(doc: Document): Settings {
    Settings(doc.apiKey, OrEmpty(doc.email), OrEmpty(doc.proxyKey), OrEmpty(doc.server), OrZero(doc.timeoutMS),
             OrEmpty(doc.logLevel), doc.autoUpgrade, OrZero(doc.upgradeCheckHours), doc.autoUpgradeNamed)
  }

  /** config.json and config.json.tmp. */
  datatype Store = Store(file: Option<Bytes>, tmp: Option<Bytes>)

  function AfterLoad(codec: Codec, st: Store, readable: bool): Result {
    if st.file.None? then Err(NotFound)
    else if !readable then Err(Unreadable)
    else
      match codec.decode(st.file.value)
      case None => Err(Undecodable)
      case Some(doc) =>
        var s := Defaulted(FromDocument(doc));
        match Validate(s)
        case Some(error) => Err(error)
        case None => Ok(s)
  }

  datatype SaveEnv = SaveEnv(dirs: bool, write: WriteFault, rename: Fault, chmod: Fault)

  /** What a successful save is meant to store. */
  function Stored(s: Settings): Settings {
    Defaulted(s).(legacyProxyKey := "")
  }

  /** The store after a save, and how the save ended; a crash is an end like any other. */
  function AfterSave(codec: Codec, st: Store, s: Settings, e: SaveEnv): (Store, Io<()>) {
    if Validate(Stored(s)).Some? || !e.dirs then (st, Io.Error(OtherCause))
    else
      var payload := codec.encode(ToDocument(Stored(s)));
      match e.write
      case NotOpened(cause) => (st, Io.Error(cause))
      case CutBefore => (st, Crash)
      case Torn(length) => (st.(tmp := Some(Prefix(payload, length))), Io.Error(OtherCause))
      case Cut(length) => (st.(tmp := Some(Prefix(payload, length))), Crash)
      case Written =>
        match e.rename
        case Fails(cause) => (st.(tmp := Some(payload)), Io.Error(cause))
        case Crashes => (st.(tmp := Some(payload)), Crash)
        case Works =>
          (Store(Some(payload), None),
           match e.chmod case Works => Done(()) case Fails(cause) => Io.Error(cause) case Crashes => Crash)
  }

  class ConfigFile {
    const codec: Codec
    var store: Store

    constructor (codec: Codec, store: Store)
      ensures this.codec == codec && this.store == store
    {
      this.codec := codec;
      this.store := store;
    }

    method Load(readable: bool) returns (r: Result)
      ensures r == AfterLoad(codec, store, readable)
    {
      if store.file.None? {
        return Err(NotFound);
      }
      if !readable {
        return Err(Unreadable);
      }
      var doc := codec.decode(store.file.value);
      if doc.None? {
        return Err(Undecodable);
      }
      var cfg := new Object(FromDocument(doc.value));
      cfg.ApplyDefaults();
      var error := Validate(cfg.Value());
      if error.Some? {
        return Err(error.value);
      }
      return Ok(cfg.Value());
    }

    method Save(s: Settings, e: SaveEnv) returns (io: Io<()>)
      modifies this
      ensures (store, io) == AfterSave(codec, old(store), s, e)
    {
      var cfg := new Object(s);
      cfg.ApplyDefaults();
      cfg.legacyProxyKey := "";
      if Validate(cfg.Value()).Some? || !e.dirs {
        return Io.Error(OtherCause);
      }
      var payload := codec.encode(ToDocument(cfg.Value()));
      match e.write
      case NotOpened(cause) => return Io.Error(cause);
      case CutBefore => return Crash;
      case Torn(length) =>
        store := store.(tmp := Some(Prefix(payload, length)));
        return Io.Error(OtherCause);
      case Cut(length) =>
        store := store.(tmp := Some(Prefix(payload, length)));
        return Crash;
      case Written =>
        store := store.(tmp := Some(payload));
        match e.rename {
          case Fails(cause) => return Io.Error(cause);
          case Crashes => return Crash;
          case Works =>
        }
        store := Store(store.tmp, None);
        match e.chmod {
          case Works => return Done(());
          case Fails(cause) => return Io.Error(cause);
          case Crashes => return Crash;
        }
    }
  }

  // ---- what the file keeps -----------------------------------------------------------------

  /** Applying the defaults again, after a trip through the file, changes nothing. */
  lemma DocumentRoundTrip(s: Settings)
    requires Validate(Stored(s)).None?
    ensures Defaulted(FromDocument(ToDocument(Stored(s)))) == Stored(s).(autoUpgradeSet := true)
  {
  }

  /** A successful save, then a load: the defaulted record, the legacy key cleared, and the choice of
      auto_upgrade explicit from now on. */
  lemma SaveThenLoad(codec: Codec, st: Store, s: Settings, e: SaveEnv)
    requires codec.Lossless() && AfterSave(codec, st, s, e).1.Done?
    ensures AfterLoad(codec, AfterSave(codec, st, s, e).0, true) == Ok(Stored(s).(autoUpgradeSet := true))
  {
    hide Validate, Defaulted, TrimSpace;
    DocumentRoundTrip(s);
    ValidateIgnoresSet(Stored(s));
    var doc := ToDocument(Stored(s));
    assert codec.decode(codec.encode(doc)) == Some(doc);
  }

  lemma ValidateIgnoresSet(s: Settings)
    ensures Validate(s.(autoUpgradeSet := true)) == Validate(s)
  {
  }

  /** From then on loading and saving is a fixed point: the file keeps its bytes, and saving what was
      loaded cannot be refused as invalid. */
  lemma LoadThenSaveIsFixed(codec: Codec, st: Store, s: Settings, e: SaveEnv, e': SaveEnv)
    requires codec.Lossless() && AfterSave(codec, st, s, e).1.Done?
    ensures var st' := AfterSave(codec, st, s, e).0;
      var loaded := AfterLoad(codec, st', true).settings;
      && Stored(loaded) == loaded
      && Validate(Stored(loaded)).None?
      && AfterSave(codec, st', loaded, e').0.file == st'.file
  {
    SaveThenLoad(codec, st, s, e);
    var loaded := Stored(s).(autoUpgradeSet := true);
    StoredIsFixed(s);
    ValidateIgnoresSet(Stored(s));
    hide Validate, Stored;
    assert ToDocument(loaded) == ToDocument(Stored(s));
  }

  lemma StoredIsFixed(s: Settings)
    ensures Stored(Stored(s).(autoUpgradeSet := true)) == Stored(s).(autoUpgradeSet := true)
  {
  }

  /** A crash or a failure at any step leaves the old file or the complete new one. */
  lemma SaveIsAtomic(codec: Codec, st: Store, s: Settings, e: SaveEnv)
    ensures var (st', io) := AfterSave(codec, st, s, e);
      && (st'.file == st.file || st'.file == Some(codec.encode(ToDocument(Stored(s)))))
      && (io.Done? ==> st'.file == Some(codec.encode(ToDocument(Stored(s)))) && Validate(Stored(s)).None?)
      && (Validate(Stored(s)).Some? ==> st' == st && io.Error?)
  {
    hide Validate, Stored;
  }

  // ---- whose values come out ---------------------------------------------------------------

  /** The key says something: it is there, and it is not blank, or positive. */
  predicate Given(o: Option<string>) {
    o.Some? && !Blank(o.value)
  }

  predicate Positive(o: Option<int>) {
    o.Some? && o.value > 0
  }

  /** A load that succeeds returns every key as the file gives it; a default stands only for what is absent,
      blank or not positive. */
  lemma LoadKeepsKeys(codec: Codec, st: Store, readable: bool)
    requires AfterLoad(codec, st, readable).Ok?
    ensures st.file.Some? && codec.decode(st.file.value).Some?
    ensures var doc, s := codec.decode(st.file.value).value, AfterLoad(codec, st, readable).settings;
      && s.apiKey == doc.apiKey
      && s.email == OrEmpty(doc.email)
      && s.legacyProxyKey == OrEmpty(doc.proxyKey)
      && s.server == (if Given(doc.server) then doc.server.value else "wss://proxy.distil.net/ws")
      && s.timeoutMS == (if Positive(doc.timeoutMS) then doc.timeoutMS.value else 30000)
      && s.logLevel == (if Given(doc.logLevel) then doc.logLevel.value else "info")
      && s.upgradeCheckHours == (if Positive(doc.upgradeCheckHours) then doc.upgradeCheckHours.value else 6)
      && s.autoUpgrade == (doc.autoUpgrade || !doc.autoUpgradeNamed)
      && s.autoUpgradeSet == doc.autoUpgradeNamed
  {
    hide Validate, TrimSpace;
    var doc := codec.decode(st.file.value).value;
    BlankIff(OrEmpty(doc.server));
    BlankIff(OrEmpty(doc.logLevel));
  }

  /** A save that succeeds, then a load: every field of the saved record comes back, except that a default
      stands for what is blank or not positive, and that the legacy key is gone. */
  lemma SaveKeepsFields(codec: Codec, st: Store, s: Settings, e: SaveEnv)
    requires codec.Lossless() && AfterSave(codec, st, s, e).1.Done?
    ensures AfterLoad(codec, AfterSave(codec, st, s, e).0, true).Ok?
    ensures var r := AfterLoad(codec, AfterSave(codec, st, s, e).0, true).settings;
      && r.apiKey == s.apiKey && r.email == s.email && r.legacyProxyKey == ""
      && r.server == (if Blank(s.server) then "wss://proxy.distil.net/ws" else s.server)
      && r.timeoutMS == (if s.timeoutMS <= 0 then 30000 else s.timeoutMS)
      && r.logLevel == (if Blank(s.logLevel) then "info" else s.logLevel)
      && r.upgradeCheckHours == (if s.upgradeCheckHours <= 0 then 6 else s.upgradeCheckHours)
      && r.autoUpgrade == (s.autoUpgrade || !s.autoUpgradeSet)
  {
    SaveThenLoad(codec, st, s, e);
    hide Validate, TrimSpace, AfterLoad, AfterSave;
    BlankIff(s.server);
    BlankIff(s.logLevel);
  }

  lemma ValidAPIKeyIff(key: string)
    ensures ValidAPIKey(key) <==> exists rest: string :: rest != "" && (key == "dk_" + rest || key == "dpk_" + rest)
  {
    if ValidAPIKey(key) {
      var rest := if HasPrefix(key, "dk_") then key[3..] else key[4..];
      assert rest != "" && (key == "dk_" + rest || key == "dpk_" + rest);
    }
  }

  /** The five names of levels, in any case and between any blanks. */
  lemma LogLevels(pre: string, level: string, post: string)
    requires Blank(pre) && Blank(post) && Trimmed(level)
    ensures IsSupportedLogLevel(pre + level + post) <==>
            ToLower(level) in ["debug", "info", "warn", "warning", "error"]
  {
    TrimSpaceOf(pre, level, post);
    hide TrimSpace;
  }

  predicate FineLevel(o: Option<string>) {
    Given(o) ==> IsSupportedLogLevel(o.value)
  }

  lemma DefaultLevelIsFine()
    ensures IsSupportedLogLevel(DEFAULT_LOG_LEVEL)
  {
    TrimSpaceOfTrimmed(DEFAULT_LOG_LEVEL);
    hide TrimSpace;
    assert ToLower(DEFAULT_LOG_LEVEL) == "info";
  }

  /** A load succeeds exactly when the file can be read and decoded, and has a good key and no log level that
      is unknown. A file of the old kind, with the legacy key alone, is refused as that. */
  lemma LoadSucceedsIff(codec: Codec, st: Store, readable: bool)
    ensures var r := AfterLoad(codec, st, readable);
      && (r == Err(NotFound) <==> st.file.None?)
      && (r.Ok? <==>
            && st.file.Some? && readable && codec.decode(st.file.value).Some?
            && ValidAPIKey(codec.decode(st.file.value).value.apiKey)
            && FineLevel(codec.decode(st.file.value).value.logLevel))
      && (r == Err(LegacyKey) <==>
            && st.file.Some? && readable && codec.decode(st.file.value).Some?
            && Blank(codec.decode(st.file.value).value.apiKey)
            && !Blank(OrEmpty(codec.decode(st.file.value).value.proxyKey)))
      && (r == Err(Unreadable) <==> st.file.Some? && !readable)
      && (r == Err(Undecodable) <==> st.file.Some? && readable && codec.decode(st.file.value).None?)
      && (r == Err(BadLogLevel) <==>
            && st.file.Some? && readable && codec.decode(st.file.value).Some?
            && ValidAPIKey(codec.decode(st.file.value).value.apiKey)
            && !FineLevel(codec.decode(st.file.value).value.logLevel))
      && (r.Err? ==> r.error in {NotFound, Unreadable, Undecodable, LegacyKey, BadAPIKey, BadLogLevel})
  {
    if st.file.Some? && codec.decode(st.file.value).Some? {
      DefaultedIsValidIff(FromDocument(codec.decode(st.file.value).value));
    }
    hide Validate, Defaulted, IsSupportedLogLevel, ValidAPIKey;
  }

  lemma DefaultedIsValidIff(s: Settings)
    ensures var error := Validate(Defaulted(s));
      && (error.None? <==> ValidAPIKey(s.apiKey) && (Blank(s.logLevel) || IsSupportedLogLevel(s.logLevel)))
      && (error == Some(LegacyKey) <==> Blank(s.apiKey) && !Blank(s.legacyProxyKey))
      && (error == Some(BadAPIKey) <==> !ValidAPIKey(s.apiKey) && (Blank(s.legacyProxyKey) || !Blank(s.apiKey)))
      && (error.Some? ==> error.value in {LegacyKey, BadAPIKey, BadLogLevel})
  {
    DefaultsAreBlankFree();
    DefaultLevelIsFine();
    BlankIff(s.apiKey);
    BlankIff(s.legacyProxyKey);
    BlankIff(s.logLevel);
    if ValidAPIKey(s.apiKey) {
      KeyIsNotBlank(s.apiKey);
    }
    hide TrimSpace, IsSupportedLogLevel, ValidAPIKey, Blank;
  }

  lemma KeyIsNotBlank(key: string)
    requires ValidAPIKey(key)
    ensures !Blank(key)
  {
    assert key[0] == 'd';
  }

  lemma DefaultsAreBlankFree()
    ensures TrimSpace(DEFAULT_SERVER_URL) != "" && TrimSpace(DEFAULT_LOG_LEVEL) != ""
  {
    TrimSpaceOfTrimmed(DEFAULT_SERVER_URL);
    TrimSpaceOfTrimmed(DEFAULT_LOG_LEVEL);
  }

  /** A save succeeds exactly when the record has a good key and no log level that is unknown, and no file
      operation fails. */
  lemma SaveSucceedsIff(codec: Codec, st: Store, s: Settings, e: SaveEnv)
    ensures AfterSave(codec, st, s, e).1.Done? <==>
            && ValidAPIKey(s.apiKey) && (Blank(s.logLevel) || IsSupportedLogLevel(s.logLevel))
            && e.dirs && e.write.Written? && e.rename.Works? && e.chmod.Works?
  {
    DefaultsAreBlankFree();
    DefaultLevelIsFine();
    BlankIff(s.logLevel);
    BlankIff(s.server);
    EmptyIsBlank();
    hide TrimSpace, IsSupportedLogLevel, ValidAPIKey;
  }

  /** What an auth that lands leaves behind: the new key, the new address or else the old one of the same
      key, and everything else as the old file had it, if that could be loaded. */
  lemma AuthKeepsRest(codec: Codec, st: Store, key: string, email: string, env: SaveEnv)
    requires codec.Lossless() && ValidAPIKey(TrimSpace(key)) && Lands(env) && env.chmod.Works?
    requires AfterLoad(codec, st, true).Ok?
    ensures var was := AfterLoad(codec, st, true).settings;
      var now := AfterLoad(codec, AfterRound(codec, st, Auth(key, email, true, env)), true);
      && now.Ok?
      && now.settings.apiKey == TrimSpace(key)
      && now.settings.email == (if !Blank(email) then TrimSpace(email)
                                else if TrimSpace(was.apiKey) == TrimSpace(key) then was.email else "")
      && now.settings.server == was.server && now.settings.timeoutMS == was.timeoutMS
      && now.settings.logLevel == was.logLevel && now.settings.upgradeCheckHours == was.upgradeCheckHours
      && now.settings.autoUpgrade == was.autoUpgrade
  {
    var loaded := AfterLoad(codec, st, true);
    var s := AuthSettings(loaded, key, email);
    AuthIsAccepted(codec, st, key, email, true);
    LoadedIsUsable(codec, st, true);
    BlankIff(email);
    BlankIff(loaded.settings.server);
    BlankIff(loaded.settings.logLevel);
    hide Validate, TrimSpace, ValidAPIKey, AfterLoad, Blank;
    assert AfterSave(codec, st, s, env).1.Done?;
    SaveKeepsFields(codec, st, s, env);
  }

  /** The two agree on everything that can be configured but the address. */
  predicate AgreeOnRest(a: Settings, b: Settings) {
    && a.apiKey == b.apiKey && a.server == b.server && a.timeoutMS == b.timeoutMS && a.logLevel == b.logLevel
    && a.upgradeCheckHours == b.upgradeCheckHours && a.autoUpgrade == b.autoUpgrade
  }

  lemma NewAddressIsKept(codec: Codec, st: Store, email: string, env: SaveEnv)
    requires codec.Lossless() && Lands(env) && env.chmod.Works? && AfterLoad(codec, st, true).Ok?
    ensures var was := AfterLoad(codec, st, true).settings;
      var now := AfterLoad(codec, AfterSave(codec, st, was.(email := email), env).0, true);
      now.Ok? && now.settings.email == email && AgreeOnRest(now.settings, was)
  {
    LoadedIsUsable(codec, st, true);
    hide TrimSpace, ValidAPIKey, IsSupportedLogLevel, Blank, AfterLoad, AfterSave;
    var s := AfterLoad(codec, st, true).settings.(email := email);
    SaveSucceedsIff(codec, st, s, env);
    SaveKeepsFields(codec, st, s, env);
  }

  /** And what a lookup of a new address leaves behind: that address, and everything else. */
  lemma LookupKeepsRest(codec: Codec, st: Store, email: string, env: SaveEnv)
    requires codec.Lossless() && Lands(env) && env.chmod.Works? && AfterLoad(codec, st, true).Ok?
    ensures var was := AfterLoad(codec, st, true).settings;
      var now := AfterLoad(codec, AfterRound(codec, st, Lookup(email, true, env)), true);
      && now.Ok?
      && now.settings.email == (if Blank(email) || TrimSpace(email) == TrimSpace(was.email) then was.email
                                else TrimSpace(email))
      && AgreeOnRest(now.settings, was)
  {
    BlankIff(email);
    hide TrimSpace, Blank, AfterLoad, AfterSave, Lands;
    NewAddressIsKept(codec, st, TrimSpace(email), env);
  }

  /** A loaded record has a key, a server, a level and numbers that can be used. */
  lemma LoadedIsUsable(codec: Codec, st: Store, readable: bool)
    requires AfterLoad(codec, st, readable).Ok?
    ensures var s := AfterLoad(codec, st, readable).settings;
      && ValidAPIKey(s.apiKey) && TrimSpace(s.apiKey) != ""
      && !Blank(s.server) && !Blank(s.logLevel) && s.timeoutMS > 0 && s.upgradeCheckHours > 0
      && (s.autoUpgrade || s.autoUpgradeSet) && IsSupportedLogLevel(s.logLevel)
  {
    var s := AfterLoad(codec, st, readable).settings;
    assert Validate(s).None?;
    BlankIff(s.server);
    BlankIff(s.logLevel);
    BlankIff(s.apiKey);
    KeyIsNotBlank(s.apiKey);
    hide TrimSpace, IsSupportedLogLevel, ValidAPIKey;
  }

  // ---- rounds of load, change, save --------------------------------------------------------

  const ZERO_SETTINGS := Settings("", "", "", "", 0, "", false, 0, false)

  /** What the auth command saves (internal/cli/commands.go): a load that fails, for whatever reason, is
      replaced by an empty record. */
  function AuthSettings(loaded: Result, key: string, email: string): Settings {
    var base := Defaulted(if loaded.Ok? then loaded.settings else ZERO_SETTINGS);
    var previous, apiKey, resolved := TrimSpace(base.apiKey), TrimSpace(key), TrimSpace(email);
    base.(apiKey := apiKey,
          email := if resolved != "" then resolved
                   else if previous != "" && previous != apiKey then "" else base.email)
  }

  /** The two commands that write the file: auth with a new key, and a lookup that has learnt another
      email address. */
  datatype Round =
    | Auth(key: string, email: string, readable: bool, env: SaveEnv)
    | Lookup(email: string, readable: bool, env: SaveEnv)

  function AfterRound(codec: Codec, st: Store, round: Round): Store {
    var loaded := AfterLoad(codec, st, round.readable);
    match round
    case Auth(key, email, _, env) =>
      if !ValidAPIKey(TrimSpace(key)) then st else AfterSave(codec, st, AuthSettings(loaded, key, email), env).0
    case Lookup(email, _, env) =>
      if loaded.Err? || TrimSpace(email) == "" || TrimSpace(email) == TrimSpace(loaded.settings.email) then st
      else AfterSave(codec, st, loaded.settings.(email := TrimSpace(email)), env).0
  }

  function AfterRounds(codec: Codec, st: Store, rounds: seq<Round>): Store {
    if rounds == [] then st
    else AfterRound(codec, AfterRounds(codec, st, rounds[..|rounds| - 1]), rounds[|rounds| - 1])
  }

  class Command {
    const file: ConfigFile

    constructor (file: ConfigFile)
      ensures this.file == file
    {
      this.file := file;
    }

    /** `saveAuthKeyWithVerificationKey`, up to the restart. */
    method SaveAuthKey(key: string, email: string, readable: bool, env: SaveEnv)
      modifies file
      ensures file.store == AfterRound(file.codec, old(file.store), Auth(key, email, readable, env))
    {
      hide AfterLoad, AfterSave, TrimSpace, ValidAPIKey, Defaulted;
      var apiKey := TrimSpace(key);
      if !ValidAPIKey(apiKey) {
        return;
      }
      var loaded := file.Load(readable);
      var cfg := new Object(if loaded.Ok? then loaded.settings else ZERO_SETTINGS);
      cfg.ApplyDefaults();
      var previous := TrimSpace(cfg.apiKey);
      cfg.apiKey := apiKey;
      var resolved := TrimSpace(email);
      if resolved != "" {
        cfg.email := resolved;
      } else if previous != "" && previous != apiKey {
        cfg.email := "";
      }
      var _ := file.Save(cfg.Value(), env);
    }
  }

  /** The file says auto_upgrade: false. */
  predicate OptedOut(codec: Codec, st: Store) {
    && st.file.Some? && codec.decode(st.file.value).Some?
    && codec.decode(st.file.value).value.autoUpgradeNamed && !codec.decode(st.file.value).value.autoUpgrade
  }

  /** The save gets as far as the rename. */
  predicate Lands(env: SaveEnv) {
    env.dirs && env.write.Written? && env.rename.Works?
  }

  /** An auth with a good key whose load fails and whose save lands. */
  predicate Loses(codec: Codec, st: Store, round: Round) {
    && round.Auth? && ValidAPIKey(TrimSpace(round.key))
    && AfterLoad(codec, st, round.readable).Err? && Lands(round.env)
  }

  /** A save that is accepted and lands stores the choice of the record, made explicit; any other leaves
      the choice as it was. */
  lemma SaveStoresChoice(codec: Codec, st: Store, s: Settings, e: SaveEnv)
    requires codec.Lossless()
    ensures OptedOut(codec, AfterSave(codec, st, s, e).0)
            <==> if Validate(Stored(s)).None? && Lands(e) then !s.autoUpgrade && s.autoUpgradeSet
                 else OptedOut(codec, st)
  {
    hide Validate, TrimSpace;
    var doc := ToDocument(Stored(s));
    assert codec.decode(codec.encode(doc)) == Some(doc);
  }

  lemma DefaultsAreValid(key: string)
    requires ValidAPIKey(key)
    ensures Validate(Stored(Defaulted(ZERO_SETTINGS).(apiKey := key))).None?
    ensures Defaulted(ZERO_SETTINGS).autoUpgrade && !Defaulted(ZERO_SETTINGS).autoUpgradeSet
    ensures Defaulted(ZERO_SETTINGS).apiKey == "" == Defaulted(ZERO_SETTINGS).email
  {
    assert TrimSpace("") == "";
    TrimSpaceOfTrimmed(DEFAULT_SERVER_URL);
    TrimSpaceOfTrimmed(DEFAULT_LOG_LEVEL);
    assert IsSupportedLogLevel(DEFAULT_LOG_LEVEL) by {
      assert ToLower(DEFAULT_LOG_LEVEL) == "info";
    }
    hide TrimSpace, IsSupportedLogLevel, ToLower;
  }

  lemma ValidateIgnoresEmail(s: Settings, email: string)
    ensures Validate(Stored(s.(email := email))) == Validate(Stored(s))
  {
    hide TrimSpace, IsSupportedLogLevel, ValidAPIKey;
  }

  /** What auth saves is accepted: a loaded record stays valid under a new key. */
  lemma AuthIsAccepted(codec: Codec, st: Store, key: string, email: string, readable: bool)
    requires ValidAPIKey(TrimSpace(key))
    ensures var loaded := AfterLoad(codec, st, readable);
      var s := AuthSettings(loaded, key, email);
      && Validate(Stored(s)).None?
      && (loaded.Ok? ==> s.autoUpgrade == loaded.settings.autoUpgrade || !loaded.settings.autoUpgradeSet)
      && s.autoUpgradeSet == (loaded.Ok? && loaded.settings.autoUpgradeSet)
      && (loaded.Err? ==> s.autoUpgrade)
  {
    var loaded := AfterLoad(codec, st, readable);
    var s := AuthSettings(loaded, key, email);
    if loaded.Err? {
      DefaultsAreValid(TrimSpace(key));
      hide TrimSpace, ValidAPIKey, Validate, Defaulted, AfterLoad;
      var t := Defaulted(ZERO_SETTINGS).(apiKey := TrimSpace(key));
      ValidateIgnoresEmail(t, s.email);
      assert s == t.(email := s.email);
    } else {
      LoadedStaysValid(codec, st, readable, TrimSpace(key));
      hide TrimSpace, ValidAPIKey, Validate, AfterLoad;
      var t := Defaulted(loaded.settings).(apiKey := TrimSpace(key));
      ValidateIgnoresEmail(t, s.email);
      assert s == t.(email := s.email);
    }
  }

  lemma LoadedStaysValid(codec: Codec, st: Store, readable: bool, key: string)
    requires AfterLoad(codec, st, readable).Ok? && ValidAPIKey(key)
    ensures var s := AfterLoad(codec, st, readable).settings;
      && Validate(Stored(Defaulted(s).(apiKey := key))).None?
      && Validate(Stored(s)).None?
  {
    hide TrimSpace, IsSupportedLogLevel, ValidAPIKey;
    var s := AfterLoad(codec, st, readable).settings;
    assert Validate(s).None?;
    hide AfterLoad;
    EmptyIsBlank();
  }

  lemma EmptyIsBlank()
    ensures TrimSpace("") == ""
  {
  }

  /** What a load reports is what the file says. */
  lemma LoadedChoice(codec: Codec, st: Store, readable: bool)
    requires AfterLoad(codec, st, readable).Ok?
    ensures var s := AfterLoad(codec, st, readable).settings;
      && (OptedOut(codec, st) <==> !s.autoUpgrade && s.autoUpgradeSet)
      && (!s.autoUpgrade ==> s.autoUpgradeSet)
  {
    hide Validate, TrimSpace;
  }

  /** Every round keeps the file's choice, whatever fails or crashes in it, unless it is an auth that
      loses it: after that one the file says true. */
  lemma RoundKeepsChoiceIff(codec: Codec, st: Store, round: Round)
    requires codec.Lossless()
    ensures OptedOut(codec, AfterRound(codec, st, round)) <==> OptedOut(codec, st) && !Loses(codec, st, round)
  {
    hide TrimSpace, ValidAPIKey, Validate, AfterLoad, AfterSave, OptedOut, Defaulted, Stored, AuthSettings;
    var loaded := AfterLoad(codec, st, round.readable);
    if loaded.Ok? {
      LoadedChoice(codec, st, round.readable);
    }
    match round
    case Auth(key, email, readable, env) =>
      if ValidAPIKey(TrimSpace(key)) {
        AuthIsAccepted(codec, st, key, email, readable);
        SaveStoresChoice(codec, st, AuthSettings(loaded, key, email), env);
      }
    case Lookup(email, readable, env) =>
      if loaded.Ok? {
        SaveStoresChoice(codec, st, loaded.settings.(email := TrimSpace(email)), env);
      }
  }

  predicate NeverLoses(codec: Codec, st: Store, rounds: seq<Round>) {
    rounds == [] ||
    var before := rounds[..|rounds| - 1];
    NeverLoses(codec, st, before) && !Loses(codec, AfterRounds(codec, st, before), rounds[|rounds| - 1])
  }

  /** An explicit auto_upgrade: false survives a run of rounds exactly when none of them is an auth whose
      load fails and whose save lands; and where it survives, every load that succeeds reports it. */
  lemma {:induction false} OptOutSurvives(codec: Codec, st: Store, rounds: seq<Round>)
    requires codec.Lossless() && OptedOut(codec, st)
    ensures OptedOut(codec, AfterRounds(codec, st, rounds)) <==> NeverLoses(codec, st, rounds)
    ensures var r := AfterLoad(codec, AfterRounds(codec, st, rounds), true);
      NeverLoses(codec, st, rounds) && r.Ok? ==> !r.settings.autoUpgrade && r.settings.autoUpgradeSet
  {
    hide OptedOut, AfterLoad, AfterRound, Loses;
    if rounds != [] {
      OptOutSurvives(codec, st, rounds[..|rounds| - 1]);
      RoundKeepsChoiceIff(codec, AfterRounds(codec, st, rounds[..|rounds| - 1]), rounds[|rounds| - 1]);
    }
    if AfterLoad(codec, AfterRounds(codec, st, rounds), true).Ok? {
      LoadedChoice(codec, AfterRounds(codec, st, rounds), true);
    }
  }

  /** {"auto_upgrade": false}: an opt-out made before there is a key. */
  const ONLY_OPT_OUT := Document("", None, None, None, None, None, false, true, None)

  const NO_FAULT := SaveEnv(true, Written, Works, Works)

  /** The first auth then loses it. */
  lemma FirstAuthLosesOptOut(codec: Codec)
    requires codec.Lossless()
    ensures var st := Store(Some(codec.encode(ONLY_OPT_OUT)), None);
      && OptedOut(codec, st)
      && AfterLoad(codec, st, true) == Err(BadAPIKey)
      && !OptedOut(codec, AfterRound(codec, st, Auth("dk_x", "", true, NO_FAULT)))
  {
    var st := Store(Some(codec.encode(ONLY_OPT_OUT)), None);
    assert codec.decode(codec.encode(ONLY_OPT_OUT)) == Some(ONLY_OPT_OUT);
    EmptyIsBlank();
    TrimSpaceOfTrimmed("dk_x");
    assert ValidAPIKey("dk_x") && !ValidAPIKey("");
    hide TrimSpace, ValidAPIKey;
    assert OptedOut(codec, st) && AfterLoad(codec, st, true) == Err(BadAPIKey);
    hide AfterLoad, OptedOut;
    RoundKeepsChoiceIff(codec, st, Auth("dk_x", "", true, NO_FAULT));
  }

  /** A choice of false is stored exactly when it was marked as set: a record built in memory without
      the mark is saved with auto_upgrade true. */
  lemma ChoiceIsStoredIff(codec: Codec, st: Store, s: Settings, e: SaveEnv)
    requires codec.Lossless() && AfterSave(codec, st, s, e).1.Done? && !s.autoUpgrade
    ensures OptedOut(codec, AfterSave(codec, st, s, e).0) <==> s.autoUpgradeSet
  {
  }
}
