/**
 Moving secrets from the profile file to the credential store, as `load_auth_if_needed` and
 `restore_or_migrate_*` in `apps/desktop/src-tauri/src/controller.rs` do with `Config::save` of
 `src/config.rs`, and writing a new profile, as `auth_configure` does.

 Both touch the disk one step at a time and give up at the first step that fails, so every way the steps
 can fail, before or after taking effect, is also every point at which a crash can cut them.
 */
module SecretMigration {
  import opened Wrappers

  datatype SecretName = PrivateKey | TotpSecret | AccountPassword | Socks5Password

  type Secrets = map<SecretName, string>

  /** The profile: absent, readable with some secrets still in it, or cut short while being written. */
  datatype File = Missing | Readable(secrets: Secrets, publicKey: Option<string>) | Torn

  datatype Disk = Disk(file: File, store: Secrets)

  /** `Late` is a failure, or a crash, after the effect. */
  datatype Fault = NoFault | Refused | Late

  datatype SaveFault = Saved | NotSaved | SavedLate | CutShort

  /** `derived` is the public key that belongs to the profile's private key, if that is one. */
  datatype Faults = Faults(
    read: bool, derived: Option<string>,
    key: Fault, totp: Fault, account: Fault, socks5: Fault, save: SaveFault, client: bool)

  function NoFaults(derived: Option<string>): Faults {
    Faults(false, derived, NoFault, NoFault, NoFault, NoFault, Saved, false)
  }

  datatype LoadError = AuthStorageFailed | SecretStorageFailed | SecretMissing | AuthClientFailed

  /** The configuration in memory; `persistSecrets` is false for every desktop profile. */
  datatype Config = Config(secrets: Secrets, publicKey: Option<string>, persistSecrets: bool)

  function Take(secrets: Secrets, name: SecretName): Option<string> {
    if name in secrets then Some(secrets[name]) else None
  }

  function SetSecret(store: Secrets, name: SecretName, value: string, fault: Fault): (Secrets, Result<(), LoadError>) {
    match fault
    case NoFault => (store[name := value], Ok(()))
    case Refused => (store, Err(SecretStorageFailed))
    case Late => (store[name := value], Err(SecretStorageFailed))
  }

  function RestoreOptional(store: Secrets, name: SecretName, plaintext: Option<string>, fault: Fault)
    : (Secrets, Result<Option<string>, LoadError>)
  {
    match plaintext
    case Some(value) =>
      var (written, outcome) := SetSecret(store, name, value, fault);
      (written, if outcome.Err? then Err(outcome.error) else Ok(Some(value)))
    case None =>
      (store, if fault.NoFault? then Ok(Take(store, name)) else Err(SecretStorageFailed))
  }

  function RestoreRequired(store: Secrets, name: SecretName, plaintext: Option<string>, fault: Fault)
    : (Secrets, Result<Option<string>, LoadError>)
  {
    var (written, outcome) := RestoreOptional(store, name, plaintext, fault);
    (written, if outcome.Ok? && outcome.value.None? then Err(SecretMissing) else outcome)
  }

  function Put(secrets: Secrets, name: SecretName, value: Option<string>): Secrets {
    match value
    case Some(text) => secrets[name := text]
    case None => secrets - {name}
  }

  /** The four steps of `restore_or_migrate_secrets`, over the store and the configuration. */
  function RestoreOrMigrate(store: Secrets, secrets: Secrets, faults: Faults): (Secrets, Result<Secrets, LoadError>) {
    var (s1, key) := RestoreRequired(store, PrivateKey, Take(secrets, PrivateKey), faults.key);
    if key.Err? then (s1, Err(key.error)) else
    var (s2, totp) := RestoreOptional(s1, TotpSecret, Take(secrets, TotpSecret), faults.totp);
    if totp.Err? then (s2, Err(totp.error)) else
    var (s3, account) := RestoreOptional(s2, AccountPassword, Take(secrets, AccountPassword), faults.account);
    if account.Err? then (s3, Err(account.error)) else
    var (s4, socks5) := RestoreOptional(s3, Socks5Password, Take(secrets, Socks5Password), faults.socks5);
    if socks5.Err? then (s4, Err(socks5.error)) else
    (s4, Ok(Put(Put(Put(Put(secrets, PrivateKey, key.value), TotpSecret, totp.value),
                    AccountPassword, account.value), Socks5Password, socks5.value)))
  }

  /** What `Config::save` writes. */
  function Persisted(config: Config): Secrets {
    if config.persistSecrets then config.secrets
    else config.secrets - {AccountPassword, PrivateKey, TotpSecret, Socks5Password}
  }

  function SaveConfig(file: File, config: Config, fault: SaveFault): (File, Result<(), LoadError>) {
    match fault
    case Saved => (Readable(Persisted(config), config.publicKey), Ok(()))
    case NotSaved => (file, Err(AuthStorageFailed))
    case SavedLate => (Readable(Persisted(config), config.publicKey), Err(AuthStorageFailed))
    case CutShort => (Torn, Err(AuthStorageFailed))
  }

  /** The public key after reading: a profile with a private key alone gets the one that belongs to it. */
  function PublicKey(file: File, derived: Option<string>): Option<string>
    requires file.Readable?
  {
    if file.publicKey.None? && PrivateKey in file.secrets then derived else file.publicKey
  }

  /** The profile has a private key alone, and it is not one. */
  predicate Underivable(file: File, derived: Option<string>)
    requires file.Readable?
  {
    file.publicKey.None? && PrivateKey in file.secrets && derived.None?
  }

  /** One load: the disk it leaves, and the session's configuration (none without a profile). */
  function Load(disk: Disk, faults: Faults): (Disk, Result<Option<Config>, LoadError>) {
    match disk.file
    case Missing => (disk, Ok(None))
    case Torn => (disk, Err(AuthStorageFailed))
    case Readable(secrets, _) =>
      if faults.read || Underivable(disk.file, faults.derived) then (disk, Err(AuthStorageFailed)) else
      var (store, restored) := RestoreOrMigrate(disk.store, secrets, faults);
      if restored.Err? then (Disk(disk.file, store), Err(restored.error)) else
      var config := Config(restored.value, PublicKey(disk.file, faults.derived), false);
      var (file, saved) := SaveConfig(disk.file, config, faults.save);
      if saved.Err? then (Disk(file, store), Err(saved.error))
      else if faults.client then (Disk(file, store), Err(AuthClientFailed))
      else (Disk(file, store), Ok(Some(config)))
  }

  datatype KeyPair = KeyPair(publicKey: string, privateKey: string)

  datatype ConfigureFaults = ConfigureFaults(
    save: SaveFault, key: Fault, totp: Fault, account: Fault, socks5: Fault, client: bool)

  function DeleteSecret(store: Secrets, name: SecretName, fault: Fault): (Secrets, Result<(), LoadError>) {
    match fault
    case NoFault => (store - {name}, Ok(()))
    case Refused => (store, Err(SecretStorageFailed))
    case Late => (store - {name}, Err(SecretStorageFailed))
  }

  function DeleteOptionalSecrets(store: Secrets, faults: ConfigureFaults): (Secrets, Result<(), LoadError>) {
    var (s1, totp) := DeleteSecret(store, TotpSecret, faults.totp);
    if totp.Err? then (s1, totp) else
    var (s2, account) := DeleteSecret(s1, AccountPassword, faults.account);
    if account.Err? then (s2, account) else
    DeleteSecret(s2, Socks5Password, faults.socks5)
  }

  /** A new profile with a new key pair, up to the point where the session is opened. */
  function CreateProfile(disk: Disk, pair: KeyPair, faults: ConfigureFaults): (Disk, Result<(), LoadError>) {
    var config := Config(map[PrivateKey := pair.privateKey], Some(pair.publicKey), false);
    var (file, saved) := SaveConfig(disk.file, config, faults.save);
    if saved.Err? then (Disk(file, disk.store), saved) else
    var (store, stored) := SetSecret(disk.store, PrivateKey, pair.privateKey, faults.key);
    if stored.Err? then (Disk(file, store), stored) else
    var (left, deleted) := DeleteOptionalSecrets(store, faults);
    (Disk(file, left), if deleted.Ok? && faults.client then Err(AuthClientFailed) else deleted)
  }

  class Vault {
    var file: File
    var store: Secrets

    function View(): Disk
      reads this
    {
      Disk(file, store)
    }

    constructor (disk: Disk)
      ensures View() == disk
    {
      file, store := disk.file, disk.store;
    }

    method StoreSecret(name: SecretName, value: string, fault: Fault) returns (outcome: Result<(), LoadError>)
      modifies this`store
      ensures (store, outcome) == SetSecret(old(store), name, value, fault)
    {
      if fault.Refused? {
        return Err(SecretStorageFailed);
      }
      store := store[name := value];
      outcome := if fault.Late? then Err(SecretStorageFailed) else Ok(());
    }

    method RestoreOrMigrateOptional(name: SecretName, plaintext: Option<string>, fault: Fault)
      returns (outcome: Result<Option<string>, LoadError>)
      modifies this`store
      ensures (store, outcome) == RestoreOptional(old(store), name, plaintext, fault)
    {
      if plaintext.Some? {
        var written := StoreSecret(name, plaintext.value, fault);
        return if written.Err? then Err(written.error) else Ok(plaintext);
      }
      outcome := if fault.NoFault? then Ok(Take(store, name)) else Err(SecretStorageFailed);
    }

    method RestoreOrMigrateRequired(name: SecretName, plaintext: Option<string>, fault: Fault)
      returns (outcome: Result<Option<string>, LoadError>)
      modifies this`store
      ensures (store, outcome) == RestoreRequired(old(store), name, plaintext, fault)
    {
      outcome := RestoreOrMigrateOptional(name, plaintext, fault);
      if outcome.Ok? && outcome.value.None? {
        outcome := Err(SecretMissing);
      }
    }

    method RestoreOrMigrateSecrets(secrets: Secrets, faults: Faults) returns (outcome: Result<Secrets, LoadError>)
      modifies this`store
      ensures (store, outcome) == RestoreOrMigrate(old(store), secrets, faults)
    {
      var key := RestoreOrMigrateRequired(PrivateKey, Take(secrets, PrivateKey), faults.key);
      if key.Err? {
        return Err(key.error);
      }
      var config := Put(secrets, PrivateKey, key.value);
      var totp := RestoreOrMigrateOptional(TotpSecret, Take(secrets, TotpSecret), faults.totp);
      if totp.Err? {
        return Err(totp.error);
      }
      config := Put(config, TotpSecret, totp.value);
      var account := RestoreOrMigrateOptional(AccountPassword, Take(secrets, AccountPassword), faults.account);
      if account.Err? {
        return Err(account.error);
      }
      config := Put(config, AccountPassword, account.value);
      var socks5 := RestoreOrMigrateOptional(Socks5Password, Take(secrets, Socks5Password), faults.socks5);
      if socks5.Err? {
        return Err(socks5.error);
      }
      return Ok(Put(config, Socks5Password, socks5.value));
    }

    method Save(config: Config, fault: SaveFault) returns (outcome: Result<(), LoadError>)
      modifies this`file
      ensures (file, outcome) == SaveConfig(old(file), config, fault)
    {
      if fault.NotSaved? {
        return Err(AuthStorageFailed);
      }
      file := if fault.CutShort? then Torn else Readable(Persisted(config), config.publicKey);
      outcome := if fault.Saved? then Ok(()) else Err(AuthStorageFailed);
    }

    method LoadProfile(faults: Faults) returns (outcome: Result<Option<Config>, LoadError>)
      modifies this
      ensures (View(), outcome) == Load(old(View()), faults)
    {
      match file {
        case Missing => return Ok(None);
        case Torn => return Err(AuthStorageFailed);
        case Readable(secrets, publicKey) =>
          if faults.read {
            return Err(AuthStorageFailed);
          }
          var key := publicKey;
          if PrivateKey in secrets && publicKey.None? {
            if faults.derived.None? {
              return Err(AuthStorageFailed);
            }
            key := faults.derived;
          }
          var restored := RestoreOrMigrateSecrets(secrets, faults);
          if restored.Err? {
            return Err(restored.error);
          }
          var config := Config(restored.value, key, false);
          var saved := Save(config, faults.save);
          if saved.Err? {
            return Err(saved.error);
          }
          if faults.client {
            return Err(AuthClientFailed);
          }
          return Ok(Some(config));
      }
    }

    method Delete(name: SecretName, fault: Fault) returns (outcome: Result<(), LoadError>)
      modifies this`store
      ensures (store, outcome) == DeleteSecret(old(store), name, fault)
    {
      if fault.Refused? {
        return Err(SecretStorageFailed);
      }
      store := store - {name};
      outcome := if fault.Late? then Err(SecretStorageFailed) else Ok(());
    }

    method DeleteOptionalProfileSecrets(faults: ConfigureFaults) returns (outcome: Result<(), LoadError>)
      modifies this`store
      ensures (store, outcome) == DeleteOptionalSecrets(old(store), faults)
    {
      outcome := Delete(TotpSecret, faults.totp);
      if outcome.Err? {
        return;
      }
      outcome := Delete(AccountPassword, faults.account);
      if outcome.Err? {
        return;
      }
      outcome := Delete(Socks5Password, faults.socks5);
    }

    /** The part of `auth_configure` that touches the disk, with the key pair it generates. */
    method CreateDesktopProfile(pair: KeyPair, faults: ConfigureFaults) returns (outcome: Result<(), LoadError>)
      modifies this
      ensures (View(), outcome) == CreateProfile(old(View()), pair, faults)
    {
      outcome := Save(Config(map[PrivateKey := pair.privateKey], Some(pair.publicKey), false), faults.save);
      if outcome.Err? {
        return;
      }
      outcome := StoreSecret(PrivateKey, pair.privateKey, faults.key);
      if outcome.Err? {
        return;
      }
      outcome := DeleteOptionalProfileSecrets(faults);
      if outcome.Ok? && faults.client {
        outcome := Err(AuthClientFailed);
      }
    }
  }

  // ----- No secret is lost

  /** The value of a secret: what the profile says, or else what the store says. */
  function Effective(disk: Disk, name: SecretName): Option<string> {
    if disk.file.Readable? && name in disk.file.secrets then Some(disk.file.secrets[name])
    else Take(disk.store, name)
  }

  /** At `name`, the store `after` is `before`, or has been given the profile's value. */
  ghost predicate Copied(before: Secrets, after: Secrets, secrets: Secrets, name: SecretName) {
    || Take(after, name) == Take(before, name)
    || (name in secrets && Take(after, name) == Some(secrets[name]))
  }

  lemma PutTake(secrets: Secrets, own: SecretName, value: Option<string>, name: SecretName)
    ensures Take(Put(secrets, own, value), name) == if name == own then value else Take(secrets, name)
  {
  }

  /** One step changes the store at its own name only, and yields that secret's effective value. */
  lemma StepCopies(store: Secrets, secrets: Secrets, own: SecretName, fault: Fault, name: SecretName)
    ensures var (after, outcome) := RestoreOptional(store, own, Take(secrets, own), fault);
            && (name != own ==> Take(after, name) == Take(store, name))
            && Copied(store, after, secrets, own)
            && (outcome.Ok? ==> outcome.value == Effective(Disk(Readable(secrets, None), store), own))
            && (outcome.Ok? && own in secrets ==> Take(after, own) == Some(secrets[own]))
  {
  }

  /** The store after the step for `own`, and its outcome. */
  ghost function After(store: Secrets, secrets: Secrets, own: SecretName, fault: Fault): Secrets {
    RestoreOptional(store, own, Take(secrets, own), fault).0
  }

  ghost function Fetched(store: Secrets, secrets: Secrets, own: SecretName, fault: Fault): Result<Option<string>, LoadError> {
    RestoreOptional(store, own, Take(secrets, own), fault).1
  }

  lemma MigrationStore(store: Secrets, secrets: Secrets, faults: Faults, name: SecretName)
    ensures var (after, outcome) := RestoreOrMigrate(store, secrets, faults);
            && Copied(store, after, secrets, name)
            && (outcome.Ok? && name in secrets ==> Take(after, name) == Some(secrets[name]))
  {
    var s1 := After(store, secrets, PrivateKey, faults.key);
    var s2 := After(s1, secrets, TotpSecret, faults.totp);
    var s3 := After(s2, secrets, AccountPassword, faults.account);
    StepCopies(store, secrets, PrivateKey, faults.key, name);
    StepCopies(s1, secrets, TotpSecret, faults.totp, name);
    StepCopies(s2, secrets, AccountPassword, faults.account, name);
    StepCopies(s3, secrets, Socks5Password, faults.socks5, name);
  }

  lemma MigrationValues(store: Secrets, secrets: Secrets, faults: Faults, name: SecretName)
    requires RestoreOrMigrate(store, secrets, faults).1.Ok?
    ensures Take(RestoreOrMigrate(store, secrets, faults).1.value, name)
         == Effective(Disk(Readable(secrets, None), store), name)
  {
    var s1 := After(store, secrets, PrivateKey, faults.key);
    var s2 := After(s1, secrets, TotpSecret, faults.totp);
    var s3 := After(s2, secrets, AccountPassword, faults.account);
    var key := Fetched(store, secrets, PrivateKey, faults.key).value;
    var totp := Fetched(s1, secrets, TotpSecret, faults.totp).value;
    var account := Fetched(s2, secrets, AccountPassword, faults.account).value;
    var socks5 := Fetched(s3, secrets, Socks5Password, faults.socks5).value;
    var c1 := Put(secrets, PrivateKey, key);
    var c2 := Put(c1, TotpSecret, totp);
    var c3 := Put(c2, AccountPassword, account);
    PutTake(secrets, PrivateKey, key, name);
    PutTake(c1, TotpSecret, totp, name);
    PutTake(c2, AccountPassword, account, name);
    PutTake(c3, Socks5Password, socks5, name);
    StepCopies(store, secrets, PrivateKey, faults.key, name);
    StepCopies(s1, secrets, TotpSecret, faults.totp, name);
    StepCopies(s2, secrets, AccountPassword, faults.account, name);
    StepCopies(s3, secrets, Socks5Password, faults.socks5, name);
    match name
    case PrivateKey =>
    case TotpSecret =>
    case AccountPassword =>
    case Socks5Password =>
  }

  /** Wherever a load is cut, also in the middle of writing the profile, every secret keeps its value. */
  lemma LoadKeepsSecrets(disk: Disk, faults: Faults, name: SecretName)
    ensures Effective(Load(disk, faults).0, name) == Effective(disk, name)
  {
    if disk.file.Readable? {
      MigrationStore(disk.store, disk.file.secrets, faults, name);
    }
  }

  lemma NothingPersisted(secrets: Secrets)
    ensures secrets - {AccountPassword, PrivateKey, TotpSecret, Socks5Password} == map[]
  {
    forall name | name in secrets ensures name in {AccountPassword, PrivateKey, TotpSecret, Socks5Password} {
      match name
      case PrivateKey =>
      case TotpSecret =>
      case AccountPassword =>
      case Socks5Password =>
    }
  }

  /** A completed load yields the effective values and leaves no secret in the profile. */
  lemma CompletedLoad(disk: Disk, faults: Faults, name: SecretName)
    requires Load(disk, faults).1.Ok? && disk.file.Readable?
    ensures Load(disk, faults).0.file.Readable? && Load(disk, faults).0.file.secrets == map[]
    ensures Load(disk, faults).1.value.Some?
    ensures Take(Load(disk, faults).1.value.value.secrets, name) == Effective(disk, name)
  {
    MigrationValues(disk.store, disk.file.secrets, faults, name);
    var restored := RestoreOrMigrate(disk.store, disk.file.secrets, faults).1.value;
    NothingPersisted(restored);
  }

  /** The disk after a series of loads, each cut wherever its faults cut it. */
  function LoadAgain(disk: Disk, attempts: seq<Faults>): Disk
    decreases |attempts|
  {
    if attempts == [] then disk else LoadAgain(Load(disk, attempts[0]).0, attempts[1..])
  }

  lemma {:induction false} AttemptsKeepSecrets(disk: Disk, attempts: seq<Faults>, name: SecretName)
    ensures Effective(LoadAgain(disk, attempts), name) == Effective(disk, name)
    decreases |attempts|
  {
    if attempts != [] {
      LoadKeepsSecrets(disk, attempts[0], name);
      AttemptsKeepSecrets(Load(disk, attempts[0]).0, attempts[1..], name);
    }
  }

  /** After any number of interrupted or completed loads, a completed one restores the values of the very first disk. */
  lemma LaterLoadRestoresTheSame(disk: Disk, attempts: seq<Faults>, faults: Faults, name: SecretName)
    requires LoadAgain(disk, attempts).file.Readable? && Load(LoadAgain(disk, attempts), faults).1.Ok?
    ensures Load(LoadAgain(disk, attempts), faults).1.value.Some?
    ensures Take(Load(LoadAgain(disk, attempts), faults).1.value.value.secrets, name) == Effective(disk, name)
  {
    CompletedLoad(LoadAgain(disk, attempts), faults, name);
    AttemptsKeepSecrets(disk, attempts, name);
  }

  /** Without a profile a load succeeds without a session, and with a torn one it fails; neither touches the disk. */
  lemma NothingToLoad(disk: Disk, faults: Faults)
    ensures disk.file.Missing? ==> Load(disk, faults) == (disk, Ok(None))
    ensures disk.file.Torn? ==> Load(disk, faults) == (disk, Err(AuthStorageFailed))
    ensures Load(disk, faults).1 == Ok(None) ==> disk.file.Missing?
  {
  }

  /**
   Without faults a load succeeds exactly when there is no profile, or a readable one whose private key is
   in the profile or the store and, if the profile has it without a public key, is one.
   */
  lemma FaultlessLoad(disk: Disk, derived: Option<string>)
    ensures Load(disk, NoFaults(derived)).1.Ok? <==>
            || disk.file.Missing?
            || (&& disk.file.Readable? && Effective(disk, PrivateKey).Some?
                && (PrivateKey in disk.file.secrets ==> disk.file.publicKey.Some? || derived.Some?))
    ensures Load(disk, NoFaults(derived)).1.Err? ==>
            Load(disk, NoFaults(derived)) ==
            (disk, Err(if disk.file.Readable? && Effective(disk, PrivateKey).None? then SecretMissing
                       else AuthStorageFailed))
  {
  }

  /** What is written of a configuration: everything, or for a desktop profile none of the four secrets. */
  lemma SavedSecrets(config: Config, file: File, name: SecretName)
    ensures var (saved, outcome) := SaveConfig(file, config, Saved);
            && outcome.Ok? && saved.Readable? && saved.publicKey == config.publicKey
            && Take(saved.secrets, name) == if config.persistSecrets then Take(config.secrets, name) else None
  {
    NothingPersisted(config.secrets);
  }
}
