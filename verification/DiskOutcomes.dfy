/**
 Exactly what a load and a new profile leave on the disk and report, for every combination of faults: the
 steps in their order, and where the first one that fails stops them.
 */
module DiskOutcomes {
  import opened Wrappers
  import opened SecretMigration

  function FaultOf(faults: Faults, name: SecretName): Fault {
    match name
    case PrivateKey => faults.key
    case TotpSecret => faults.totp
    case AccountPassword => faults.account
    case Socks5Password => faults.socks5
  }

  /** The order of the four steps. */
  function Position(name: SecretName): nat {
    match name
    case PrivateKey => 0
    case TotpSecret => 1
    case AccountPassword => 2
    case Socks5Password => 3
  }

  /** The profile can be read, and if it has a private key it has a public key or one can be derived. */
  predicate CanRead(disk: Disk, faults: Faults) {
    && disk.file.Readable? && !faults.read
    && (PrivateKey in disk.file.secrets ==> disk.file.publicKey.Some? || faults.derived.Some?)
  }

  /** The public key of the session: the profile's, or else the one that belongs to the profile's private key. */
  function SessionKey(disk: Disk, faults: Faults): Option<string>
    requires disk.file.Readable?
  {
    if disk.file.publicKey.Some? then disk.file.publicKey
    else if PrivateKey in disk.file.secrets then faults.derived
    else None
  }

  /** The step of `name` fails: the store does, or there is no private key anywhere. */
  predicate StepFails(disk: Disk, faults: Faults, name: SecretName) {
    FaultOf(faults, name) != NoFault || (name == PrivateKey && Effective(disk, PrivateKey).None?)
  }

  /** Every step in front of step `n` is reached and succeeds. */
  predicate Reached(disk: Disk, faults: Faults, n: nat) {
    CanRead(disk, faults) && forall name: SecretName :: Position(name) < n ==> !StepFails(disk, faults, name)
  }

  /** The profile's value of `name` gets into the store. */
  predicate IsCopied(disk: Disk, faults: Faults, name: SecretName) {
    && Reached(disk, faults, Position(name))
    && name in disk.file.secrets && FaultOf(faults, name) != Refused
  }

  lemma StepOutcome(store: Secrets, secrets: Secrets, own: SecretName, fault: Fault, name: SecretName)
    ensures var (after, outcome) := RestoreOptional(store, own, Take(secrets, own), fault);
            && (outcome.Ok? <==> fault == NoFault)
            && (outcome.Err? ==> outcome.error == SecretStorageFailed)
            && (outcome.Ok? ==> outcome.value == if own in secrets then Some(secrets[own]) else Take(store, own))
            && Take(after, name)
            == if name == own && own in secrets && fault != Refused then Some(secrets[own]) else Take(store, name)
  {
  }

  /** The store after a load has exactly the values of the steps that were reached and not refused. */
  lemma LoadedStore(disk: Disk, faults: Faults, name: SecretName)
    ensures Take(Load(disk, faults).0.store, name)
         == if IsCopied(disk, faults, name) then Some(disk.file.secrets[name]) else Take(disk.store, name)
  {
    if CanRead(disk, faults) {
      MigratedStore(disk, faults, name);
    }
  }

  lemma MigratedStore(disk: Disk, faults: Faults, name: SecretName)
    requires CanRead(disk, faults)
    ensures Take(RestoreOrMigrate(disk.store, disk.file.secrets, faults).0, name)
         == if IsCopied(disk, faults, name) then Some(disk.file.secrets[name]) else Take(disk.store, name)
  {
    var store, secrets := disk.store, disk.file.secrets;
    var s1 := RestoreOptional(store, PrivateKey, Take(secrets, PrivateKey), faults.key).0;
    var s2 := RestoreOptional(s1, TotpSecret, Take(secrets, TotpSecret), faults.totp).0;
    var s3 := RestoreOptional(s2, AccountPassword, Take(secrets, AccountPassword), faults.account).0;
    StepOutcome(store, secrets, PrivateKey, faults.key, name);
    StepOutcome(s1, secrets, TotpSecret, faults.totp, name);
    StepOutcome(s2, secrets, AccountPassword, faults.account, name);
    StepOutcome(s3, secrets, Socks5Password, faults.socks5, name);
    StepsInOrder(disk, faults);
    match name
    case PrivateKey =>
    case TotpSecret =>
    case AccountPassword =>
    case Socks5Password =>
  }

  lemma StepsInOrder(disk: Disk, faults: Faults)
    requires CanRead(disk, faults)
    ensures Reached(disk, faults, 0)
    ensures Reached(disk, faults, 1) <==> !StepFails(disk, faults, PrivateKey)
    ensures Reached(disk, faults, 2) <==> Reached(disk, faults, 1) && !StepFails(disk, faults, TotpSecret)
    ensures Reached(disk, faults, 3) <==> Reached(disk, faults, 2) && !StepFails(disk, faults, AccountPassword)
    ensures Reached(disk, faults, 4) <==> Reached(disk, faults, 3) && !StepFails(disk, faults, Socks5Password)
  {
    assert Position(PrivateKey) == 0 && Position(TotpSecret) == 1;
    assert Position(AccountPassword) == 2 && Position(Socks5Password) == 3;
  }

  /** What a load reports: the failure of the first step that fails. */
  lemma LoadVerdict(disk: Disk, faults: Faults)
    requires disk.file.Readable?
    ensures Load(disk, faults).1.Ok? <==> Reached(disk, faults, 4) && faults.save.Saved? && !faults.client
    ensures Load(disk, faults).1.Ok? ==>
            var session := Load(disk, faults).1.value;
            && session.Some? && !session.value.persistSecrets
            && session.value.publicKey == SessionKey(disk, faults)
    ensures Load(disk, faults).1.Err? ==>
            Load(disk, faults).1.error
            == if !CanRead(disk, faults) then AuthStorageFailed
               else if faults.key == NoFault && Effective(disk, PrivateKey).None? then SecretMissing
               else if !Reached(disk, faults, 4) then SecretStorageFailed
               else if !faults.save.Saved? then AuthStorageFailed
               else AuthClientFailed
  {
    if CanRead(disk, faults) {
      StepsInOrder(disk, faults);
      MigrationVerdict(disk, faults);
    }
  }

  lemma MigrationVerdict(disk: Disk, faults: Faults)
    requires CanRead(disk, faults)
    ensures var outcome := RestoreOrMigrate(disk.store, disk.file.secrets, faults).1;
            && (outcome.Ok? <==> Reached(disk, faults, 4))
            && (outcome.Err? ==>
                outcome.error == if faults.key == NoFault && Effective(disk, PrivateKey).None? then SecretMissing
                                 else SecretStorageFailed)
  {
    StepsInOrder(disk, faults);
  }

  /** The profile after a load is rewritten without secrets, torn, or as it was. */
  lemma LoadedFile(disk: Disk, faults: Faults)
    requires disk.file.Readable?
    ensures Load(disk, faults).0.file
         == if !Reached(disk, faults, 4) || faults.save.NotSaved? then disk.file
            else if faults.save.CutShort? then Torn
            else Readable(map[], SessionKey(disk, faults))
  {
    if CanRead(disk, faults) {
      MigrationVerdict(disk, faults);
      var outcome := RestoreOrMigrate(disk.store, disk.file.secrets, faults).1;
      if outcome.Ok? {
        NothingPersisted(outcome.value);
      }
    }
  }

  // ----- A new profile

  function DeletionFault(faults: ConfigureFaults, name: SecretName): Fault
    requires name != PrivateKey
  {
    match name
    case TotpSecret => faults.totp
    case AccountPassword => faults.account
    case Socks5Password => faults.socks5
  }

  /** The profile is written, the private key stored, and the deletions in front of `name` done. */
  predicate DeletionReached(faults: ConfigureFaults, name: SecretName) {
    && faults.save.Saved? && faults.key == NoFault
    && (Position(name) > 1 ==> faults.totp == NoFault)
    && (Position(name) > 2 ==> faults.account == NoFault)
  }

  /** The store after a new profile: the new key once it was stored, and the other secrets until they are deleted. */
  lemma CreatedStore(disk: Disk, pair: KeyPair, faults: ConfigureFaults, name: SecretName)
    ensures Take(CreateProfile(disk, pair, faults).0.store, name)
         == if name == PrivateKey then
              if faults.save.Saved? && faults.key != Refused then Some(pair.privateKey) else Take(disk.store, name)
            else if DeletionReached(faults, name) && DeletionFault(faults, name) != Refused then None
            else Take(disk.store, name)
  {
    match name
    case PrivateKey =>
    case TotpSecret =>
    case AccountPassword =>
    case Socks5Password =>
  }

  lemma CreatedFile(disk: Disk, pair: KeyPair, faults: ConfigureFaults)
    ensures CreateProfile(disk, pair, faults).0.file
         == match faults.save
            case Saved | SavedLate => Readable(map[], Some(pair.publicKey))
            case NotSaved => disk.file
            case CutShort => Torn
  {
    NothingPersisted(map[PrivateKey := pair.privateKey]);
  }

  /** What is reported: the failure of the first step that fails. */
  lemma CreateVerdict(disk: Disk, pair: KeyPair, faults: ConfigureFaults)
    ensures CreateProfile(disk, pair, faults).1
         == if !faults.save.Saved? then Err(AuthStorageFailed)
            else if faults.key != NoFault || faults.totp != NoFault || faults.account != NoFault
                    || faults.socks5 != NoFault then Err(SecretStorageFailed)
            else if faults.client then Err(AuthClientFailed)
            else Ok(())
  {
  }
}
