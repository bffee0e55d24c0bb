/**
 Which key pair a session gets when a reconfiguration was cut: `auth_configure` writes the profile with the
 new public key before it stores the new private key.

 `publicOf` is the curve's map from private to public keys; it has no value for text that is not a key.
 */
module KeyPairs {
  import opened Wrappers
  import opened SecretMigration

  /** The configuration has both keys, and they belong together. */
  predicate Matching(publicOf: string -> Option<string>, config: Config) {
    PrivateKey in config.secrets && config.publicKey.Some? && publicOf(config.secrets[PrivateKey]) == config.publicKey
  }

  predicate Genuine(publicOf: string -> Option<string>, pair: KeyPair) {
    publicOf(pair.privateKey) == Some(pair.publicKey)
  }

  /** The public key that a load of this disk takes. */
  function EffectivePublic(disk: Disk, derived: Option<string>): Option<string> {
    if !disk.file.Readable? then None
    else if disk.file.publicKey.Some? then disk.file.publicKey
    else if PrivateKey in disk.file.secrets then derived
    else None
  }

  predicate MatchingDisk(publicOf: string -> Option<string>, disk: Disk, derived: Option<string>) {
    && Effective(disk, PrivateKey).Some? && EffectivePublic(disk, derived).Some?
    && publicOf(Effective(disk, PrivateKey).value) == EffectivePublic(disk, derived)
  }

  // ----- Loads keep the pair

  /** A load that leaves a profile leaves its public key. */
  lemma LoadKeepsPublicKey(disk: Disk, faults: Faults)
    requires Load(disk, faults).0.file.Readable?
    ensures EffectivePublic(Load(disk, faults).0, faults.derived) == EffectivePublic(disk, faults.derived)
  {
    if disk.file.Readable? {
      var (store, restored) := RestoreOrMigrate(disk.store, disk.file.secrets, faults);
      if restored.Ok? {
        NothingPersisted(restored.value);
      }
    }
  }

  /** A torn profile stays torn. */
  lemma {:induction false} OnceReadable(disk: Disk, attempts: seq<Faults>)
    requires LoadAgain(disk, attempts).file.Readable?
    ensures disk.file.Readable?
    decreases |attempts|
  {
    if attempts != [] {
      OnceReadable(Load(disk, attempts[0]).0, attempts[1..]);
    }
  }

  lemma {:induction false} AttemptsKeepPublicKey(disk: Disk, attempts: seq<Faults>, derived: Option<string>)
    requires LoadAgain(disk, attempts).file.Readable?
    requires forall i :: 0 <= i < |attempts| ==> attempts[i].derived == derived
    ensures EffectivePublic(LoadAgain(disk, attempts), derived) == EffectivePublic(disk, derived)
    decreases |attempts|
  {
    if attempts != [] {
      OnceReadable(Load(disk, attempts[0]).0, attempts[1..]);
      LoadKeepsPublicKey(disk, attempts[0]);
      AttemptsKeepPublicKey(Load(disk, attempts[0]).0, attempts[1..], derived);
    }
  }

  /** However often a load was interrupted: the session's pair matches exactly when the first disk's does. */
  lemma SessionMatchesDisk(publicOf: string -> Option<string>, disk: Disk, attempts: seq<Faults>, faults: Faults)
    requires LoadAgain(disk, attempts).file.Readable? && Load(LoadAgain(disk, attempts), faults).1.Ok?
    requires forall i :: 0 <= i < |attempts| ==> attempts[i].derived == faults.derived
    ensures Load(LoadAgain(disk, attempts), faults).1.value.Some?
    ensures Load(LoadAgain(disk, attempts), faults).1.value.value.publicKey == EffectivePublic(disk, faults.derived)
    ensures Matching(publicOf, Load(LoadAgain(disk, attempts), faults).1.value.value) <==>
            MatchingDisk(publicOf, disk, faults.derived)
  {
    LaterLoadRestoresTheSame(disk, attempts, faults, PrivateKey);
    AttemptsKeepPublicKey(disk, attempts, faults.derived);
  }

  // ----- A cut reconfiguration

  predicate ProfileWritten(faults: ConfigureFaults) {
    faults.save.Saved? || faults.save.SavedLate?
  }

  predicate KeyWritten(faults: ConfigureFaults) {
    faults.save.Saved? && !faults.key.Refused?
  }

  /** The disk of a reconfiguration, wherever it was cut: both keys are new, or only one is, or none. */
  lemma CreatedKeys(disk: Disk, pair: KeyPair, faults: ConfigureFaults, derived: Option<string>)
    requires !faults.save.CutShort?
    ensures var after := CreateProfile(disk, pair, faults).0;
            && EffectivePublic(after, derived)
            == (if ProfileWritten(faults) then Some(pair.publicKey) else EffectivePublic(disk, derived))
            && Effective(after, PrivateKey)
            == if KeyWritten(faults) then Some(pair.privateKey)
               else if ProfileWritten(faults) then Take(disk.store, PrivateKey)
               else Effective(disk, PrivateKey)
  {
    NothingPersisted(map[PrivateKey := pair.privateKey]);
  }

  /**
   After a reconfiguration, cut anywhere, and any loads after it: a session's keys match exactly when the
   profile was not written and they matched before, or the new private key was stored, or the profile was
   written and the store already held a private key of the new public key.
   */
  lemma MatchesAfterCut(publicOf: string -> Option<string>, disk: Disk, pair: KeyPair, cut: ConfigureFaults,
                        attempts: seq<Faults>, faults: Faults)
    requires Genuine(publicOf, pair)
    requires forall i :: 0 <= i < |attempts| ==> attempts[i].derived == faults.derived
    requires var after := LoadAgain(CreateProfile(disk, pair, cut).0, attempts);
             after.file.Readable? && Load(after, faults).1.Ok?
    ensures var session := Load(LoadAgain(CreateProfile(disk, pair, cut).0, attempts), faults).1.value;
            && session.Some?
            && (Matching(publicOf, session.value) <==>
                if !ProfileWritten(cut) then MatchingDisk(publicOf, disk, faults.derived)
                else KeyWritten(cut) ||
                     (PrivateKey in disk.store && publicOf(disk.store[PrivateKey]) == Some(pair.publicKey)))
  {
    var after := CreateProfile(disk, pair, cut).0;
    OnceReadable(after, attempts);
    SessionMatchesDisk(publicOf, after, attempts, faults);
    CreatedKeys(disk, pair, cut, faults.derived);
  }

  /**
   The failing run: the new profile is written, the store refuses the new private key, and the next load
   takes the new public key with the old private key, and reports success.
   */
  lemma RefusedKeyMismatches(publicOf: string -> Option<string>, former: KeyPair, latter: KeyPair)
    requires Genuine(publicOf, former) && Genuine(publicOf, latter) && former.publicKey != latter.publicKey
    ensures var disk := Disk(Readable(map[], Some(former.publicKey)), map[PrivateKey := former.privateKey]);
            var cut := ConfigureFaults(Saved, Refused, NoFault, NoFault, NoFault, false);
            var session := Load(CreateProfile(disk, latter, cut).0, NoFaults(None)).1;
            && MatchingDisk(publicOf, disk, None)
            && session.Ok? && session.value.Some? && !Matching(publicOf, session.value.value)
  {
    var disk := Disk(Readable(map[], Some(former.publicKey)), map[PrivateKey := former.privateKey]);
    var cut := ConfigureFaults(Saved, Refused, NoFault, NoFault, NoFault, false);
    var after := CreateProfile(disk, latter, cut).0;
    NothingPersisted(map[PrivateKey := latter.privateKey]);
    FaultlessLoad(after, None);
    MatchesAfterCut(publicOf, disk, latter, cut, [], NoFaults(None));
  }

  /** A reconfiguration that finishes its writes leaves the new private key and none of the other secrets. */
  lemma CompletedConfigure(disk: Disk, pair: KeyPair, faults: ConfigureFaults, name: SecretName)
    requires CreateProfile(disk, pair, faults).1.Ok?
    ensures Effective(CreateProfile(disk, pair, faults).0, name)
         == if name == PrivateKey then Some(pair.privateKey) else None
    ensures EffectivePublic(CreateProfile(disk, pair, faults).0, None) == Some(pair.publicKey)
  {
    NothingPersisted(map[PrivateKey := pair.privateKey]);
    match name
    case PrivateKey =>
    case TotpSecret =>
    case AccountPassword =>
    case Socks5Password =>
  }
}
