/** Key-pair provisioning, writeKeyPair of main.go: derive the two file names,
    ask before overwriting an existing key, then create, write and close the
    public key file and after it the private key file, returning the first
    error met and undoing nothing.

    The file system is an abstract map from file names to entries. The outcome
    of every system call (os.Stat is read off the map; os.Create, the writes,
    Close and the confirmation prompt are inputs) is supplied by an
    `Environment`, and the bytes of the two PEM encodings by `Writers`. */
module Provisioning {
  import opened Base
  import Keys

  /** What a file name refers to. */
  datatype FileEntry = Regular(contents: seq<byte>) | Directory

  type FileSystem = map<string, FileEntry>

  const PublicKeySuffix: string := ".pub.pem"
  const PrivateKeySuffix: string := ".sec.pem"

  function PublicKeyFileName(name: string): string {
    name + PublicKeySuffix
  }

  function PrivateKeyFileName(name: string): string {
    name + PrivateKeySuffix
  }

  /** Both file names start with the key-pair name, and no public key file name
      is ever a private key file name, whichever two key-pair names are used. */
  lemma KeyFileNamesDistinct(name: string, other: string)
    ensures PublicKeyFileName(name)[..|name|] == name && |PublicKeyFileName(name)| == |name| + 8
    ensures PrivateKeyFileName(name)[..|name|] == name && |PrivateKeyFileName(name)| == |name| + 8
    ensures PublicKeyFileName(name) != PrivateKeyFileName(other)
  {
  }

  /** What os.Stat reports for a name: that nothing is there, or the entry's
      information (only whether it is a directory matters here). */
  datatype StatResult = NotExist | Info(isDir: bool)

  function Stat(fs: FileSystem, fileName: string): StatResult {
    if fileName !in fs then NotExist else Info(fs[fileName].Directory?)
  }

  /** fileExists: false when os.Stat says the name does not exist, otherwise
      whether the entry is not a directory. So it holds exactly for a regular
      file. */
  function FileExists(fs: FileSystem, fileName: string): (found: bool)
    ensures found <==> fileName in fs && fs[fileName].Regular?
  {
    match Stat(fs, fileName)
    case NotExist => false
    case Info(isDir) => !isDir
  }

  /** The result of the Yes/No selection prompt: the item picked, or the
      prompt's own error. */
  datatype Answer = Selected(item: string) | PromptFailed(err: Error)

  /** promptYesNo: None when it returns to its caller, or the status with
      which it ends the process (on a prompt error or a selection other than
      "Yes"). */
  function PromptYesNo(answer: Answer): (exit: Option<int>)
    ensures exit.None? <==> answer == Selected("Yes")
    ensures exit.Some? ==> exit.value == 0
  {
    if answer.PromptFailed? || answer.item != "Yes" then Some(0) else None
  }

  // ---------------------------------------------------------------------------
  // The persisting steps

  datatype Target = PublicKeyFile | PrivateKeyFile
  datatype Action = Create | Write | Close

  /** One system call on one of the two key files. */
  datatype Step = Step(target: Target, action: Action)

  /** The three calls that persist one key file, in the order they are made. */
  function FileSteps(t: Target): seq<Step> {
    [Step(t, Create), Step(t, Write), Step(t, Close)]
  }

  /** All the calls writeKeyPair makes when none fails. */
  const PersistSteps: seq<Step> := FileSteps(PublicKeyFile) + FileSteps(PrivateKeyFile)

  /** The outcome of the key writer's output to a file: complete, or stopped by
      an error after `reached` bytes got to the file. */
  datatype WriteOutcome = Written | WriteFailed(reached: nat, err: Error)

  /** Outcomes of the calls the environment decides. */
  datatype Environment = Environment(
    answer: Answer,
    create: Target -> Option<Error>,
    write: Target -> WriteOutcome,
    close: Target -> Option<Error>)

  /** The bytes that keys.WriteOpenSSLX25519PublicKey and
      keys.WriteOpenSSLX25519PrivateKey write for a key. */
  datatype Writers = Writers(publicPem: Keys.Key -> seq<byte>, privatePem: Keys.Key -> seq<byte>)

  /** The arguments of one writeKeyPair call. */
  datatype Job = Job(name: string, publicKey: Keys.Key, privateKey: Keys.Key, writers: Writers)

  function FileName(job: Job, t: Target): string {
    match t
    case PublicKeyFile => PublicKeyFileName(job.name)
    case PrivateKeyFile => PrivateKeyFileName(job.name)
  }

  function Contents(job: Job, t: Target): seq<byte> {
    match t
    case PublicKeyFile => job.writers.publicPem(job.publicKey)
    case PrivateKeyFile => job.writers.privatePem(job.privateKey)
  }

  /** The error, if any, that the environment gives a step. */
  function StepError(env: Environment, s: Step): Option<Error> {
    match s.action
    case Create => env.create(s.target)
    case Write => if env.write(s.target).WriteFailed? then Some(env.write(s.target).err) else None
    case Close => env.close(s.target)
  }

  /** Where a run of steps stopped: the file system reached, the steps made,
      and the error that stopped them, if any. */
  datatype Progress = Progress(fs: FileSystem, performed: seq<Step>, failure: Option<Error>)

  /** Two file systems agree on every name except possibly `fileName`. */
  predicate Untouched(fs: FileSystem, fs': FileSystem, fileName: string) {
    fs' - {fileName} == fs - {fileName}
  }

  /** os.Create, the key writer and Close on one key file, stopping at the first
      error. os.Create makes an empty regular file (truncating an existing
      one); a failed write leaves the bytes that reached the file. */
  function PersistFile(fs: FileSystem, job: Job, env: Environment, t: Target): (r: Progress)
    ensures r.performed != [] && r.performed <= FileSteps(t)
    ensures r.failure.None? <==> r.performed == FileSteps(t) && StepError(env, Step(t, Close)).None?
    ensures r.failure.Some? ==> r.failure == StepError(env, r.performed[|r.performed| - 1])
    ensures forall i :: 0 <= i < |r.performed| - 1 ==> StepError(env, r.performed[i]).None?
    ensures Untouched(fs, r.fs, FileName(job, t))
    ensures r.performed == [Step(t, Create)] && r.failure.Some? ==> r.fs == fs
    ensures Step(t, Write) in r.performed ==>
              FileName(job, t) in r.fs && r.fs[FileName(job, t)].Regular?
              && r.fs[FileName(job, t)].contents <= Contents(job, t)
    ensures r.failure.None? ==> r.fs == fs[FileName(job, t) := Regular(Contents(job, t))]
  {
    var fileName, contents := FileName(job, t), Contents(job, t);
    match env.create(t)
    case Some(e) => Progress(fs, [Step(t, Create)], Some(e))
    case None =>
      var created := fs[fileName := Regular([])];
      match env.write(t)
      case WriteFailed(reached, e) =>
        var cut := if reached < |contents| then reached else |contents|;
        Progress(created[fileName := Regular(contents[..cut])], [Step(t, Create), Step(t, Write)], Some(e))
      case Written =>
        var written := created[fileName := Regular(contents)];
        Progress(written, FileSteps(t), env.close(t))
  }

  // ---------------------------------------------------------------------------
  // writeKeyPair

  /** How writeKeyPair ended: it returned an error or nil, or promptYesNo ended
      the whole process with an exit status. */
  datatype Outcome = Returned(err: Option<Error>) | Exited(code: int)

  /** What one writeKeyPair call did: whether it asked for confirmation, how it
      ended, the resulting file system and the calls it made, in order. */
  datatype Provision = Provision(prompted: bool, outcome: Outcome, fs: FileSystem, performed: seq<Step>)

  /** writeKeyPair: confirmation is asked for exactly when a key file is already
      there, and declining stops everything before any file is created. */
  function WriteKeyPair(fs: FileSystem, job: Job, env: Environment): (r: Provision)
    ensures r.prompted <==> FileExists(fs, PublicKeyFileName(job.name)) || FileExists(fs, PrivateKeyFileName(job.name))
    ensures r.outcome.Exited? <==> r.prompted && env.answer != Selected("Yes")
    ensures r.outcome.Exited? ==> r.outcome.code == 0 && r.fs == fs && r.performed == []
  {
    var publicKeyFileName := PublicKeyFileName(job.name);
    var privateKeyFileName := PrivateKeyFileName(job.name);
    var prompted := FileExists(fs, publicKeyFileName) || FileExists(fs, privateKeyFileName);
    if prompted && PromptYesNo(env.answer).Some? then
      Provision(prompted, Exited(PromptYesNo(env.answer).value), fs, [])
    else
      var pub := PersistFile(fs, job, env, PublicKeyFile);
      if pub.failure.Some? then
        Provision(prompted, Returned(pub.failure), pub.fs, pub.performed)
      else
        var sec := PersistFile(pub.fs, job, env, PrivateKeyFile);
        Provision(prompted, Returned(sec.failure), sec.fs, pub.performed + sec.performed)
  }

  /** Unless the process exited at the prompt, the calls made are a prefix of
      the public-then-private sequence; the last one made is the first that
      failed, its error is the one returned, and every earlier call succeeded. */
  lemma WriteKeyPairStopsAtFirstError(fs: FileSystem, job: Job, env: Environment)
    ensures var r := WriteKeyPair(fs, job, env);
            && (r.outcome.Returned? ==> r.performed != [] && r.performed <= PersistSteps)
            && (r.outcome.Returned? && r.outcome.err.Some? ==>
                  r.outcome.err == StepError(env, r.performed[|r.performed| - 1]))
            && (forall i :: 0 <= i < |r.performed| - 1 ==> StepError(env, r.performed[i]).None?)
  {
  }

  /** writeKeyPair returns nil exactly when every call succeeds, and then both
      files hold their encodings. */
  lemma WriteKeyPairSucceeds(fs: FileSystem, job: Job, env: Environment)
    ensures var r := WriteKeyPair(fs, job, env);
            && (r.outcome == Returned(None) <==>
                  && r.outcome.Returned?
                  && forall i :: 0 <= i < |PersistSteps| ==> StepError(env, PersistSteps[i]).None?)
            && (r.outcome == Returned(None) ==>
                  && r.performed == PersistSteps
                  && r.fs == fs[PublicKeyFileName(job.name) := Regular(Contents(job, PublicKeyFile))]
                               [PrivateKeyFileName(job.name) := Regular(Contents(job, PrivateKeyFile))])
  {
    var r := WriteKeyPair(fs, job, env);
    if r.outcome.Returned? {
      var pub := PersistFile(fs, job, env, PublicKeyFile);
      if pub.failure.None? {
        var sec := PersistFile(pub.fs, job, env, PrivateKeyFile);
        assert PersistSteps[3..] == FileSteps(PrivateKeyFile);
      } else {
        var k := |pub.performed| - 1;
        assert PersistSteps[k] == pub.performed[k];
      }
    }
  }

  /** No rollback: once the private key file has been reached, the public key
      file holds the public key's encoding, whatever happens afterwards. */
  lemma WriteKeyPairNoRollback(fs: FileSystem, job: Job, env: Environment)
    ensures var r := WriteKeyPair(fs, job, env);
            Step(PrivateKeyFile, Create) in r.performed ==>
              r.fs[PublicKeyFileName(job.name)] == Regular(Contents(job, PublicKeyFile))
  {
    var r := WriteKeyPair(fs, job, env);
    if r.outcome.Returned? {
      var pub := PersistFile(fs, job, env, PublicKeyFile);
      if pub.failure.None? {
        var sec := PersistFile(pub.fs, job, env, PrivateKeyFile);
        KeyFileNamesDistinct(job.name, job.name);
        assert pub.fs[PublicKeyFileName(job.name)] == Regular(Contents(job, PublicKeyFile));
        assert PublicKeyFileName(job.name) in pub.fs - {PrivateKeyFileName(job.name)};
      } else {
        assert Step(PrivateKeyFile, Create) !in pub.performed;
      }
    }
  }

  /** writeKeyPair touches no file but the two it names. */
  lemma WriteKeyPairFrame(fs: FileSystem, job: Job, env: Environment)
    ensures var r := WriteKeyPair(fs, job, env);
            r.fs - {PublicKeyFileName(job.name), PrivateKeyFileName(job.name)}
              == fs - {PublicKeyFileName(job.name), PrivateKeyFileName(job.name)}
  {
  }
}
