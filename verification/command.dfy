/** The command dispatch of `main` in main.go. `args` are the command-line
    words after the program name (os.Args[1:]); option parsing, key
    generation and the I/O of writeKeyPair are outcomes supplied by
    `Collaborators`. */
module Command {
  import opened Base
  import Keys
  import opened Provisioning

  const GenerateCommand: string := "generate"
  const EncryptCommand: string := "encrypt"
  const DecryptCommand: string := "decrypt"
  /** Declared next to the others, but `main` has no case for it. */
  const VersionCommand: string := "version"

  /** Outcomes of what `main` calls but this model does not describe. */
  datatype Collaborators = Collaborators(
    parseGenerate: Result<string>,                 // the -n/--name value, or the parse error
    parseEncrypt: Option<Error>,
    parseDecrypt: Option<Error>,
    generateKeyPair: Result<(Keys.Key, Keys.Key)>, // (public key, private key), or the error
    writers: Writers,
    env: Environment)

  /** How the process ended. */
  datatype Status =
    | HelpShown           // usage of the three parsers printed, os.Exit(0)
    | Cancelled           // overwrite declined, os.Exit(0) inside promptYesNo
    | Fatal(message: string)  // log.Fatal
    | Finished            // main returned

  /** The process exit status: log.Fatal exits with 1, everything else with 0. */
  function ExitCode(s: Status): int {
    if s.Fatal? then 1 else 0
  }

  /** The process's end state: how it stopped and the file system it left. */
  datatype Termination = Termination(status: Status, fs: FileSystem)

  predicate HelpRequested(args: seq<string>) {
    |args| == 0 || args[0] == "-h" || args[0] == "--help"
  }

  /** The message log.Fatal prints for a word that is not a command. */
  function NotRecognized(command: string): string {
    "command '" + command + "' is not recognized"
  }

  /** The `generate` branch: parse the name, generate a key pair, write it. */
  function RunGenerate(fs: FileSystem, c: Collaborators): (r: Termination)
    ensures c.parseGenerate.Err? ==> r == Termination(Fatal(c.parseGenerate.error.message), fs)
    ensures c.parseGenerate.Ok? && c.generateKeyPair.Err? ==>
              r == Termination(Fatal(c.generateKeyPair.error.message), fs)
    ensures c.parseGenerate.Ok? && c.generateKeyPair.Ok? ==>
              var job := Job(c.parseGenerate.value, c.generateKeyPair.value.0, c.generateKeyPair.value.1, c.writers);
              var w := WriteKeyPair(fs, job, c.env);
              && r.fs == w.fs
              && (r.status == Cancelled <==> w.outcome.Exited?)
              && (r.status == Finished <==> w.outcome == Returned(None))
              && (r.status.Fatal? <==> w.outcome.Returned? && w.outcome.err.Some?)
  {
    match c.parseGenerate
    case Err(e) => Termination(Fatal(e.message), fs)
    case Ok(name) =>
      match c.generateKeyPair
      case Err(e) => Termination(Fatal(e.message), fs)
      case Ok(pair) =>
        var w := WriteKeyPair(fs, Job(name, pair.0, pair.1, c.writers), c.env);
        match w.outcome
        case Exited(_) => Termination(Cancelled, w.fs)
        case Returned(None) => Termination(Finished, w.fs)
        case Returned(Some(e)) => Termination(Fatal(e.message), w.fs)
  }

  /** main. */
  function Dispatch(args: seq<string>, fs: FileSystem, c: Collaborators): (r: Termination)
    // help is printed exactly for no arguments, -h or --help, and exits 0
    ensures r.status == HelpShown <==> HelpRequested(args)
    // `generate` is the generate branch, parse and generation errors included
    ensures !HelpRequested(args) && args[0] == GenerateCommand ==> r == RunGenerate(fs, c)
    // an unknown command word is fatal
    ensures !HelpRequested(args) && args[0] !in {GenerateCommand, EncryptCommand, DecryptCommand} ==>
              r.status == Fatal(NotRecognized(args[0]))
    // only `generate` changes the file system, and only after a name and a key pair were obtained
    ensures r.fs != fs ==>
              && !HelpRequested(args) && args[0] == GenerateCommand
              && c.parseGenerate.Ok? && c.generateKeyPair.Ok?
    ensures r.status == Cancelled ==> !HelpRequested(args) && args[0] == GenerateCommand
    // `encrypt` and `decrypt` only parse their options
    ensures !HelpRequested(args) && args[0] in {EncryptCommand, DecryptCommand} ==>
              && r.fs == fs
              && (r.status == Finished || r.status.Fatal?)
  {
    if HelpRequested(args) then
      Termination(HelpShown, fs)
    else
      var commandName := args[0];
      if commandName == GenerateCommand then
        RunGenerate(fs, c)
      else if commandName == EncryptCommand then
        Termination(if c.parseEncrypt.Some? then Fatal(c.parseEncrypt.value.message) else Finished, fs)
      else if commandName == DecryptCommand then
        Termination(if c.parseDecrypt.Some? then Fatal(c.parseDecrypt.value.message) else Finished, fs)
      else
        Termination(Fatal(NotRecognized(commandName)), fs)
  }

  /** `version` is not one of main's cases, so it is rejected like any unknown
      word, with exit status 1. */
  lemma VersionIsNotRecognized(rest: seq<string>, fs: FileSystem, c: Collaborators)
    ensures Dispatch([VersionCommand] + rest, fs, c) == Termination(Fatal(NotRecognized(VersionCommand)), fs)
    ensures ExitCode(Dispatch([VersionCommand] + rest, fs, c).status) == 1
  {
  }

  /** A `generate` run that ends normally has written both key files with the
      generated keys' encodings; a declined overwrite exits 0 with the file
      system untouched. */
  lemma GenerateEndToEnd(args: seq<string>, fs: FileSystem, c: Collaborators)
    requires |args| > 0 && args[0] == GenerateCommand
    ensures var r := Dispatch(args, fs, c);
            && (r.status == Finished ==>
                  && c.parseGenerate.Ok? && c.generateKeyPair.Ok?
                  && var name := c.parseGenerate.value;
                     var pair := c.generateKeyPair.value;
                     r.fs == fs[PublicKeyFileName(name) := Regular(c.writers.publicPem(pair.0))]
                               [PrivateKeyFileName(name) := Regular(c.writers.privatePem(pair.1))])
            && (r.status == Cancelled ==> r.fs == fs && ExitCode(r.status) == 0)
  {
  }
}
