# crypt4gh key agreement and key provisioning, in Dafny

This project models the core of a small Crypt4GH-style file-encryption tool
written in Go. The tool's core has two parts.

- **Key layer** (`keys/keys.go`). A reader and a writer each hold an X25519
  key pair. Each side derives the same 32-byte session key. It computes the
  Diffie-Hellman secret of its own private key and the peer's public key. It
  then hashes `secret || readerPublicKey || writerPublicKey` with BLAKE2b-512
  and keeps the first 32 bytes of the digest. Which public key counts as the
  "reader" key and which as the "writer" key depends on the caller's role. The
  layer also reads a raw private key from a PEM file by taking the last 32
  bytes of the decoded payload.
- **Provisioning** (`main.go`). The `generate` command writes a new key pair to
  `<name>.pub.pem` and `<name>.sec.pem`. If either file already exists, it asks
  before overwriting. It writes the public file before the private file, stops
  at the first failing call and undoes nothing. `main` dispatches on the
  command word.

Files:

- `base.dfy` (module `Base`): bytes, Go `error` values, and `Call`. `Call` is
  what a Go call `(*T, error)` can do: return both results, or panic.
- `keys.dfy` (module `Keys`): the key layer.
- `provisioning.dfy` (module `Provisioning`): `writeKeyPair`, `fileExists`
  and `promptYesNo`.
- `command.dfy` (module `Command`): the dispatch in `main`.

The model does not implement the cryptographic primitives. Every key-layer
operation takes a `Primitives` record with three function fields:

- `scalarBaseMult` stands for curve25519.ScalarBaseMult;
- `x25519` stands for curve25519.X25519;
- `blake2b512` stands for blake2b.Sum512.

The types fix their lengths: a `Key` has 32 bytes and a `Digest` has 64. The
lemmas that need Diffie-Hellman commutativity (section 6.1 of RFC 7748) take
it as the precondition `DiffieHellman(p)`. `Keys.ToyPrimitivesAreDiffieHellman`
gives a record that satisfies it, which shows the assumption is consistent.

Provisioning works over an abstract file system, a map from names to regular
files or directories. `Environment` supplies:

- the answer to the prompt;
- the success or error of each `os.Create`, key write and `Close`;
- for a write that fails, how many bytes reached the file.

`Writers` supplies the bytes of the two PEM encodings. `Collaborators`
supplies `main`'s option parsing and key generation.

Where the code behaves surprisingly, the model follows the code:

- `ReadX25519PrivateKey` has an `error` result, but for a PEM text with no
  block, or a payload under 32 bytes, it panics instead of returning one. See
  Findings.
- The word `version` is declared as a constant (main.go:18), but `main` has no
  case for it. It is therefore fatal like any unknown word.
- Key files are opened with `os.Create`, which creates or truncates. It does
  not create exclusively. A second run over existing files overwrites them
  once the prompt has been confirmed.
- Declining the overwrite prompt does not return an error. `promptYesNo` ends
  the process with status 0.

## Model

| member | source | states |
|---|---|---|
| Keys.GenerateSharedKey | keys/keys.go:48-54 | Never fails: the error is nil and the key non-nil. The key has 32 bytes and is a prefix of the 64-byte BLAKE2b-512 digest of secret, then reader key, then writer key. |
| Keys.HashInputRoundTrip | keys/keys.go:49-50 | The hash input has length `|secret| + 64`. Reading it back from the tail recovers the secret, the reader key and the writer key, and vice versa. So the hashed string determines the ordered pair of public keys. |
| Keys.HashInputLayout | keys/keys.go:48-50 | With a 32-byte secret the hash input is exactly 96 bytes: bytes 0-31 are the secret, 32-63 the reader key and 64-95 the writer key. |
| Keys.SwappedKeysChangeHashInput | keys/keys.go:30-46 | Exchanging the two public keys changes the hash input if and only if the keys differ. So reader and writer hash different strings for the same operands, unless the peer key equals the caller's own derived public key. |
| Keys.ReaderWriterSwap | keys/keys.go:36-45 | Swap law: a reader pairing key x with peer y labels the (reader, writer) keys exactly as a writer pairing key y with peer x. The two roles label one caller's keys alike if and only if its own key equals its peer's. |
| Keys.DeriveSharedKey | keys/keys.go:30-46 | Role-parametrised reference definition. The result follows Go's convention (exactly one result non-nil). An X25519 error is returned unchanged. On success the key has 32 bytes and is a prefix of the digest of secret, reader key, writer key, with the keys ordered by role. |
| Keys.GenerateReaderSharedKey | keys/keys.go:30-37 | Equals the reference with role Reader. An X25519 error gives a nil key with that error. Otherwise: nil error and a 32-byte key that is a prefix of the digest of secret, then the caller's derived public key, then the peer's key. |
| Keys.GenerateWriterSharedKey | keys/keys.go:39-46 | Equals the reference with role Writer. The same operands as the reader variant, with the two public keys exchanged: secret, peer key, then the caller's derived public key. |
| Keys.RoleSymmetry | keys/keys.go:30-54 | Given Diffie-Hellman, for valid key pairs A and B, the reader's result with A's private key and B's public key equals the writer's result with B's private key and A's public key. This covers the error case, and the key has 32 bytes. |
| Keys.RoleSymmetryHashInput | keys/keys.go:30-54 | The two sides compute the same secret and label the same keys as (reader, writer) = (A.pub, B.pub). So they hash the identical 96-byte string. |
| Keys.ReadX25519PrivateKey | keys/keys.go:12-22 | The code as written. A read error is returned with a nil key. No PEM block panics (nil dereference). A payload under 32 bytes panics (slice bounds). Otherwise the key is the payload's last 32 bytes and the error is nil. |
| Keys.ReadKeyIgnoresPrefix | keys/keys.go:17-21 | Whatever prefix precedes 32 key bytes in the payload, those 32 bytes are returned with a nil error. |
| Keys.ShortPayloadPanics | keys/keys.go:17-20 | A payload of 31 bytes makes the function panic instead of returning an error. |
| Keys.ReadX25519PrivateKeyChecked | keys/keys.go:12-22 | Corrected reading. It never panics and always follows Go's convention. Where the original returns, it returns the same. Where the original panics, it returns a format error. |
| Provisioning.KeyFileNamesDistinct | main.go:81-82 | Both file names are the key-pair name followed by an 8-character suffix. A public key file name never equals a private key file name, for any two names. |
| Provisioning.FileExists | main.go:138-144 | Defined through os.Stat as the code is. It holds exactly when the name is present and is not a directory. |
| Provisioning.PromptYesNo | main.go:113-122 | Returns to the caller only for a `Yes` selection. Any other selection or a prompt error ends the process with status 0. |
| Provisioning.PersistFile | main.go:86-97 | Create, write, close of one file. The calls made are a non-empty prefix of (create, write, close). The first failure is the last call made, its error is returned, and all earlier calls succeeded. No other file changes. A failed create changes nothing. After a write the file holds a prefix of the encoding. Success leaves exactly the encoding. |
| Provisioning.WriteKeyPair | main.go:80-85 | Confirmation is asked for exactly when one of the two key files exists as a non-directory. The process exits with status 0 exactly when confirmation was asked for and not answered "Yes". It then makes no call and leaves the file system unchanged. |
| Provisioning.WriteKeyPairStopsAtFirstError | main.go:86-110 | Unless the process exited, the calls made are a non-empty prefix of public create/write/close followed by private create/write/close. The returned error is the last call's error, and every earlier call succeeded. |
| Provisioning.WriteKeyPairSucceeds | main.go:98-110 | writeKeyPair returns nil if and only if it was not cancelled and all six calls succeed. Both files then hold their encodings, and all six calls were made in order. |
| Provisioning.WriteKeyPairNoRollback | main.go:98-108 | Once the private file's create has been attempted, the public file holds the public key's encoding, whatever follows. |
| Provisioning.WriteKeyPairFrame | main.go:80-111 | No file other than the two key files changes. |
| Command.RunGenerate | main.go:51-63 | A parse or key-generation error is fatal with that error's message, before any file is touched. Otherwise the file system is writeKeyPair's result. A declined prompt exits 0, nil means normal return, and an error is fatal. |
| Command.Dispatch | main.go:41-78 | Help is shown if and only if there are no arguments or the first is `-h` or `--help`. `generate` behaves exactly as RunGenerate, so its parse and generation errors are fatal. An unknown word is fatal with "command '<word>' is not recognized". Only `generate` with a parsed name and a generated pair can change the file system. `encrypt` and `decrypt` only parse. |
| Command.VersionIsNotRecognized | main.go:50-77 | `version` falls to the default case: fatal, exit status 1, nothing written. |
| Command.GenerateEndToEnd | main.go:51-63 | A `generate` run that ends normally leaves `<name>.pub.pem` and `<name>.sec.pem` holding the generated public and private keys' encodings. A cancelled one exits 0 with the file system unchanged. |

## Left out

- Curve25519 scalar multiplication, X25519, BLAKE2b-512 and PEM/base64 decoding are not implemented. They are function parameters, constrained only by their lengths and Diffie-Hellman commutativity.
- DerivePublicKey has no contract. Its determinism holds by construction, because every Dafny function is deterministic.
- Role distinctness of the session keys themselves is not stated. It needs collision resistance of the hash. Only distinctness of the hash inputs for distinct keys is proved (`Keys.SwappedKeysChangeHashInput`).
- keys.GenerateKeyPair, keys.WriteOpenSSLX25519PublicKey and keys.WriteOpenSSLX25519PrivateKey are not part of this model. Their results are inputs (`Collaborators.generateKeyPair`, `Writers`). So the write-then-read round trip is stated only for a payload that ends with the key (`Keys.ReadKeyIgnoresPrefix`).
- Randomness used in key generation is left out: the generated pair is an input.
- Real file I/O is left out. `os.Stat` is read off the map. An `os.Stat` error other than "does not exist" is not modelled; the code would then call `IsDir` on a nil result. File permissions are not modelled. The outcome of `os.Create` is an input, not tied to the entry kind: the real call fails on a directory, while the model lets the environment decide.
- `promptui` rendering, help text, go-flags parsing details and log.Fatal's colouring are left out. A fatal status carries the error's message only.
- promptPassword (main.go:124-136) is never called and is left out.
- The `encrypt` and `decrypt` branches only parse their options. Their parse outcome is an input.
- Keys.GenerateReaderSharedKey: the code computes no hash on the X25519 error path. A pure model cannot observe this; it only states that a nil key is returned.
- Keys.GenerateWriterSharedKey: likewise, the absence of hashing on the error path is not observable.

## Findings

| source | as written | input that shows it | evidently intended | confidence | as-written member | corrected member |
|---|---|---|---|---|---|---|
| keys/keys.go:17-20 | The block from pem.Decode is used without a nil check. The payload is sliced from `len - 32` without a length check. | A PEM block whose payload has 31 bytes, or a text with no PEM block. | Return an error, as the function's error result allows, instead of a runtime panic. | medium, not executed | Keys.ShortPayloadPanics | Keys.ReadX25519PrivateKeyChecked |
