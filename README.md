# Dynamic protobuf/JSON engine — registry lifecycle model

This project models the protobuf parsing engine of a service that converts
JSON payloads to the protocol-buffer binary encoding and back, driven by
schemas (`.proto` files) compiled at startup rather than by generated code.

What the engine itself decides is modelled and proved:

- **Scanning.** The directory walk keeps an entry when it is not a
  directory and its name *contains* `.proto`. This is a substring test, so
  `a.proto.bak` is kept. The first error the walk reports aborts the scan
  and is returned.
- **Registry keys.** Each scanned path is keyed by deleting the first
  occurrence of the import directory, as `strings.Replace(path, dir, "", 1)`
  does.
- **Building.** Files are parsed in order under their keys, and each
  descriptor is stored under its key. The build stops at the first parse
  error.
- **Publishing.** `Run` builds fresh metadata (scan, resolve, build) and
  assigns the package-level `metadata` only when all three stages succeed.
  On an error, the metadata published before stays as it was.
- **Converting.** `JSONToProtobuf` and `ProtobufToJSON` first look up the
  file by key, then the message by name within the file's package. Only
  after that do they decode and re-encode the payload. They only read the
  registry.

Modules:

- `Wrappers`: Option and Result.
- `Strings`: `strings.Index`, `strings.Contains`, and
  `strings.Replace(s, old, "", 1)`.
- `Descriptors`: the part of the descriptor library the engine uses. A
  file descriptor has a package and a table of messages keyed by full
  name. Messages are looked up in that table.
- `Proto`: `engine/proto.go`. It has the `ProtoMetadata` class (the
  `protoMetadata` struct with its two builder methods) and the `Engine`
  class (the package-level `metadata` variable, `Run`, and the two
  converters). It also has the specification functions the methods are
  proved against.
- `ProtoProperties`: lemmas about the model.

Foreign code appears as parameters:

- The directory walk is the sequence of `WalkEntry` values the callback
  receives.
- `protoparse.ResolveFilenames` is a `Resolver` and the configured
  `Parser.ParseFiles` is a `Parser`. Both may fail with a reason, which the
  engine passes on unchanged as `Library(reason)`.
- The dynamic message library is given as function parameters over a
  message type `M`. They are `NewMessage` with `UnmarshalJSON`, `Marshal`,
  `NewMessage` with `Unmarshal`, and `MarshalJSON`.
- `Run` takes the configured schema directory (`cfg.ProtoDir`) as a string.

## Model

| member | source | states |
|---|---|---|
| `Strings.IndexFrom` | engine/proto.go:71 | the result is an index at or after `from` where `sub` occurs, with no occurrence between `from` and it; None only when `sub` occurs nowhere at or after `from` |
| `Strings.ContainsIff` | engine/proto.go:71 | `Contains(s, sub)` holds exactly when `sub` occurs at some index of `s` |
| `Strings.ContainsAnywhere` | engine/proto.go:71 | an occurrence anywhere, with text after it, makes `Contains` true (a substring test, not a suffix test) |
| `Strings.RemoveFirstSpec` | engine/proto.go:91 | when `sub` first occurs at `i`, the result is the text before `i` joined to the text after the occurrence, and is `|sub|` shorter |
| `Strings.RemoveFirstPrefix` | engine/proto.go:91 | removing a prefix leaves exactly the rest |
| `Strings.RemoveFirstAbsent` | engine/proto.go:91 | without an occurrence the string is unchanged |
| `Strings.RemoveFirstKeepsLater` | engine/proto.go:91 | a later occurrence that does not overlap the first survives, shifted left by `|sub|` (only one occurrence is removed) |
| `Strings.Contains` | engine/proto.go:71 | `strings.Contains`: true exactly when `sub` occurs somewhere in `s`, as `Strings.ContainsIff` and `Strings.ContainsAnywhere` prove |
| `Strings.RemoveFirst` | engine/proto.go:91 | `strings.Replace(s, sub, "", 1)`: cuts out the first occurrence only, as `Strings.RemoveFirstSpec`, `Strings.RemoveFirstPrefix`, `Strings.RemoveFirstAbsent` and `Strings.RemoveFirstKeepsLater` prove |
| `Proto.IsProtoEntry` | engine/proto.go:71 | the scanner's filter: not a directory and ".proto" anywhere in the name; `ProtoProperties.SubstringFilterKeepsBackups` shows `a.proto.bak` is kept |
| `Proto.ProtoPaths` | engine/proto.go:65-76 | the paths the walk callback appends, in walk order; described by `ProtoProperties.ProtoPathsMembership`, `ProtoProperties.ProtoPathsAppend` and `ProtoProperties.ProtoPathsLength` |
| `Proto.RegistryKey` | engine/proto.go:91 | a path's registry key, the path with the first occurrence of the import directory removed; described by `ProtoProperties.RegistryKeyOfPrefixedPath` and `ProtoProperties.RegistryKeyWithoutImportDir` |
| `Proto.Register` | engine/proto.go:90-99 | the map writes of a build, file by file; described by `ProtoProperties.RegisterKeys`, `ProtoProperties.RegisterValues` and `ProtoProperties.RegisterKeepsOthers` |
| `Proto.StartupOutcome` | engine/proto.go:30-59 | Run's stages in order (walk error, then resolver error, then first parse error, else the registry); described by `ProtoProperties.WalkErrorAbortsStartup`, `ProtoProperties.StartupRegistry` and `ProtoProperties.StartupFailsOnParseError` |
| `Proto.Error.Text` | engine/proto.go:109-160 | the error texts the converters build with `fmt.Errorf`, and the library's own text for passed-on errors |
| `Proto.WalkFailure` | engine/proto.go:65-69 | the index of the first walk entry carrying an error, or the walk's length; every entry before it is error-free |
| `Proto.ParseFailure` | engine/proto.go:90-96 | the index of the first file whose key the parser rejects, or the list's length; every file before it parses |
| `Proto.LookupMessage` | engine/proto.go:107-117 | unknown file gives "Invalid filename" before any message lookup; then a message the file does not declare gives "Invalid message name"; success exactly when the file is registered and declares the message, and the result is that message's descriptor |
| `Proto.LookupMessageAsWritten` | engine/proto.go:113 | the lookup as written: unknown file gives "Invalid filename"; a registered file whose table lacks `package + "." + msgName` gives "Invalid message name"; success exactly when that key is in the table, returning the descriptor stored under it |
| `Proto.ProtoMetadata.constructor` | engine/proto.go:35-38 | fresh metadata has no files and an empty descriptor map |
| `Proto.ProtoMetadata.PopulateRelativeFilePaths` | engine/proto.go:62-83 | the files become the old files plus the kept paths of the walk up to its first error, in walk order; that error is returned, or none when the walk has no error |
| `Proto.ProtoMetadata.BuildFileDescriptors` | engine/proto.go:86-102 | the map becomes the old map with the files before the first parse failure stored under their keys; the parser's error for that file is returned, or none |
| `Proto.Engine.constructor` | engine/proto.go:27 | before startup no metadata is published |
| `Proto.Engine.Run` | engine/proto.go:30-59 | on success, fresh metadata holding exactly the startup registry is published; on any error that error is returned and the published metadata is the old one, its contents unchanged |
| `Proto.Engine.JSONToProtobuf` | engine/proto.go:105-133 | lookup errors are returned as they are; a JSON decoding failure is reported with the message name and reason; a binary encoding failure is reported with its reason; bytes are returned exactly when lookup, decoding and encoding all succeed, and they are the encoder's output |
| `Proto.Engine.ProtobufToJSON` | engine/proto.go:136-164 | the same order for the reverse direction: lookup errors, then a binary decoding failure with the message name and reason, then a JSON encoding failure with its reason; bytes exactly when all succeed, and they are the encoder's output |
| `ProtoProperties.ProtoPathsAppend` | engine/proto.go:65-76 | the kept paths of two consecutive stretches of the walk are those of the first followed by those of the second (walk order is kept) |
| `ProtoProperties.ProtoPathsMembership` | engine/proto.go:71-73 | a path is scanned exactly when some walked entry with that path is not a directory and has ".proto" in its name |
| `ProtoProperties.ProtoPathsLength` | engine/proto.go:71-73 | the scan holds at most one path per walked entry |
| `ProtoProperties.SubstringFilterKeepsBackups` | engine/proto.go:71 | a file named `stem + ".proto" + suffix` (such as `a.proto.bak`) is kept; a directory of that name is not |
| `ProtoProperties.WalkErrorAbortsStartup` | engine/proto.go:40-43 | the first walk error is startup's result, whatever the resolver and parser would do |
| `ProtoProperties.RegistryKeyOfPrefixedPath` | engine/proto.go:91 | a path beginning with the import directory is keyed by the remainder |
| `ProtoProperties.RegistryKeyWithoutImportDir` | engine/proto.go:91 | a path not containing the import directory is its own key |
| `ProtoProperties.KeysOfMembership` | engine/proto.go:90-91 | a key belongs to a file list's keys exactly when some file of the list has that key |
| `ProtoProperties.RegisterKeys` | engine/proto.go:90-99 | a build adds exactly the keys of the built files, and no other key |
| `ProtoProperties.RegisterValues` | engine/proto.go:92-98 | after a build every built file's key is bound to the descriptor the parser returned for that key |
| `ProtoProperties.RegisterKeepsOthers` | engine/proto.go:98 | entries whose key no built file has are left as they were |
| `ProtoProperties.ParseFailureIgnoresLaterFiles` | engine/proto.go:90-96 | the failure point depends only on the files up to the failing one, so files after it are never parsed |
| `ProtoProperties.StartupRegistry` | engine/proto.go:40-58 | a published registry holds the resolved scan; its keys are exactly the files' keys, each bound to the parser's descriptor |
| `ProtoProperties.StartupFailsOnParseError` | engine/proto.go:51-54 | any resolved file that fails to parse makes startup fail, so no partial registry is published |
| `ProtoProperties.PublishedFilesAreAddressable` | engine/proto.go:107-117 | every published file is found by its key (never "Invalid filename"), and a message is found exactly when that file's descriptor declares it |
| `ProtoProperties.ConvertersShareLookup` | engine/proto.go:107-117 | both converters give the same "Invalid filename" or "Invalid message name" error whatever the payload and codec, and neither succeeds unless the lookup does |
| `ProtoProperties.AsWrittenMissesPackagelessMessage` | engine/proto.go:113 | for a file without a package that declares `Hello`, the lookup as written reports "Invalid message name" while the corrected lookup finds it |
| `ProtoProperties.AsWrittenNeverFindsPackageless` | engine/proto.go:144 | as written, no message of a file without a package is ever found, when the file keeps the library's invariant that messages are stored under their full names |
| `ProtoProperties.LookupReturnsQualifiedMessage` | engine/proto.go:113 | on a file that keeps that invariant, the corrected lookup returns the message whose full name is the requested name qualified by the file's package |
| `ProtoProperties.LookupAgreesWithAsWritten` | engine/proto.go:113 | whenever the file declares a package, the corrected lookup gives the same result as the lookup as written |

## Findings

| source | as written | input that shows it | evidently intended | confidence | as-written member | corrected member |
|---|---|---|---|---|---|---|
| engine/proto.go:113 | the message is searched under `desc.GetPackage() + "." + msgName`, also at line 144 | a schema file `greet.proto` with no `package` line that declares `message Hello`, requested as (`greet.proto`, `Hello`): the name searched is `.Hello`, but the message's full name is `Hello`, so the converter answers "Invalid message name supplied: Hello" | search under the message's full name, which is `msgName` alone when the file has no package | medium, not executed; it relies on the descriptor library keying messages by full names without a leading dot | `ProtoProperties.AsWrittenMissesPackagelessMessage` | `Proto.LookupMessage` |

The converters in this model use the corrected lookup, `Proto.LookupMessage`.
When the file declares a package, it gives the same result as the lookup as
written (`ProtoProperties.LookupAgreesWithAsWritten`).

## Left out

- The filesystem walk (`filepath.Walk`) is I/O. Its output is the `walk` parameter: one entry per callback call, with path, base name, directory flag and error. How paths are joined and cleaned is not modelled.
- `protoparse.ResolveFilenames` and the schema compiler (`Parser.ParseFiles`) are foreign code. They are opaque, possibly failing parameters. The parser takes a file's key and returns the one descriptor it compiles for that file (element 0 of the library's slice). Because it is a function of the key, two files with the same key store the same descriptor. The "later file overwrites earlier file" order therefore cannot be observed in the values.
- Binary and JSON encoding and decoding (`dynamic.NewMessage`, `UnmarshalJSON`, `Marshal`, `Unmarshal`, `MarshalJSON`) happen inside the library. They are opaque, possibly failing parameters, and no wire-format or round-trip law is stated about them.
- `desc.FindMessage` and `GetPackage`: only a lookup in a table keyed by full name is modelled. Nested-message and symbol-kind details are not.
- Logging calls and their message texts, `log/logger.go`, `config/config.go` and `main.go` are startup plumbing with no logic of their own. Only `cfg.ProtoDir` is modelled, as a parameter of `Run`.
- Concurrent reads of the published metadata are not modelled. The converters are functions, so they cannot modify it.
- Proto.Engine.JSONToProtobuf: requires published metadata. The source dereferences a nil `metadata` (a panic) when called before a successful `Run`.
- Proto.Engine.ProtobufToJSON: requires published metadata, for the same reason.
- Proto.Engine.JSONToProtobuf: searches the message under its full name (the corrected lookup) rather than under `package + "."` followed by the name. These differ only for files without a package (see Findings).
- Proto.Engine.ProtobufToJSON: uses the same corrected lookup.
- Strings are sequences of characters, and the searches compare whole characters. For well-formed UTF-8 this finds the same occurrences as Go's byte-wise search.
