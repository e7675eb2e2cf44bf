/**
 * The protobuf parsing engine: the startup pipeline that scans the schema
 * directory, resolves and compiles every schema file into a registry keyed by
 * import-relative path and publishes it, and the two converters that look a
 * message up in the published registry and hand the payload to the dynamic
 * message library.
 *
 * Everything the engine delegates is a parameter: the directory walk is the
 * sequence of entries it visits, the file-name resolver and the schema parser
 * are functions that may fail with a reason, and the dynamic message library
 * is four functions over a message type `M`.
 */
module Proto {
  import opened Wrappers
  import opened Strings
  import opened Descriptors

  /** The marker a file name must contain for the scanner to keep it. */
  const ProtoFileExtension: string := ".proto"

  type Bytes = seq<bv8>

  /**
   * One call of the walk callback: the visited path, the base name of the
   * entry, whether it is a directory, and the error the walk reports for it
   * (an unreadable directory or an entry that cannot be statted).
   */
  datatype WalkEntry = WalkEntry(path: string, name: string, isDir: bool, err: Option<string>)

  /** Resolves scanned file names (the library's file-name resolution). */
  type Resolver = seq<string> -> Result<seq<string>, string>

  /** Compiles one schema file, named by its registry key, into its descriptor. */
  type Parser = string -> Result<FileDescriptor, string>

  /** The errors the engine returns. */
  datatype Error =
    | /** an error of the walk, the resolver or the parser, passed on unchanged */
      Library(reason: string)
    | InvalidFilename(fileName: string)
    | InvalidMessageName(msgName: string)
    | JsonUnmarshalFailed(messageName: string, reason: string)
    | ProtoMarshalFailed(reason: string)
    | ProtoUnmarshalFailed(messageName: string, reason: string)
    | JsonMarshalFailed(reason: string)
  {
    /** The error's message text. */
    function Text(): string {
      match this
      case Library(reason) => reason
      case InvalidFilename(fileName) => "Invalid filename supplied: " + fileName
      case InvalidMessageName(msgName) => "Invalid message name supplied: " + msgName
      case JsonUnmarshalFailed(messageName, reason) =>
        "Failed to unmarshal json data to " + messageName + ", reason: " + reason
      case ProtoMarshalFailed(reason) =>
        "Failed to marshal json data to proto binary data, reason: " + reason
      case ProtoUnmarshalFailed(messageName, reason) =>
        "Failed to unmarshal proto data to " + messageName + ", reason: " + reason
      case JsonMarshalFailed(reason) =>
        "Failed to marshal proto data to json, reason: " + reason
    }
  }

  // ---------------------------------------------------------------------
  // Source tree scanner

  /** The scanner keeps an entry that is not a directory and whose name contains ".proto". */
  predicate IsProtoEntry(e: WalkEntry) {
    !e.isDir && Contains(e.name, ProtoFileExtension)
  }

  /** The paths of the kept entries of `walk`, in walk order. */
  function ProtoPaths(walk: seq<WalkEntry>): seq<string>
  {
    if walk == [] then []
    else
      var last := walk[|walk| - 1];
      ProtoPaths(walk[..|walk| - 1]) + (if IsProtoEntry(last) then [last.path] else [])
  }

  /** The index of the first entry the walk reports an error for, or |walk| if none. */
  function WalkFailure(walk: seq<WalkEntry>): (k: nat)
    ensures k <= |walk|
    ensures forall j :: 0 <= j < k ==> walk[j].err.None?
    ensures k < |walk| ==> walk[k].err.Some?
  {
    if walk == [] then 0
    else if walk[0].err.Some? then 0
    else 1 + WalkFailure(walk[1..])
  }

  // ---------------------------------------------------------------------
  // Descriptor builder

  /** The registry key of a scanned path: the path with the first occurrence of the import directory deleted. */
  function RegistryKey(path: string, importDir: string): string {
    RemoveFirst(path, importDir)
  }

  /** The registry keys of a list of files. */
  function KeysOf(files: seq<string>, importDir: string): set<string>
  {
    if files == [] then {}
    else KeysOf(files[..|files| - 1], importDir) + {RegistryKey(files[|files| - 1], importDir)}
  }

  /** The index of the first file whose key the parser rejects, or |files| if none. */
  function ParseFailure(files: seq<string>, importDir: string, parse: Parser): (k: nat)
    ensures k <= |files|
    ensures forall j :: 0 <= j < k ==> parse(RegistryKey(files[j], importDir)).Success?
    ensures k < |files| ==> parse(RegistryKey(files[k], importDir)).Failure?
  {
    if files == [] then 0
    else if parse(RegistryKey(files[0], importDir)).Failure? then 0
    else 1 + ParseFailure(files[1..], importDir, parse)
  }

  /**
   * `m` after storing, file by file in order, each file's descriptor under
   * its key, a later file overwriting an earlier one with the same key.
   */
  function Register(m: map<string, FileDescriptor>, files: seq<string>, importDir: string, parse: Parser)
    : map<string, FileDescriptor>
    requires forall j :: 0 <= j < |files| ==> parse(RegistryKey(files[j], importDir)).Success?
  {
    if files == [] then m
    else
      var key := RegistryKey(files[|files| - 1], importDir);
      Register(m, files[..|files| - 1], importDir, parse)[key := parse(key).value]
  }

  /** A published registry: the resolved file list and the descriptor of each key. */
  datatype Registry = Registry(files: seq<string>, descriptors: map<string, FileDescriptor>)

  /**
   * What startup produces from the walk of the import directory: the first
   * walk error, else the resolver's error, else the error of the first file
   * the parser rejects, else the registry.
   */
  function StartupOutcome(walk: seq<WalkEntry>, importDir: string, resolve: Resolver, parse: Parser)
    : Result<Registry, Error>
  {
    var k := WalkFailure(walk);
    if k < |walk| then Failure(Library(walk[k].err.value))
    else match resolve(ProtoPaths(walk))
      case Failure(reason) => Failure(Library(reason))
      case Success(files) =>
        var j := ParseFailure(files, importDir, parse);
        if j < |files| then Failure(Library(parse(RegistryKey(files[j], importDir)).error))
        else Success(Registry(files, Register(map[], files, importDir, parse)))
  }

  // ---------------------------------------------------------------------
  // Registry lookup

  /**
   * The lookup both converters start with: the file by its registry key,
   * then the message by its name relative to the file's package.
   */
  function LookupMessage(descriptors: map<string, FileDescriptor>, fileName: string, msgName: string)
    : (r: Result<MessageDescriptor, Error>)
    ensures fileName !in descriptors ==> r == Failure(InvalidFilename(fileName))
    ensures (fileName in descriptors && !Declares(descriptors[fileName], msgName))
              ==> r == Failure(InvalidMessageName(msgName))
    ensures r.Success? <==> fileName in descriptors && Declares(descriptors[fileName], msgName)
    ensures r.Success? ==>
              r.value == descriptors[fileName].messages[FullName(descriptors[fileName].package, msgName)]
  {
    if fileName !in descriptors then Failure(InvalidFilename(fileName))
    else
      var fd := descriptors[fileName];
      match FindMessage(fd, FullName(fd.package, msgName))
      case None => Failure(InvalidMessageName(msgName))
      case Some(md) => Success(md)
  }

  /**
   * The lookup as the converters write it: the message is searched under
   * the package, a separator and the name, even when the package is empty.
   */
  function LookupMessageAsWritten(descriptors: map<string, FileDescriptor>, fileName: string, msgName: string)
    : (r: Result<MessageDescriptor, Error>)
    ensures fileName !in descriptors ==> r == Failure(InvalidFilename(fileName))
    ensures (fileName in descriptors
             && descriptors[fileName].package + NameSeparator + msgName !in descriptors[fileName].messages)
              ==> r == Failure(InvalidMessageName(msgName))
    ensures r.Success? <==>
              fileName in descriptors
              && descriptors[fileName].package + NameSeparator + msgName in descriptors[fileName].messages
    ensures r.Success? ==>
              r.value == descriptors[fileName].messages[descriptors[fileName].package + NameSeparator + msgName]
  {
    if fileName !in descriptors then Failure(InvalidFilename(fileName))
    else
      var fd := descriptors[fileName];
      match FindMessage(fd, fd.package + NameSeparator + msgName)
      case None => Failure(InvalidMessageName(msgName))
      case Some(md) => Success(md)
  }

  // ---------------------------------------------------------------------
  // State

  /** The engine's metadata: the scanned files and the descriptor of each registry key. */
  class ProtoMetadata {
    var files: seq<string>
    var descriptors: map<string, FileDescriptor>

    constructor ()
      ensures files == [] && descriptors == map[]
    {
      files := [];
      descriptors := map[];
    }

    /**
     * Appends, in walk order, the path of every kept entry, and stops at the
     * first entry the walk reports an error for, returning that error.
     */
    method PopulateRelativeFilePaths(walk: seq<WalkEntry>) returns (err: Option<Error>)
      modifies this`files
      ensures var k := WalkFailure(walk);
              && files == old(files) + ProtoPaths(walk[..k])
              && err == (if k < |walk| then Some(Library(walk[k].err.value)) else None)
    {
      var i := 0;
      while i < |walk|
        invariant 0 <= i <= |walk|
        invariant forall j :: 0 <= j < i ==> walk[j].err.None?
        invariant files == old(files) + ProtoPaths(walk[..i])
      {
        var entry := walk[i];
        if entry.err.Some? {
          return Some(Library(entry.err.value));
        }
        assert walk[..i + 1][..i] == walk[..i];
        if IsProtoEntry(entry) {
          files := files + [entry.path];
        }
        i := i + 1;
      }
      assert walk[..i] == walk;
      return None;
    }

    /**
     * Parses every file in order under its registry key and stores the
     * descriptor under that key; stops at the first file the parser rejects
     * and returns the parser's error, so no later file is parsed or stored.
     */
    method BuildFileDescriptors(importDir: string, parse: Parser) returns (err: Option<Error>)
      modifies this`descriptors
      ensures var k := ParseFailure(files, importDir, parse);
              && descriptors == Register(old(descriptors), files[..k], importDir, parse)
              && err == (if k < |files| then Some(Library(parse(RegistryKey(files[k], importDir)).error)) else None)
    {
      var i := 0;
      while i < |files|
        invariant 0 <= i <= |files|
        invariant forall j :: 0 <= j < i ==> parse(RegistryKey(files[j], importDir)).Success?
        invariant descriptors == Register(old(descriptors), files[..i], importDir, parse)
      {
        var protoFile := RegistryKey(files[i], importDir);
        var parsed := parse(protoFile);
        if parsed.Failure? {
          return Some(Library(parsed.error));
        }
        assert files[..i + 1][..i] == files[..i];
        descriptors := descriptors[protoFile := parsed.value];
        i := i + 1;
      }
      assert files[..i] == files;
      return None;
    }
  }

  /** The engine's package state: the published metadata, null until startup succeeds. */
  class Engine {
    var metadata: ProtoMetadata?

    constructor ()
      ensures metadata == null
    {
      metadata := null;
    }

    /**
     * Startup: scans the walk of `protoDir`, resolves the file names and
     * builds the descriptors into fresh metadata, and publishes it only when
     * all three succeed. On an error the previously published metadata stays.
     */
    method Run(protoDir: string, walk: seq<WalkEntry>, resolve: Resolver, parse: Parser) returns (err: Option<Error>)
      modifies this
      ensures match StartupOutcome(walk, protoDir, resolve, parse)
              case Success(reg) =>
                && err == None && metadata != null && fresh(metadata)
                && metadata.files == reg.files && metadata.descriptors == reg.descriptors
              case Failure(e) => err == Some(e) && metadata == old(metadata)
      ensures old(metadata) != null ==> unchanged(old(metadata))
    {
      var protoDesc := new ProtoMetadata();
      err := protoDesc.PopulateRelativeFilePaths(walk);
      if err.Some? {
        return;
      }
      assert walk[..|walk|] == walk;
      assert protoDesc.files == ProtoPaths(walk);
      var resolved := resolve(protoDesc.files);
      if resolved.Failure? {
        return Some(Library(resolved.error));
      }
      protoDesc.files := resolved.value;
      err := protoDesc.BuildFileDescriptors(protoDir, parse);
      if err.Some? {
        return;
      }
      assert protoDesc.files[..|protoDesc.files|] == protoDesc.files;
      metadata := protoDesc;
    }

    /**
     * Converts a JSON payload to the binary encoding of message `msgName` of
     * schema file `fileName`. The checks come in a fixed order: unknown file,
     * unknown message, JSON decoding, binary encoding; bytes are returned only
     * when all four succeed.
     */
    function JSONToProtobuf<M>(fileName: string, msgName: string, jsonData: Bytes,
                               unmarshalJSON: (MessageDescriptor, Bytes) -> Result<M, string>,
                               marshal: M -> Result<Bytes, string>): (r: Result<Bytes, Error>)
      reads this, metadata
      requires metadata != null
      ensures var found := LookupMessage(metadata.descriptors, fileName, msgName);
              && (found.Failure? ==> r == Failure(found.error))
              && (found.Success? && unmarshalJSON(found.value, jsonData).Failure? ==>
                    r == Failure(JsonUnmarshalFailed(found.value.name, unmarshalJSON(found.value, jsonData).error)))
              && (r.Success? <==>
                    found.Success? && unmarshalJSON(found.value, jsonData).Success?
                    && marshal(unmarshalJSON(found.value, jsonData).value).Success?)
              && (found.Success? && unmarshalJSON(found.value, jsonData).Success?
                  && marshal(unmarshalJSON(found.value, jsonData).value).Failure? ==>
                    r == Failure(ProtoMarshalFailed(marshal(unmarshalJSON(found.value, jsonData).value).error)))
              && (r.Success? ==> r.value == marshal(unmarshalJSON(found.value, jsonData).value).value)
    {
      match LookupMessage(metadata.descriptors, fileName, msgName)
      case Failure(e) => Failure(e)
      case Success(msgDesc) =>
        match unmarshalJSON(msgDesc, jsonData)
        case Failure(reason) => Failure(JsonUnmarshalFailed(msgDesc.name, reason))
        case Success(msg) =>
          match marshal(msg)
          case Failure(reason) => Failure(ProtoMarshalFailed(reason))
          case Success(protoBytes) => Success(protoBytes)
    }

    /**
     * Converts a binary payload of message `msgName` of schema file
     * `fileName` to JSON, with the same order of checks: unknown file,
     * unknown message, binary decoding, JSON encoding.
     */
    function ProtobufToJSON<M>(fileName: string, msgName: string, protoData: Bytes,
                               unmarshal: (MessageDescriptor, Bytes) -> Result<M, string>,
                               marshalJSON: M -> Result<Bytes, string>): (r: Result<Bytes, Error>)
      reads this, metadata
      requires metadata != null
      ensures var found := LookupMessage(metadata.descriptors, fileName, msgName);
              && (found.Failure? ==> r == Failure(found.error))
              && (found.Success? && unmarshal(found.value, protoData).Failure? ==>
                    r == Failure(ProtoUnmarshalFailed(found.value.name, unmarshal(found.value, protoData).error)))
              && (r.Success? <==>
                    found.Success? && unmarshal(found.value, protoData).Success?
                    && marshalJSON(unmarshal(found.value, protoData).value).Success?)
              && (found.Success? && unmarshal(found.value, protoData).Success?
                  && marshalJSON(unmarshal(found.value, protoData).value).Failure? ==>
                    r == Failure(JsonMarshalFailed(marshalJSON(unmarshal(found.value, protoData).value).error)))
              && (r.Success? ==> r.value == marshalJSON(unmarshal(found.value, protoData).value).value)
    {
      match LookupMessage(metadata.descriptors, fileName, msgName)
      case Failure(e) => Failure(e)
      case Success(msgDesc) =>
        match unmarshal(msgDesc, protoData)
        case Failure(reason) => Failure(ProtoUnmarshalFailed(msgDesc.name, reason))
        case Success(msg) =>
          match marshalJSON(msg)
          case Failure(reason) => Failure(JsonMarshalFailed(reason))
          case Success(jsonBytes) => Success(jsonBytes)
    }
  }
}
