/**
 * Properties of the engine model: what the scanner keeps, how registry keys
 * are formed, what a build stores and when it stops, when startup publishes,
 * and how the converters' lookup behaves on the published registry.
 */
module ProtoProperties {
  import opened Wrappers
  import opened Strings
  import opened Descriptors
  import opened Proto

  // ---------------------------------------------------------------------
  // Scanner

  /** The kept paths of two consecutive stretches of the walk are those of each, in walk order. */
  lemma {:induction false} ProtoPathsAppend(a: seq<WalkEntry>, b: seq<WalkEntry>)
    ensures ProtoPaths(a + b) == ProtoPaths(a) + ProtoPaths(b)
    decreases |b|
  {
    if b == [] {
      assert a + b == a;
    } else {
      var b' := b[..|b| - 1];
      assert (a + b)[..|a + b| - 1] == a + b';
      ProtoPathsAppend(a, b');
    }
  }

  /** A path is scanned exactly when some walked entry with that path is kept by the filter. */
  lemma {:induction false} ProtoPathsMembership(walk: seq<WalkEntry>, p: string)
    ensures p in ProtoPaths(walk) <==> exists j :: 0 <= j < |walk| && IsProtoEntry(walk[j]) && walk[j].path == p
    decreases |walk|
  {
    if walk != [] {
      var init := walk[..|walk| - 1];
      ProtoPathsMembership(init, p);
      if p in ProtoPaths(init) {
        var j :| 0 <= j < |init| && IsProtoEntry(init[j]) && init[j].path == p;
        assert walk[j] == init[j];
      }
      if exists j :: 0 <= j < |walk| && IsProtoEntry(walk[j]) && walk[j].path == p {
        var j :| 0 <= j < |walk| && IsProtoEntry(walk[j]) && walk[j].path == p;
        if j < |init| {
          assert init[j] == walk[j];
        }
      }
    }
  }

  /** The scanner never keeps more entries than were walked. */
  lemma {:induction false} ProtoPathsLength(walk: seq<WalkEntry>)
    ensures |ProtoPaths(walk)| <= |walk|
    decreases |walk|
  {
    if walk != [] {
      ProtoPathsLength(walk[..|walk| - 1]);
    }
  }

  /**
   * The filter is a substring test: a file whose name has ".proto" anywhere,
   * such as "a.proto.bak", is kept; a directory never is.
   */
  lemma SubstringFilterKeepsBackups(path: string, stem: string, suffix: string, err: Option<string>)
    ensures IsProtoEntry(WalkEntry(path, stem + ProtoFileExtension + suffix, false, err))
    ensures !IsProtoEntry(WalkEntry(path, stem + ProtoFileExtension + suffix, true, err))
  {
    ContainsAnywhere(stem, ProtoFileExtension, suffix);
  }

  /**
   * The first walk error aborts startup with that error, whatever the
   * resolver and the parser would do: nothing is resolved or built.
   */
  lemma WalkErrorAbortsStartup(walk: seq<WalkEntry>, i: nat, importDir: string, resolve: Resolver, parse: Parser)
    requires i < |walk| && walk[i].err.Some?
    requires forall j :: 0 <= j < i ==> walk[j].err.None?
    ensures StartupOutcome(walk, importDir, resolve, parse) == Failure(Library(walk[i].err.value))
  {
  }

  // ---------------------------------------------------------------------
  // Registry keys

  /** A path that starts with the import directory is keyed by the rest of it. */
  lemma RegistryKeyOfPrefixedPath(importDir: string, rest: string)
    ensures RegistryKey(importDir + rest, importDir) == rest
  {
    RemoveFirstPrefix(importDir, rest);
  }

  /** A path that does not contain the import directory is its own key. */
  lemma RegistryKeyWithoutImportDir(path: string, importDir: string)
    requires !Contains(path, importDir)
    ensures RegistryKey(path, importDir) == path
  {
    RemoveFirstAbsent(path, importDir);
  }

  // ---------------------------------------------------------------------
  // Build

  /** The keys of a file list are exactly the keys of its files. */
  lemma {:induction false} KeysOfMembership(files: seq<string>, importDir: string, key: string)
    ensures key in KeysOf(files, importDir) <==> exists j :: 0 <= j < |files| && key == RegistryKey(files[j], importDir)
    decreases |files|
  {
    if files != [] {
      var init := files[..|files| - 1];
      KeysOfMembership(init, importDir, key);
      if key in KeysOf(init, importDir) {
        var j :| 0 <= j < |init| && key == RegistryKey(init[j], importDir);
        assert files[j] == init[j];
      }
      if exists j :: 0 <= j < |files| && key == RegistryKey(files[j], importDir) {
        var j :| 0 <= j < |files| && key == RegistryKey(files[j], importDir);
        if j < |init| {
          assert init[j] == files[j];
        }
      }
    }
  }

  /** A build adds exactly the keys of the built files to the map's keys. */
  lemma {:induction false} RegisterKeys(m: map<string, FileDescriptor>, files: seq<string>, importDir: string, parse: Parser)
    requires forall j :: 0 <= j < |files| ==> parse(RegistryKey(files[j], importDir)).Success?
    ensures Register(m, files, importDir, parse).Keys == m.Keys + KeysOf(files, importDir)
    decreases |files|
  {
    if files != [] {
      RegisterKeys(m, files[..|files| - 1], importDir, parse);
    }
  }

  /**
   * After a build, every built file's key is bound to the descriptor the
   * parser returns for that key. Two files with the same key store under it
   * one after the other, and the parser gives both the same descriptor.
   */
  lemma {:induction false} RegisterValues(m: map<string, FileDescriptor>, files: seq<string>, importDir: string,
                                          parse: Parser, j: nat)
    requires forall i :: 0 <= i < |files| ==> parse(RegistryKey(files[i], importDir)).Success?
    requires j < |files|
    ensures RegistryKey(files[j], importDir) in Register(m, files, importDir, parse)
    ensures Register(m, files, importDir, parse)[RegistryKey(files[j], importDir)]
              == parse(RegistryKey(files[j], importDir)).value
    decreases |files|
  {
    var init := files[..|files| - 1];
    if j < |files| - 1 {
      assert init[j] == files[j];
      RegisterValues(m, init, importDir, parse, j);
    }
  }

  /** A build leaves every entry whose key no built file has untouched. */
  lemma {:induction false} RegisterKeepsOthers(m: map<string, FileDescriptor>, files: seq<string>, importDir: string,
                                               parse: Parser, key: string)
    requires forall i :: 0 <= i < |files| ==> parse(RegistryKey(files[i], importDir)).Success?
    requires key in m && key !in KeysOf(files, importDir)
    ensures key in Register(m, files, importDir, parse)
    ensures Register(m, files, importDir, parse)[key] == m[key]
    decreases |files|
  {
    if files != [] {
      RegisterKeepsOthers(m, files[..|files| - 1], importDir, parse, key);
    }
  }

  /**
   * The build stops at the first file the parser rejects: its outcome
   * depends only on the files up to that one, so the files after it are
   * never parsed.
   */
  lemma {:induction false} ParseFailureIgnoresLaterFiles(files: seq<string>, other: seq<string>, importDir: string,
                                                         parse: Parser)
    requires ParseFailure(files, importDir, parse) < |files|
    requires ParseFailure(files, importDir, parse) < |other|
    requires other[..ParseFailure(files, importDir, parse) + 1] == files[..ParseFailure(files, importDir, parse) + 1]
    ensures ParseFailure(other, importDir, parse) == ParseFailure(files, importDir, parse)
  {
    var k := ParseFailure(files, importDir, parse);
    var k' := ParseFailure(other, importDir, parse);
    forall j | 0 <= j <= k
      ensures other[j] == files[j]
    {
      assert other[..k + 1][j] == files[..k + 1][j];
    }
  }

  // ---------------------------------------------------------------------
  // Startup

  /**
   * A published registry holds the resolved scan, binds every file's key
   * to the parser's descriptor for it, and holds no other key.
   */
  lemma StartupRegistry(walk: seq<WalkEntry>, importDir: string, resolve: Resolver, parse: Parser)
    requires StartupOutcome(walk, importDir, resolve, parse).Success?
    ensures var reg := StartupOutcome(walk, importDir, resolve, parse).value;
            && WalkFailure(walk) == |walk|
            && resolve(ProtoPaths(walk)) == Success(reg.files)
            && reg.descriptors.Keys == KeysOf(reg.files, importDir)
            && forall j :: 0 <= j < |reg.files| ==>
                 && RegistryKey(reg.files[j], importDir) in reg.descriptors
                 && reg.descriptors[RegistryKey(reg.files[j], importDir)] == parse(RegistryKey(reg.files[j], importDir)).value
  {
    var reg := StartupOutcome(walk, importDir, resolve, parse).value;
    assert ParseFailure(reg.files, importDir, parse) == |reg.files|;
    RegisterKeys(map[], reg.files, importDir, parse);
    forall j | 0 <= j < |reg.files|
      ensures RegistryKey(reg.files[j], importDir) in reg.descriptors
      ensures reg.descriptors[RegistryKey(reg.files[j], importDir)] == parse(RegistryKey(reg.files[j], importDir)).value
    {
      RegisterValues(map[], reg.files, importDir, parse, j);
    }
  }

  /** Any resolved file that fails to parse makes startup fail: no partial registry is published. */
  lemma StartupFailsOnParseError(walk: seq<WalkEntry>, importDir: string, resolve: Resolver, parse: Parser, i: nat)
    requires WalkFailure(walk) == |walk| && resolve(ProtoPaths(walk)).Success?
    requires i < |resolve(ProtoPaths(walk)).value|
    requires parse(RegistryKey(resolve(ProtoPaths(walk)).value[i], importDir)).Failure?
    ensures StartupOutcome(walk, importDir, resolve, parse).Failure?
  {
    var files := resolve(ProtoPaths(walk)).value;
  }

  /**
   * Every file of a published registry is addressable by its key: the
   * converters' lookup never answers "Invalid filename" for it, and finds a
   * message exactly when the file's descriptor declares it.
   */
  lemma PublishedFilesAreAddressable(walk: seq<WalkEntry>, importDir: string, resolve: Resolver, parse: Parser,
                                     j: nat, msgName: string)
    requires StartupOutcome(walk, importDir, resolve, parse).Success?
    requires j < |StartupOutcome(walk, importDir, resolve, parse).value.files|
    ensures var reg := StartupOutcome(walk, importDir, resolve, parse).value;
            var key := RegistryKey(reg.files[j], importDir);
            var found := LookupMessage(reg.descriptors, key, msgName);
            && found != Failure(InvalidFilename(key))
            && (found.Success? <==> Declares(parse(key).value, msgName))
  {
    var reg := StartupOutcome(walk, importDir, resolve, parse).value;
    assert ParseFailure(reg.files, importDir, parse) == |reg.files|;
    RegisterValues(map[], reg.files, importDir, parse, j);
  }

  // ---------------------------------------------------------------------
  // Converters

  /**
   * The two converters run the same lookup: an unknown file or message gives
   * both the same error, whatever the payload and the codec, and neither
   * succeeds unless the lookup does.
   */
  lemma ConvertersShareLookup<M>(engine: Proto.Engine, fileName: string, msgName: string,
                                 jsonData: Bytes, protoData: Bytes,
                                 unmarshalJSON: (MessageDescriptor, Bytes) -> Result<M, string>,
                                 marshal: M -> Result<Bytes, string>,
                                 unmarshal: (MessageDescriptor, Bytes) -> Result<M, string>,
                                 marshalJSON: M -> Result<Bytes, string>)
    requires engine.metadata != null
    ensures var toBinary := engine.JSONToProtobuf(fileName, msgName, jsonData, unmarshalJSON, marshal);
            var toJson := engine.ProtobufToJSON(fileName, msgName, protoData, unmarshal, marshalJSON);
            && (fileName !in engine.metadata.descriptors ==>
                  toBinary == toJson == Failure(InvalidFilename(fileName)))
            && ((fileName in engine.metadata.descriptors && !Declares(engine.metadata.descriptors[fileName], msgName)) ==>
                  toBinary == toJson == Failure(InvalidMessageName(msgName)))
            && (toBinary.Success? || toJson.Success? ==> LookupMessage(engine.metadata.descriptors, fileName, msgName).Success?)
  {
  }

  /** A caller can tell the two lookup errors apart by their text. */
  lemma LookupErrorTextsDiffer(fileName: string, msgName: string)
    ensures InvalidFilename(fileName).Text() != InvalidMessageName(msgName).Text()
  {
    var a := InvalidFilename(fileName).Text();
    var b := InvalidMessageName(msgName).Text();
    assert a[8] == 'f';
    assert b[8] == 'm';
  }

  // ---------------------------------------------------------------------
  // Message lookup under a file without a package

  /**
   * As written, the lookup searches ".Hello" in a file that declares no
   * package, where the message's full name is "Hello": the message is
   * reported as invalid. The corrected lookup finds it.
   */
  lemma AsWrittenMissesPackagelessMessage()
    ensures var hello := MessageDescriptor("Hello", "Hello");
            var descriptors := map["greet.proto" := FileDescriptor("", map["Hello" := hello])];
            && LookupMessageAsWritten(descriptors, "greet.proto", "Hello") == Failure(InvalidMessageName("Hello"))
            && StoredUnderFullNames(descriptors["greet.proto"])
            && LookupMessage(descriptors, "greet.proto", "Hello") == Success(hello)
  {
    assert "" + NameSeparator + "Hello" == ".Hello";
    assert ".Hello" != "Hello";
  }

  /**
   * As written, no message of a file without a package is ever found, since
   * no full name starts with the separator.
   */
  lemma AsWrittenNeverFindsPackageless(descriptors: map<string, FileDescriptor>, fileName: string, msgName: string)
    requires fileName in descriptors && descriptors[fileName].package == ""
    requires StoredUnderFullNames(descriptors[fileName])
    ensures LookupMessageAsWritten(descriptors, fileName, msgName) == Failure(InvalidMessageName(msgName))
  {
    var name := descriptors[fileName].package + NameSeparator + msgName;
    assert name[0] == '.';
  }

  /**
   * On a well-formed file, the corrected lookup returns the message whose
   * full name is the requested name qualified by the file's package.
   */
  lemma LookupReturnsQualifiedMessage(descriptors: map<string, FileDescriptor>, fileName: string, msgName: string)
    requires fileName in descriptors && StoredUnderFullNames(descriptors[fileName])
    requires LookupMessage(descriptors, fileName, msgName).Success?
    ensures LookupMessage(descriptors, fileName, msgName).value.fullName
              == FullName(descriptors[fileName].package, msgName)
  {
  }

  /** Where the file declares a package, the corrected lookup is the lookup as written. */
  lemma LookupAgreesWithAsWritten(descriptors: map<string, FileDescriptor>, fileName: string, msgName: string)
    requires fileName in descriptors ==> descriptors[fileName].package != ""
    ensures LookupMessage(descriptors, fileName, msgName) == LookupMessageAsWritten(descriptors, fileName, msgName)
  {
  }
}
