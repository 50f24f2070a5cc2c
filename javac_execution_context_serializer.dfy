/** The wire codec of the Java compiler's execution context.

    `Serialize` flattens a context into a string-keyed map with a fixed key
    set; `Deserialize` checks the required keys in a fixed order and rebuilds
    the data fields, while the live resources (event sink, stderr stream,
    class-loader cache, object mapper, process executor) are never read from
    the map: the caller hands them in. The three nested collaborators have
    their own serializers, which this module takes as parameters. */
module JavacExecutionContextSerializer {
  import opened Wrappers

  const VERBOSITY: string := "verbosity"
  const JAVA_PACKAGE_FINDER: string := "java_package_finder"
  const PROJECT_FILE_SYSTEM_ROOT: string := "project_file_system_root"
  const CLASS_USAGE_FILE_WRITER: string := "class_usage_file_writer"
  const ENVIRONMENT: string := "env"
  const ABSOLUTE_PATHS_FOR_INPUTS: string := "absolute_paths_for_inputs"
  const DIRECT_TO_JAR_SETTINGS: string := "direct_to_jar_settings"

  /** The six keys `Deserialize` demands, in the order it checks them. */
  const REQUIRED_KEYS: seq<string> :=
    [VERBOSITY, JAVA_PACKAGE_FINDER, PROJECT_FILE_SYSTEM_ROOT,
     CLASS_USAGE_FILE_WRITER, ENVIRONMENT, ABSOLUTE_PATHS_FOR_INPUTS]

  const REQUIRED_KEY_SET: set<string> :=
    {VERBOSITY, JAVA_PACKAGE_FINDER, PROJECT_FILE_SYSTEM_ROOT,
     CLASS_USAGE_FILE_WRITER, ENVIRONMENT, ABSOLUTE_PATHS_FOR_INPUTS}

  /** Every key the codec knows: the required ones and the optional one. */
  const ALL_KEYS: seq<string> := REQUIRED_KEYS + [DIRECT_TO_JAR_SETTINGS]

  /** The values a serialized map holds: a string, a string-to-string map,
      a list of strings, or a nested map produced by a sub-serializer. */
  datatype Value =
    | Str(str: string)
    | StrMap(strings: map<string, string>)
    | StrList(items: seq<string>)
    | Obj(fields: map<string, Value>)

  /** The compiler's verbosity levels; an enum constant's name is its wire form. */
  datatype Verbosity =
    | Silent
    | StandardInformation
    | BinaryOutputs
    | Commands
    | CommandsAndSpecialOutput
    | CommandsAndOutput
    | All

  /** A file-system path, kept as its string: `Paths.get` and `toString` are
      taken to be exact inverses, which Java guarantees only for strings
      already in normalized form (no repeated or trailing separators). */
  datatype Path = Path(text: string)

  /** An encoder/decoder pair for one nested collaborator; decoding may fail. */
  datatype SubSerializer<!T> = SubSerializer(
    serialize: T -> map<string, Value>,
    deserialize: map<string, Value> -> Option<T>)

  /** The serializers of the package finder, the class-usage file writer
      and the direct-to-jar output settings. */
  datatype Serializers<!PF, !CU, !DJ> = Serializers(
    javaPackageFinder: SubSerializer<PF>,
    classUsageFileWriter: SubSerializer<CU>,
    directToJarOutputSettings: SubSerializer<DJ>)

  /** The live local resources that never travel in the map. */
  datatype Resources<ES, PS, CLC, OM, PE> = Resources(
    eventSink: ES,
    stdErr: PS,
    classLoaderCache: CLC,
    objectMapper: OM,
    processExecutor: PE)

  /** An execution context: resources of type R plus the data fields.
      The project filesystem is represented by its root path. */
  datatype JavacExecutionContext<R, PF, CU, DJ> = JavacExecutionContext(
    resources: R,
    verbosity: Verbosity,
    javaPackageFinder: PF,
    projectFilesystemRoot: Path,
    usedClassesFileWriter: CU,
    environment: map<string, string>,
    absolutePathsForInputs: seq<Path>,
    directToJarOutputSettings: Option<DJ>)

  /** Why deserialization fails: a required key is absent (an argument
      error), a value has the wrong shape for its cast, the verbosity name
      is not an enum constant, or a nested deserializer failed. */
  datatype DeserializeError =
    | MissingKey(key: string)
    | WrongType(key: string)
    | UnknownVerbosity(name: string)
    | NestedFailure(key: string)

  ghost predicate RoundTrips<T(!new)>(s: SubSerializer<T>) {
    forall x :: s.deserialize(s.serialize(x)) == Some(x)
  }

  /** Every map the sub-serializer accepts is the encoding of what it decodes to. */
  ghost predicate Canonical<T>(s: SubSerializer<T>) {
    forall m | s.deserialize(m).Some? :: s.serialize(s.deserialize(m).value) == m
  }

  // ---------------------------------------------------------------------
  // Key constants

  lemma KeyConstantsDistinct()
    ensures |ALL_KEYS| == 7
    ensures forall i, j | 0 <= i < j < |ALL_KEYS| :: ALL_KEYS[i] != ALL_KEYS[j]
  {
  }

  // ---------------------------------------------------------------------
  // Verbosity

  /** The enum constant's name, as `toString` gives it. */
  function VerbosityName(v: Verbosity): string {
    match v
    case Silent => "SILENT"
    case StandardInformation => "STANDARD_INFORMATION"
    case BinaryOutputs => "BINARY_OUTPUTS"
    case Commands => "COMMANDS"
    case CommandsAndSpecialOutput => "COMMANDS_AND_SPECIAL_OUTPUT"
    case CommandsAndOutput => "COMMANDS_AND_OUTPUT"
    case All => "ALL"
  }

  /** `Verbosity.valueOf`: the constant with exactly this name, if any. */
  function ParseVerbosity(name: string): (r: Option<Verbosity>)
    ensures r.Some? ==> VerbosityName(r.value) == name
    ensures r.None? ==> forall v :: VerbosityName(v) != name
  {
    if name == "SILENT" then Some(Silent)
    else if name == "STANDARD_INFORMATION" then Some(StandardInformation)
    else if name == "BINARY_OUTPUTS" then Some(BinaryOutputs)
    else if name == "COMMANDS" then Some(Commands)
    else if name == "COMMANDS_AND_SPECIAL_OUTPUT" then Some(CommandsAndSpecialOutput)
    else if name == "COMMANDS_AND_OUTPUT" then Some(CommandsAndOutput)
    else if name == "ALL" then Some(All)
    else None
  }

  lemma VerbosityRoundTrip(v: Verbosity)
    ensures ParseVerbosity(VerbosityName(v)) == Some(v)
  {
  }

  // ---------------------------------------------------------------------
  // Path lists

  /** The input paths as strings, one per path, in order. */
  function PathStrings(paths: seq<Path>): (strings: seq<string>)
    ensures |strings| == |paths|
    ensures forall i | 0 <= i < |paths| :: Path(strings[i]) == paths[i]
  {
    seq(|paths|, i requires 0 <= i < |paths| => paths[i].text)
  }

  /** The strings read back as paths, one per string, in order. */
  function ToPaths(strings: seq<string>): (paths: seq<Path>)
    ensures |paths| == |strings|
    ensures forall i | 0 <= i < |strings| :: paths[i].text == strings[i]
  {
    seq(|strings|, i requires 0 <= i < |strings| => Path(strings[i]))
  }

  lemma PathListRoundTrip(paths: seq<Path>, strings: seq<string>)
    ensures ToPaths(PathStrings(paths)) == paths
    ensures PathStrings(ToPaths(strings)) == strings
  {
  }

  // ---------------------------------------------------------------------
  // The map builder

  ghost predicate DistinctKeys(puts: seq<(string, Value)>) {
    forall i, j | 0 <= i < j < |puts| :: puts[i].0 != puts[j].0
  }

  /** The keys of `puts`, in put order. */
  function PutKeys(puts: seq<(string, Value)>): (keys: seq<string>)
    ensures |keys| == |puts|
    ensures forall i | 0 <= i < |puts| :: keys[i] == puts[i].0
  {
    seq(|puts|, i requires 0 <= i < |puts| => puts[i].0)
  }

  /** An immutable-map builder fed `puts` in order: building fails on a
      repeated key, and otherwise the map holds exactly the puts. */
  function Build(puts: seq<(string, Value)>): (r: Option<map<string, Value>>)
    ensures r.Some? <==> DistinctKeys(puts)
    ensures r.Some? ==> forall k :: k in r.value <==> k in PutKeys(puts)
    ensures r.Some? ==> forall i | 0 <= i < |puts| :: r.value[puts[i].0] == puts[i].1
  {
    if puts == [] then Some(map[])
    else
      var init := Build(puts[..|puts| - 1]);
      var last := puts[|puts| - 1];
      assert PutKeys(puts) == PutKeys(puts[..|puts| - 1]) + [last.0];
      if init.None? || last.0 in init.value then None
      else Some(init.value[last.0 := last.1])
  }

  // ---------------------------------------------------------------------
  // Serialization

  /** The `put` calls `serialize` makes, in order; the last only when the
      context carries direct-to-jar settings. */
  function Puts<R, PF, CU, DJ>(ser: Serializers<PF, CU, DJ>, c: JavacExecutionContext<R, PF, CU, DJ>)
    : seq<(string, Value)>
  {
    RequiredPuts(ser, c) + DirectToJarPuts(ser, c)
  }

  function RequiredPuts<R, PF, CU, DJ>(ser: Serializers<PF, CU, DJ>, c: JavacExecutionContext<R, PF, CU, DJ>)
    : seq<(string, Value)>
  {
    [(VERBOSITY, Str(VerbosityName(c.verbosity))),
     (JAVA_PACKAGE_FINDER, Obj(ser.javaPackageFinder.serialize(c.javaPackageFinder))),
     (PROJECT_FILE_SYSTEM_ROOT, Str(c.projectFilesystemRoot.text)),
     (CLASS_USAGE_FILE_WRITER, Obj(ser.classUsageFileWriter.serialize(c.usedClassesFileWriter))),
     (ENVIRONMENT, StrMap(c.environment)),
     (ABSOLUTE_PATHS_FOR_INPUTS, StrList(PathStrings(c.absolutePathsForInputs)))]
  }

  function DirectToJarPuts<R, PF, CU, DJ>(ser: Serializers<PF, CU, DJ>, c: JavacExecutionContext<R, PF, CU, DJ>)
    : seq<(string, Value)>
  {
    match c.directToJarOutputSettings
    case Some(settings) => [(DIRECT_TO_JAR_SETTINGS, Obj(ser.directToJarOutputSettings.serialize(settings)))]
    case None => []
  }

  /** The keys `serialize` puts, in order. */
  function PutOrder(withDirectToJar: bool): seq<string> {
    if withDirectToJar then ALL_KEYS else REQUIRED_KEYS
  }

  lemma PutsFollowKeyOrder<R, PF, CU, DJ>(ser: Serializers<PF, CU, DJ>, c: JavacExecutionContext<R, PF, CU, DJ>)
    ensures PutKeys(Puts(ser, c)) == PutOrder(c.directToJarOutputSettings.Some?)
    ensures DistinctKeys(Puts(ser, c))
  {
    KeyConstantsDistinct();
    var puts := Puts(ser, c);
    assert PutKeys(puts) == PutOrder(c.directToJarOutputSettings.Some?);
  }

  lemma BuiltKeys<R, PF, CU, DJ>(ser: Serializers<PF, CU, DJ>, c: JavacExecutionContext<R, PF, CU, DJ>)
    ensures Build(Puts(ser, c)).Some?
    ensures Build(Puts(ser, c)).value.Keys
      == REQUIRED_KEY_SET + (if c.directToJarOutputSettings.Some? then {DIRECT_TO_JAR_SETTINGS} else {})
  {
    PutsFollowKeyOrder(ser, c);
    var m := Build(Puts(ser, c)).value;
    assert forall k :: k in m <==> k in PutOrder(c.directToJarOutputSettings.Some?);
  }

  lemma BuiltValueAt<R, PF, CU, DJ>(ser: Serializers<PF, CU, DJ>, c: JavacExecutionContext<R, PF, CU, DJ>, i: nat)
    requires Build(Puts(ser, c)).Some? && i < |Puts(ser, c)|
    ensures var m, puts := Build(Puts(ser, c)).value, Puts(ser, c);
      puts[i].0 in m && m[puts[i].0] == puts[i].1
  {
    assert PutKeys(Puts(ser, c))[i] == Puts(ser, c)[i].0;
  }

  function Serialize<R, PF, CU, DJ>(ser: Serializers<PF, CU, DJ>, c: JavacExecutionContext<R, PF, CU, DJ>)
    : (m: map<string, Value>)
    ensures m.Keys == REQUIRED_KEY_SET + (if c.directToJarOutputSettings.Some? then {DIRECT_TO_JAR_SETTINGS} else {})
    ensures DIRECT_TO_JAR_SETTINGS in m <==> c.directToJarOutputSettings.Some?
  {
    BuiltKeys(ser, c);
    Build(Puts(ser, c)).value
  }

  lemma SerializedScalars<R, PF, CU, DJ>(ser: Serializers<PF, CU, DJ>, c: JavacExecutionContext<R, PF, CU, DJ>)
    ensures var m := Serialize(ser, c);
      && m[VERBOSITY] == Str(VerbosityName(c.verbosity))
      && m[PROJECT_FILE_SYSTEM_ROOT] == Str(c.projectFilesystemRoot.text)
      && m[ENVIRONMENT] == StrMap(c.environment)
      && m[ABSOLUTE_PATHS_FOR_INPUTS] == StrList(PathStrings(c.absolutePathsForInputs))
  {
    BuiltKeys(ser, c);
    BuiltValueAt(ser, c, 0);
    BuiltValueAt(ser, c, 2);
    BuiltValueAt(ser, c, 4);
    BuiltValueAt(ser, c, 5);
  }

  lemma SerializedNested<R, PF, CU, DJ>(ser: Serializers<PF, CU, DJ>, c: JavacExecutionContext<R, PF, CU, DJ>)
    ensures var m := Serialize(ser, c);
      && m[JAVA_PACKAGE_FINDER] == Obj(ser.javaPackageFinder.serialize(c.javaPackageFinder))
      && m[CLASS_USAGE_FILE_WRITER] == Obj(ser.classUsageFileWriter.serialize(c.usedClassesFileWriter))
  {
    BuiltKeys(ser, c);
    BuiltValueAt(ser, c, 1);
    BuiltValueAt(ser, c, 3);
  }

  lemma SerializedDirectToJar<R, PF, CU, DJ>(ser: Serializers<PF, CU, DJ>, c: JavacExecutionContext<R, PF, CU, DJ>)
    requires c.directToJarOutputSettings.Some?
    ensures Serialize(ser, c)[DIRECT_TO_JAR_SETTINGS]
      == Obj(ser.directToJarOutputSettings.serialize(c.directToJarOutputSettings.value))
  {
    BuiltKeys(ser, c);
    BuiltValueAt(ser, c, 6);
  }

  // ---------------------------------------------------------------------
  // Deserialization

  /** The position in `keys` of the first key `data` lacks, or |keys|. */
  function FirstMissingIndex(data: map<string, Value>, keys: seq<string>): (n: nat)
    ensures n <= |keys|
    ensures forall j | 0 <= j < n :: keys[j] in data
    ensures n < |keys| ==> keys[n] !in data
  {
    if keys == [] || keys[0] !in data then 0
    else 1 + FirstMissingIndex(data, keys[1..])
  }

  function Require(data: map<string, Value>, key: string): Result<Value, DeserializeError> {
    if key in data then Ok(data[key]) else Err(MissingKey(key))
  }

  function AsString(key: string, v: Value): Result<string, DeserializeError> {
    if v.Str? then Ok(v.str) else Err(WrongType(key))
  }

  function AsObject(key: string, v: Value): Result<map<string, Value>, DeserializeError> {
    if v.Obj? then Ok(v.fields) else Err(WrongType(key))
  }

  function AsStringMap(key: string, v: Value): Result<map<string, string>, DeserializeError> {
    if v.StrMap? then Ok(v.strings) else Err(WrongType(key))
  }

  function AsStringList(key: string, v: Value): Result<seq<string>, DeserializeError> {
    if v.StrList? then Ok(v.items) else Err(WrongType(key))
  }

  function Nested<T>(key: string, decoded: Option<T>): Result<T, DeserializeError> {
    if decoded.Some? then Ok(decoded.value) else Err(NestedFailure(key))
  }

  function VerbosityOf(name: string): Result<Verbosity, DeserializeError> {
    var v := ParseVerbosity(name);
    if v.Some? then Ok(v.value) else Err(UnknownVerbosity(name))
  }

  /** The optional settings: decoded when the key is present, empty otherwise. */
  function DirectToJarOf<DJ>(s: SubSerializer<DJ>, data: map<string, Value>)
    : (r: Result<Option<DJ>, DeserializeError>)
    ensures r.Ok? ==> (r.value.Some? <==> DIRECT_TO_JAR_SETTINGS in data)
  {
    if DIRECT_TO_JAR_SETTINGS in data then
      var fields :- AsObject(DIRECT_TO_JAR_SETTINGS, data[DIRECT_TO_JAR_SETTINGS]);
      var settings :- Nested(DIRECT_TO_JAR_SETTINGS, s.deserialize(fields));
      Ok(Some(settings))
    else
      Ok(None)
  }

  /** The maps `Deserialize` accepts: every required key present, every
      value of the shape its cast expects, a known verbosity name, and every
      nested map accepted by its sub-serializer. */
  ghost predicate Accepts<PF, CU, DJ>(ser: Serializers<PF, CU, DJ>, data: map<string, Value>) {
    && REQUIRED_KEY_SET <= data.Keys
    && data[VERBOSITY].Str? && ParseVerbosity(data[VERBOSITY].str).Some?
    && data[JAVA_PACKAGE_FINDER].Obj?
    && ser.javaPackageFinder.deserialize(data[JAVA_PACKAGE_FINDER].fields).Some?
    && data[PROJECT_FILE_SYSTEM_ROOT].Str?
    && data[CLASS_USAGE_FILE_WRITER].Obj?
    && ser.classUsageFileWriter.deserialize(data[CLASS_USAGE_FILE_WRITER].fields).Some?
    && data[ENVIRONMENT].StrMap?
    && data[ABSOLUTE_PATHS_FOR_INPUTS].StrList?
    && (DIRECT_TO_JAR_SETTINGS in data ==>
          && data[DIRECT_TO_JAR_SETTINGS].Obj?
          && ser.directToJarOutputSettings.deserialize(data[DIRECT_TO_JAR_SETTINGS].fields).Some?)
  }

  function Deserialize<ES, PS, CLC, OM, PE, PF, CU, DJ>(
    ser: Serializers<PF, CU, DJ>,
    data: map<string, Value>,
    eventSink: ES,
    stdErr: PS,
    classLoaderCache: CLC,
    objectMapper: OM,
    processExecutor: PE)
    : (r: Result<JavacExecutionContext<Resources<ES, PS, CLC, OM, PE>, PF, CU, DJ>, DeserializeError>)
    ensures r.Ok? <==> Accepts(ser, data)
    ensures r.Ok? ==>
      r.value.resources == Resources(eventSink, stdErr, classLoaderCache, objectMapper, processExecutor)
    ensures r.Ok? ==> data[VERBOSITY] == Str(VerbosityName(r.value.verbosity))
    ensures r.Ok? ==>
      && data[JAVA_PACKAGE_FINDER].Obj?
      && ser.javaPackageFinder.deserialize(data[JAVA_PACKAGE_FINDER].fields) == Some(r.value.javaPackageFinder)
    ensures r.Ok? ==> data[PROJECT_FILE_SYSTEM_ROOT] == Str(r.value.projectFilesystemRoot.text)
    ensures r.Ok? ==>
      && data[CLASS_USAGE_FILE_WRITER].Obj?
      && ser.classUsageFileWriter.deserialize(data[CLASS_USAGE_FILE_WRITER].fields) == Some(r.value.usedClassesFileWriter)
    ensures r.Ok? ==> data[ENVIRONMENT] == StrMap(r.value.environment)
    ensures r.Ok? ==> data[ABSOLUTE_PATHS_FOR_INPUTS] == StrList(PathStrings(r.value.absolutePathsForInputs))
    ensures r.Ok? ==> (r.value.directToJarOutputSettings.Some? <==> DIRECT_TO_JAR_SETTINGS in data)
    ensures r.Ok? && r.value.directToJarOutputSettings.Some? ==>
      && data[DIRECT_TO_JAR_SETTINGS].Obj?
      && ser.directToJarOutputSettings.deserialize(data[DIRECT_TO_JAR_SETTINGS].fields)
        == r.value.directToJarOutputSettings
  {
    var verbosityValue :- Require(data, VERBOSITY);
    var verbosityName :- AsString(VERBOSITY, verbosityValue);
    var verbosity :- VerbosityOf(verbosityName);

    var finderValue :- Require(data, JAVA_PACKAGE_FINDER);
    var finderFields :- AsObject(JAVA_PACKAGE_FINDER, finderValue);
    var javaPackageFinder :- Nested(JAVA_PACKAGE_FINDER, ser.javaPackageFinder.deserialize(finderFields));

    var rootValue :- Require(data, PROJECT_FILE_SYSTEM_ROOT);
    var rootText :- AsString(PROJECT_FILE_SYSTEM_ROOT, rootValue);

    var writerValue :- Require(data, CLASS_USAGE_FILE_WRITER);
    var writerFields :- AsObject(CLASS_USAGE_FILE_WRITER, writerValue);
    var classUsageFileWriter :- Nested(CLASS_USAGE_FILE_WRITER, ser.classUsageFileWriter.deserialize(writerFields));

    var environmentValue :- Require(data, ENVIRONMENT);

    var pathsValue :- Require(data, ABSOLUTE_PATHS_FOR_INPUTS);
    var pathStrings :- AsStringList(ABSOLUTE_PATHS_FOR_INPUTS, pathsValue);

    var directToJarOutputSettings :- DirectToJarOf(ser.directToJarOutputSettings, data);

    // the environment is cast only when the context is assembled
    var environment :- AsStringMap(ENVIRONMENT, environmentValue);

    PathListRoundTrip(ToPaths(pathStrings), pathStrings);
    Ok(JavacExecutionContext(
      Resources(eventSink, stdErr, classLoaderCache, objectMapper, processExecutor),
      verbosity,
      javaPackageFinder,
      Path(rootText),
      classUsageFileWriter,
      environment,
      ToPaths(pathStrings),
      directToJarOutputSettings))
  }

  lemma FirstMissingAt(data: map<string, Value>, keys: seq<string>, i: nat)
    requires i < |keys| && keys[i] !in data
    requires forall j | 0 <= j < i :: keys[j] in data
    ensures FirstMissingIndex(data, keys) == i
  {
  }

  /** What the checks made before the next presence check demand of the
      value under the required key `key` (the environment is only cast
      once every presence check has passed). */
  ghost predicate CheckedBeforeNextKey<PF, CU, DJ>(ser: Serializers<PF, CU, DJ>, data: map<string, Value>, key: string)
    requires key in data
  {
    if key == VERBOSITY then data[key].Str? && ParseVerbosity(data[key].str).Some?
    else if key == JAVA_PACKAGE_FINDER then
      data[key].Obj? && ser.javaPackageFinder.deserialize(data[key].fields).Some?
    else if key == PROJECT_FILE_SYSTEM_ROOT then data[key].Str?
    else if key == CLASS_USAGE_FILE_WRITER then
      data[key].Obj? && ser.classUsageFileWriter.deserialize(data[key].fields).Some?
    else if key == ABSOLUTE_PATHS_FOR_INPUTS then data[key].StrList?
    else true
  }

  /** The required keys are checked in a fixed order: deserialization fails
      whenever one is absent; an argument error it reports names the first
      absent key; and it reports exactly that error when every value checked
      before that key passed its checks. */
  lemma DeserializeReportsFirstMissingKey<ES, PS, CLC, OM, PE, PF, CU, DJ>(
    ser: Serializers<PF, CU, DJ>,
    data: map<string, Value>,
    eventSink: ES, stdErr: PS, classLoaderCache: CLC, objectMapper: OM, processExecutor: PE)
    ensures var r := Deserialize(ser, data, eventSink, stdErr, classLoaderCache, objectMapper, processExecutor);
      var n := FirstMissingIndex(data, REQUIRED_KEYS);
      && (n < |REQUIRED_KEYS| ==> r.Err?)
      && (r.Err? && r.error.MissingKey? ==> n < |REQUIRED_KEYS| && r.error.key == REQUIRED_KEYS[n])
      && (n < |REQUIRED_KEYS| && (forall j | 0 <= j < n :: CheckedBeforeNextKey(ser, data, REQUIRED_KEYS[j]))
          ==> r == Err(MissingKey(REQUIRED_KEYS[n])))
  {
    var n := FirstMissingIndex(data, REQUIRED_KEYS);
    if VERBOSITY !in data {
      FirstMissingAt(data, REQUIRED_KEYS, 0);
    } else if JAVA_PACKAGE_FINDER !in data {
      FirstMissingAt(data, REQUIRED_KEYS, 1);
    } else if PROJECT_FILE_SYSTEM_ROOT !in data {
      FirstMissingAt(data, REQUIRED_KEYS, 2);
      if forall j | 0 <= j < 2 :: CheckedBeforeNextKey(ser, data, REQUIRED_KEYS[j]) {
        assert CheckedBeforeNextKey(ser, data, REQUIRED_KEYS[0]);
        assert CheckedBeforeNextKey(ser, data, REQUIRED_KEYS[1]);
      }
    } else if CLASS_USAGE_FILE_WRITER !in data {
      FirstMissingAt(data, REQUIRED_KEYS, 3);
      if forall j | 0 <= j < 3 :: CheckedBeforeNextKey(ser, data, REQUIRED_KEYS[j]) {
        assert CheckedBeforeNextKey(ser, data, REQUIRED_KEYS[0]);
        assert CheckedBeforeNextKey(ser, data, REQUIRED_KEYS[1]);
        assert CheckedBeforeNextKey(ser, data, REQUIRED_KEYS[2]);
      }
    } else if ENVIRONMENT !in data {
      FirstMissingAt(data, REQUIRED_KEYS, 4);
      if forall j | 0 <= j < 4 :: CheckedBeforeNextKey(ser, data, REQUIRED_KEYS[j]) {
        assert CheckedBeforeNextKey(ser, data, REQUIRED_KEYS[0]);
        assert CheckedBeforeNextKey(ser, data, REQUIRED_KEYS[1]);
        assert CheckedBeforeNextKey(ser, data, REQUIRED_KEYS[2]);
        assert CheckedBeforeNextKey(ser, data, REQUIRED_KEYS[3]);
      }
    } else if ABSOLUTE_PATHS_FOR_INPUTS !in data {
      FirstMissingAt(data, REQUIRED_KEYS, 5);
      if forall j | 0 <= j < 5 :: CheckedBeforeNextKey(ser, data, REQUIRED_KEYS[j]) {
        assert CheckedBeforeNextKey(ser, data, REQUIRED_KEYS[0]);
        assert CheckedBeforeNextKey(ser, data, REQUIRED_KEYS[1]);
        assert CheckedBeforeNextKey(ser, data, REQUIRED_KEYS[2]);
        assert CheckedBeforeNextKey(ser, data, REQUIRED_KEYS[3]);
        assert CheckedBeforeNextKey(ser, data, REQUIRED_KEYS[4]);
      }
    } else {
      assert forall j | 0 <= j < |REQUIRED_KEYS| :: REQUIRED_KEYS[j] in data;
    }
  }

  // ---------------------------------------------------------------------
  // Properties relating the two directions

  /** The context with its resources replaced by `resources`. */
  function WithResources<R, R2, PF, CU, DJ>(c: JavacExecutionContext<R, PF, CU, DJ>, resources: R2)
    : JavacExecutionContext<R2, PF, CU, DJ>
  {
    JavacExecutionContext(
      resources, c.verbosity, c.javaPackageFinder, c.projectFilesystemRoot,
      c.usedClassesFileWriter, c.environment, c.absolutePathsForInputs,
      c.directToJarOutputSettings)
  }

  /** Deserializing what was serialized gives back every data field, and
      exactly the resources supplied at deserialization. */
  lemma DeserializeSerialize<R, ES, PS, CLC, OM, PE, PF(!new), CU(!new), DJ(!new)>(
    ser: Serializers<PF, CU, DJ>,
    c: JavacExecutionContext<R, PF, CU, DJ>,
    eventSink: ES, stdErr: PS, classLoaderCache: CLC, objectMapper: OM, processExecutor: PE)
    requires RoundTrips(ser.javaPackageFinder)
    requires RoundTrips(ser.classUsageFileWriter)
    requires RoundTrips(ser.directToJarOutputSettings)
    ensures Deserialize(ser, Serialize(ser, c), eventSink, stdErr, classLoaderCache, objectMapper, processExecutor)
      == Ok(WithResources(c, Resources(eventSink, stdErr, classLoaderCache, objectMapper, processExecutor)))
  {
    var m := Serialize(ser, c);
    SerializedScalars(ser, c);
    SerializedNested(ser, c);
    if c.directToJarOutputSettings.Some? {
      SerializedDirectToJar(ser, c);
    }
    VerbosityRoundTrip(c.verbosity);
    assert Accepts(ser, m);
    var d := Deserialize(ser, m, eventSink, stdErr, classLoaderCache, objectMapper, processExecutor).value;
    VerbosityRoundTrip(d.verbosity);
    PathListRoundTrip(c.absolutePathsForInputs, []);
    PathListRoundTrip(d.absolutePathsForInputs, []);
    assert d.absolutePathsForInputs == c.absolutePathsForInputs;
  }

  /** A map `Deserialize` accepts, and that holds no foreign key, is exactly
      what serializing the rebuilt context gives. */
  lemma SerializeDeserialize<ES, PS, CLC, OM, PE, PF, CU, DJ>(
    ser: Serializers<PF, CU, DJ>,
    data: map<string, Value>,
    eventSink: ES, stdErr: PS, classLoaderCache: CLC, objectMapper: OM, processExecutor: PE)
    requires Canonical(ser.javaPackageFinder)
    requires Canonical(ser.classUsageFileWriter)
    requires Canonical(ser.directToJarOutputSettings)
    requires data.Keys <= REQUIRED_KEY_SET + {DIRECT_TO_JAR_SETTINGS}
    requires Accepts(ser, data)
    ensures Serialize(ser, Deserialize(ser, data, eventSink, stdErr, classLoaderCache, objectMapper, processExecutor).value)
      == data
  {
    var c := Deserialize(ser, data, eventSink, stdErr, classLoaderCache, objectMapper, processExecutor).value;
    var m := Serialize(ser, c);
    SerializedScalars(ser, c);
    SerializedNested(ser, c);
    assert m.Keys == data.Keys;
    assert m[VERBOSITY] == data[VERBOSITY];
    assert m[PROJECT_FILE_SYSTEM_ROOT] == data[PROJECT_FILE_SYSTEM_ROOT];
    assert m[ENVIRONMENT] == data[ENVIRONMENT];
    assert m[ABSOLUTE_PATHS_FOR_INPUTS] == data[ABSOLUTE_PATHS_FOR_INPUTS];
    var finder := data[JAVA_PACKAGE_FINDER].fields;
    assert ser.javaPackageFinder.serialize(ser.javaPackageFinder.deserialize(finder).value) == finder;
    assert m[JAVA_PACKAGE_FINDER] == data[JAVA_PACKAGE_FINDER];
    var writer := data[CLASS_USAGE_FILE_WRITER].fields;
    assert ser.classUsageFileWriter.serialize(ser.classUsageFileWriter.deserialize(writer).value) == writer;
    assert m[CLASS_USAGE_FILE_WRITER] == data[CLASS_USAGE_FILE_WRITER];
    if DIRECT_TO_JAR_SETTINGS in data {
      SerializedDirectToJar(ser, c);
      var settings := data[DIRECT_TO_JAR_SETTINGS].fields;
      assert ser.directToJarOutputSettings.serialize(ser.directToJarOutputSettings.deserialize(settings).value) == settings;
      assert m[DIRECT_TO_JAR_SETTINGS] == data[DIRECT_TO_JAR_SETTINGS];
    }
    forall k | k in m ensures m[k] == data[k] {
    }
  }

  /** Dropping any one required key from a serialized context makes
      deserialization fail with an argument error naming that key. */
  lemma DeserializeWithoutRequiredKey<R, ES, PS, CLC, OM, PE, PF(!new), CU(!new), DJ(!new)>(
    ser: Serializers<PF, CU, DJ>,
    c: JavacExecutionContext<R, PF, CU, DJ>,
    key: string,
    eventSink: ES, stdErr: PS, classLoaderCache: CLC, objectMapper: OM, processExecutor: PE)
    requires RoundTrips(ser.javaPackageFinder)
    requires RoundTrips(ser.classUsageFileWriter)
    requires RoundTrips(ser.directToJarOutputSettings)
    requires key in REQUIRED_KEY_SET
    ensures Deserialize(ser, Serialize(ser, c) - {key}, eventSink, stdErr, classLoaderCache, objectMapper, processExecutor)
      == Err(MissingKey(key))
  {
    var m := Serialize(ser, c);
    SerializedScalars(ser, c);
    SerializedNested(ser, c);
    VerbosityRoundTrip(c.verbosity);
    var data := m - {key};
    var r := Deserialize(ser, data, eventSink, stdErr, classLoaderCache, objectMapper, processExecutor);
    DeserializeReportsFirstMissingKey(ser, data, eventSink, stdErr, classLoaderCache, objectMapper, processExecutor);
    KeyConstantsDistinct();
    var i :| 0 <= i < |REQUIRED_KEYS| && REQUIRED_KEYS[i] == key;
    FirstMissingAt(data, REQUIRED_KEYS, i);
    forall j | 0 <= j < i ensures CheckedBeforeNextKey(ser, data, REQUIRED_KEYS[j]) {
    }
  }
}
