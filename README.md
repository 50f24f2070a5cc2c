# Distributed-build state handoff: context codec and file-hash recorder

This project models two parts of the distributed-build layer of the Buck
build tool and proves properties about them in Dafny.

1. **`JavacExecutionContextSerializer`.** This is the wire codec for the Java
   compiler's execution context (`javac_execution_context_serializer.dfy`).
   - `Serialize` flattens a context into a string-keyed map. It puts six
     keys in a fixed order, plus `direct_to_jar_settings` when the context
     carries such settings. It builds the map the way an immutable-map
     builder does, so a repeated key would make the build fail.
   - `Deserialize` checks the required keys in the source's order. It
     reads and casts each value, asks the nested sub-serializers to decode
     their maps, and assembles a context. The live resources (event sink,
     stderr stream, class-loader cache, object mapper, process executor)
     are never read from the map: the caller hands them in.
   - Java's failures become `DeserializeError` values: `checkArgument`
     gives `MissingKey`, a failed cast gives `WrongType`, an unknown enum
     name passed to `Verbosity.valueOf` gives `UnknownVerbosity`, and a
     nested decoder that fails gives `NestedFailure`.
   - The three nested serializers are parameters, each an encoder/decoder
     function pair. The round-trip theorems assume their round trip as a
     precondition.
2. **`RecordingFileHashLoader`.** This is the file-hash loader that records
   a manifest of what it was asked about. Its behaviour is specified by its
   test, `RecordingFileHashLoaderTest`.
   - `project_files.dfy` holds the project tree as an in-memory map from
     project-relative paths to `File | Dir(children) | Symlink(realTarget)`.
     It also holds the outermost-symlink search and the forward-slash path
     rendering.
   - `recording_file_hash_loader.dfy` holds the manifest entries, the
     test's `FakeFileHashLoader`, and `Record`, a function that says which
     entries one lookup appends. It also holds the invariant and coverage
     lemmas about `Record`, and two classes. `BuildJobStateFileHashes` has
     an append-only `entries` sequence. `RecordingFileHashLoader`'s `Get`
     appends to that shared list, recursing into directories, and is proved
     against `Record`.
   - `recording_file_hash_loader_test.dfy` holds the three test scenarios
     as methods. Each method builds its tree, runs one `Get` through a
     fresh recorder, and has the test's assertions as postconditions.

What a lookup records:
- A path that is a symlink, or that lies below a symlinked directory,
  produces exactly one root-symlink entry. The entry is for the outermost
  symlink and names the real path that symlink resolves to.
- An ordinary directory produces a directory entry that lists its
  children. Each child is then recorded in turn.
- An ordinary file produces a file entry.
- A path that is already recorded produces nothing. The same holds for a
  path whose outermost symlink is already recorded.

The recorder class is not among the source files of this model. Its
behaviour comes from the test. In the first test, the delegate's hash table
is keyed by the queried symlink path itself. So the hash a lookup returns,
and the hash each file or directory entry records, is the delegate's answer
for that entry's own path. A hash of the symlink's real target, or a hash
computed from a directory's child names, is not modelled.

## Model

| member | source | states |
|---|---|---|
| JavacExecutionContextSerializer.KeyConstantsDistinct | src/com/facebook/buck/jvm/java/JavacExecutionContextSerializer.java:41-47 | the seven wire keys are pairwise distinct |
| JavacExecutionContextSerializer.VerbosityName | src/com/facebook/buck/jvm/java/JavacExecutionContextSerializer.java:52 | the enum constant's name as `toString` gives it; no contract of its own, characterized by `ParseVerbosity` (both directions) and `VerbosityRoundTrip` |
| JavacExecutionContextSerializer.ParseVerbosity | src/com/facebook/buck/jvm/java/JavacExecutionContextSerializer.java:85 | `Verbosity.valueOf` yields a constant only when the string is that constant's name, and yields nothing when no constant has that name |
| JavacExecutionContextSerializer.VerbosityRoundTrip | src/com/facebook/buck/jvm/java/JavacExecutionContextSerializer.java:85 | reading back the name written at line 52 gives the same verbosity |
| JavacExecutionContextSerializer.PathStrings | src/com/facebook/buck/jvm/java/JavacExecutionContextSerializer.java:61-64 | one string per input path, in order, each naming its path |
| JavacExecutionContextSerializer.ToPaths | src/com/facebook/buck/jvm/java/JavacExecutionContextSerializer.java:102-105 | one path per string, in order, each with that text; a path is kept as its string, without the separator normalization of `Paths.get` |
| JavacExecutionContextSerializer.PathListRoundTrip | src/com/facebook/buck/jvm/java/JavacExecutionContextSerializer.java:102-105 | on the modelled paths, which are kept as strings, paths to strings and back and strings to paths and back are both the identity; Java's `Paths.get` normalizes separators, so the second direction holds there only for already-normalized strings |
| JavacExecutionContextSerializer.Puts | src/com/facebook/buck/jvm/java/JavacExecutionContextSerializer.java:52-70 | the `builder.put` calls in order: the required ones, then the optional one; no contract of its own, characterized by `PutsFollowKeyOrder`, `BuiltKeys` and `BuiltValueAt` |
| JavacExecutionContextSerializer.RequiredPuts | src/com/facebook/buck/jvm/java/JavacExecutionContextSerializer.java:52-64 | the six unconditional `put` calls, each value in its wire form; no contract of its own, characterized by `SerializedScalars` and `SerializedNested` |
| JavacExecutionContextSerializer.DirectToJarPuts | src/com/facebook/buck/jvm/java/JavacExecutionContextSerializer.java:65-70 | the `direct_to_jar_settings` put, made only when settings are present; no contract of its own, characterized by `SerializedDirectToJar` and `BuiltKeys` |
| JavacExecutionContextSerializer.Build | src/com/facebook/buck/jvm/java/JavacExecutionContextSerializer.java:72 | building succeeds exactly when no key is put twice; the built map then holds exactly the put keys, each with its put value |
| JavacExecutionContextSerializer.PutsFollowKeyOrder | src/com/facebook/buck/jvm/java/JavacExecutionContextSerializer.java:52-70 | the keys are put in the source's order, with `direct_to_jar_settings` last and only when settings are present; no key is put twice |
| JavacExecutionContextSerializer.BuiltKeys | src/com/facebook/buck/jvm/java/JavacExecutionContextSerializer.java:49-73 | `build()` never fails on these puts; the key set is the six required keys, plus `direct_to_jar_settings` when settings are present |
| JavacExecutionContextSerializer.BuiltValueAt | src/com/facebook/buck/jvm/java/JavacExecutionContextSerializer.java:72 | every put value is what the built map holds under its key |
| JavacExecutionContextSerializer.Serialize | src/com/facebook/buck/jvm/java/JavacExecutionContextSerializer.java:49-73 | the serialized map has exactly the six required keys, plus `direct_to_jar_settings` exactly when the context carries settings |
| JavacExecutionContextSerializer.SerializedScalars | src/com/facebook/buck/jvm/java/JavacExecutionContextSerializer.java:52-64 | the map holds the verbosity's enum name, the root path's text, the environment, and the input paths as strings |
| JavacExecutionContextSerializer.SerializedNested | src/com/facebook/buck/jvm/java/JavacExecutionContextSerializer.java:53-59 | the package finder and the class-usage writer are stored as the maps their sub-serializers produce |
| JavacExecutionContextSerializer.SerializedDirectToJar | src/com/facebook/buck/jvm/java/JavacExecutionContextSerializer.java:65-70 | present settings are stored as the map their sub-serializer produces |
| JavacExecutionContextSerializer.FirstMissingIndex | src/com/facebook/buck/jvm/java/JavacExecutionContextSerializer.java:84-101 | the position, in check order, of the first required key that is absent; every key before it is present |
| JavacExecutionContextSerializer.DirectToJarOf | src/com/facebook/buck/jvm/java/JavacExecutionContextSerializer.java:107-112 | on success, settings are present exactly when the key is present |
| JavacExecutionContextSerializer.Deserialize | src/com/facebook/buck/jvm/java/JavacExecutionContextSerializer.java:76-127 | succeeds exactly on maps that have every required key with the right value shapes, a known verbosity name and decodable nested maps; the context's resources are the ones passed in; each data field is what its key decodes to; the optional settings are present exactly when their key is |
| JavacExecutionContextSerializer.DeserializeReportsFirstMissingKey | src/com/facebook/buck/jvm/java/JavacExecutionContextSerializer.java:84-101 | a map lacking a required key is rejected; any missing-key error names the first absent key in check order; it is exactly that error when the values checked before that key pass their checks |
| JavacExecutionContextSerializer.DeserializeSerialize | src/com/facebook/buck/jvm/java/JavacExecutionContextSerializer.java:49-127 | deserializing a serialized context gives back every data field, with absent settings staying absent; the resources are the ones supplied |
| JavacExecutionContextSerializer.SerializeDeserialize | src/com/facebook/buck/jvm/java/JavacExecutionContextSerializer.java:49-127 | a map with no foreign key that deserialization accepts is exactly what serializing the rebuilt context gives, when paths are kept as strings; in Java this holds for maps whose path strings are already in `Paths.get`'s normalized form |
| JavacExecutionContextSerializer.DeserializeWithoutRequiredKey | src/com/facebook/buck/jvm/java/JavacExecutionContextSerializer.java:84-101 | removing any one required key from a serialized context makes deserialization fail with the argument error for that key |
| ProjectFiles.UnixPath | test/com/facebook/buck/distributed/RecordingFileHashLoaderTest.java:192-195 | a path's names joined with forward slashes; no contract of its own, characterized by `RecordingFileHashLoaderTest.UnixPathsBelowA` |
| ProjectFiles.SymlinkRootFrom | test/com/facebook/buck/distributed/RecordingFileHashLoaderTest.java:105-107 | the shortest symlink prefix of length at least k, if any; no shorter prefix in that range is a symlink |
| ProjectFiles.SymlinkRoot | test/com/facebook/buck/distributed/RecordingFileHashLoaderTest.java:105-113 | the outermost symlink on a path is a symlink prefix of it with no symlink prefix above; there is none only when no prefix is a symlink |
| ProjectFiles.SymlinkRootIs | test/com/facebook/buck/distributed/RecordingFileHashLoaderTest.java:111-113 | a symlink with no symlink above it is the outermost symlink of every path through it |
| ProjectFiles.OutermostSymlinkIsItsOwnRoot | test/com/facebook/buck/distributed/RecordingFileHashLoaderTest.java:132-136 | the symlink chosen for a path is its own outermost symlink, which is the entry's path |
| ProjectFiles.FindSymlinkRoot | test/com/facebook/buck/distributed/RecordingFileHashLoaderTest.java:126-136 | walking from the path up toward the root and keeping the last symlink seen finds the outermost symlink |
| Distributed.FakeFileHashLoader.Get | test/com/facebook/buck/distributed/RecordingFileHashLoaderTest.java:205-207 | returns a hash exactly for the configured paths, and that hash is the configured one |
| Distributed.FakeFileHashLoader.GetSize | test/com/facebook/buck/distributed/RecordingFileHashLoaderTest.java:210-212 | every size is 0 |
| Distributed.FakeFileHashLoader.GetArchiveMember | test/com/facebook/buck/distributed/RecordingFileHashLoaderTest.java:215-217 | no archive member has a hash |
| Distributed.Record | test/com/facebook/buck/distributed/RecordingFileHashLoaderTest.java:60-190 | which entries one lookup appends and which paths are then recorded; no contract of its own, characterized by `RecordKeepsInv`, `RecordGrowsSeen`, `RecordTwiceAddsNothing`, `RecordUnderSymlink`, `RecordCoversSubtree` and `RecordSubtree`, and `RecordingFileHashLoader.Get` is proved equal to it |
| Distributed.RecordChildren | test/com/facebook/buck/distributed/RecordingFileHashLoaderTest.java:151-152 | the recording of a directory's children one after another; no contract of its own, characterized by `RecordChildrenKeepsInv`, `RecordChildrenGrowsSeen` and `RecordChildrenCover`, and `RecordingFileHashLoader.GetChildren` is proved equal to it |
| Distributed.RecordKeepsInv | test/com/facebook/buck/distributed/RecordingFileHashLoaderTest.java:180-189 | every entry a lookup appends matches the tree: a file flag for non-directories, the children of a directory, the real target of an outermost symlink, the delegate's hash; no path gets a second entry; the recorded paths are the seen set |
| Distributed.RecordChildrenKeepsInv | test/com/facebook/buck/distributed/RecordingFileHashLoaderTest.java:180-189 | the same invariant across recording a directory's children one after another |
| Distributed.RecordGrowsSeen | test/com/facebook/buck/distributed/RecordingFileHashLoaderTest.java:178-182 | a lookup never forgets a recorded path |
| Distributed.RecordChildrenGrowsSeen | test/com/facebook/buck/distributed/RecordingFileHashLoaderTest.java:178-182 | recording children never forgets a recorded path |
| Distributed.RecordTwiceAddsNothing | test/com/facebook/buck/distributed/RecordingFileHashLoaderTest.java:178-182 | a second lookup of the same path appends nothing and changes nothing |
| Distributed.RecordUnderSymlink | test/com/facebook/buck/distributed/RecordingFileHashLoaderTest.java:105-140 | a path at or below an outermost symlink that is not yet recorded appends exactly one root-symlink entry, for the symlink and its real target, and nothing for the path itself |
| Distributed.RecordCoversSubtree | test/com/facebook/buck/distributed/RecordingFileHashLoaderTest.java:151-152 | in a well-formed tree, looking up an unrecorded path with no symlink above it records exactly the paths of its subtree |
| Distributed.RecordChildrenCover | test/com/facebook/buck/distributed/RecordingFileHashLoaderTest.java:151-152 | recording distinct children records exactly the subtrees below them |
| Distributed.RecordSubtree | test/com/facebook/buck/distributed/RecordingFileHashLoaderTest.java:180-189 | such a lookup appends one entry per node of the subtree, with the directory itself included; every appended entry matches the tree |
| Distributed.BuildJobStateFileHashes.constructor | test/com/facebook/buck/distributed/RecordingFileHashLoaderTest.java:73 | a new manifest has no entries |
| Distributed.BuildJobStateFileHashes.AddToEntries | test/com/facebook/buck/distributed/RecordingFileHashLoaderTest.java:86-90 | appends one entry at the end |
| Distributed.RecordingFileHashLoader.constructor | test/com/facebook/buck/distributed/RecordingFileHashLoaderTest.java:78-82 | the recorder keeps its delegate, tree and shared manifest, and starts with nothing recorded |
| Distributed.RecordingFileHashLoader.Get | test/com/facebook/buck/distributed/RecordingFileHashLoaderTest.java:84 | appends exactly what `Record` says and keeps the manifest invariant; returns the delegate's hash, or an error for a path that is neither in the tree nor below a symlink |
| Distributed.RecordingFileHashLoader.GetChildren | test/com/facebook/buck/distributed/RecordingFileHashLoaderTest.java:151-152 | records a directory's children in order, appending exactly what `RecordChildren` says |
| Distributed.RecordingFileHashLoader.Append | test/com/facebook/buck/distributed/RecordingFileHashLoaderTest.java:90-98 | appends one true entry for an unrecorded path and marks the path recorded |
| RecordingFileHashLoaderTest.RecordsDirectSymlinkToFile | test/com/facebook/buck/distributed/RecordingFileHashLoaderTest.java:61-99 | exactly one entry, a root-symlink entry for `linktoexternal`, whose target is the external file's real path |
| RecordingFileHashLoaderTest.RecordsSymlinkToFileWithinExternalDirectory | test/com/facebook/buck/distributed/RecordingFileHashLoaderTest.java:102-141 | exactly one entry, a root-symlink entry for the ancestor `linktoexternaldir` and not the queried file, whose target is the external directory's real path |
| RecordingFileHashLoaderTest.RecordsDirectoryAndRecursivelyRecordsChildren | test/com/facebook/buck/distributed/RecordingFileHashLoaderTest.java:144-190 | exactly five entries, for a, a/b, a/b/c, a/b/d and a/e; the directories a, a/b and a/b/d are flagged as directories and the files are not |
| RecordingFileHashLoaderTest.DirectoryTreeRecordsSubtree | test/com/facebook/buck/distributed/RecordingFileHashLoaderTest.java:180-182 | the lookup of a records five true entries, one per node below a |
| RecordingFileHashLoaderTest.EntryNames | test/com/facebook/buck/distributed/RecordingFileHashLoaderTest.java:184-189 | the recorded forward-slash paths are exactly the five expected ones, with the expected directory flags |
| RecordingFileHashLoaderTest.EntryName | test/com/facebook/buck/distributed/RecordingFileHashLoaderTest.java:184-189 | one recorded entry has an expected forward-slash path and the matching directory flag |
| RecordingFileHashLoaderTest.UnixPathsBelowA | test/com/facebook/buck/distributed/RecordingFileHashLoaderTest.java:192-195 | the forward-slash forms of the five paths |
| RecordingFileHashLoaderTest.DirectoryTreeBelowA | test/com/facebook/buck/distributed/RecordingFileHashLoaderTest.java:156-161 | the subtree of a in the test tree is the five created paths |
| RecordingFileHashLoaderTest.DirectoryTreeIsWellFormed | test/com/facebook/buck/distributed/RecordingFileHashLoaderTest.java:156-161 | the test tree is a well-formed tree |

## Left out

- Verbosity: the model lists the seven constants of the compiler's
  `Verbosity` enum by name. That enum is not part of this model.
- Sub-serializers: the package-finder, class-usage-writer and
  direct-to-jar serializers are not part of this model. They are function
  pairs passed in, and the round-trip theorems assume their round trip.
- Project filesystem: a `ProjectFilesystem` is reduced to its root path
  string, the only part that travels in the map.
- Null values: a key mapped to Java `null` (which would throw a null-pointer
  error inside `valueOf` or `Paths.get`) has no counterpart, since every
  `Value` is non-null.
- Deserialize: Java's unchecked generic casts check only the outer type at
  run time. A list holding a non-string fails later in `Paths.get`, and an
  environment map with non-string values is accepted unchecked. Here each
  cast accepts exactly one `Value` shape, and elements are strings by
  construction.
- Map order: `ImmutableMap` keeps insertion order and Dafny maps are
  unordered. The put order is stated separately by `PutsFollowKeyOrder`.
- Live resources: the resource types (event sink, stderr stream, class-loader
  cache, object mapper, process executor) are opaque type parameters that
  are only passed through.
- Recorder hashes: the hash a lookup returns, and the hash an entry
  records, is the delegate's answer for that path. A hash of a symlink's
  real target and a hash built from a directory's child names are not
  modelled.
- Recorder sizes: file entries do not record a size. The recorder's
  `getSize` and archive-member lookups are not modelled, since no test
  fixes their behaviour.
- Recorder errors: the only error is a path that is neither in the tree
  nor below a symlink. A child lookup that fails is skipped instead of
  propagated, which cannot happen in a well-formed tree. Delegate I/O
  failures are not modelled.
- Symlink search bound: the outermost-symlink search walks the lexical
  prefixes of the path, so it always ends. No depth bound or
  cyclic-symlink error is modelled.
- Path strings: a codec `Path` is kept as its string, so `Paths.get` and
  `toString` are exact inverses in the model. Java's `Paths.get` drops repeated
  and trailing separators and rejects a NUL character with
  `InvalidPathException`. So `PathListRoundTrip` and `SerializeDeserialize`
  hold in Java only for path strings already in normalized form, and the
  invalid-path failure is not modelled.
- Real paths: resolving a symlink's real path on disk is replaced by the
  target stored in the tree. Paths are project-relative name lists, and
  absolute-path canonicalization is not modelled.
- Concurrency: locking around the shared manifest and the recorded-path
  set is not modelled. Each lookup runs to completion alone.
- Test setup: the test's platform checks (Windows skips), temporary folders,
  EasyMock scaffolding and `DistBuildConfig` are not modelled. The mock
  that answers one hash for every path is a constant function.
