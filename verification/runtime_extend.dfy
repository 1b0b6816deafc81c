/**
 The `lithops runtime extend` command (lithops/scripts/cli.py): derive the
 function's module name from its file path, derive the extended runtime's
 name, image and storage key (from a content digest of the function file, or
 reusing the base runtime when the backend has a `kind`), stage the build
 context, render the three-line Dockerfile, build, and persist the runtime
 record with its accumulated extension metadata.

 Everything the command reaches through foreign code (MD5, base64 decoding,
 the backend's key derivation, runtime creation and image build, the
 import of the function's module and the dependency serializer) is a
 function-typed field of `Env`, so the model claims nothing about it
 beyond determinism in the inputs the program hands it.
 */
module RuntimeExtend {
  import opened Wrappers
  import opened Seqs
  import opened Text
  import opened Paths
  import opened Staging

  // ---------------------------------------------------------------------------
  // Data
  // ---------------------------------------------------------------------------

  /** The accumulated extension metadata: module names and function names, each de-duplicated. */
  datatype ExtMeta = ExtMeta(mapFuncMod: seq<string>, mapFunc: seq<string>)

  /** A persisted runtime record; fields other than these are carried through unchanged. */
  datatype RuntimeMeta = RuntimeMeta(
    preinstalls: seq<(string, string)>,
    extMeta: Option<ExtMeta>,
    mapFuncMod: Option<string>,
    mapFunc: Option<string>)

  /** The command's arguments; `None` stands for an option that was not given. */
  datatype ExtendArgs = ExtendArgs(
    baseName: string,
    filepath: string,
    funcName: string,
    memory: Option<int>,
    timeout: Option<int>,
    image: Option<string>,
    includeModules: seq<string>,
    excludeModules: seq<string>)

  /**
   The function handed to the dependency serializer, identified by where it
   was imported from: the directory appended to `sys.path`, the module name
   and the function's name.
   */
  datatype FuncRef = FuncRef(searchDir: string, moduleName: string, funcName: string)

  /**
   The configuration values and foreign operations the command depends on.
   `importModule(dir, m)` is the import of `m` after `dir` was appended to
   `sys.path`, giving the names the module defines, or `None` when the
   import fails. `moduleData(preinstalls, func, include, exclude)` is the
   serializer applied to the function followed by `create_module_data`.
   `buildRuntime(image, dockerfile, files)` is the image build, run in the
   modules directory of the disk `files`, telling whether it succeeded.
   */
  datatype Env = Env(
    tempDir: string,
    kind: Option<string>,
    defaultMemory: int,
    defaultTimeout: int,
    md5Hex: Bytes -> string,
    runtimeKey: (string, int) -> string,
    importModule: (string, string) -> Option<set<string>>,
    moduleData: (seq<(string, string)>, FuncRef, seq<string>, seq<string>) -> seq<ModuleFile>,
    b64Decode: string -> Bytes,
    buildRuntime: (Option<string>, string, map<string, FileBody>) -> bool,
    createRuntime: (string, int, int) -> RuntimeMeta)

  /**
   Why the command stops before persisting anything. A failed build comes
   after the build context was staged, and those files stay on the disk.
   */
  datatype ExtendError =
    | BaseRuntimeMissing(key: string)
    | ModuleNotImportable(moduleName: string)
    | FunctionMissing(moduleName: string, funcName: string)
    | BuildFailed(image: Option<string>, files: map<string, FileBody>)

  /** The names the command derives for the extended runtime. */
  datatype Naming = Naming(extName: string, imageName: Option<string>, extKey: string, baseImage: Option<string>)

  /** Everything a successful extension produces. */
  datatype Extension = Extension(
    naming: Naming,
    moduleName: string,
    staged: Staged,
    dockerfile: string,
    record: RuntimeMeta,
    store: map<string, RuntimeMeta>)

  // ---------------------------------------------------------------------------
  // Module name
  // ---------------------------------------------------------------------------

  predicate EndsWith(s: string, suffix: string)
  {
    |suffix| <= |s| && s[|s| - |suffix|..] == suffix
  }

  /** The file's basename with one trailing `.py` removed, if it has one. */
  function ModuleName(filepath: string): (m: string)
    ensures '/' !in m
    ensures EndsWith(Basename(filepath), ".py") ==> Basename(filepath) == m + ".py"
    ensures !EndsWith(Basename(filepath), ".py") ==> m == Basename(filepath)
  {
    var b := Basename(filepath);
    if EndsWith(b, ".py") then b[..|b| - 3] else b
  }

  /** The directory `os.path.split` gives for the file, which is appended to `sys.path`. */
  function ModuleDir(filepath: string): string
  {
    Split(filepath).0
  }

  /** The module name of `<dir>/<m>.py` is `m`; a name without `.py` is kept whole. */
  lemma ModuleNameOfFile(dir: string, m: string)
    requires '/' !in m
    ensures ModuleName(dir + "/" + m + ".py") == m
    ensures !EndsWith(m, ".py") ==> ModuleName(dir + "/" + m) == m
  {
    assert '/' !in m + ".py" by {
      assert forall k :: 0 <= k < |m + ".py"| ==> (m + ".py")[k] != '/' by {
        forall k | 0 <= k < |m + ".py"| ensures (m + ".py")[k] != '/' {
          if k < |m| { assert (m + ".py")[k] == m[k] && m[k] in m; }
        }
      }
    }
    assert dir + "/" + m + ".py" == (dir + "/") + (m + ".py");
    BasenameAfterSlash(dir + "/", m + ".py");
    assert (m + ".py")[..|m|] == m;
    assert dir + "/" + m == (dir + "/") + m;
    BasenameAfterSlash(dir + "/", m);
  }

  // ---------------------------------------------------------------------------
  // Naming
  // ---------------------------------------------------------------------------

  /** `x if x else default` for an integer option: an absent or zero value falls back. */
  function Resolve(opt: Option<int>, default: int): (v: int)
    ensures v == default || (opt.Some? && v == opt.value && v != 0)
    ensures opt.Some? && opt.value != 0 ==> v == opt.value
  {
    if opt.Some? && opt.value != 0 then opt.value else default
  }

  /** `if kind:`: a backend kind that is present and non-empty. */
  predicate KindSet(kind: Option<string>)
  {
    kind.Some? && kind.value != ""
  }

  /** How many hex characters of the digest name an extended runtime. */
  const TagLength: nat := 16

  /** `digest[:16]`. */
  function Tag(digest: string): (t: string)
    ensures t <= digest
    ensures |t| == if |digest| < TagLength then |digest| else TagLength
  {
    if |digest| < TagLength then digest else digest[..TagLength]
  }

  predicate IsHexDigest(d: string)
  {
    |d| == 32 && forall k :: 0 <= k < |d| ==> '0' <= d[k] <= '9' || 'a' <= d[k] <= 'f'
  }

  /** `"{}:{}".format(base.rsplit(":", 1)[0], tag)`: the base name with its tag replaced. */
  function ExtendedName(baseName: string, digest: string): string
  {
    BeforeLast(baseName, ':') + ":" + Tag(digest)
  }

  /** `name.rsplit(":", 1)[-1]`: the part after the last colon, or the whole name. */
  function TagPart(name: string): string
  {
    name[AfterLast(name, ':')..]
  }

  /** A hexadecimal digest's tag has exactly 16 characters and no colon. */
  lemma HexTag(digest: string)
    requires IsHexDigest(digest)
    ensures |Tag(digest)| == TagLength && ':' !in Tag(digest)
  {
    var t := Tag(digest);
    forall k | 0 <= k < |t| ensures t[k] != ':' {
      assert t[k] == digest[k];
    }
  }

  /**
   Splitting an extended name at its last colon gives back the base name's
   repository part and the digest's tag.
   */
  lemma ExtendedNameParts(baseName: string, digest: string)
    requires ':' !in Tag(digest)
    ensures BeforeLast(ExtendedName(baseName, digest), ':') == BeforeLast(baseName, ':')
    ensures TagPart(ExtendedName(baseName, digest)) == Tag(digest)
  {
    var pre := BeforeLast(baseName, ':');
    var s := ExtendedName(baseName, digest);
    assert s == pre + [':'] + Tag(digest);
    BeforeLastOfJoined(pre, ':', Tag(digest));
    AfterLastUnique(s, ':', |pre| + 1);
    assert s[|pre| + 1..] == Tag(digest);
  }

  /** Extending an extended runtime replaces its digest tag instead of adding another. */
  lemma ReextendReplacesTag(baseName: string, d1: string, d2: string)
    requires ':' !in Tag(d1)
    ensures ExtendedName(ExtendedName(baseName, d1), d2) == ExtendedName(baseName, d2)
  {
    ExtendedNameParts(baseName, d1);
  }

  /** Different tags give different extended names of the same base. */
  lemma DistinctTagsDistinctNames(baseName: string, d1: string, d2: string)
    requires Tag(d1) != Tag(d2)
    ensures ExtendedName(baseName, d1) != ExtendedName(baseName, d2)
  {
    var pre := BeforeLast(baseName, ':') + ":";
    assert ExtendedName(baseName, d1)[|pre|..] == Tag(d1);
    assert ExtendedName(baseName, d2)[|pre|..] == Tag(d2);
  }

  /**
   A base name with a registry port but no tag loses its path: everything
   after the port's colon is taken for the tag and replaced.
   */
  lemma RegistryPortTakenForTag(digest: string)
    ensures ExtendedName("localhost:5000/rt", digest) == "localhost:" + Tag(digest)
  {
    var name := "localhost:5000/rt";
    assert name == "localhost" + [':'] + "5000/rt";
    BeforeLastOfJoined("localhost", ':', "5000/rt");
  }

  /**
   The names `extend` derives. With a backend kind, the base runtime is
   reused: same name, same key, and the caller's image both built and
   extended from. Otherwise the name is the base's repository part tagged
   with the first 16 characters of the file's MD5 digest; the image carries
   that name, it is built FROM the base name, and the key is the one the
   backend derives for the new name.
   */
  function DeriveNaming(env: Env, args: ExtendArgs, mem: int, fileBytes: Bytes): (n: Naming)
    ensures KindSet(env.kind) ==>
              && n.extName == args.baseName
              && n.extKey == env.runtimeKey(args.baseName, mem)
              && n.imageName == n.baseImage == args.image
    ensures !KindSet(env.kind) ==>
              && n.imageName == Some(n.extName)
              && n.baseImage == Some(args.baseName)
              && n.extKey == env.runtimeKey(n.extName, mem)
              && (':' !in Tag(env.md5Hex(fileBytes)) ==>
                    && BeforeLast(n.extName, ':') == BeforeLast(args.baseName, ':')
                    && TagPart(n.extName) == Tag(env.md5Hex(fileBytes)))
  {
    if KindSet(env.kind) then
      Naming(args.baseName, args.image, env.runtimeKey(args.baseName, mem), args.image)
    else
      var name := ExtendedName(args.baseName, env.md5Hex(fileBytes));
      assert ':' !in Tag(env.md5Hex(fileBytes)) ==>
               && BeforeLast(name, ':') == BeforeLast(args.baseName, ':')
               && TagPart(name) == Tag(env.md5Hex(fileBytes)) by {
        if ':' !in Tag(env.md5Hex(fileBytes)) {
          ExtendedNameParts(args.baseName, env.md5Hex(fileBytes));
        }
      }
      Naming(name, Some(name), env.runtimeKey(name, mem), Some(args.baseName))
  }

  // ---------------------------------------------------------------------------
  // Extension metadata
  // ---------------------------------------------------------------------------

  /** `{'map_func_mod': [], 'map_func': []}`. */
  const EmptyExtMeta: ExtMeta := ExtMeta([], [])

  /**
   Starts from the base record's extension metadata (or two empty lists) and
   appends each name to its own list unless already present: a list that
   holds its name already is kept exactly as stored, duplicates included,
   and one that does not gets the name at its end. Each list afterwards
   holds its name, and stays free of duplicates if it was.
   */
  function MergeExtMeta(prior: Option<ExtMeta>, moduleName: string, funcName: string): (r: ExtMeta)
    ensures var p := prior.GetOr(EmptyExtMeta);
      && (moduleName in p.mapFuncMod ==> r.mapFuncMod == p.mapFuncMod)
      && (moduleName !in p.mapFuncMod ==> r.mapFuncMod == p.mapFuncMod + [moduleName])
      && (funcName in p.mapFunc ==> r.mapFunc == p.mapFunc)
      && (funcName !in p.mapFunc ==> r.mapFunc == p.mapFunc + [funcName])
    ensures var p := prior.GetOr(EmptyExtMeta);
      && p.mapFuncMod <= r.mapFuncMod && |r.mapFuncMod| <= |p.mapFuncMod| + 1 && moduleName in r.mapFuncMod
      && p.mapFunc <= r.mapFunc && |r.mapFunc| <= |p.mapFunc| + 1 && funcName in r.mapFunc
      && (NoDup(p.mapFuncMod) ==> NoDup(r.mapFuncMod))
      && (NoDup(p.mapFunc) ==> NoDup(r.mapFunc))
  {
    var p := prior.GetOr(EmptyExtMeta);
    ExtMeta(AppendIfAbsent(p.mapFuncMod, moduleName), AppendIfAbsent(p.mapFunc, funcName))
  }

  /** Merging the same names again is a no-op. */
  lemma MergeIdempotent(prior: Option<ExtMeta>, moduleName: string, funcName: string)
    ensures MergeExtMeta(Some(MergeExtMeta(prior, moduleName, funcName)), moduleName, funcName)
            == MergeExtMeta(prior, moduleName, funcName)
  {
  }

  /** The two lists are merged independently: each depends only on its own prior list and name. */
  lemma MergeListsIndependent(p1: Option<ExtMeta>, p2: Option<ExtMeta>, m1: string, m2: string, f1: string, f2: string)
    requires p1.GetOr(EmptyExtMeta).mapFuncMod == p2.GetOr(EmptyExtMeta).mapFuncMod && m1 == m2
    ensures MergeExtMeta(p1, m1, f1).mapFuncMod == MergeExtMeta(p2, m2, f2).mapFuncMod
  {
  }

  // ---------------------------------------------------------------------------
  // Dockerfile
  // ---------------------------------------------------------------------------

  /** `'{}'.format(x)` for a string that may be `None`. */
  function ShowOption(o: Option<string>): string
  {
    match o
    case Some(s) => s
    case None => "None"
  }

  /** The three instruction lines of the extension's Dockerfile. */
  function DockerfileLines(baseImage: Option<string>, funcDir: string): seq<string>
  {
    ["FROM " + ShowOption(baseImage),
     "ENV PYTHONPATH=" + funcDir + ":$PYTHONPATH",
     "COPY . " + funcDir]
  }

  /** The Dockerfile text: the instruction lines joined by newlines. */
  function Dockerfile(baseImage: Option<string>, funcDir: string): string
  {
    JoinWith(DockerfileLines(baseImage, funcDir), '\n')
  }

  lemma NoNewlineIn(prefix: string, s: string, suffix: string)
    requires '\n' !in prefix && '\n' !in s && '\n' !in suffix
    ensures '\n' !in prefix + s + suffix
  {
  }

  /**
   For a base image and function directory without newlines, the Dockerfile
   is exactly three lines: the FROM line naming the base image, the
   PYTHONPATH line putting the function directory first, and the COPY line
   into it. It has no trailing newline.
   */
  lemma DockerfileHasThreeLines(baseImage: Option<string>, funcDir: string)
    requires '\n' !in ShowOption(baseImage) && '\n' !in funcDir
    ensures SplitOn(Dockerfile(baseImage, funcDir), '\n') ==
              ["FROM " + ShowOption(baseImage), "ENV PYTHONPATH=" + funcDir + ":$PYTHONPATH", "COPY . " + funcDir]
    ensures var text := Dockerfile(baseImage, funcDir); text != [] && text[|text| - 1] != '\n'
  {
    var ls := DockerfileLines(baseImage, funcDir);
    assert '\n' !in "FROM ";
    assert '\n' !in "ENV PYTHONPATH=";
    assert '\n' !in ":$PYTHONPATH";
    assert '\n' !in "COPY . ";
    NoNewlineIn("FROM ", ShowOption(baseImage), []);
    NoNewlineIn("ENV PYTHONPATH=", funcDir, ":$PYTHONPATH");
    NoNewlineIn("COPY . ", funcDir, []);
    assert "FROM " + ShowOption(baseImage) + [] == ls[0];
    assert "COPY . " + funcDir + [] == ls[2];
    SplitJoin(ls, '\n');
    var text := Dockerfile(baseImage, funcDir);
    assert text == ls[0] + "\n" + (ls[1] + "\n" + ls[2]) by {
      assert JoinWith(ls[2..], '\n') == ls[2];
    }
    var last := ls[2];
    assert text[|text| - 1] == last[|last| - 1];
    assert last[|last| - 1] in last;
  }

  // ---------------------------------------------------------------------------
  // The command
  // ---------------------------------------------------------------------------

  /** The stored record key under which the base runtime is looked up. */
  function BaseKey(env: Env, args: ExtendArgs): string
  {
    env.runtimeKey(args.baseName, Resolve(args.memory, env.defaultMemory))
  }

  /** The names derived for this invocation. */
  function NamingFor(env: Env, args: ExtendArgs, fileBytes: Bytes): Naming
  {
    DeriveNaming(env, args, Resolve(args.memory, env.defaultMemory), fileBytes)
  }

  /** `modules_path + '/Dockerfile'` for the staging directory of the extended key. */
  function DockerfilePath(env: Env, naming: Naming): string
  {
    FuncDir(env.tempDir, naming.extKey) + "/modules" + "/Dockerfile"
  }

  /** The function handed to the serializer: the one imported from the file's directory and module. */
  function FuncFor(args: ExtendArgs): FuncRef
  {
    FuncRef(ModuleDir(args.filepath), ModuleName(args.filepath), args.funcName)
  }

  /** The dependency files the serializer reports for this invocation, given the base record. */
  function ModulesFor(env: Env, args: ExtendArgs, base: RuntimeMeta): seq<ModuleFile>
  {
    env.moduleData(base.preinstalls, FuncFor(args), args.includeModules, args.excludeModules)
  }

  /**
   The build context: the disk after `_store_modules` and the Dockerfile
   write, in the extended key's function directory. What it holds is stated
   by `BuildContextFiles`.
   */
  function BuildContext(env: Env, args: ExtendArgs, fileBytes: Bytes, disk: map<string, FileBody>,
                        base: RuntimeMeta): (c: Staged)
    ensures c.funcDir == FuncDir(env.tempDir, NamingFor(env, args, fileBytes).extKey)
    ensures c.modulesDir == c.funcDir + "/modules"
    ensures c.modulesDir + "/Dockerfile" == DockerfilePath(env, NamingFor(env, args, fileBytes))
  {
    var naming := NamingFor(env, args, fileBytes);
    var staged := StoreModules(env.tempDir, naming.extKey, args.filepath, fileBytes,
                               ModulesFor(env, args, base), env.b64Decode, disk);
    var dockerPath := staged.modulesDir + "/Dockerfile";
    staged.(files := staged.files[dockerPath := TextBody(Dockerfile(naming.baseImage, staged.funcDir))])
  }

  /**
   Nothing of the earlier disk is removed from the build context. Its
   modules directory holds the rendered Dockerfile as text, the copied
   function file (unless a dependency or the Dockerfile is written over
   it), and every dependency the serializer reported, decoded, at its staged
   path (the last one written there, unless that path is the
   Dockerfile's). Every other earlier file keeps its body.
   */
  lemma BuildContextFiles(env: Env, args: ExtendArgs, fileBytes: Bytes, disk: map<string, FileBody>, base: RuntimeMeta)
    ensures var c := BuildContext(env, args, fileBytes, disk, base);
      var dockerPath := c.modulesDir + "/Dockerfile";
      var copy := Join(c.modulesDir, Basename(args.filepath));
      var mods := ModulesFor(env, args, base);
      var ws := ModuleWrites(c.modulesDir, mods, env.b64Decode);
      && c.files.Keys == disk.Keys + {copy} + WrittenPaths(ws) + {dockerPath}
      && c.files[dockerPath] == TextBody(Dockerfile(NamingFor(env, args, fileBytes).baseImage, c.funcDir))
      && (copy !in WrittenPaths(ws) && copy != dockerPath ==> c.files[copy] == Raw(fileBytes))
      && (forall j :: 0 <= j < |mods| && LastWriteTo(ws, j) && StagedPath(c.modulesDir, mods[j].name) != dockerPath ==>
            c.files[StagedPath(c.modulesDir, mods[j].name)] == Raw(env.b64Decode(mods[j].data)))
      && (forall k :: k in disk && k != copy && k != dockerPath && k !in WrittenPaths(ws) ==> c.files[k] == disk[k])
  {
    var naming := NamingFor(env, args, fileBytes);
    var mods := ModulesFor(env, args, base);
    var staged := StoreModules(env.tempDir, naming.extKey, args.filepath, fileBytes, mods, env.b64Decode, disk);
    var c := BuildContext(env, args, fileBytes, disk, base);
    var dockerPath := staged.modulesDir + "/Dockerfile";
    assert c.modulesDir == staged.modulesDir && c.funcDir == staged.funcDir;
    var body := TextBody(Dockerfile(naming.baseImage, staged.funcDir));
    assert c.files == staged.files[dockerPath := body];
    StagedFilesWithOneMore(staged.files, dockerPath, body);
    var ws := ModuleWrites(staged.modulesDir, mods, env.b64Decode);
    forall j | 0 <= j < |mods| && LastWriteTo(ws, j) && StagedPath(c.modulesDir, mods[j].name) != dockerPath
      ensures c.files[StagedPath(c.modulesDir, mods[j].name)] == Raw(env.b64Decode(mods[j].data))
    {
      assert staged.files[StagedPath(staged.modulesDir, mods[j].name)] == Raw(env.b64Decode(mods[j].data));
    }
  }

  /** Writing one more file adds its path and leaves every other file as it was. */
  lemma StagedFilesWithOneMore(files: map<string, FileBody>, p: string, body: FileBody)
    ensures files[p := body].Keys == files.Keys + {p}
    ensures files[p := body][p] == body
    ensures forall k :: k in files && k != p ==> files[p := body][k] == files[k]
  {
  }

  /** Writing one record adds its key and leaves every other record as it was. */
  lemma StoreWithOneMore(store: map<string, RuntimeMeta>, key: string, record: RuntimeMeta)
    ensures store[key := record].Keys == store.Keys + {key}
    ensures forall k :: k in store && k != key ==> store[key := record][k] == store[k]
  {
  }

  /** Whether the backend build of the extended image succeeds on the staged build context. */
  predicate BuildSucceeds(env: Env, args: ExtendArgs, fileBytes: Bytes, disk: map<string, FileBody>, base: RuntimeMeta)
  {
    var naming := NamingFor(env, args, fileBytes);
    env.buildRuntime(naming.imageName, DockerfilePath(env, naming), BuildContext(env, args, fileBytes, disk, base).files)
  }

  /**
   `extend(...)`: reads the base record, derives the names, imports the
   function, stages the build context on the local disk `disk`, writes the
   Dockerfile into the modules directory, builds, creates the runtime and
   persists its record, extended with the merged metadata and the current
   module and function names, under the extended key.

   With the function file readable and every foreign call returning, it
   fails, persisting nothing, exactly when the base record is missing, the
   module cannot be imported, it lacks the function, or the build fails; a
   failed build reports the disk as staged. What a success persists and
   stages is stated by `ExtendPersists` and `ExtendStagesDockerfile`.
   */
  function Extend(env: Env, args: ExtendArgs, fileBytes: Bytes, disk: map<string, FileBody>,
                  store: map<string, RuntimeMeta>): (r: Result<Extension, ExtendError>)
    ensures r.Failure? <==>
              || BaseKey(env, args) !in store
              || env.importModule(ModuleDir(args.filepath), ModuleName(args.filepath)).None?
              || args.funcName !in env.importModule(ModuleDir(args.filepath), ModuleName(args.filepath)).value
              || !BuildSucceeds(env, args, fileBytes, disk, store[BaseKey(env, args)])
    ensures BaseKey(env, args) !in store ==> r == Failure(BaseRuntimeMissing(BaseKey(env, args)))
    ensures r.Success? ==> r.value.naming == NamingFor(env, args, fileBytes) && r.value.moduleName == ModuleName(args.filepath)
  {
    var mem := Resolve(args.memory, env.defaultMemory);
    var baseKey := env.runtimeKey(args.baseName, mem);
    if baseKey !in store then Failure(BaseRuntimeMissing(baseKey))
    else
      var moduleName := ModuleName(args.filepath);
      match env.importModule(ModuleDir(args.filepath), moduleName)
      case None => Failure(ModuleNotImportable(moduleName))
      case Some(names) =>
        if args.funcName !in names then Failure(FunctionMissing(moduleName, args.funcName))
        else Assemble(env, args, fileBytes, disk, store[baseKey], store)
  }

  /**
   The part of `extend` after the function is found: stage the build
   context, build, create the runtime and persist the record under the
   extended key. Only a failed build stops it.
   */
  function Assemble(env: Env, args: ExtendArgs, fileBytes: Bytes, disk: map<string, FileBody>, base: RuntimeMeta,
                    store: map<string, RuntimeMeta>): (r: Result<Extension, ExtendError>)
    ensures r.Failure? <==> !BuildSucceeds(env, args, fileBytes, disk, base)
    ensures r.Failure? ==>
              r.error == BuildFailed(NamingFor(env, args, fileBytes).imageName, BuildContext(env, args, fileBytes, disk, base).files)
    ensures r.Success? ==>
              var x := r.value;
              var naming := NamingFor(env, args, fileBytes);
              && x.naming == naming
              && x.moduleName == ModuleName(args.filepath)
              && x.staged == BuildContext(env, args, fileBytes, disk, base)
              && x.dockerfile == Dockerfile(naming.baseImage, x.staged.funcDir)
              && x.store == store[naming.extKey := x.record]
              && x.record.preinstalls == env.createRuntime(naming.extName, Resolve(args.memory, env.defaultMemory),
                                                           Resolve(args.timeout, env.defaultTimeout)).preinstalls
              && x.record.extMeta == Some(MergeExtMeta(base.extMeta, ModuleName(args.filepath), args.funcName))
              && x.record.mapFuncMod == Some(ModuleName(args.filepath))
              && x.record.mapFunc == Some(args.funcName)
  {
    var naming := NamingFor(env, args, fileBytes);
    var context := BuildContext(env, args, fileBytes, disk, base);
    if !env.buildRuntime(naming.imageName, DockerfilePath(env, naming), context.files) then
      Failure(BuildFailed(naming.imageName, context.files))
    else
      var created := env.createRuntime(naming.extName, Resolve(args.memory, env.defaultMemory),
                                       Resolve(args.timeout, env.defaultTimeout));
      var moduleName := ModuleName(args.filepath);
      var record := created.(extMeta := Some(MergeExtMeta(base.extMeta, moduleName, args.funcName)),
                             mapFuncMod := Some(moduleName),
                             mapFunc := Some(args.funcName));
      Success(Extension(naming, moduleName, context, Dockerfile(naming.baseImage, context.funcDir), record,
                        store[naming.extKey := record]))
  }

  /**
   On success only the extended key's record changes. That record is the
   created runtime's, with the base record's extension lists grown by the
   current names and the current names as its scalar fields.
   */
  lemma ExtendPersists(env: Env, args: ExtendArgs, fileBytes: Bytes, disk: map<string, FileBody>,
                       store: map<string, RuntimeMeta>)
    ensures Extend(env, args, fileBytes, disk, store).Success? ==>
            var x := Extend(env, args, fileBytes, disk, store).value;
            var key := x.naming.extKey;
            var created := env.createRuntime(x.naming.extName, Resolve(args.memory, env.defaultMemory),
                                             Resolve(args.timeout, env.defaultTimeout));
            && BaseKey(env, args) in store
            && x.store.Keys == store.Keys + {key}
            && (forall k :: k in store && k != key ==> x.store[k] == store[k])
            && x.store[key] == x.record
            && x.record.preinstalls == created.preinstalls
            && x.record.mapFuncMod == Some(x.moduleName)
            && x.record.mapFunc == Some(args.funcName)
            && x.record.extMeta == Some(MergeExtMeta(store[BaseKey(env, args)].extMeta, x.moduleName, args.funcName))
            && var before := store[BaseKey(env, args)].extMeta.GetOr(EmptyExtMeta);
            && var after := x.record.extMeta.value;
            && before.mapFuncMod <= after.mapFuncMod && x.moduleName in after.mapFuncMod
            && before.mapFunc <= after.mapFunc && args.funcName in after.mapFunc
  {
    var r := Extend(env, args, fileBytes, disk, store);
    if r.Success? {
      ExtendSucceedsByAssemble(env, args, fileBytes, disk, store);
      var x := r.value;
      var merged := MergeExtMeta(store[BaseKey(env, args)].extMeta, x.moduleName, args.funcName);
      assert x.record.extMeta == Some(merged);
      StoreWithOneMore(store, x.naming.extKey, x.record);
    }
  }


  /** A successful `extend` is the assembly on the base record. */
  lemma ExtendSucceedsByAssemble(env: Env, args: ExtendArgs, fileBytes: Bytes, disk: map<string, FileBody>,
                                 store: map<string, RuntimeMeta>)
    ensures Extend(env, args, fileBytes, disk, store).Success? ==>
            && BaseKey(env, args) in store
            && Extend(env, args, fileBytes, disk, store)
               == Assemble(env, args, fileBytes, disk, store[BaseKey(env, args)], store)
  {
  }

  /**
   On success the staged disk is the build context of the base record: the
   modules directory `TEMP/<key>/modules` holds the rendered Dockerfile as
   text, the copied function file, and (by `BuildContextFiles`) every
   dependency file the serializer reported for the imported function; no
   file the disk held before is gone.
   */
  lemma ExtendStagesDockerfile(env: Env, args: ExtendArgs, fileBytes: Bytes, disk: map<string, FileBody>,
                               store: map<string, RuntimeMeta>)
    ensures Extend(env, args, fileBytes, disk, store).Success? ==>
            && BaseKey(env, args) in store
            && var x := Extend(env, args, fileBytes, disk, store).value;
            && x.staged == BuildContext(env, args, fileBytes, disk, store[BaseKey(env, args)])
            && x.staged.modulesDir == FuncDir(env.tempDir, x.naming.extKey) + "/modules"
            && x.dockerfile == Dockerfile(x.naming.baseImage, x.staged.funcDir)
            && x.staged.modulesDir + "/Dockerfile" in x.staged.files
            && x.staged.files[x.staged.modulesDir + "/Dockerfile"] == TextBody(x.dockerfile)
            && Join(x.staged.modulesDir, Basename(args.filepath)) in x.staged.files
            && disk.Keys <= x.staged.files.Keys
  {
    if Extend(env, args, fileBytes, disk, store).Success? {
      BuildContextFiles(env, args, fileBytes, disk, store[BaseKey(env, args)]);
    }
  }

  /**
   A failed build persists no record but leaves the build context on the
   disk: the Dockerfile, the copied function file and every file the disk
   held before.
   */
  lemma FailedBuildKeepsStaging(env: Env, args: ExtendArgs, fileBytes: Bytes, disk: map<string, FileBody>,
                                store: map<string, RuntimeMeta>)
    ensures var r := Extend(env, args, fileBytes, disk, store);
            r.Failure? && r.error.BuildFailed? ==>
              && BaseKey(env, args) in store
              && var c := BuildContext(env, args, fileBytes, disk, store[BaseKey(env, args)]);
              && r.error.files == c.files
              && disk.Keys <= c.files.Keys
              && c.modulesDir + "/Dockerfile" in c.files
              && Join(c.modulesDir, Basename(args.filepath)) in c.files
  {
    var r := Extend(env, args, fileBytes, disk, store);
    var key := BaseKey(env, args);
    if key !in store {
      assert r.error == BaseRuntimeMissing(key);
    } else {
      var imported := env.importModule(ModuleDir(args.filepath), ModuleName(args.filepath));
      if imported.None? {
        assert r.error.ModuleNotImportable?;
      } else if args.funcName !in imported.value {
        assert r.error.FunctionMissing?;
      } else {
        assert r == Assemble(env, args, fileBytes, disk, store[key], store);
        BuildContextFiles(env, args, fileBytes, disk, store[key]);
      }
    }
  }

  /**
   With a backend kind, two successive extensions of the same base runtime
   and memory write back to the base key, and the second reads what the
   first wrote: the stored lists keep the first extension's lists as a
   prefix and hold both extensions' names, while the scalar fields name the
   latest module and function.
   */
  lemma KindExtensionsAccumulate(env: Env, a1: ExtendArgs, a2: ExtendArgs, b1: Bytes, b2: Bytes,
                                 disk: map<string, FileBody>, store: map<string, RuntimeMeta>)
    requires KindSet(env.kind)
    requires a1.baseName == a2.baseName
    requires Resolve(a1.memory, env.defaultMemory) == Resolve(a2.memory, env.defaultMemory)
    ensures Extend(env, a1, b1, disk, store).Success? &&
            (var x1 := Extend(env, a1, b1, disk, store).value;
             Extend(env, a2, b2, x1.staged.files, x1.store).Success?) ==>
            var key := BaseKey(env, a1);
            var x1 := Extend(env, a1, b1, disk, store).value;
            var r1 := x1.record;
            var s2 := Extend(env, a2, b2, x1.staged.files, x1.store).value.store;
            && key in s2 && s2[key].extMeta.Some? && r1.extMeta.Some?
            && var m := s2[key].extMeta.value;
            && r1.extMeta.value.mapFuncMod <= m.mapFuncMod
            && r1.extMeta.value.mapFunc <= m.mapFunc
            && ModuleName(a1.filepath) in m.mapFuncMod && ModuleName(a2.filepath) in m.mapFuncMod
            && a1.funcName in m.mapFunc && a2.funcName in m.mapFunc
            && s2[key].mapFuncMod == Some(ModuleName(a2.filepath))
            && s2[key].mapFunc == Some(a2.funcName)
  {
    if Extend(env, a1, b1, disk, store).Success? {
      var x1 := Extend(env, a1, b1, disk, store).value;
      if Extend(env, a2, b2, x1.staged.files, x1.store).Success? {
        var key := BaseKey(env, a1);
        ExtendPersists(env, a1, b1, disk, store);
        ExtendPersists(env, a2, b2, x1.staged.files, x1.store);
        assert x1.naming.extKey == key;
        assert x1.store[key] == x1.record;
        var x2 := Extend(env, a2, b2, x1.staged.files, x1.store).value;
        assert BaseKey(env, a2) == key;
        assert x2.naming.extKey == key;
        var m1 := x1.record.extMeta.value;
        var m := x2.record.extMeta.value;
        assert m1.mapFuncMod <= m.mapFuncMod && m1.mapFunc <= m.mapFunc;
        assert ModuleName(a1.filepath) in m1.mapFuncMod && a1.funcName in m1.mapFunc;
        assert m.mapFuncMod[..|m1.mapFuncMod|] == m1.mapFuncMod;
        assert m.mapFunc[..|m1.mapFunc|] == m1.mapFunc;
      }
    }
  }

  /**
   With a backend kind, both extensions of one base runtime stage into the
   same modules directory, and the second does not clear it: its build
   context still holds the first extension's function file and everything
   else the first one staged, next to its own function file.
   */
  lemma KindStagingAccumulates(env: Env, a1: ExtendArgs, a2: ExtendArgs, b1: Bytes, b2: Bytes,
                               disk: map<string, FileBody>, store: map<string, RuntimeMeta>)
    requires KindSet(env.kind)
    requires a1.baseName == a2.baseName
    requires Resolve(a1.memory, env.defaultMemory) == Resolve(a2.memory, env.defaultMemory)
    ensures Extend(env, a1, b1, disk, store).Success? &&
            (var x1 := Extend(env, a1, b1, disk, store).value;
             Extend(env, a2, b2, x1.staged.files, x1.store).Success?) ==>
            var x1 := Extend(env, a1, b1, disk, store).value;
            var x2 := Extend(env, a2, b2, x1.staged.files, x1.store).value;
            && x2.staged.modulesDir == x1.staged.modulesDir
            && x1.staged.files.Keys <= x2.staged.files.Keys
            && Join(x1.staged.modulesDir, Basename(a1.filepath)) in x2.staged.files
            && Join(x1.staged.modulesDir, Basename(a2.filepath)) in x2.staged.files
  {
    if Extend(env, a1, b1, disk, store).Success? {
      var x1 := Extend(env, a1, b1, disk, store).value;
      if Extend(env, a2, b2, x1.staged.files, x1.store).Success? {
        ExtendStagesDockerfile(env, a1, b1, disk, store);
        ExtendStagesDockerfile(env, a2, b2, x1.staged.files, x1.store);
        var x2 := Extend(env, a2, b2, x1.staged.files, x1.store).value;
        assert x1.naming.extKey == BaseKey(env, a1) == BaseKey(env, a2) == x2.naming.extKey;
      }
    }
  }
}
