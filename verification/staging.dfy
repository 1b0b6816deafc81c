/**
 Local staging of an extended runtime's build context (`_store_modules` in
 lithops/scripts/cli.py): the function directory `TEMP/<key>`, its
 `modules` sub-directory, the copied function file, and one file per
 dependency module, placed by its original directory with one leading slash
 removed. The file system is modelled as a map from path to file body;
 directory creation is implicit, and since `os.makedirs(..., exist_ok=True)`
 never empties a directory, whatever the disk already holds stays there.
 */
module Staging {
  import opened Paths

  type Bytes = seq<bv8>

  /** What a staged file holds: raw bytes, or text written in text mode. */
  datatype FileBody = Raw(bytes: Bytes) | TextBody(text: string)

  /** One entry of the dependency map: the module's file name and its base64-encoded content. */
  datatype ModuleFile = ModuleFile(name: string, data: string)

  /** The placeholder file name whose directory becomes the function directory. */
  const FuncFileName: string := "mapfunc.py"

  /** `dirname('/'.join([TEMP, key, 'mapfunc.py']))`. */
  function FuncDir(tempDir: string, funcKey: string): string
  {
    Dirname(tempDir + "/" + funcKey + "/" + FuncFileName)
  }

  /** For a key that is non-empty and does not end in a slash, the function directory is `TEMP/<key>`. */
  lemma FuncDirLayout(tempDir: string, funcKey: string)
    requires funcKey != [] && funcKey[|funcKey| - 1] != '/'
    ensures FuncDir(tempDir, funcKey) == tempDir + "/" + funcKey
  {
    var x := tempDir + "/" + funcKey;
    var p := x + "/" + FuncFileName;
    assert p == tempDir + "/" + funcKey + "/" + FuncFileName;
    assert x[|x| - 1] == funcKey[|funcKey| - 1];
    AfterLastUnique(p, '/', |x| + 1);
    var head := p[..|x| + 1];
    assert head == x + "/";
    assert !AllSlashes(head) by {
      assert head[|x| - 1] != '/';
    }
    assert head[..|head| - 1] == x;
    assert RStripSlashes(head) == RStripSlashes(x) == x;
  }

  /** The dependency's directory relative to the modules directory: its dirname with one leading slash dropped. */
  function SubDir(name: string): string
  {
    var d := Dirname(name);
    if |d| > 0 && d[0] == '/' then d[1..] else d
  }

  /** Where `_store_modules` writes the dependency called `name`. */
  function StagedPath(modulesDir: string, name: string): string
  {
    Join(Join(modulesDir, SubDir(name)), Basename(name))
  }

  /** One file write: the path written and the body written there. */
  datatype Write = Write(path: string, body: FileBody)

  /** The writes the dependency loop performs, in order, each body decoded from base64. */
  function ModuleWrites(modulesDir: string, mods: seq<ModuleFile>, decode: string -> Bytes): (ws: seq<Write>)
    ensures |ws| == |mods|
    ensures forall j :: 0 <= j < |mods| ==>
              ws[j] == Write(StagedPath(modulesDir, mods[j].name), Raw(decode(mods[j].data)))
  {
    seq(|mods|, j requires 0 <= j < |mods| => Write(StagedPath(modulesDir, mods[j].name), Raw(decode(mods[j].data))))
  }

  /** Performs the writes in order on a file map; a later write to a path replaces an earlier one. */
  function ApplyWrites(files: map<string, FileBody>, ws: seq<Write>): map<string, FileBody>
    decreases |ws|
  {
    if ws == [] then files
    else ApplyWrites(files, ws[..|ws| - 1])[ws[|ws| - 1].path := ws[|ws| - 1].body]
  }

  /** The paths that `ws` writes. */
  function WrittenPaths(ws: seq<Write>): set<string>
  {
    set j | 0 <= j < |ws| :: ws[j].path
  }

  /** No later write of `ws` goes to the same path as write `j`. */
  ghost predicate LastWriteTo(ws: seq<Write>, j: int)
    requires 0 <= j < |ws|
  {
    forall l :: j < l < |ws| ==> ws[l].path != ws[j].path
  }

  /**
   Applying writes adds exactly the written paths, leaves every other file
   untouched, and leaves at each path the body of the last write to it: a
   later write silently overwrites an earlier one.
   */
  lemma ApplyWritesSpec(files: map<string, FileBody>, ws: seq<Write>)
    ensures ApplyWrites(files, ws).Keys == files.Keys + WrittenPaths(ws)
    ensures forall k :: k in files && k !in WrittenPaths(ws) ==> ApplyWrites(files, ws)[k] == files[k]
    ensures forall j :: 0 <= j < |ws| && LastWriteTo(ws, j) ==> ApplyWrites(files, ws)[ws[j].path] == ws[j].body
  {
    ApplyWritesKeys(files, ws);
    forall k | k in files && k !in WrittenPaths(ws) {
      ApplyWritesUntouched(files, ws, k);
    }
    forall j | 0 <= j < |ws| && LastWriteTo(ws, j) {
      ApplyWritesLast(files, ws, j);
    }
  }

  /** Applying writes adds exactly the written paths. */
  lemma {:induction false} ApplyWritesKeys(files: map<string, FileBody>, ws: seq<Write>)
    ensures ApplyWrites(files, ws).Keys == files.Keys + WrittenPaths(ws)
    decreases |ws|
  {
    if ws != [] {
      ApplyWritesKeys(files, ws[..|ws| - 1]);
      WrittenPathsSnoc(ws);
    }
  }

  /** A file no write touches keeps its body. */
  lemma {:induction false} ApplyWritesUntouched(files: map<string, FileBody>, ws: seq<Write>, k: string)
    requires k in files && k !in WrittenPaths(ws)
    ensures k in ApplyWrites(files, ws) && ApplyWrites(files, ws)[k] == files[k]
    decreases |ws|
  {
    if ws != [] {
      WrittenPathsSnoc(ws);
      ApplyWritesUntouched(files, ws[..|ws| - 1], k);
    }
  }

  /** The last write to a path decides its body. */
  lemma {:induction false} ApplyWritesLast(files: map<string, FileBody>, ws: seq<Write>, j: nat)
    requires j < |ws| && LastWriteTo(ws, j)
    ensures ws[j].path in ApplyWrites(files, ws) && ApplyWrites(files, ws)[ws[j].path] == ws[j].body
    decreases |ws|
  {
    if j < |ws| - 1 {
      var init := ws[..|ws| - 1];
      LastWriteToInit(ws, j);
      ApplyWritesLast(files, init, j);
      assert init[j] == ws[j];
      assert ws[j].path != ws[|ws| - 1].path;
    }
  }

  /** The paths written by all writes are those of all but the last, plus the last one's. */
  lemma WrittenPathsSnoc(ws: seq<Write>)
    requires ws != []
    ensures WrittenPaths(ws) == WrittenPaths(ws[..|ws| - 1]) + {ws[|ws| - 1].path}
  {
    var init := ws[..|ws| - 1];
    forall k | k in WrittenPaths(ws)
      ensures k in WrittenPaths(init) + {ws[|ws| - 1].path}
    {
      var j :| 0 <= j < |ws| && k == ws[j].path;
      if j < |ws| - 1 {
        assert init[j] == ws[j];
      }
    }
    forall k | k in WrittenPaths(init)
      ensures k in WrittenPaths(ws)
    {
      var j :| 0 <= j < |init| && k == init[j].path;
      assert ws[j] == init[j];
    }
  }

  /** A last write to its path that is not the final write is also last among the earlier writes. */
  lemma LastWriteToInit(ws: seq<Write>, j: nat)
    requires j < |ws| - 1 && LastWriteTo(ws, j)
    ensures LastWriteTo(ws[..|ws| - 1], j)
  {
    var init := ws[..|ws| - 1];
    forall l | j < l < |init|
      ensures init[l].path != init[j].path
    {
      assert init[l] == ws[l] && init[j] == ws[j];
    }
  }

  /** The result of `_store_modules`: the function directory, the modules directory and the staged files. */
  datatype Staged = Staged(funcDir: string, modulesDir: string, files: map<string, FileBody>)

  /**
   `_store_modules(func_key, function_file, module_data)` on a disk that
   already holds the files `disk`: copies the function file into the
   modules directory under its own basename, then writes every dependency
   at its staged path. Nothing is removed: the files afterwards are the
   earlier ones plus the copy plus one file per staged path. Each staged
   path holds the last dependency written there, the copy survives unless a
   dependency is staged over it, and every other earlier file, including
   what an earlier run staged in the same modules directory, is kept as it
   was.
   */
  function StoreModules(tempDir: string, funcKey: string, functionFile: string, functionBytes: Bytes,
                        mods: seq<ModuleFile>, decode: string -> Bytes, disk: map<string, FileBody>): (s: Staged)
    ensures s.funcDir == FuncDir(tempDir, funcKey)
    ensures s.modulesDir == s.funcDir + "/modules"
    ensures var copy := Join(s.modulesDir, Basename(functionFile));
      var ws := ModuleWrites(s.modulesDir, mods, decode);
      && s.files.Keys == disk.Keys + {copy} + WrittenPaths(ws)
      && (copy !in WrittenPaths(ws) ==> s.files[copy] == Raw(functionBytes))
      && (forall j :: 0 <= j < |mods| && LastWriteTo(ws, j) ==>
            s.files[StagedPath(s.modulesDir, mods[j].name)] == Raw(decode(mods[j].data)))
      && (forall k :: k in disk && k != copy && k !in WrittenPaths(ws) ==> s.files[k] == disk[k])
  {
    var funcDir := FuncDir(tempDir, funcKey);
    var modulesDir := funcDir + "/modules";
    var copied := disk[Join(modulesDir, Basename(functionFile)) := Raw(functionBytes)];
    var ws := ModuleWrites(modulesDir, mods, decode);
    ApplyWritesSpec(copied, ws);
    Staged(funcDir, modulesDir, ApplyWrites(copied, ws))
  }

  /**
   In the ordinary case (a modules directory that does not end in a slash,
   and a dependency whose directory, after one leading slash is dropped, is
   relative) the dependency lands at `modules/<dir>/<basename>`, or directly
   in `modules/` when it has no directory.
   */
  lemma StagedPathLayout(modulesDir: string, name: string)
    requires modulesDir != [] && modulesDir[|modulesDir| - 1] != '/'
    requires SubDir(name) == [] || SubDir(name)[0] != '/'
    ensures StagedPath(modulesDir, name) ==
              modulesDir + "/" + (if SubDir(name) == [] then [] else SubDir(name) + "/") + Basename(name)
  {
    SubDirEnd(name);
    var base := Basename(name);
    assert !(|base| > 0 && base[0] == '/') by {
      if |base| > 0 { assert base[0] in base; }
    }
    JoinTwice(modulesDir, SubDir(name), base);
  }

  /** A relative staging directory does not end in a slash. */
  lemma SubDirEnd(name: string)
    requires SubDir(name) == [] || SubDir(name)[0] != '/'
    ensures SubDir(name) == [] || SubDir(name)[|SubDir(name)| - 1] != '/'
  {
    var d := Dirname(name);
    if d != [] && AllSlashes(d) {
      assert AllSlashes(SubDir(name));
    }
  }

  /** Joining a relative directory and then a relative name onto a directory puts slashes between them. */
  lemma JoinTwice(a: string, sub: string, base: string)
    requires a != [] && a[|a| - 1] != '/'
    requires sub == [] || (sub[0] != '/' && sub[|sub| - 1] != '/')
    requires !(|base| > 0 && base[0] == '/')
    ensures Join(Join(a, sub), base) == a + "/" + (if sub == [] then [] else sub + "/") + base
  {
    if sub == [] {
      assert Join(a, sub) == a + "/";
    } else {
      var j := a + "/" + sub;
      assert Join(a, sub) == j;
      assert j[|j| - 1] == sub[|sub| - 1];
    }
  }

  /** The staged file keeps the dependency's basename, wherever it lands. */
  lemma StagedPathKeepsBasename(modulesDir: string, name: string)
    ensures Basename(StagedPath(modulesDir, name)) == Basename(name)
  {
    BasenameOfJoin(Join(modulesDir, SubDir(name)), Basename(name));
  }

  /** Stripping trailing slashes commutes with adding a character in front of a string that is not all slashes. */
  lemma {:induction false} RStripSlashesCons(c: char, h: string)
    requires !AllSlashes(h)
    ensures RStripSlashes([c] + h) == [c] + RStripSlashes(h)
    decreases |h|
  {
    var s := [c] + h;
    if h[|h| - 1] == '/' {
      var h' := h[..|h| - 1];
      assert !AllSlashes(h') by {
        var k :| 0 <= k < |h| && h[k] != '/';
        assert k < |h| - 1 && h'[k] == h[k];
      }
      assert s[..|s| - 1] == [c] + h';
      RStripSlashesCons(c, h');
    }
  }

  /**
   A dependency name and the same name with one more leading slash are
   staged at the same path, so the later of the two overwrites the earlier.
   */
  lemma StagedPathIgnoresOneLeadingSlash(modulesDir: string, n: string)
    requires n == [] || n[0] != '/'
    ensures StagedPath(modulesDir, "/" + n) == StagedPath(modulesDir, n)
  {
    var p := "/" + n;
    var i := AfterLast(n, '/');
    assert p[i] == '/' by {
      if i > 0 { assert p[i] == n[i - 1]; }
    }
    assert forall k :: i + 1 <= k < |p| ==> p[k] == n[k - 1];
    AfterLastUnique(p, '/', i + 1);
    var h := n[..i];
    assert p[..i + 1] == "/" + h;
    assert p[i + 1..] == n[i..];
    assert Basename(p) == Basename(n);
    if h == [] {
      assert AllSlashes("/" + h);
      assert Dirname(p) == "/";
      assert SubDir(p) == [];
      assert SubDir(n) == [];
    } else {
      assert h[0] == n[0];
      assert !AllSlashes(h);
      assert !AllSlashes("/" + h) by {
        assert ("/" + h)[1] == h[0];
      }
      RStripSlashesCons('/', h);
      var d := RStripSlashes(h);
      assert Dirname(p) == "/" + d;
      assert Dirname(n) == d;
      assert h[0] != '/';
      assert d != [];
      assert d[0] == h[0];
      assert SubDir(p) == d;
      assert SubDir(n) == d;
    }
  }

  /**
   A dependency whose directory, after one leading slash is dropped, is
   still absolute is written at that absolute directory: `os.path.join`
   discards the modules directory, so where it lands does not depend on the
   modules directory at all.
   */
  lemma AbsoluteSubDirEscapes(modulesDir: string, other: string, name: string)
    requires |SubDir(name)| > 0 && SubDir(name)[0] == '/'
    ensures StagedPath(modulesDir, name) == Join(SubDir(name), Basename(name))
    ensures StagedPath(modulesDir, name) == StagedPath(other, name)
  {
  }

  /**
   A directory starting with two slashes is such a directory: the
   dependency `//opt/lib.py` is written at `/opt/lib.py`.
   */
  lemma DoubleSlashEscapesModulesDir(modulesDir: string)
    ensures StagedPath(modulesDir, "//opt/lib.py") == "/opt/lib.py"
  {
    var name := "//opt/lib.py";
    DoubleSlashSplit();
    assert SubDir(name) == "/opt";
    AbsoluteSubDirEscapes(modulesDir, modulesDir, name);
  }

  /** `//opt/lib.py` splits into the directory `//opt` and the file `lib.py`. */
  lemma DoubleSlashSplit()
    ensures Dirname("//opt/lib.py") == "//opt"
    ensures Basename("//opt/lib.py") == "lib.py"
  {
    var name := "//opt/lib.py";
    AfterLastUnique(name, '/', 6);
    assert name[..6] == "//opt/";
    assert name[6..] == "lib.py";
    assert !AllSlashes("//opt/") by {
      assert "//opt/"[2] == 'o';
    }
    assert RStripSlashes("//opt/") == "//opt" by {
      assert "//opt/"[..5] == "//opt";
    }
  }
}
