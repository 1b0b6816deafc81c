# Lithops runtime extension, log following and PyWren word-count fixtures, in Dafny

This project models two groups of deterministic logic from the Lithops / PyWren code base.

1. **`lithops runtime extend` and its helpers** (`lithops/scripts/cli.py`):
   - deriving the function's module name from its file path;
   - deriving the extended runtime's name, image and storage key:
     - the base name retagged with 16 hex characters of the function file's MD5 digest;
     - or, when the backend has a `kind`, the base runtime itself;
   - staging the build context (`_store_modules`): the function directory, the modules directory and where each dependency file lands;
   - rendering the three-line Dockerfile;
   - merging the module and function names into the runtime record's `ext_meta` lists;
   - assembling and persisting the extended runtime record.

   The `follow` generator of `lithops logs poll` is modelled as a line-buffering fold over what each poll observes.
2. **The map/reduce fixtures of `pywren_ibm_cloud/tests.py`**:
   - the pair-sum map and the sum reducer;
   - the word-count map and the count-summing reducer;
   - the expected word total written by `initTests`, and `checkResult`.

   The model proves that every word-count test that does not chunk its input passes:
   - for any listing order of the stored objects;
   - for any grouping of the map outputs into reducers;
   - as long as the files are valid UTF-8 whose only whitespace is the six ASCII whitespace characters.

   Other whitespace can break the bucket test, as the Findings section below shows.

Files and modules:

| file | module | contents |
|---|---|---|
| `wrappers.dfy` | `Wrappers` | `Option` and `Result` |
| `seqs.dfy` | `Seqs` | summation, flattening, append-if-absent and de-duplication |
| `text.dfy` | `Text` | `split`/`join` on one character, whitespace `split()` of `bytes` and of `str` (`IsSpace`, `IsStrSpace`), `str(n)`/`int(s)` |
| `paths.dfy` | `Paths` | `posixpath.split`/`dirname`/`basename`/`join`, `rsplit(c, 1)[0]` |
| `staging.dfy` | `Staging` | `_store_modules` as a function on a path → file map |
| `runtime_extend.dfy` | `RuntimeExtend` | module name, naming, `ext_meta` merge, Dockerfile, `extend` |
| `log_follow.dfy` | `LogFollow` | the `follow` generator |
| `word_count.dfy` | `WordCount` | the word-count map loop and `my_reduce_function` |
| `pywren_tests.dfy` | `PywrenTests` | the pair-sum fixtures, expected total, `checkResult`, test outcomes |

Modelling choices:
- **Python dicts.** A Python dict iterates in insertion order. So the word counter is a sequence of word/count entries, and `ext_meta`'s lists are sequences.
- **The file system.** It is a map from path to file body. The disk as it was before `extend` runs is an input, because `os.makedirs(..., exist_ok=True)` never empties the staging directory: files an earlier run staged there stay in the build context.
- **Foreign code.** Every call into code outside these files is a function-typed field of `RuntimeExtend.Env`:
  - MD5 hex digest;
  - base64 decoding;
  - the backend's runtime key;
  - runtime creation and image build;
  - the import of the function's module;
  - the dependency serializer.

  The model assumes nothing about them except that each is a function of what the program hands it:
  - the import, of the directory appended to `sys.path` and the module name;
  - the serializer, of the base record's `preinstalls`, the imported function (named by directory, module and function name) and the include and exclude lists;
  - the image build, of the image name, the Dockerfile's path and the files of the build context (`os.chdir(modules_path)` makes the staged disk its input).
- **Two kinds of whitespace.** `Text.Words(s, sep)` splits on the characters for which the predicate `sep` holds:
  - with `Text.IsSpace` it is `bytes.split()`, which separates on the six ASCII whitespace characters only. The expected total splits the files' bytes this way.
  - with `Text.IsStrSpace` it is `str.split()`, which also separates on the information separators and Unicode spaces. The map functions split each decoded line this way.

  `PywrenTests.MapCounters` and `WordCount.CountWords` take `sep` as a parameter: with `IsStrSpace` they are the map as written, and with `IsSpace` they are the corrected map, which counts as the expected total does.

## Model

| member | source | states |
|---|---|---|
| `Paths.AfterLast` | lithops/scripts/cli.py:318 | the position after the last occurrence of a character: that character precedes it and none follows it |
| `Paths.AfterLastUnique` | lithops/scripts/cli.py:318 | those three facts determine the position |
| `Paths.RStripSlashes` | lithops/scripts/cli.py:250 | `rstrip('/')`: a prefix, not ending in `/`, and only slashes were removed |
| `Paths.Split` | lithops/scripts/cli.py:285 | `os.path.split`: the tail contains no slash |
| `Paths.SplitSpec` | lithops/scripts/cli.py:285 | `os.path.split` characterised: the path is head, a run of slashes, and the tail. The tail is the longest slash-free suffix. The head loses its trailing slashes exactly when it is not all slashes |
| `Paths.Dirname` | lithops/scripts/cli.py:250 | `os.path.dirname` never ends in a slash unless it is all slashes |
| `Paths.Basename` | lithops/scripts/cli.py:262 | `os.path.basename` contains no slash |
| `Paths.Join` | lithops/scripts/cli.py:254 | `os.path.join`: an absolute right part replaces the left part. Otherwise the result is the left part, then exactly one `/` when the left part is non-empty and does not end in one (else nothing), then the right part |
| `Paths.BasenameAfterSlash` | lithops/scripts/cli.py:262 | the basename of a directory ending in `/` followed by a slash-free name is that name |
| `Paths.BasenameOfJoin` | lithops/scripts/cli.py:262 | joining a slash-free name onto any directory keeps it as the basename |
| `Paths.BeforeLast` | lithops/scripts/cli.py:318 | `rsplit(c, 1)[0]` is a prefix of the name, and the whole name when it has no `c` |
| `Paths.BeforeLastOfJoined` | lithops/scripts/cli.py:318 | `rsplit(c, 1)[0]` of `prefix + c + tail` with a `c`-free tail is exactly `prefix` |
| `Staging.FuncDirLayout` | lithops/scripts/cli.py:236-240 | the function directory `FuncDir`, the dirname of `TEMP/<func_key>/mapfunc.py`, is `TEMP/<func_key>` for a key not ending in `/` |
| `Staging.ApplyWritesSpec` | lithops/scripts/cli.py:264-265 | writing files adds exactly the written paths and leaves other files untouched. Each path holds its last write: a later write to the same path overwrites |
| `Staging.ApplyWritesKeys` | lithops/scripts/cli.py:264-265 | the files after the writes are the earlier files plus the written paths |
| `Staging.ApplyWritesUntouched` | lithops/scripts/cli.py:264-265 | a file that no write touches keeps its body |
| `Staging.ApplyWritesLast` | lithops/scripts/cli.py:264-265 | the last write to a path decides its body |
| `Staging.StoreModules` | lithops/scripts/cli.py:234-268 | `_store_modules` on a disk that already holds files: returns the function directory and `<it>/modules`. Nothing is removed: the files afterwards are the earlier ones plus the copied function file plus one file per staged path (`ModuleWrites`: one write per dependency, in map order, of its decoded bytes). Each staged path holds the last dependency written there, the copy survives unless a dependency is staged over it, and every other earlier file keeps its body |
| `Staging.StagedPathLayout` | lithops/scripts/cli.py:250-262 | `StagedPath` with `SubDir` (the dirname less one leading slash): a dependency lands at `modules/<dirname without one leading slash>/<basename>`, or directly in `modules/` when it has no directory |
| `Staging.StagedPathKeepsBasename` | lithops/scripts/cli.py:262 | the staged file keeps the dependency's basename |
| `Staging.RStripSlashesCons` | lithops/scripts/cli.py:250 | stripping trailing slashes commutes with a leading character on a not-all-slash string |
| `Staging.StagedPathIgnoresOneLeadingSlash` | lithops/scripts/cli.py:252-253 | names that differ only by one leading `/` are staged at the same path, so the later one overwrites the earlier |
| `Staging.AbsoluteSubDirEscapes` | lithops/scripts/cli.py:250-262 | a dependency whose directory stays absolute after one leading slash is dropped is written at that directory, wherever the modules directory is |
| `Staging.DoubleSlashEscapesModulesDir` | lithops/scripts/cli.py:252-254 | a dependency under `//opt` is such a one: `//opt/lib.py` is written at `/opt/lib.py`, outside the modules directory |
| `RuntimeExtend.ModuleName` | lithops/scripts/cli.py:285-289 | the module name is the file's basename without one trailing `.py`, or the basename unchanged; it has no slash |
| `RuntimeExtend.ModuleNameOfFile` | lithops/scripts/cli.py:285-289 | `dir/m.py` gives `m`; a name without `.py` is kept whole |
| `RuntimeExtend.Resolve` | lithops/scripts/cli.py:298-299 | `memory if memory else default`: an absent or zero option falls back to the configured value |
| `RuntimeExtend.Tag` | lithops/scripts/cli.py:317 | `hexdigest()[:16]`: a prefix of the digest, exactly 16 characters long when the digest has at least 16 |
| `RuntimeExtend.HexTag` | lithops/scripts/cli.py:317 | a 32-character hex digest gives a 16-character tag without `:` |
| `RuntimeExtend.ExtendedNameParts` | lithops/scripts/cli.py:317-318 | `ExtendedName`, the base name up to its last `:` followed by `:` and the tag, splits at its last `:` into the base's repository part and the tag |
| `RuntimeExtend.ReextendReplacesTag` | lithops/scripts/cli.py:318 | extending an extended name replaces its tag rather than adding another |
| `RuntimeExtend.DistinctTagsDistinctNames` | lithops/scripts/cli.py:317-318 | different tags give different extended names |
| `RuntimeExtend.RegistryPortTakenForTag` | lithops/scripts/cli.py:318 | for `localhost:5000/rt`, with a registry port and no tag, the port and path are taken for the tag and replaced |
| `RuntimeExtend.DeriveNaming` | lithops/scripts/cli.py:311-321 | kind branch: the base name and base key are reused, and the given image is both built and extended FROM. Hash branch: the image carries the extended name, FROM is the base name, and the key is derived from the extended name. The name splits into the base's repository part and the tag |
| `RuntimeExtend.MergeExtMeta` | lithops/scripts/cli.py:352-357 | starts from the base's `ext_meta` or two empty lists. A list that already holds its name is kept exactly as stored, duplicates included; one that does not gets the name appended. Each list then holds its name and stays duplicate-free if it was |
| `RuntimeExtend.MergeIdempotent` | lithops/scripts/cli.py:354-357 | merging the same names again changes nothing |
| `RuntimeExtend.MergeListsIndependent` | lithops/scripts/cli.py:354-357 | the module list depends only on its own prior list and the module name |
| `RuntimeExtend.DockerfileHasThreeLines` | lithops/scripts/cli.py:339-342 | the rendered `Dockerfile` (`DockerfileLines` joined with newlines) splits on newlines into exactly `FROM <base image>`, `ENV PYTHONPATH=<func dir>:$PYTHONPATH` and `COPY . <func dir>`, with no trailing newline |
| `RuntimeExtend.BuildContextFiles` | lithops/scripts/cli.py:234-342 | the build context keeps every earlier file and adds the copied function file, the Dockerfile and one file per staged path. The Dockerfile holds the rendered text. Each dependency the serializer reports for the imported function, given the base's `preinstalls` and the include and exclude lists, is staged decoded at its `StagedPath` when it is the last written there and that path is not the Dockerfile's. The copy survives unless overwritten, and every other earlier file keeps its body |
| `RuntimeExtend.Extend` | lithops/scripts/cli.py:298-366 | with the function file readable and every foreign call returning, fails exactly when the base record is missing, the module cannot be imported from the file's directory, it lacks the function, or the build of the staged build context fails. A missing base record is reported with its key. A success carries the derived names and module name |
| `RuntimeExtend.ExtendPersists` | lithops/scripts/cli.py:351-366 | on success only the extended key's record changes, and the base record must have existed. The record's `preinstalls` come from `create_runtime`, and its `map_func_mod`/`map_func` are the current names. Its `ext_meta` is exactly the base's merged with the current names (`MergeExtMeta`), so its lists extend the base's and hold the current names |
| `RuntimeExtend.ExtendStagesDockerfile` | lithops/scripts/cli.py:334-342 | on success the staged disk is `BuildContext` of the base record, whose contents `BuildContextFiles` states: the modules directory `TEMP/<key>/modules` holds the rendered Dockerfile as text and the copied function file, and every file the disk held before is still there |
| `RuntimeExtend.FailedBuildKeepsStaging` | lithops/scripts/cli.py:334-348 | a failed build persists nothing and reports the build context as staged: it still holds every earlier file, the Dockerfile and the copied function file |
| `RuntimeExtend.KindExtensionsAccumulate` | lithops/scripts/cli.py:311-366 | with a kind, a second extension reads the first one's record back from the base key: its lists extend the first's and hold both extensions' names |
| `RuntimeExtend.KindStagingAccumulates` | lithops/scripts/cli.py:311-346 | with a kind, a second extension of the same base stages into the same modules directory without clearing it: its build context still holds everything the first staged, the first function file included |
| `LogFollow.Step` | lithops/scripts/cli.py:160-166 | an empty read changes nothing. Otherwise the buffer plus the chunk is yielded exactly when it ends in `\n`, which empties the buffer. No character is lost |
| `LogFollow.LeadingReads` | lithops/scripts/cli.py:157-159 | the loop runs until the first observation of a missing file |
| `LogFollow.Follow` | lithops/scripts/cli.py:155-167 | the yielded lines followed by the buffer are exactly the text read. Every yielded line ends in `\n` and the buffer does not. For `readline()`-shaped reads the only newline of each line is at its end and the buffer has none |
| `LogFollow.StepKeepsText` | lithops/scripts/cli.py:160-164 | one read keeps "yielded lines + buffer = text read" |
| `LogFollow.LineShape` | lithops/scripts/cli.py:160-164 | one read of a `readline()` chunk keeps newline-free buffers and one-newline lines |
| `Seqs.AppendIfAbsent` | lithops/scripts/cli.py:354-357 | `if x not in xs: xs.append(x)`: a present `x` leaves the list exactly as it is, an absent one is added at the end. The list then holds `x`, and stays duplicate-free if it was |
| `Seqs.Dedup` | pywren_ibm_cloud/tests.py:88-91 | the distinct elements, duplicate-free, each from the input, every input element present |
| `Seqs.FirstIndex` | pywren_ibm_cloud/tests.py:88-89 | the first position holding an element: it holds it, and no earlier one does |
| `Seqs.DedupFirstOccurrenceOrder` | pywren_ibm_cloud/tests.py:88-91 | the distinct elements come in order of first occurrence in the input |
| `Seqs.SumByAppend` | pywren_ibm_cloud/tests.py:145-152 | summation is additive over concatenation |
| `Seqs.SumByPermutation` | pywren_ibm_cloud/tests.py:172-177 | summation is invariant under reordering |
| `Seqs.FlattenAppend` | pywren_ibm_cloud/tests.py:148-150 | flattening turns concatenation into concatenation |
| `Text.SplitOn` | pywren_ibm_cloud/tests.py:86 | splitting yields at least one piece, none containing the separator |
| `Text.SplitJoin` | lithops/scripts/cli.py:339 | splitting undoes `'\n'.join` for separator-free pieces |
| `Text.JoinSplit` | pywren_ibm_cloud/tests.py:86 | joining undoes splitting: no character is lost |
| `Text.Words` | pywren_ibm_cloud/tests.py:87 | `split()` on the whitespace `sep` (`IsSpace` or `IsStrSpace`): every piece is a non-empty word free of that whitespace, and together they are exactly the characters that are not its whitespace (`NonSpace`) |
| `Text.WordsOfWord` | pywren_ibm_cloud/tests.py:87 | a single word splits to itself, for any whitespace `sep` |
| `Text.WordsAppendSpace` | pywren_ibm_cloud/tests.py:86-87 | text broken at a whitespace character of `sep` splits into the words of each side, so the pieces are maximal runs |
| `Text.WordsOfJoin` | pywren_ibm_cloud/tests.py:86-87 | splitting text joined with a whitespace character of `sep` gives the concatenated words of the parts |
| `Text.LineWordsAreWords` | pywren_ibm_cloud/tests.py:86-87 | looping over lines and then over the words of each line sees exactly `data.split()`, for any whitespace `sep` that includes `\n` |
| `Text.WordsOfSameSeparators` | pywren_ibm_cloud/tests.py:87 | two whitespace predicates that agree on every character of the text split it into the same words |
| `Text.WordsAgree` | pywren_ibm_cloud/tests.py:87 | on text whose only whitespace is ASCII, `str.split()` and `bytes.split()` give the same words |
| `Text.SeparatorSplitsOnlyStrWords` | pywren_ibm_cloud/tests.py:87 | `a\x1cb` is one word to `bytes.split()` and two to `str.split()` |
| `Text.Decimal` | pywren_ibm_cloud/tests.py:49 | `str(n)` is a non-empty string of digits |
| `Text.ParseDecimal` | pywren_ibm_cloud/tests.py:179 | `int()` of the stored text fails exactly when the text is empty or holds a non-digit |
| `Text.ParseDecimalOfDecimal` | pywren_ibm_cloud/tests.py:179 | `int(str(n)) == n`, for `ParseDecimal`, which is `None` where `int()` raises |
| `Text.DecimalIsOneWord` | pywren_ibm_cloud/tests.py:45 | the stored result is one word for both `IsSpace` and `IsStrSpace` |
| `WordCount.Increment` | pywren_ibm_cloud/tests.py:88-91 | one counting step adds one to the total and keeps counts positive |
| `WordCount.IncrementLookup` | pywren_ibm_cloud/tests.py:88-91 | exactly the counted word's value goes up by one |
| `WordCount.IncrementKeys` | pywren_ibm_cloud/tests.py:88-91 | a new word is appended as the last of the counter's `Keys`; a known word leaves the keys as they are |
| `WordCount.TallySpec` | pywren_ibm_cloud/tests.py:86-93 | the counter `Tally` builds from a word list has as keys the distinct words, each key first occurring in the list before the next key does. Each value is the word's number of occurrences, and is at least 1. The values sum to the number of words |
| `WordCount.TallyKeys` | pywren_ibm_cloud/tests.py:88-89 | keys are the distinct words in first-occurrence order |
| `WordCount.TallyPositiveTotal` | pywren_ibm_cloud/tests.py:88-91 | counts are positive and add up to the number of words |
| `WordCount.TallyLookup` | pywren_ibm_cloud/tests.py:88-91 | each count is the word's number of occurrences |
| `WordCount.TallyCountsOccurring` | pywren_ibm_cloud/tests.py:88-91 | a word has a positive count exactly when it occurs |
| `WordCount.CountWords` | pywren_ibm_cloud/tests.py:79-93 | the map loop (also at tests.py:103-108, 119-124 and 135-140), for any whitespace `sep` that includes `\n`, builds the tally of the text's words, with the properties `TallySpec` states |
| `WordCount.CountLine` | pywren_ibm_cloud/tests.py:87-91 | the inner loop continues the tally with the line's words |
| `WordCount.CountLines` | pywren_ibm_cloud/tests.py:86-91 | the outer loop tallies the words of every line, in line order, split on the given whitespace `sep` |
| `WordCount.MyReduce` | pywren_ibm_cloud/tests.py:145-152 | `my_reduce_function` is `ReduceTotal`, the sum of all counts over all counters, and 0 for no counters |
| `WordCount.ReduceAppend` | pywren_ibm_cloud/tests.py:145-152 | the reducer is additive over concatenation |
| `WordCount.SumOfGroupTotals` | pywren_ibm_cloud/tests.py:241-246 | summing the per-group reductions (`GroupTotals`, one reducer output per group) equals reducing all groups together |
| `WordCount.GroupingInvariance` | pywren_ibm_cloud/tests.py:241-246 | any grouping of any reordering of the counters gives reducer outputs summing to the single reducer's output |
| `PywrenTests.MapPairsAppend` | pywren_ibm_cloud/tests.py:211-217 | mapping two lists one after the other gives the results concatenated |
| `PywrenTests.SumOfMapPairs` | pywren_ibm_cloud/tests.py:68-69 | the results of `MapPairs`, one `simple_map_function` (`SimpleMap`) result per argument pair, sum to the sum of all first plus all second arguments |
| `PywrenTests.SimpleReduce` | pywren_ibm_cloud/tests.py:72-76 | `simple_reduce_function` returns the sum of its list, 0 for an empty list |
| `PywrenTests.MapScenario` | pywren_ibm_cloud/tests.py:197-209 | `[[1,1],[2,2],[3,3],[4,4]]` maps to `[2,4,6,8]`, which sums to 20 |
| `PywrenTests.MultipleExecutionsScenario` | pywren_ibm_cloud/tests.py:211-217 | two successive maps give `[2,4,6,8]` |
| `PywrenTests.ExpectedTotal` | pywren_ibm_cloud/tests.py:39-45 | the expected total is one more than the number of words in all the files together |
| `PywrenTests.StoredResult` | pywren_ibm_cloud/tests.py:47-49 | the stored result parses back to the expected total and is one word |
| `PywrenTests.ExpectedTotalCountsAllObjects` | pywren_ibm_cloud/tests.py:45 | the expected total is the word count of all objects under the prefix, the result object included |
| `PywrenTests.ExpectedTotalOfJoinedText` | pywren_ibm_cloud/tests.py:39-45 | the expected total is one more than the words of all files read as one text |
| `PywrenTests.WordCountOfEach` | pywren_ibm_cloud/tests.py:39 | per-file word lists number as many words as the per-file counts add up to |
| `PywrenTests.CheckResult` | pywren_ibm_cloud/tests.py:168-179 | passes exactly when the stored text parses to the `Aggregate` of the result: the sum of a list result, or a scalar result as it is. It is unparsable exactly when the stored text is empty or holds a non-digit |
| `PywrenTests.ReduceOfCounters` | pywren_ibm_cloud/tests.py:145-152 | reducing `MapCounters` of some objects with `IsSpace` (one counter per object, the tally of its words) gives their number of words as the expected total counts them |
| `PywrenTests.BucketTestPasses` | pywren_ibm_cloud/tests.py:234-239 | when the objects under the prefix are the files and the result object, in any order, one reducer's total passes `checkResult` |
| `PywrenTests.OneReducerPerObjectPasses` | pywren_ibm_cloud/tests.py:241-246 | with the counters split over reducers in any way, the list of reducer totals passes `checkResult` |
| `PywrenTests.UrlTestPasses` | pywren_ibm_cloud/tests.py:264-268 | reading the files from their URLs misses the result object's word, and `result + 1` passes |
| `PywrenTests.UrlTestNeedsTheExtraWord` | pywren_ibm_cloud/tests.py:264-268 | without the `+ 1` the URL test's check is a mismatch |
| `PywrenTests.MapCountersAgree` | pywren_ibm_cloud/tests.py:79-93 | on objects whose only whitespace is ASCII, the map as written (`MapCounters` with `IsStrSpace`) gives the same counters as with `IsSpace` |
| `PywrenTests.BucketTestPassesAsWritten` | pywren_ibm_cloud/tests.py:234-239 | with the map as written and files whose only whitespace is ASCII, one reducer's total passes `checkResult` for any listing order |
| `PywrenTests.OneReducerPerObjectPassesAsWritten` | pywren_ibm_cloud/tests.py:241-246 | with the map as written and such files, any split of the counters over reducers passes `checkResult` |
| `PywrenTests.UrlTestPassesAsWritten` | pywren_ibm_cloud/tests.py:264-268 | with the map as written and such files, `result + 1` passes `checkResult` |
| `PywrenTests.SeparatorFileExpectedTotal` | pywren_ibm_cloud/tests.py:39-45 | for the one file `a\x1cb` the expected total is 2 |
| `PywrenTests.SeparatorBreaksBucketTest` | pywren_ibm_cloud/tests.py:234-239 | for that file the bucket test as written is a mismatch, while the map counting ASCII whitespace only (`IsSpace`) passes |

## Left out

- **The rest of `lithops/scripts/cli.py`** is plumbing over backends and storage:
  - `clean`, `create`, `build`, `update`, `delete` and `verify`;
  - click decorators and configuration loading.
- **Foreign calls** are uninterpreted fields of `RuntimeExtend.Env`; no property of them is claimed (in particular no MD5 injectivity):
  - `hashlib.md5`;
  - `b64str_to_bytes`;
  - `importlib.__import__` and `sys.path`;
  - `SerializeIndependent` and `create_module_data`, together with the `include_modules` path additions;
  - `get_runtime_key`, `create_runtime` and `build_runtime`.
- **Exceptions.** The model follows a missing base record, a failed import, a missing function and a failing build, each as a failure result. Storage write failures, `os.makedirs` errors and `os.chdir` failing are not modelled.
- RuntimeExtend.Extend: its "fails exactly when" is stated only when no other step raises. These failures are not modelled:
  - the function file missing or unreadable at `open` (cli.py:317) or at `copy` (cli.py:244);
  - an include module that cannot be imported or is not a package (cli.py:330);
  - a base record without `preinstalls` (cli.py:327);
  - the serializer, `create_module_data` (cli.py:332), base64 decoding (cli.py:265) or `create_runtime` (cli.py:351) raising.
- RuntimeExtend.RuntimeMeta: keeps only `preinstalls`, `ext_meta`, `map_func_mod` and `map_func` of the record. The other fields are carried through from `create_runtime` without being inspected.
- RuntimeExtend.Extend: the function file is read once as bytes for both the digest and the copy. The model does not cover a file that changes between the two reads.
- RuntimeExtend.DeriveNaming: the tag round trip is stated only for a digest whose first 16 characters contain no `:`. The digest is opaque; `HexTag` shows a hexadecimal digest meets this.
- RuntimeExtend.DockerfileHasThreeLines: stated for a base image and function directory without newlines; with a newline in either, the text has more lines.
- **`lithops logs poll`.** Modelled only through the `follow` loop:
  - the outer polling loop, `time.sleep` and `print` are left out;
  - each file-existence check and `readline()` result is one observation in a finite sequence.
- **`lithops/storage/backends/storageless/storageless.py`** is left out: every method logs and raises, so it has no logic to verify.
- **The remote executor is not part of this model** (`ibm_cf_executor`, `call_async`, `map`, `map_reduce`, `get_result`, chunking). The tests' outcomes are stated for any listing order and any reducer grouping instead of the executor's actual ones:
  - the chunked tests are not modelled;
  - `test_call_async` is not modelled (it checks a string result and a keyword-argument call).
- **The upload in `initTests`** is left out: URL download, the thread pool and storage puts. The expected total is computed from the file contents.
- Text.Words: decoding a line that is not valid UTF-8 raises in the map functions; the model takes the decoded text as given.
- Text.LineWords: lines are split on `\n` only, where `bytes.splitlines()` also splits on `\r`. Every line terminator is whitespace, so the words seen are the same.
- Text.ParseDecimal: covers `int()` only for strings of decimal digits. Signs, surrounding whitespace and underscores are not accepted. The stored result is always `str` of a natural number.
- PywrenTests.CheckResult: models integer and integer-list results only; `isinstance` on other kinds of result is not modelled.

## Findings

| source | as written | input that shows it | evidently intended | confidence | as-written member | corrected member |
|---|---|---|---|---|---|---|
| pywren_ibm_cloud/tests.py:87 | the expected total counts `bytes.split()` words of each file (tests.py:39), but the map functions count `str.split()` words of each decoded line, and `str.split()` also separates on the information separators U+001C to U+001F and Unicode spaces | a test file holding `a\x1cb`: expected total 2, map total 3 | both sides count words with the same separators, so `checkResult` passes for any file | not executed; medium | `PywrenTests.SeparatorBreaksBucketTest` (with `PywrenTests.MapCounters` on `IsStrSpace`) | `PywrenTests.BucketTestPasses` (with `PywrenTests.MapCounters` and `WordCount.CountWords` on `IsSpace`) |
