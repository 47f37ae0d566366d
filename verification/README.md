# Specify CLI core, modelled in Dafny

`specify` is a command-line tool that sets up a spec-driven development
project. It downloads a release archive of templates for the chosen AI
assistant and script flavour. Then it installs the archive either into a new
directory or merged into an existing one, and finishes by normalising the
installed scripts. Most of the tool is glue over HTTP, zip files, a terminal
UI and git. This project models the deterministic rules inside that glue and
proves what they guarantee:

- **`JsonMerge`** (`json_merge.dfy`): `deep_merge` and `merge_json_files`
  over a recursive `Json` datatype.
- **`TemplateTree`** (`template_tree.dfy`): installing an extracted archive.
  - A directory tree is a map from paths to file contents.
  - Single-root flattening.
  - Merge mode copies every top-level item into an existing directory:
    - a file overwrites;
    - a missing directory is copied whole;
    - an existing directory is merged file by file;
    - `.vscode/settings.json` is deep-merged.
  - Every conflict between an archive path and an existing file or directory is modelled.
- **`GitHubAuth`** (`github_auth.dfy`): token precedence and the
  `Authorization` header.
- **`ReleaseAssets`** (`release_assets.dfy`): choosing the template archive
  among the assets of a release.
- **`StepTracker`** (`step_tracker.dfy`): the ordered list of progress steps.
- **`Normalize`** (`normalize.dfy`): the two script passes.
  - Execute bits on POSIX shell scripts.
  - A UTF-8 byte-order mark on PowerShell scripts.
- **`Utf8`** (`utf8.dfy`): well-formed UTF-8 (section 4 of RFC 3629) and a
  decoder/encoder pair.
- **`ArrowSelector`** (`selector.dfy`): the index arithmetic of the
  arrow-key picker.
- **`InitArgs`** (`init_args.dfy`): the argument checks at the start of
  `init`.
- **`Agents`** (`agents.dfy`), **`Text`** (`text.dfy`), **`Wrappers`**
  (`wrappers.dfy`): the closed sets of assistant and script keys, the Python
  string operations used (`strip`, `in`, `endswith`), and `Option`/`Result`.

Every part is a pure function of its inputs. Everything the program asks of
the outside world becomes a parameter:

- the file system is a tree value;
- the process environment is a map;
- whether a tool is installed is a set;
- the user's key presses and confirmation answers are values;
- the operating system is a `Platform` value;
- the order in which the OS lists directory entries is a sequence.

The theorems about merge-mode installation hold for every listing order.

Two places where the model differs from the program's own description:

- The merge's docstring says lists and other values are "replaced". The code
  does replace a non-object value inside an object. But when the existing
  `settings.json` holds a top-level list, `deep_merge` raises, unless the
  incoming document is an empty object. Then the settings handler copies the
  incoming file over. `JsonMerge.MergeJsonFile` and
  `TemplateTree.HandleSettings` model that path as the code has it.
- `shutil.copy2` onto an existing directory writes a file of the same name
  inside that directory. `TemplateTree.CopyFile` models that as well, since
  it is what the code does when a template file meets a directory in the
  target.

## Model

| member | source | states |
|---|---|---|
| JsonMerge.DeepMerge | src/specify_cli/__init__.py:619-630 | The merged object has exactly the keys of both sides. A key only in the existing object keeps its value. Every incoming value that does not meet an existing object with an object (an object meeting a missing or non-object value, a list, a scalar) replaces whatever was there. |
| JsonMerge.BothObjectsMergeRecursively | src/specify_cli/__init__.py:624-625 | Where both values of a key are objects, the merged key holds the recursive merge of the two. |
| JsonMerge.MergeLoop | src/specify_cli/__init__.py:619-630 | The loop of `deep_merge` (copy the base, then visit the update's keys in any order) computes `DeepMerge`, whatever order the dictionary yields its keys in. |
| JsonMerge.MergeEmptyUpdate | src/specify_cli/__init__.py:622-623 | Supporting fact: an empty update leaves the base as it was. |
| JsonMerge.MergeEmptyBase | src/specify_cli/__init__.py:622-628 | Supporting fact: merging into an empty base yields the update. |
| JsonMerge.MergeSelf | src/specify_cli/__init__.py:619-630 | Merging settings with themselves changes nothing. |
| JsonMerge.MergeReapply | src/specify_cli/__init__.py:619-630 | Merging the same incoming settings a second time changes nothing, so installing twice leaves the same settings as installing once. |
| JsonMerge.IncomingLeafWins | src/specify_cli/__init__.py:622-628 | Every non-object value of the incoming settings, at any depth, sits at the same key path of the result. |
| JsonMerge.ExistingUntouchedKept | src/specify_cli/__init__.py:621-628 | A value at any key path of the existing settings survives when the incoming settings hold nothing at that path and, along the way, hold either nothing or an object. User keys nested under a shared object are kept. |
| JsonMerge.TopLevelUntouchedKept | src/specify_cli/__init__.py:619-622 | When the incoming settings lack a top-level key, the whole existing subtree under it is kept. |
| JsonMerge.NestedUserKeyKept | src/specify_cli/__init__.py:621-628 | Merging `{"b":{"y":2}}` into `{"b":{"x":1}}` keeps `b.x` at 1. |
| JsonMerge.ExampleMerge | src/specify_cli/__init__.py:596-637 | `{"a":1,"b":{"x":1}}` merged with `{"b":{"y":2},"c":3}` gives `{"a":1,"b":{"x":1,"y":2},"c":3}`. |
| JsonMerge.MergeJsonFile | src/specify_cli/__init__.py:613-632 | A missing or malformed existing file yields exactly the incoming document. Two objects give exactly their `DeepMerge`. An existing list with an empty incoming object is returned unchanged. The merge fails exactly when the existing document and the incoming one are not both objects, apart from that list case. |
| TemplateTree.Flatten | src/specify_cli/__init__.py:815-817 | When every file of the archive lies under one top-level directory (empty directories are not represented; see "## Left out"), each file `X/p` becomes `p` with the same contents, and nothing else appears. Otherwise the archive is used as it is. Flattening keeps the tree well formed. |
| TemplateTree.FlattenExample | src/specify_cli/__init__.py:815-817 | The archive `X/a`, `X/b` installs as `a`, `b`. |
| TemplateTree.FreshInstall | src/specify_cli/__init__.py:859-867 | A fresh install holds the flattened archive: a well-formed tree, equal to the archive unless it has a single root directory. |
| TemplateTree.CopyFile | src/specify_cli/__init__.py:833-837 | Once the parent directories exist (no ancestor of the path is a file, as the preceding `mkdir(parents=True)` ensures), `copy2` succeeds exactly when its landing place is not a directory. The landing place is the path itself, or the same name inside it when the path is a directory. The contents are written there. |
| TemplateTree.HandleSettings | src/specify_cli/__init__.py:572-594 | An existing settings file ends as `SettingsOutcome` of its old and new contents, whose cases `SettingsRules` states. An absent destination is handled by `copy2`: it succeeds exactly when the landing place is not a directory, and it writes the incoming file there. |
| TemplateTree.PlaceLeaf | src/specify_cli/__init__.py:829-837 | A file below an existing directory fails with `NotADirectory` when one of its ancestors is a regular file (`mkdir(parents=True)` raises). An ordinary file then behaves as `copy2`. An existing `.vscode/settings.json` ends with its `SettingsOutcome`. |
| TemplateTree.SettingsRules | src/specify_cli/__init__.py:572-594 | An existing object and an incoming object are deep-merged. An unparsable existing file is replaced by the incoming document. An absent destination receives the incoming document. When the merge raises (an existing list or scalar meeting a non-empty or non-object document), the incoming document is copied over. |
| TemplateTree.MergeInstallSpec | src/specify_cli/__init__.py:823-844 | For every listing order, the install succeeds exactly when no file conflicts: no regular file blocks a needed directory and `copy2` never targets a directory. On success the tree is well formed. Every source file is at its landing place with its source contents, except `.vscode/settings.json` inside a directory that already existed, which holds the merged settings. Every other target file is unchanged. Nothing else appears. |
| TemplateTree.MergeInstall | src/specify_cli/__init__.py:823-844 | Merge mode: flatten the archive, then place its files in the listing order, stopping at the first error. Its contract is stated by `MergeInstallSpec`, for every listing order. |
| TemplateTree.OrdinaryFilesOverwrite | src/specify_cli/__init__.py:833-837 | Supporting fact, read off `MergeInstallSpec`: a file other than `.vscode/settings.json` ends with exactly its source contents. |
| GitHubAuth.GitHubToken | src/specify_cli/__init__.py:60-62 | A resolved token is never empty and has no surrounding whitespace. |
| GitHubAuth.CliTokenWins | src/specify_cli/__init__.py:60-62 | A non-empty command-line token decides the result, whatever the environment holds. |
| GitHubAuth.BlankCliTokenShadowsEnv | src/specify_cli/__init__.py:60-62 | A whitespace-only command-line token still takes precedence and leaves no token, even when `GH_TOKEN` or `GITHUB_TOKEN` is set. |
| GitHubAuth.EnvPrecedence | src/specify_cli/__init__.py:60-62 | Without a command-line token, `GH_TOKEN` is used before `GITHUB_TOKEN`. With neither set there is no token. |
| GitHubAuth.AuthHeaders | src/specify_cli/__init__.py:64-67 | The `Authorization` header is present exactly when a token resolves, it is the only header, and its value is `Bearer <token>`. |
| GitHubAuth.HeaderExamples | src/specify_cli/__init__.py:60-67 | Concrete precedence cases: explicit beats environment, environment alone is used, and neither gives no header. |
| Agents.AgentKeysAccepted | src/specify_cli/__init__.py:1078-1088 | A key is offered by the picker exactly when `--ai` accepts it. |
| Agents.AgentKeyRoundTrip | src/specify_cli/__init__.py:127-230 | Every assistant's table key is accepted and names that assistant. |
| Agents.ParseScript | src/specify_cli/__init__.py:232 | A script key is accepted exactly when it is `sh` or `ps`, and names that flavour. |
| Agents.ParseAgent | src/specify_cli/__init__.py:127-230 | An accepted `--ai` value names the assistant whose table key it is. With `AgentKeysAccepted`, exactly the 17 table keys are accepted (`ai_assistant not in AGENT_CONFIG`, line 1079). |
| Agents.RequiresCliKeys | src/specify_cli/__init__.py:127-229 | `RequiresCli` holds exactly for the rows whose `requires_cli` is true: claude, gemini, qwen, opencode, codex, auggie, codebuddy, qoder, q, amp and shai. |
| Agents.DefaultScript | src/specify_cli/__init__.py:1116 | The default script flavour is `ps` on Windows and `sh` elsewhere, and it is a valid choice. |
| ReleaseAssets.Matching | src/specify_cli/__init__.py:674-677 | The filtered list holds only matching assets of the release, and every matching asset. |
| ReleaseAssets.MatchingHead | src/specify_cli/__init__.py:674-679 | The head of the filtered list is the first matching asset in release order. |
| ReleaseAssets.SelectAsset | src/specify_cli/__init__.py:672-685 | Selection succeeds exactly when some asset contains `spec-kit-template-{ai}-{script}` and ends in `.zip`. It picks the first such asset in release order. Otherwise the error carries the pattern and every asset name. |
| ReleaseAssets.SelectionExample | src/specify_cli/__init__.py:672-679 | Of a `sh` and a `ps` archive for the same assistant, a `sh` request picks the `sh` one. |
| StepTracker.Add | src/specify_cli/__init__.py:260-263 | Adding an existing key changes nothing. A new key is appended as a pending step with an empty detail. Keys stay unique. |
| StepTracker.FirstIndex | src/specify_cli/__init__.py:278-279 | The position the update loop stops at: the first step with the key, or the end when there is none. |
| StepTracker.Update | src/specify_cli/__init__.py:277-287 | An update on a known key replaces just the first such step by its updated form; the list keeps its length and order. An unknown key appends one step titled by the key, with the given status and detail. Keys stay unique. |
| StepTracker.Start | src/specify_cli/__init__.py:265-266 | The first step with the key, or a new step appended for it, is running; every other step is unchanged; keys stay unique. |
| StepTracker.Complete | src/specify_cli/__init__.py:268-269 | The same, with status done. |
| StepTracker.Fail | src/specify_cli/__init__.py:271-272 | The same, with status error. |
| StepTracker.Skip | src/specify_cli/__init__.py:274-275 | The same, with status skipped. |
| StepTracker.Updated | src/specify_cli/__init__.py:280-282 | The updated step keeps its key and title and takes the new status. The detail is replaced only by a non-empty one. |
| StepTracker.UpdateExistingLocal | src/specify_cli/__init__.py:277-284 | With unique keys, updating the step at position `k` changes only that step. |
| StepTracker.UpdateKeepsDetail | src/specify_cli/__init__.py:280-282 | A later update with an empty detail keeps the detail an earlier update recorded. |
| StepTracker.Apply | src/specify_cli/__init__.py:260-287 | Any sequence of `add`, `start`, `complete`, `error` and `skip` keeps keys unique, never removes a step, and never changes an existing step's key. |
| Normalize.ExecutableMode | src/specify_cli/__init__.py:953-961 | A mode with any execute bit is unchanged. Otherwise only execute bits change: group and other gain execute exactly when they may read, and the owner always gains it. The result is always executable. |
| Normalize.ExecStep | src/specify_cli/__init__.py:944-965 | A symlink, a non-regular file, an unreadable file or one not starting with `#!` is left alone. A script whose `stat` fails, or whose `chmod` fails while it needs one, is a failure. A non-executable script whose chmod works gets `ExecutableMode`, a different mode. |
| Normalize.FailuresIn | src/specify_cli/__init__.py:964-965 | The failure list holds exactly the walked scripts whose step failed. |
| Normalize.ChmodScripts | src/specify_cli/__init__.py:943-965 | Walking the scripts in order: the new modes are exactly those of the scripts made executable, the count is their number, and failures are listed in walk order. |
| Normalize.EnsureExecutableScripts | src/specify_cli/__init__.py:933-965 | Nothing happens on Windows. On POSIX, exactly the `*.sh` files below `.specify/scripts` that the step makes executable get a new mode, and that mode is executable. The counts and failure list match. |
| Normalize.CandidatesEndExecutable | src/specify_cli/__init__.py:944-963 | Supporting fact, read off `ExecStep` and `ExecutableMode`: a regular `#!` script whose stat and chmod work is executable afterwards. |
| Normalize.BomKeepsValidity | src/specify_cli/__init__.py:917-926 | Prefixing the mark never changes whether the bytes are well-formed UTF-8. |
| Normalize.WithBom | src/specify_cli/__init__.py:916-926 | A file that already has the mark, or does not decode, is unchanged. Any other file becomes the mark followed by its original bytes. The result starts with the mark exactly when the file had one or decodes. Validity is preserved. |
| Normalize.WithBomIdempotent | src/specify_cli/__init__.py:916-926 | A second pass changes and converts nothing. |
| Normalize.CountNeedingBomIsCardinality | src/specify_cli/__init__.py:914-927 | For a walk that visits each script once, the number of rewrites is the number of scripts that needed the mark. |
| Normalize.MarkScripts | src/specify_cli/__init__.py:916-927 | Each walked script becomes `WithBom` of itself, every other file is unchanged, and the count is the number of rewrites. |
| Normalize.EnsurePowerShellBom | src/specify_cli/__init__.py:900-927 | Only on Windows with PowerShell scripts. The pass fails exactly when a directory below `.specify/scripts/powershell` has a name matching `*.ps1`, since `rglob` yields it and reading it raises. Then each file is either untouched or a marked script. Otherwise every `*.ps1` below that directory (suffix matched without ASCII case) becomes `WithBom` of itself, other files are unchanged, and the count is the number of files that needed the mark. On other platforms nothing changes. |
| Normalize.HasPowerShellDir | src/specify_cli/__init__.py:916-917 | True exactly when some directory below `.specify/scripts/powershell` is named like a script. |
| Utf8.FirstCharOfConcat | src/specify_cli/__init__.py:920-923 | The length of the first character depends only on its own bytes. |
| Utf8.ConcatValid | src/specify_cli/__init__.py:920-926 | Supporting fact for the round trip: two well-formed texts joined are well formed. |
| Utf8.FirstChar | src/specify_cli/__init__.py:920-923 | A decoded character is a Unicode scalar value, and its range determines how many bytes encode it. |
| Utf8.DecodeEncode | src/specify_cli/__init__.py:920-926 | Encoding the decoding of well-formed bytes gives back the same bytes, so `decode` followed by `encode` rewrites nothing but the prefix. |
| ArrowSelector.IndexOf | src/specify_cli/__init__.py:365-366 | `list.index`: the first position holding the key. |
| ArrowSelector.InitialIndex | src/specify_cli/__init__.py:364-368 | The highlight starts at the first position of a non-empty default that is offered, and at 0 otherwise. |
| ArrowSelector.Move | src/specify_cli/__init__.py:402-405 | With options, a move stays in bounds and wraps at both ends. With no options it fails, as Python's division by zero does. |
| ArrowSelector.MoveInverse | src/specify_cli/__init__.py:402-405 | Down undoes Up and Up undoes Down. |
| ArrowSelector.DownsWrap | src/specify_cli/__init__.py:404-405 | `k` presses of Down move the highlight to `(i + k) mod n`. |
| ArrowSelector.FullRound | src/specify_cli/__init__.py:404-405 | `n` presses of Down come back to the start. |
| ArrowSelector.Run | src/specify_cli/__init__.py:398-416 | A chosen key is one of the options, the highlight stays in bounds, and only an empty option list can crash. |
| ArrowSelector.NoCrash | src/specify_cli/__init__.py:398-416 | With at least one option the loop never crashes. |
| ArrowSelector.Select | src/specify_cli/__init__.py:352-424 | `select_with_arrows` returns one of the offered keys, and cannot crash when there are options. |
| ArrowSelector.EnterPicksDefault | src/specify_cli/__init__.py:364-368 | Pressing Enter straight away picks an offered default. |
| InitArgs.ResolveTarget | src/specify_cli/__init__.py:1017-1027 | `.` means the current directory. A name together with `--here` is an error, and so is giving neither. The current directory is chosen exactly for `.` or a bare `--here`. A new directory is chosen exactly for a name without `--here`, and it carries that name. |
| InitArgs.DotMeansHere | src/specify_cli/__init__.py:1017-1019 | `init .` resolves the same as `init --here`. |
| InitArgs.CheckTarget | src/specify_cli/__init__.py:1029-1056 | An existing named directory is refused. A non-empty working directory needs `--force` or a yes, and a no is a clean exit. |
| InitArgs.ExitStatus | src/specify_cli/__init__.py:1021-1056 | Every refusal exits with status 1 except declining the merge, which exits with 0. |
| InitArgs.ChooseAgent | src/specify_cli/__init__.py:1078-1088 | A given `--ai` is accepted exactly when it is a table key, and then names the chosen assistant. Otherwise the error names it. |
| InitArgs.CheckAgentTool | src/specify_cli/__init__.py:1090-1106 | The check passes exactly when tools are ignored, the assistant needs no CLI, or its tool is installed. |
| InitArgs.ChooseScript | src/specify_cli/__init__.py:1108-1119 | A given `--script` is accepted exactly when it is `sh` or `ps`. Without one and without a terminal, the platform default is used: PowerShell on Windows, POSIX shell otherwise. |
| InitArgs.Pick | src/specify_cli/__init__.py:1081-1086 | A picker returns an offered key, or fails by cancellation or a missing answer. |
| InitArgs.Init | src/specify_cli/__init__.py:1017-1121 | `init` goes ahead exactly when every check passes: the target resolves, the target directory is usable, an assistant is chosen, its tool is present or not needed, and a script is chosen. Otherwise the error is that of the first failing check, in the source's order. A successful `init` has the resolved target, the given assistant and script when they were given, the platform default script without a terminal, an installed tool when one is required, and a new directory that did not exist. |
| InitArgs.NameWithHereFirst | src/specify_cli/__init__.py:1021-1023 | A name with `--here` is refused before anything else is looked at. |
| InitArgs.FlagsMakeItNonInteractive | src/specify_cli/__init__.py:1078-1119 | With `--ai` and `--script` given, key presses and the terminal make no difference. |
| InitArgs.FlagsSucceedExactly | src/specify_cli/__init__.py:1017-1113 | With `--ai` and `--script` given, `init` goes ahead exactly when the target is usable, both keys are known, and the assistant's tool is installed, not required, or not checked. |
| Text.Strip | src/specify_cli/__init__.py:62 | The stripped string has no whitespace (in Python's sense) at either end. |
| Text.StripCharacterized | src/specify_cli/__init__.py:62 | Stripping removes exactly the surrounding whitespace. |
| Text.StripIdempotent | src/specify_cli/__init__.py:62 | Stripping twice is stripping once. |
| Text.Contains | src/specify_cli/__init__.py:676 | `pattern in s` holds exactly when the pattern occurs at some position of `s`. |

## Left out

- HTTP: fetching the release document, the streaming download with its progress bar, timeouts, and TLS settings are network I/O. The release document is an input value instead.
- The rate-limit header parsing and error-message formatting. This is date and time conversion plus terminal markup.
- Extracting the zip archive. The archive's contents are an input tree.
- Fresh-mode cleanup: deleting the archive and the partial project on failure.
- The downloaded archive itself. It is written into the working directory and deleted after extraction. With `--here` that directory is the target, so an existing file there with the archive's name would be overwritten and then removed. This is outside the modelled tree operations.
- TemplateTree.Flatten: the single-root test sees files only. The program counts every top-level entry the archive extracts, empty directories included. So an archive holding `X/a` and an empty top-level `Y/` is left as is by the program, while the model strips `X`. `FreshInstall` and `MergeInstall` inherit this difference. Archives without empty directories behave alike.
- TemplateTree.FreshInstall: the flatten moves the root directory through a sibling named `<project>_temp`, and that sibling is not modelled. The contract holds only when no such sibling exists. An existing directory of that name would receive the root directory inside it, and an existing file of that name makes the move fail.
- The terminal UI: `StepTracker.render`, the refresh callback, the banner, panels, `Live`, and all console messages.
- Keyboard reading (`get_key`). Key presses are an input list.
- The `version` command, `check` command, git initialisation, subprocesses and `check_tool`. Tool presence is an input set.
- Empty directories. A tree holds files only, so a directory exists only through the files below it. An empty source directory therefore creates nothing, and the `scripts_root.is_dir()` guards coincide with "no script below it".
- Symbolic links, file permissions beyond the mode word, and timestamps copied by `copy2`.
- Partial results of a failed merge install. `TemplateTree.MergeInstall` reports the first error, but not the files already copied before it.
- JSON number formats and the text layout of written JSON (`indent=4`, key order). Numbers are integers, and a document is its value.
- Whether `open(..., encoding='utf-8')` of the existing settings fails on undecodable bytes. That case and a JSON syntax error lead to the same result, the incoming document.
- `AGENT_CONFIG` fields other than the key and `requires_cli` (display name, folder, install URL).
- The failure messages of `ensure_executable_scripts`, which hold the exception text, and the tracker detail strings of both passes. The passes return the failing paths and the counts.
- Path case: paths are compared exactly, as on a case-sensitive file system. On the case-insensitive file systems of Windows and macOS, `README.md` and `readme.md` are one file, and the `.specify/scripts/powershell` location is found whatever its case. `TemplateTree.MergeInstallSpec` and `Normalize.EnsurePowerShellBom` rely on exact path equality.
- Normalize.FoldCase: only ASCII letters are folded. Windows glob matching ignores case with Python's full Unicode rules, so for example `ſ` matches `s` there but not here.
- Normalize.EnsurePowerShellBom: read or write failures on a regular script (no permission, a full disk) are not modelled. Only the directory named like a script is. Which scripts were rewritten before a failure depends on the listing order and is not stated.
- Normalize.ExecutableMode: the mode is 16 bits wide, which holds every `st_mode` that Linux and macOS report. Python's unbounded integer is not modelled.
- ReleaseAssets.SelectAsset: every asset is assumed to have a name. The `a.get('name', '?')` fallback used when listing names is not modelled.
- InitArgs.Init: the `Waiting` outcome of a picker (key presses running out) stands for a user who never answers. The program would keep waiting; here it is the `NoAnswer` error.
