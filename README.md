# Templater `file` module: the inclusion depth guard

This project models the `file` template module of the Templater plugin for
Obsidian (`src/InternalTemplates/file/InternalModuleFile.ts`). The main part is `tp.file.include(name)`.
It resolves `name` to a document, raises a process-wide depth counter and checks it against
`DEPTH_LIMIT = 10`, reads the document, and re-enters the template parser on its text. It lowers the
counter again when the parser returns. The project also models three string accessors: `tp.file.folder`,
`tp.file.path`, and the target path of `tp.file.rename`.

Modules:

- `Inclusion` (`inclusion.dfy`) holds the value-level model. It has the document store
  (link path to `Folder | File(readable, body)`), the abstract template text (`Literal`,
  `IncludeDirective`, `ContextPath` segments), and two functions. `IncludeResult` gives the outcome of one
  `include` call and the counter's value afterwards. `ParseResult` does the same for one parser run. The
  lemmas about both come after them.
- `FileModule` (`file_module.dfy`) holds the imperative model. `DepthCounter` is the static field
  `InternalModuleFile.depth`: one object shared by every module instance. `InternalModuleFile` has the
  `Include` method, which updates the counter step by step. `ParseTemplates` is the reentrant parser
  call. It binds a fresh module to the context file and expands the segments in order, stopping at
  the first failure. Both methods are proved to produce exactly what `IncludeResult` and
  `ParseResult` say.
- `FileAccessors` (`accessors.dfy`) holds `Folder`, `PathOf` and `RenameTarget`. Folders and files are
  described the host's way. A folder is its list of components below the vault root; the root has
  path `/` and an empty name. A file's basename and extension are the parts of its name before and
  after the last dot.

The code lowers the counter only when the nested parse returns normally (line 76). A rejection
(line 70), a failed read (line 73) and a failed nested parse (line 74) keep their increments. The
model's parser ends a run at its first failure and passes that failure up. Under that parser, a rejected
self-inclusion leaves the counter at 11, and it never falls below 11 again. Every later include of a
file, through any module instance, is rejected and raises the counter by one more. A later parse
fails as soon as it reaches such an include (`SelfInclusionSaturatesCounter`,
`SharedCounterScenario`, `SaturatedCounterRejectsParse`).
A parser that caught the error and went on would reach line 76 at each level instead. The nested
parse gets the including module's file (`this.file`) as its context, not the included file
(`NestedContextIsIncludingFile`).

## Model

| member | source | states |
|---|---|---|
| `Inclusion.IncludeResult` | src/InternalTemplates/file/InternalModuleFile.ts:56-80 | one include call: a success leaves the counter where it was, and no call ever lowers it |
| `Inclusion.ParseResult` | src/InternalTemplates/file/InternalModuleFile.ts:74 | a parser run from any counter value: a success leaves the counter where it was, and no run lowers it |
| `Inclusion.MissingTargetKeepsDepth` | src/InternalTemplates/file/InternalModuleFile.ts:58-61 | a name that resolves to nothing fails with TargetNotFound and the counter is unchanged |
| `Inclusion.FolderTargetKeepsDepth` | src/InternalTemplates/file/InternalModuleFile.ts:62-64 | a name that resolves to a folder fails with TargetIsFolder and the counter is unchanged |
| `Inclusion.AdmissionCheck` | src/InternalTemplates/file/InternalModuleFile.ts:68-71 | for a file, the raised counter over 10 means a depth-limit failure with the counter left one higher; an admitted call that fails keeps at least that increment |
| `Inclusion.ReadFailureKeepsIncrement` | src/InternalTemplates/file/InternalModuleFile.ts:68-73 | an admitted file that cannot be read fails with the counter left one higher |
| `Inclusion.LiteralBody` | src/InternalTemplates/file/InternalModuleFile.ts:74 | a text without directives parses to the concatenation of its literals with the counter unchanged |
| `Inclusion.IncludeFailureDepth` | src/InternalTemplates/file/InternalModuleFile.ts:68-76 | from a counter at most 10, a call leaves it at most 11, and a depth-limit failure leaves it at exactly 11 |
| `Inclusion.ParseFailureDepth` | src/InternalTemplates/file/InternalModuleFile.ts:73-76 | the same bounds for a nested parser run |
| `Inclusion.SaturatedCounterRejects` | src/InternalTemplates/file/InternalModuleFile.ts:68-70 | with the counter at 10 or more, every include of a file is rejected and raises the counter once more |
| `Inclusion.SaturatedCounterRejectsParse` | src/InternalTemplates/file/InternalModuleFile.ts:68-74 | with the counter at 10 or more, a whole parse fails with the depth-limit error at its first include of a file, and the counter is raised once more |
| `Inclusion.ChainResult` | src/InternalTemplates/file/InternalModuleFile.ts:68-76 | a chain of n files from counter d succeeds and restores d when d + n <= 10, and otherwise fails with the depth-limit error leaving 11 |
| `Inclusion.ChainOfTenSucceeds` | src/InternalTemplates/file/InternalModuleFile.ts:9 | from 0, a chain of ten files succeeds and the counter returns to 0 |
| `Inclusion.ChainOfElevenFails` | src/InternalTemplates/file/InternalModuleFile.ts:68-70 | from 0, the eleventh file of a chain is rejected and the counter is left at 11 |
| `Inclusion.SelfInclusionFails` | src/InternalTemplates/file/InternalModuleFile.ts:68-74 | a file whose text starts by including itself always ends with the depth-limit error, and the counter is left at 11 |
| `Inclusion.SelfInclusionSaturatesCounter` | src/InternalTemplates/file/InternalModuleFile.ts:13 | from 0, self-inclusion is rejected after ten admitted levels with the counter at 11, and afterwards an include of any file from any context is rejected |
| `Inclusion.NestedContextIsIncludingFile` | src/InternalTemplates/file/InternalModuleFile.ts:74 | an accessor two includes down expands to the including module's file, not to the included one |
| `FileModule.DepthCounter.constructor` | src/InternalTemplates/file/InternalModuleFile.ts:13 | the shared counter starts at 0 |
| `FileModule.InternalModuleFile.Include` | src/InternalTemplates/file/InternalModuleFile.ts:57-79 | the step-by-step include returns and leaves the counter exactly as IncludeResult says |
| `FileModule.ParseTemplates` | src/InternalTemplates/file/InternalModuleFile.ts:74 | the parser loop returns and leaves the counter exactly as ParseResult says |
| `FileModule.SharedCounterScenario` | src/InternalTemplates/file/InternalModuleFile.ts:13 | two modules on one counter: after a self-inclusion is rejected through one, any include of a file through the other is rejected, and the counter ends at 12 |
| `FileAccessors.FolderFormsAgree` | src/InternalTemplates/file/InternalModuleFile.ts:41-52 | the two forms are equal exactly when the parent sits directly below the vault root |
| `FileAccessors.FolderNameEndsPath` | src/InternalTemplates/file/InternalModuleFile.ts:45-50 | deeper down, the relative form ends with "/" followed by the plain form |
| `FileAccessors.FolderIsPathPrefix` | src/InternalTemplates/file/InternalModuleFile.ts:46 | outside the root, a file's path is folder(true), "/" and the file's name |
| `FileAccessors.AbsolutePathExtendsRelative` | src/InternalTemplates/file/InternalModuleFile.ts:91-104 | both forms of path give the placeholder on mobile; off mobile they fail together, exactly when the adapter is not filesystem-backed, and the absolute form is the base path, "/" and the relative form |
| `FileAccessors.PathIsInFolder` | src/InternalTemplates/file/InternalModuleFile.ts:97-104 | off mobile with a filesystem adapter, outside the root, the relative path is folder(true), "/" and the name, and the absolute path is the base path, "/" and that |
| `FileAccessors.RenameTarget` | src/InternalTemplates/file/InternalModuleFile.ts:110 | outside the root and for a title without '/', the rename target is the path of a file in the same folder; for any title, the new name's basename is the title and its extension is the old one |
| `FileAccessors.ExtensionHasNoDot` | src/InternalTemplates/file/InternalModuleFile.ts:110 | an extension never contains a dot, so the rename always keeps it |

## Left out

- SelfInclusionSaturatesCounter, SharedCounterScenario, SaturatedCounterRejectsParse and IncludeFailureDepth rely on the modelled parser, which ends a run at its first failure and passes it up. `parseTemplates` is not part of this model. If it caught a nested error and finished the run, the levels above would reach line 76 and lower the counter.
- The default `relative = false` of `folder` and `path` (lines 41 and 89) is not modelled: `Folder` and `PathOf` take `relative` explicitly.
- Concurrency: the model runs calls one after another. The race on the unguarded counter (lines 66-67), with interleaved top-level expansions, is not modelled.
- The real template parser: a document's text is a list of literal, include and context-accessor segments, expanded in order, and the first failure ends the run. The grammar, other template functions and the parser's error rendering are not modelled.
- Host library calls: `vault.read` is reduced to the `readable` flag of a store entry. Link resolution is a map lookup with an empty source path, and `normalizePath` is the identity.
- RenameTarget: its path clause is stated only for files outside the vault root and for a title without '/'. A title such as `sub/new` is joined as it is, which names a file in a subfolder. For a file in the root the joined string is `//title.ext`, which the host's normalisation (not modelled) would shorten.
- `fileManager.renameFile` itself is a host side effect and is not modelled, and neither is the empty string `rename` returns. Only the target path is.
- The error messages' text is not modelled, only the error kind. Line 60 and line 63 interpolate `this.file`, not the include target.
- `UNSUPPORTED_MOBILE_TEMPLATE` is defined in `InternalUtils.ts`, which is not part of this model. `PathOf` takes it as a parameter.
- `content`, `creation_date`, `last_modified_date`, `selection`, `tags`, `title`, `cursor` and the template table filling (lines 15-38, 82-86, 116-135): these are host pass-throughs or date formatting with nothing to state. The basename and extension of a name are modelled only as far as the rename property needs them.
