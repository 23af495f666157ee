# windowsify-paths, modelled in Dafny

A model of the logic of the windowsify-paths editor extension. The extension
copies the path of a file to the clipboard in Windows notation, with every `/`
replaced by `\`. It offers two commands. One copies the absolute path. The
other copies the path relative to a workspace folder.

The model has four modules:

- `Wrappers` (wrappers.dfy): `Option`, and `Truthy`, which is JavaScript truthiness
  of a `string | undefined` (absent or `""` is falsy).
- `WindowsPath` (windows_path.dfy): `toWindowsPath` as the recursive function
  `ToWindowsPath` over `seq<char>`, and lemmas about it.
- `RelativePath` (relative_path.dfy): the root selection of `getRelativePath`.
  `FirstPrefix` and `SelectBase` specify the choice of base. `GetRelativePath`
  is the source's `for` loop with its early return, proved equal to the
  specification function `RelativeTo`.
- `Commands` (commands.dfy): the handlers `copyWindowsPath` and
  `copyWindowsRelativePath` as pure functions. Each returns an `Outcome`:
  `Warn(message)` for a warning with nothing copied, or `Copy(text, status)` for
  a clipboard write followed by the status-bar message.

Inputs the extension reads from the host are parameters:

- `uri`: the `fsPath` of the file the command was invoked on, if any.
- `editor`: the `fsPath` of the active editor's document, if any.
- `roots`: the `fsPath`s of the workspace folders, in order. An undefined folder
  list and an empty one are both the empty sequence; the source treats them alike.
- `relative`: Node's `path.relative(from, to)`. It is a function-typed parameter
  with no assumed semantics; lemmas that need a value of it state that value as
  a precondition.

Behaviour the model keeps as the code has it:

- The prefix test is raw `startsWith`, not segment-aware.
- A given `uri` wins even when its path is empty. The handler then warns and
  does not fall back to the editor.
- A file equal to the root chosen as its base gets an empty relative path from
  `path.relative`. That path is falsy, so the handler reports "File is not in
  workspace". This holds only when that root is the first one that prefixes the
  file: with roots `/a` and `/a/b` in that order, the file `/a/b` has base `/a`
  and is copied as `b`.
- A file under no root is measured from the first root. When that relative
  path is non-empty it is copied with no warning. When it is empty, as
  `path.relative` gives for root `/ws/` and file `/ws`, the handler warns
  "File is not in workspace".

## Model

| member | source | states |
|---|---|---|
| `WindowsPath.ToWindowsPath` | src/extension.ts:7-10 | no contract of its own; characterised by `LengthPreserved`, `CharAt`, `PointwiseImage`, `NoForwardSlash` and `RoundTrip` |
| `RelativePath.StartsWith` | src/extension.ts:24 | no contract of its own; the raw prefix test, shown not segment-aware by `RawPrefixNotSegmentAware` |
| `Wrappers.Truthy` | src/extension.ts:50 | no contract of its own; JavaScript truthiness of the optional path (also lines 77 and 83), used by the handlers' contracts and `AbsoluteWarnsOnlyWithoutFile` |
| `Commands.SelectedFile` | src/extension.ts:37-48 | no contract of its own; the uri is preferred to the editor (also lines 64-75), as `UriTakesPriority` and `EmptyUriWarns` state |
| `Commands.Copied` | src/extension.ts:55-57 | no contract of its own; the clipboard text and the status `Copied: ` + text (also lines 88-90), as the handlers' contracts state |
| `WindowsPath.LengthPreserved` | src/extension.ts:7-10 | the Windows form has the same length as the input |
| `WindowsPath.CharAt` | src/extension.ts:9 | at every position a `/` becomes `\` and every other character is unchanged |
| `WindowsPath.PointwiseImage` | src/extension.ts:9 | the result equals the character-wise image of the input under the slash-to-backslash map |
| `WindowsPath.NoForwardSlash` | src/extension.ts:9 | the result contains no `/` |
| `WindowsPath.BackslashOrigin` | src/extension.ts:9 | a `\` in the result sits where the input had `/` or `\`, and only there |
| `WindowsPath.IdentityWithoutSlash` | src/extension.ts:9 | a path with no `/` is returned unchanged |
| `WindowsPath.FixedPointIff` | src/extension.ts:9 | a path is unchanged if and only if it contains no `/` |
| `WindowsPath.Idempotent` | src/extension.ts:9 | applying the conversion twice equals applying it once |
| `WindowsPath.Concat` | src/extension.ts:9 | the conversion of a concatenation is the concatenation of the conversions |
| `WindowsPath.RoundTrip` | src/extension.ts:9 | mapping `\` back to `/` recovers any input that had no `\` |
| `WindowsPath.NotInjective` | src/extension.ts:9 | `a/b` and `a\b` convert to the same string, so the conversion cannot be inverted |
| `RelativePath.FirstPrefix` | src/extension.ts:22-27 | the index found is of a root that prefixes the file, with no earlier root doing so; none is found exactly when no root prefixes the file |
| `RelativePath.SelectBase` | src/extension.ts:15-31 | there is no base exactly when there are no roots; a base is always one of the roots |
| `RelativePath.RelativeTo` | src/extension.ts:15-31 | none exactly when the root list is empty; otherwise `relative(root, file)` for some root |
| `RelativePath.GetRelativePath` | src/extension.ts:15-31 | the loop with its early return and its fallback returns what `RelativeTo` specifies |
| `RelativePath.FirstMatchIsBase` | src/extension.ts:22-26 | the first root in list order that prefixes the file is the base |
| `RelativePath.FallbackToFirstRoot` | src/extension.ts:29-30 | when no root prefixes the file, the first root is the base |
| `RelativePath.BaseIsPrefixOrFirst` | src/extension.ts:22-30 | the base prefixes the file, or no root does and the base is the first root |
| `RelativePath.RawPrefixNotSegmentAware` | src/extension.ts:24 | root `/a/b` is chosen for `/a/bc/x.txt`, even ahead of a later root `/a/bc` |
| `RelativePath.RelativeToResult` | src/extension.ts:15-31 | none without roots; `relative(roots[k], file)` for the first index `k` whose root prefixes the file; `relative(roots[0], file)` when no root does |
| `Commands.CopyWindowsPath` | src/extension.ts:36-58 | a non-empty uri path is copied in Windows form; without a uri the editor's non-empty path is; an empty uri path, or no uri with no editor or an empty editor path, warns "No file selected"; a copy has no `/` and status `Copied: ` + text |
| `Commands.CopyWindowsRelativePath` | src/extension.ts:63-91 | no selected file warns "No file selected"; no roots warns "File is not in workspace"; with a selected file and roots, an empty `relative(base, file)` for the selected base warns "File is not in workspace" and any other is copied in Windows form with status `Copied: ` + text; a copy has no `/` |
| `Commands.UriTakesPriority` | src/extension.ts:39-48 | with a uri given, the editor does not affect either handler's outcome |
| `Commands.EmptyUriWarns` | src/extension.ts:39-53 | a uri with an empty path warns "No file selected" in both handlers, whatever the editor |
| `Commands.SameNoFileCondition` | src/extension.ts:50-53 | the absolute handler warns "No file selected" exactly when the relative handler does |
| `Commands.AbsoluteWarnsOnlyWithoutFile` | src/extension.ts:50-57 | the absolute handler warns if and only if the selected path is absent or empty, and then with "No file selected" |
| `Commands.RelativeOutcomeFromBase` | src/extension.ts:82-90 | for a selected file, from the uri or the editor, whose first prefixing root is `roots[k]`: an empty `relative(roots[k], file)` warns "File is not in workspace", any other is copied in Windows form with status `Copied: ` + text |
| `Commands.FileEqualToRootWarns` | src/extension.ts:82-86 | a file equal to its only root, with `relative(root, root)` empty, warns "File is not in workspace" |
| `Commands.EarlierRootWinsOverEqualRoot` | src/extension.ts:22-26 | with roots `/a`, `/a/b`, the file `/a/b` is copied relative to `/a` (as `b` when `relative` gives `b`), not reported as outside the workspace |
| `Commands.OutsideFileUsesFirstRoot` | src/extension.ts:82-90 | a file under no root, whose relative path from the first root is non-empty, is copied relative to the first root with no warning |
| `Commands.RelativeCopyImpliesAbsoluteCopy` | src/extension.ts:63-91 | whenever the relative handler copies, the absolute handler copies too |
| `Commands.Examples` | src/extension.ts:82-90 | editor `/ws/a.txt` under root `/ws` copies `a.txt`; no uri and no editor warns; `a/b/c` is copied as `a\b\c` |

## Left out

- `activate`, `deactivate`, command registration and `context.subscriptions`
  (src/extension.ts:93-112): registry wiring with no logic.
- The host calls `clipboard.writeText`, `showWarningMessage` and
  `setStatusBarMessage`: the handlers return the `Outcome` they would cause
  instead of calling them.
- The reads of `activeTextEditor` and `workspaceFolders`: they are parameters.
- `async`/`await` and the one suspension point of the clipboard write: the
  model has no event loop.
- Node's `path.relative` and the `Uri.fsPath` conversion are library code.
  `relative` is a parameter with no assumed behaviour, and paths are already
  `fsPath` strings.
- The 3000 ms status-bar duration and the `console.log` line: timing and
  logging only.
- JavaScript strings are UTF-16 code-unit sequences; the model uses `seq<char>`,
  and `startsWith` is the sequence-prefix test on it.
