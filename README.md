# wit-docs-inject, modelled in Dafny

`wit-docs-inject` carries the documentation of a WIT package inside a WebAssembly
component. The injector (`src/main.rs`) re-encodes a component section by section
and appends one custom section named `package-docs`: one version byte, then the
documentation tree as JSON. The viewer (`src/bin/wit-docs-view.rs`) finds that
section again and can weave the documentation back into the WIT text of the
component as `///` comment lines.

This project models the logic of both programs that does not live in a library:

- `wrappers.dfy` — `Option` and `Result`.
- `text.dfy` (module `Text`) — the parts of Rust's `str` the scanner relies on:
  `char::is_whitespace` (the Unicode `White_Space` set), `trim`, `trim_start`,
  `split_whitespace`, `find` and `lines` (including its `"\r\n"` handling), and
  `Render`, the text a sequence of `push_str(line); push('\n')` pairs produces.
- `json.dfy` (module `Json`) — the part of `serde_json::Value` the viewer looks at:
  strings, objects, and every other kind of value lumped together; `get`,
  `as_object`, `as_str`.
- `wasm.dfy` (module `Wasm`) — a component as the stream of payloads that
  `wasmparser::Parser::parse_all` yields. Custom sections have a name and bytes.
  Every other payload is opaque, and so is a payload that fails to parse.
- `view.dfy` (module `WitDocsView`) — `extract_package_docs`, the world and
  function documentation lookup, `extract_world_name`, `extract_function_name`,
  `get_indent`, and `inject_docs_into_wit`.
- `inject.dfy` (module `WitDocsInject`) — the choice of output path, the
  re-encoding of the component with the appended section, and the order of the
  injector's steps.

`inject_docs_into_wit` is a two-state line scanner: at top level, or inside the body
of a named world. The method `InjectDocsIntoWit` keeps the source's outer loop. The
inner loop over a world body is the method `ScanWorldBody`, reached through
`ScanWorld`, which handles the `world` line itself. `InjectDocsIntoWit` is proved equal to `Render(InjectedLines(Lines(witText), docs))`. `InjectedLines` is
a pass of a generic state-machine scanner (`Run`) whose rule, `Injector(docs)`, says
which comment lines go before a line and what the next state is. The laws of the
scanner are proved for that function. Each output line is marked as `Inserted` or
`Copied`. This is how the model states that the scanner never edits or drops an
input line.

The JSON parser is a parameter `parse: seq<byte> -> Option<Value>`, and `None`
stands for a parse failure. The documentation payload is a parameter too. It is
built by `wit_parser`, which is not part of this model.

The model follows the code where its own comments suggest otherwise:

- A `package-docs` section of one byte or less is skipped. The search then goes on
  to later sections; it does not stop there.
- Function documentation is read from `functions` only when the world has no
  `func_exports` member at all. A `func_exports` member that lacks the name, or is
  not an object, gives no documentation, and `functions` is not tried.
- `func_imports` is never read, so `import` lines are looked up among the exports.
- A second injection appends a second `package-docs` section. The viewer still
  reads the first one.

One observation: the `.docs.injected.wasm` fallback of `src/main.rs:77-78` never
fires. The `<stem>.docs.wasm` candidate never equals the input path. An input
without an extension is renamed to `<stem>.wasm` before the stem is taken, and an
extension never contains the `.` of `docs.wasm`. `CandidateIsNotInput` proves this.

## Model

| member | source | states |
|---|---|---|
| `Text.IsWhitespace` | src/bin/wit-docs-view.rs:247 | `char::is_whitespace`: space, tab, `'\n'` and `'\r'` are whitespace; `}`, `:`, `/`, `.` and lower-case letters, which the scanner looks for, are not |
| `Text.StartsWith` | src/bin/wit-docs-view.rs:250 | `str::starts_with`: the text is the prefix followed by the rest of it |
| `Text.Trim` | src/bin/wit-docs-view.rs:247 | the result is a slice of the line that neither starts nor ends with whitespace, and only whitespace was cut off around it |
| `Text.TrimStart` | src/bin/wit-docs-view.rs:324 | the result is a suffix of the line, what was removed is all whitespace, and the result does not start with whitespace |
| `Text.SplitWhitespace` | src/bin/wit-docs-view.rs:303 | every token is non-empty and holds no whitespace |
| `Text.SplitWhitespaceCons` | src/bin/wit-docs-view.rs:303 | a word after leading whitespace and before whitespace or the end is the first token, and the tokens of the rest follow it |
| `Text.Find` | src/bin/wit-docs-view.rs:313 | `None` exactly when the character does not occur; otherwise the index of its first occurrence |
| `Text.Lines` | src/bin/wit-docs-view.rs:243 | no line holds a `'\n'` |
| `Text.LinesOfRender` | src/bin/wit-docs-view.rs:243 | splitting rendered lines gives them back, when no line holds `'\n'` or ends in `'\r'` |
| `Text.RenderOfLines` | src/bin/wit-docs-view.rs:243 | rendering the lines of a text gives back the text, ended by one `"\n"` if it had none, as long as no line ends in `"\r\n"` |
| `Text.Render` | src/bin/wit-docs-view.rs:260-261 | each line is pushed followed by `"\n"` (also lines 282-283 and 292-293): the output is empty exactly when there are no lines, and otherwise ends in `"\n"`; `LinesOfRender` splits it back |
| `Json.Get` | src/bin/wit-docs-view.rs:329 | `Value::get`: a member exists exactly when the value is an object holding the key, and it is that key's value |
| `Json.AsObject` | src/bin/wit-docs-view.rs:329 | `Value::as_object`: a map exactly for an object, and that object's map |
| `Json.AsStr` | src/bin/wit-docs-view.rs:333 | `Value::as_str`: a string exactly for a string value, and that string |
| `Wasm.Items` | src/main.rs:50-53 | the stream a parser yields for a sequence of sections parses completely and gives those sections back |
| `WitDocsView.DecodeDocs` | src/bin/wit-docs-view.rs:64-68 | the bytes after the version byte are parsed: success exactly when the parser accepts them, giving `Some` of the parsed value; a failure is the JSON error |
| `WitDocsView.PackageDocs` | src/bin/wit-docs-view.rs:57-74 | the WebAssembly error only with a malformed payload in the stream; no documentation only when every payload parses and none is a taken `package-docs` section |
| `WitDocsView.ExtractPackageDocs` | src/bin/wit-docs-view.rs:54-75 | the loop with its early returns computes the search `PackageDocs` over the payload stream |
| `WitDocsView.PackageDocsFirstSection` | src/bin/wit-docs-view.rs:57-69 | the first `package-docs` section longer than one byte decides the result: its bytes after the version byte are parsed, and a parse failure is an error, not a skip |
| `WitDocsView.PackageDocsAbsent` | src/bin/wit-docs-view.rs:57-74 | a stream that parses and holds no such section yields `Ok(None)` |
| `WitDocsView.PackageDocsMalformed` | src/bin/wit-docs-view.rs:57-58 | a payload that fails to parse before any taken section is an error |
| `WitDocsView.PackageDocsSkipsShort` | src/bin/wit-docs-view.rs:61-64 | a `package-docs` section of at most one byte can be removed without changing the result: it is skipped and the search goes on |
| `WitDocsView.OnlyKey` | src/bin/wit-docs-view.rs:338 | the key of a one-entry map is its only key |
| `WitDocsView.GetWorldDocs` | src/bin/wit-docs-view.rs:328-343 | the result is the `docs` string of the world the name resolves to (exact match, else the only world), and `None` when no world resolves |
| `WitDocsView.GetFunctionDocs` | src/bin/wit-docs-view.rs:345-360 | the result is the function's documentation inside the world the name resolves to, and `None` when no world resolves |
| `WitDocsView.GetFunctionDocsFromWorld` | src/bin/wit-docs-view.rs:362-371 | the table is `func_exports` whenever that member is present, whatever it holds; `functions` only when it is absent; nothing when both are absent |
| `WitDocsView.FunctionsAliasesFuncExports` | src/bin/wit-docs-view.rs:364-365 | a world that spells its table `functions` resolves every function as one that spells it `func_exports` |
| `WitDocsView.FuncImportsIgnored` | src/bin/wit-docs-view.rs:362-371 | adding or removing `func_imports` changes no lookup |
| `WitDocsView.UnresolvedHasNoDocs` | src/bin/wit-docs-view.rs:328-360 | with no `worlds` object, or with no exact match and not exactly one world, both lookups give `None` |
| `WitDocsView.SingleWorldFallback` | src/bin/wit-docs-view.rs:336-340 | in a tree with exactly one world, every name finds that world's world and function documentation |
| `WitDocsView.ExactMatchFirst` | src/bin/wit-docs-view.rs:331-334 | a world whose name matches exactly is used even when it has no `docs`; the fallback is not tried |
| `WitDocsView.ExtractWorldName` | src/bin/wit-docs-view.rs:301-309 | the name is `"unknown"` or a non-empty word without whitespace; with fewer than two tokens it is `"unknown"` |
| `WitDocsView.WorldNameOfHeader` | src/bin/wit-docs-view.rs:301-309 | for a line `world <name> {`, or any keyword, whitespace, name, then whitespace or the end, the name is the second token |
| `WitDocsView.ExtractFunctionName` | src/bin/wit-docs-view.rs:311-321 | no colon gives `None`; a name found is a non-empty word without whitespace |
| `WitDocsView.FunctionNameOfDeclaration` | src/bin/wit-docs-view.rs:311-321 | for `export <name>: ...`, with any whitespace before the colon, the function name is `<name>` |
| `WitDocsView.FunctionNameNeedsTwoTokens` | src/bin/wit-docs-view.rs:313-320 | fewer than two tokens before the first colon give `None` |
| `WitDocsView.GetIndent` | src/bin/wit-docs-view.rs:323-326 | the indent is all whitespace, and the indent followed by the line's `trim_start` is the line |
| `WitDocsView.CommentLines` | src/bin/wit-docs-view.rs:255-257 | one comment per line of the documentation, in order, each the indent, `/// ` and that line (also lines 275-277) |
| `WitDocsView.PushDocComments` | src/bin/wit-docs-view.rs:255-257 | the loop appends one `indent + "/// " + l` line per line `l` of the documentation, in order |
| `WitDocsView.PushWorldDocs` | src/bin/wit-docs-view.rs:254-258 | it appends the comments of the resolved world documentation, or nothing |
| `WitDocsView.PushFunctionDocs` | src/bin/wit-docs-view.rs:270-279 | it appends what the scanner's rule writes before a line inside a world body |
| `WitDocsView.ScanWorld` | src/bin/wit-docs-view.rs:250-290 | from a `world` line at top level, the output so far is extended to exactly what the scanner writes through the body; no line of the body before the last one read trims to `}`, and when lines remain the last one read is the first line that does, and the scan is back at top level |
| `WitDocsView.ScanWorldBody` | src/bin/wit-docs-view.rs:265-290 | the inner loop extends the output to exactly what the scanner writes; it stops right after the first line that trims to `}` (no earlier line read trims to `}`), or at the end of the text, and leaves the scan at top level if lines remain |
| `WitDocsView.BodyLine` | src/bin/wit-docs-view.rs:266-289 | one pass of the inner loop: the output grows by exactly the scanner's step for the line, and the pass reports whether the line trims to `}`, which is when the scan returns to top level |
| `WitDocsView.InjectDocsIntoWit` | src/bin/wit-docs-view.rs:241-299 | the loop over the lines (with `ScanWorld` at each `world` line) produces exactly the rendered output of the two-state scanner over the text's lines |
| `WitDocsView.CommentsBefore` | src/bin/wit-docs-view.rs:250-279 | the scanner writes nothing before a top-level line that is not a world line, nor before a body line that is not an `export`/`import` line; every comment written starts with `/// `, after the declaration's indent inside a body |
| `WitDocsView.NextScope` | src/bin/wit-docs-view.rs:250-289 | the scan is at top level after a line exactly when it was there and the line is not a world line, or it was in a body and the line trims to `}`; a world line opens the body of the world it names; other body lines keep the body open |
| `WitDocsView.InjectorAt` | src/bin/wit-docs-view.rs:250-289 | the rule of `inject_docs_into_wit` writes `CommentsBefore` before a line and moves to `NextScope` |
| `WitDocsView.TopLevelAdvance` | src/bin/wit-docs-view.rs:247-262 | at top level, a world line adds its world's comments and itself and opens that world's body; any other line is copied and the scanner stays at top level |
| `WitDocsView.BodyAdvance` | src/bin/wit-docs-view.rs:265-289 | inside a body, a line adds its function's comments and itself, and a line that trims to `}` returns to top level |
| `WitDocsView.RunKeepsLines` | src/bin/wit-docs-view.rs:260-261 | for any scanner rule, deleting the inserted lines from the output gives back the input |
| `WitDocsView.ScanKeepsLines` | src/bin/wit-docs-view.rs:282-283 | the injector never edits, drops or reorders an input line |
| `WitDocsView.NoWorldNoComments` | src/bin/wit-docs-view.rs:246-296 | without a `world ` line, the output lines are the input lines |
| `WitDocsView.NoWorldUnchanged` | src/bin/wit-docs-view.rs:292-293 | without a `world ` line, the text comes back unchanged, ended by `"\n"` if it was not already, when no line ends in `"\r\n"` |
| `WitDocsView.NoMatchingWorldUnchanged` | src/bin/wit-docs-view.rs:250-290 | with other than exactly one world, and no world line naming one of them, nothing is inserted anywhere |
| `WitDocsView.RunSilent` | src/bin/wit-docs-view.rs:246-296 | a pass that only visits states in which no line gets comments copies its input through |
| `WitDocsView.WorldDocsBefore` | src/bin/wit-docs-view.rs:250-262 | before a top-level world line whose documentation is `text`, the output holds `"/// " + l` for each line `l` of `text`, then the line, and the body is read in that world |
| `WitDocsView.FunctionDocsBefore` | src/bin/wit-docs-view.rs:270-284 | before an `export`/`import` line in a body whose function documentation is `text`, the output holds the comment lines after the line's own indentation, then the line |
| `WitDocsView.NothingBefore` | src/bin/wit-docs-view.rs:291-294 | nothing is inserted before a top-level line that is not a world line, an `export`/`import` line outside a world among them |
| `WitDocsView.BodyStaysOpen` | src/bin/wit-docs-view.rs:265-290 | until a line that trims to `}`, every line after a world line is read in that world, another `world ` line included |
| `WitDocsView.WorldBodyEnds` | src/bin/wit-docs-view.rs:286-289 | the first line that trims to `}` is still read in the body, and the scanner is at top level after it |
| `WitDocsView.DeclarationDoesNotClose` | src/bin/wit-docs-view.rs:270-288 | an `export`/`import` line never ends a world body |
| `WitDocsView.AppExample` | src/bin/wit-docs-view.rs:241-299 | for the world `app` documented `Top level.` with function `run` documented `Runs it.`, the lines gain `/// Top level.` and an indented `  /// Runs it.` |
| `WitDocsView.AppTextExample` | src/bin/wit-docs-view.rs:241-299 | the same example as text: the exact string the injector returns |
| `WitDocsInject.LastIndex` | src/main.rs:72-74 | `None` exactly when the character does not occur; otherwise the index of its last occurrence |
| `WitDocsInject.FinalComponent` | src/main.rs:72-75 | the final component is the longest suffix of the path without `/`: what precedes it, if anything, is a `/` |
| `WitDocsInject.DirPrefix` | src/main.rs:75 | the directory prefix followed by the final component is the path |
| `WitDocsInject.FileName` | src/main.rs:72-74 | `Path::file_name`: `None` exactly when the final component is empty, `.` or `..`; otherwise that component |
| `WitDocsInject.StemAndExtension` | src/main.rs:72-74 | a name cut at a dot is stem, `.`, then an extension without a dot; without an extension the stem is the whole name |
| `WitDocsInject.FileStem` | src/main.rs:74 | `Path::file_stem`: a stem exactly when there is a file name; it is non-empty, holds no `/`, and is the whole name or the part of it before a `.` |
| `WitDocsInject.Extension` | src/main.rs:72 | `Path::extension`: none without a file name; an extension holds no `.` or `/`, and stem, `.` and extension make the file name; without one the stem is the whole name |
| `WitDocsInject.SetExtension` | src/main.rs:73 | `PathBuf::set_extension`: without a stem the path is unchanged; with one, the directory is kept and the new name is the stem, followed by `.` and the extension when it is non-empty; a non-empty extension without `.` or `/` is then the extension read back, and the stem is unchanged |
| `WitDocsInject.WithExtension` | src/main.rs:72-73 | an input with a non-empty extension, or with no file name, is kept; otherwise its extension becomes `wasm`; the directory and the stem are kept either way |
| `WitDocsInject.Parent` | src/main.rs:75 | `Path::parent`: `None` exactly when the final component is empty; otherwise the directory prefix without its trailing `/`, or the prefix itself when it is empty or the root `/` |
| `WitDocsInject.ParentOrDot` | src/main.rs:75 | `.` when there is no parent; otherwise the parent, as `Parent` states |
| `WitDocsInject.StemOrEmpty` | src/main.rs:74 | the file stem, or the empty name without one; never holds `/` |
| `WitDocsInject.Join` | src/main.rs:76 | `Path::join`: an absolute name replaces the base; otherwise the name follows the base, with a `/` between them unless the base is empty or already ends in `/` |
| `WitDocsInject.ParentJoin` | src/main.rs:75-76 | a relative name joined to the parent of a path with a final component lands right behind the path's directory prefix |
| `WitDocsInject.JoinedName` | src/main.rs:76 | a name without `/` joined to any base is the final component of the result |
| `WitDocsInject.JoinInjective` | src/main.rs:76-78 | joined to one base, different relative names give different paths |
| `WitDocsInject.DefaultOutputPath` | src/main.rs:70-79 | the derived output path never equals the input path |
| `WitDocsInject.DefaultIsCandidate` | src/main.rs:76-79 | the derived output path is always `parent.join("<stem>.docs.wasm")` |
| `WitDocsInject.DefaultOutputLocation` | src/main.rs:70-79 | for an input with a file name, in a directory not written with a doubled final `/`, the output is the input's directory followed by `<stem>.docs.wasm`, where the stem is the input's own: setting a missing or empty extension to `wasm` does not change it |
| `WitDocsInject.CandidateIsNotInput` | src/main.rs:76-78 | the `<stem>.docs.wasm` candidate already differs from the input, so the fallback is never needed |
| `WitDocsInject.OutputPath` | src/main.rs:66-80 | `--inplace` writes over the input whatever `--out` says; otherwise `--out` is used as given; otherwise `parent.join("<stem>.docs.wasm")`, which is never the input and, for an input with a file name in a directory not written with a doubled final `/`, is `<stem>.docs.wasm` in the input's directory |
| `WitDocsInject.Component.constructor` | src/main.rs:46 | a new component has no sections |
| `WitDocsInject.Component.Section` | src/main.rs:61 | one section is added at the end and nothing else changes |
| `WitDocsInject.Component.ParseComponent` | src/main.rs:50-53 | a stream that parses is copied verbatim and in order; one that does not is an error and adds nothing |
| `WitDocsInject.Component.Finish` | src/main.rs:63 | the finished module is the sections written |
| `WitDocsInject.Assembled` | src/main.rs:46-63 | the output holds the input sections unchanged and in order, then exactly one `package-docs` section holding the payload |
| `WitDocsInject.ViewAfterInject` | src/main.rs:55-61 | with no earlier `package-docs` section longer than one byte, the viewer reads back the parse of the payload past its version byte, and a payload of at most one byte reads as no documentation |
| `WitDocsInject.ViewAfterInjectFindsEarlier` | src/main.rs:55-61 | with an earlier `package-docs` section longer than one byte, the viewer still reads that older section |
| `WitDocsInject.Inject` | src/main.rs:30-81 | a read, metadata or re-encoding failure returns that error and writes nothing; otherwise one write of the assembled module to the chosen path |

## Left out

- The binary WebAssembly format is not modelled. `wasmparser::Parser::parse_all`, `RoundtripReencoder`, `parse_component` and `Component::finish` are library code. A component is a stream of payloads, and byte-exact preservation is identity on that stream.
- `wit_parser` is not modelled: `Resolve::push_dir`, `PackageMetadata::extract` and `PackageMetadata::encode`. The payload and its failure are a parameter of `Inject`. The version byte and the JSON layout are written inside that library, so `decode(encode(tree)) == tree` is not stated.
- `serde_json::from_slice` is a parameter, `parse: seq<byte> -> Option<Value>`. Its result is used as given. Numbers, booleans, null and arrays are one opaque `Other` value, because the viewer never looks inside them.
- The `wasm-tools component wit` subprocess and the UTF-8 decoding of its output are not modelled (src/bin/wit-docs-view.rs:220-239). `InjectDocsIntoWit` takes the text it printed.
- Reading and writing files, `clap` argument parsing, `eprintln!`, `println!` and `std::process::exit` are left out. `Inject` returns the one write it would make.
- The viewer's `main` and its "no package-docs found" exit are not modelled (src/bin/wit-docs-view.rs:35-52). They only print the result of `extract_package_docs`.
- `display_docs`, `display_pretty` and `display_markdown` are stdout formatters over the extracted tree and are not modelled (src/bin/wit-docs-view.rs:77-218).
- Paths are a simplified `std::path`. They are strings cut at the last `/` and at the last `.` of the file name. Trailing `/`, repeated `/` and `.` components are not normalised. Path equality is string equality.
- WitDocsView.ExtractWorldName: its contract states the second-token rule for lines of the header shape only, through `WorldNameOfHeader`, not for every line.
- WitDocsView.ExtractFunctionName: its contract states the second-token rule for lines of the declaration shape only, through `FunctionNameOfDeclaration`, not for every line.
- WitDocsInject.DefaultOutputLocation: the output's location is stated only for an input with a file name whose directory prefix does not end in `//`. For an input without a file name (ending in `/`, `.` or `..`) only `DefaultIsCandidate` and `CandidateIsNotInput` apply.
- WitDocsInject.OutputPath: carries the same restriction as `DefaultOutputLocation` for the location of the default output.
