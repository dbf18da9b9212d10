/**
  The viewer (`wit-docs-view`): finding the `package-docs` payload in a component,
  resolving world and function documentation in the extracted tree, and weaving that
  documentation into the WIT text of the component as `///` comment lines.
*/
module WitDocsView {
  import opened Wrappers
  import opened Text
  import opened Json
  import opened Wasm

  // ---------------------------------------------------------------------------
  // Finding the documentation payload
  // ---------------------------------------------------------------------------

  datatype ViewError =
    | WasmParseError   // "Failed to parse WebAssembly"
    | JsonParseError   // "Failed to parse package-docs JSON"

  /** A custom section that is taken: named `package-docs` and longer than its version byte. */
  predicate IsDocsSection(p: Payload) {
    p.CustomSection? && p.name == PackageDocsName && |p.data| > 1
  }

  /** The chosen section's bytes after the version byte, parsed as JSON. */
  function DecodeDocs(data: seq<byte>, parse: seq<byte> -> Option<Value>): (r: Result<Option<Value>, ViewError>)
    requires |data| > 1
    ensures r.Ok? <==> parse(data[1..]).Some?
    ensures r.Ok? ==> r.value == Some(parse(data[1..]).value)
    ensures r.Err? ==> r.error == JsonParseError
  {
    match parse(data[1..])
    case None => Err(JsonParseError)
    case Some(v) => Ok(Some(v))
  }

  /**
    What the search over the payload stream yields: the first parse failure or the
    first taken section stops it; the end of the stream yields no documentation.
  */
  function PackageDocs(stream: seq<Parsed>, parse: seq<byte> -> Option<Value>): (r: Result<Option<Value>, ViewError>)
    ensures r == Err(WasmParseError) ==> Malformed in stream
    ensures r == Ok(None) ==> forall k :: 0 <= k < |stream| ==> stream[k].Item? && !IsDocsSection(stream[k].payload)
    decreases |stream|
  {
    if stream == [] then Ok(None)
    else match stream[0]
      case Malformed => Err(WasmParseError)
      case Item(p) => if IsDocsSection(p) then DecodeDocs(p.data, parse) else PackageDocs(stream[1..], parse)
  }

  /** `extract_package_docs`: a forward search with an early return. */
  method ExtractPackageDocs(stream: seq<Parsed>, parse: seq<byte> -> Option<Value>)
    returns (r: Result<Option<Value>, ViewError>)
    ensures r == PackageDocs(stream, parse)
  {
    for i := 0 to |stream|
      invariant PackageDocs(stream, parse) == PackageDocs(stream[i..], parse)
    {
      assert stream[i..][1..] == stream[i + 1..];
      match stream[i]
      case Malformed =>
        return Err(WasmParseError);
      case Item(p) =>
        if p.CustomSection? && p.name == PackageDocsName {
          var data := p.data;
          if |data| > 1 {
            var jsonData := data[1..];
            var docs := parse(jsonData);
            if docs.None? {
              return Err(JsonParseError);
            }
            return Ok(Some(docs.value));
          }
        }
    }
    return Ok(None);
  }

  /** The first taken section decides, whatever follows it. */
  lemma {:induction false} PackageDocsFirstSection(stream: seq<Parsed>, parse: seq<byte> -> Option<Value>, i: nat)
    requires i < |stream| && stream[i].Item? && IsDocsSection(stream[i].payload)
    requires forall j :: 0 <= j < i ==> stream[j].Item? && !IsDocsSection(stream[j].payload)
    ensures PackageDocs(stream, parse) == DecodeDocs(stream[i].payload.data, parse)
    decreases i
  {
    if i > 0 {
      PackageDocsFirstSection(stream[1..], parse, i - 1);
    }
  }

  /** A stream that parses and holds no taken section yields no documentation. */
  lemma {:induction false} PackageDocsAbsent(stream: seq<Parsed>, parse: seq<byte> -> Option<Value>)
    requires forall j :: 0 <= j < |stream| ==> stream[j].Item? && !IsDocsSection(stream[j].payload)
    ensures PackageDocs(stream, parse) == Ok(None)
    decreases |stream|
  {
    if stream != [] {
      PackageDocsAbsent(stream[1..], parse);
    }
  }

  /** A parse failure before any taken section is an error. */
  lemma {:induction false} PackageDocsMalformed(stream: seq<Parsed>, parse: seq<byte> -> Option<Value>, i: nat)
    requires i < |stream| && stream[i].Malformed?
    requires forall j :: 0 <= j < i ==> stream[j].Item? && !IsDocsSection(stream[j].payload)
    ensures PackageDocs(stream, parse) == Err(WasmParseError)
    decreases i
  {
    if i > 0 {
      PackageDocsMalformed(stream[1..], parse, i - 1);
    }
  }

  /** A `package-docs` section of at most one byte is skipped and the search goes on. */
  lemma {:induction false} PackageDocsSkipsShort(pre: seq<Parsed>, data: seq<byte>, post: seq<Parsed>,
                                                  parse: seq<byte> -> Option<Value>)
    requires |data| <= 1
    ensures PackageDocs(pre + [Item(CustomSection(PackageDocsName, data))] + post, parse)
         == PackageDocs(pre + post, parse)
    decreases |pre|
  {
    var s := Item(CustomSection(PackageDocsName, data));
    if pre == [] {
      assert [s] + post == pre + [s] + post;
      assert ([s] + post)[1..] == post;
      assert pre + post == post;
    } else {
      assert (pre + [s] + post)[0] == pre[0];
      assert (pre + [s] + post)[1..] == pre[1..] + [s] + post;
      assert (pre + post)[0] == pre[0];
      assert (pre + post)[1..] == pre[1..] + post;
      PackageDocsSkipsShort(pre[1..], data, post, parse);
    }
  }

  // ---------------------------------------------------------------------------
  // Resolving documentation in the extracted tree
  // ---------------------------------------------------------------------------

  /** `docs.get("worlds").and_then(|w| w.as_object())`. */
  function Worlds(docs: Value): Option<map<string, Value>> {
    ObjectMember(docs, "worlds")
  }

  /**
    The name-resolution policy, shared by world and function lookup: a world whose
    name matches exactly, or else the only world of the tree.
  */
  predicate Resolves(worlds: map<string, Value>, name: string, key: string) {
    key in worlds && (if name in worlds then key == name else worlds.Keys == {key})
  }

  lemma SingletonKeys(m: map<string, Value>, a: string, b: string)
    requires |m| == 1 && a in m && b in m
    ensures a == b
  {
    var rest := m.Keys - {a};
    assert m.Keys == rest + {a};
    assert |rest| == 0;
    assert b !in rest;
  }

  /** The key of a one-entry map: what `worlds.iter().next()` yields. */
  function OnlyKey(m: map<string, Value>): (k: string)
    requires |m| == 1
    ensures k in m && m.Keys == {k}
  {
    assert forall a, b :: a in m && b in m ==> a == b by {
      forall a, b | a in m && b in m ensures a == b { SingletonKeys(m, a, b); }
    }
    var k :| k in m;
    k
  }

  /** `get_world_docs`: the `docs` string of the world the name resolves to. */
  function GetWorldDocs(docs: Value, worldName: string): (r: Option<string>)
    ensures r.Some? ==> Worlds(docs).Some? && exists key :: Resolves(Worlds(docs).value, worldName, key)
    ensures Worlds(docs).Some? ==>
      forall key :: Resolves(Worlds(docs).value, worldName, key) ==> r == StrMember(Worlds(docs).value[key], "docs")
  {
    match Worlds(docs)
    case None => None
    case Some(worlds) =>
      if worldName in worlds then
        assert Resolves(worlds, worldName, worldName);
        StrMember(worlds[worldName], "docs")
      else if |worlds| == 1 then
        var only := OnlyKey(worlds);
        assert Resolves(worlds, worldName, only);
        StrMember(worlds[only], "docs")
      else None
  }

  /** `get_function_docs`: function documentation inside the world the name resolves to. */
  function GetFunctionDocs(docs: Value, worldName: string, funcName: string): (r: Option<string>)
    ensures r.Some? ==> Worlds(docs).Some? && exists key :: Resolves(Worlds(docs).value, worldName, key)
    ensures Worlds(docs).Some? ==>
      forall key :: Resolves(Worlds(docs).value, worldName, key) ==>
        r == GetFunctionDocsFromWorld(Worlds(docs).value[key], funcName)
  {
    match Worlds(docs)
    case None => None
    case Some(worlds) =>
      if worldName in worlds then
        assert Resolves(worlds, worldName, worldName);
        GetFunctionDocsFromWorld(worlds[worldName], funcName)
      else if |worlds| == 1 then
        var only := OnlyKey(worlds);
        assert Resolves(worlds, worldName, only);
        GetFunctionDocsFromWorld(worlds[only], funcName)
      else None
  }

  /** The `docs` string of entry `funcName` in a function table. */
  function DocsInTable(table: Value, funcName: string): Option<string> {
    match AsObject(table)
    case None => None
    case Some(functions) => if funcName in functions then StrMember(functions[funcName], "docs") else None
  }

  /**
    `get_function_docs_from_world`: the table is `func_exports` when that member is
    present (whatever it holds), and `functions` only when it is absent.
  */
  function GetFunctionDocsFromWorld(world: Value, funcName: string): (r: Option<string>)
    ensures Get(world, "func_exports").Some? ==> r == DocsInTable(Get(world, "func_exports").value, funcName)
    ensures Get(world, "func_exports").None? && Get(world, "functions").Some? ==>
      r == DocsInTable(Get(world, "functions").value, funcName)
    ensures Get(world, "func_exports").None? && Get(world, "functions").None? ==> r.None?
  {
    var funcs := match Get(world, "func_exports")
      case Some(t) => Some(t)
      case None => Get(world, "functions");
    match funcs
    case None => None
    case Some(t) =>
      match AsObject(t)
      case None => None
      case Some(functions) =>
        match Get(Object(functions), funcName)
        case None => None
        case Some(f) => StrMember(f, "docs")
  }

  /** A world that only spells its table `functions` resolves as if it said `func_exports`. */
  lemma FunctionsAliasesFuncExports(fields: map<string, Value>, table: Value, funcName: string)
    requires "func_exports" !in fields
    ensures GetFunctionDocsFromWorld(Object(fields["functions" := table]), funcName)
         == GetFunctionDocsFromWorld(Object((fields - {"functions"})["func_exports" := table]), funcName)
  {
  }

  /** `func_imports` is never consulted, so `import` lines are looked up among the exports. */
  lemma FuncImportsIgnored(fields: map<string, Value>, imports: Value, funcName: string)
    ensures GetFunctionDocsFromWorld(Object(fields["func_imports" := imports]), funcName)
         == GetFunctionDocsFromWorld(Object(fields - {"func_imports"}), funcName)
  {
  }

  /** A name resolves to no world: the tree has no `worlds` object, or no exact match and not exactly one world. */
  predicate Unresolved(docs: Value, name: string) {
    Worlds(docs).None? || (name !in Worlds(docs).value && |Worlds(docs).value| != 1)
  }

  /** An unresolved name yields neither world nor function documentation. */
  lemma UnresolvedHasNoDocs(docs: Value, name: string, funcName: string)
    requires Unresolved(docs, name)
    ensures GetWorldDocs(docs, name) == None && GetFunctionDocs(docs, name, funcName) == None
  {
  }

  /**
    The single-world fallback: in a tree with exactly one world, every name resolves
    to it, so its world and function documentation are found under any name.
  */
  lemma SingleWorldFallback(docs: Value, only: string, world: Value, name: string, funcName: string)
    requires Worlds(docs) == Some(map[only := world])
    ensures GetWorldDocs(docs, name) == StrMember(world, "docs")
    ensures GetFunctionDocs(docs, name, funcName) == GetFunctionDocsFromWorld(world, funcName)
  {
    var worlds := map[only := world];
    assert worlds.Keys == {only};
    assert Resolves(worlds, name, only);
  }

  /**
    An exact match wins even when that world has no `docs` string: the fallback to
    the only world is never tried for a name the tree holds.
  */
  lemma ExactMatchFirst(docs: Value, name: string, funcName: string)
    requires Worlds(docs).Some? && name in Worlds(docs).value
    ensures GetWorldDocs(docs, name) == StrMember(Worlds(docs).value[name], "docs")
    ensures GetFunctionDocs(docs, name, funcName) == GetFunctionDocsFromWorld(Worlds(docs).value[name], funcName)
  {
    assert Resolves(Worlds(docs).value, name, name);
  }

  // ---------------------------------------------------------------------------
  // Recognising declarations in the WIT text
  // ---------------------------------------------------------------------------

  /** `extract_world_name`: the second whitespace-separated token, or `"unknown"`. */
  function ExtractWorldName(line: string): (r: string)
    ensures r == "unknown" || (r != [] && NoWhitespace(r))
    ensures |SplitWhitespace(line)| < 2 ==> r == "unknown"
  {
    var parts := SplitWhitespace(line);
    if |parts| >= 2 then parts[1] else "unknown"
  }

  /**
    For a header `kw sep name rest` (a keyword, whitespace, a name, then the end or
    whitespace), the name is the world name.
  */
  lemma WorldNameOfHeader(kw: string, sep: string, name: string, rest: string)
    requires kw != [] && NoWhitespace(kw) && sep != [] && AllWhitespace(sep)
    requires name != [] && NoWhitespace(name) && (rest == [] || IsWhitespace(rest[0]))
    ensures ExtractWorldName(kw + sep + name + rest) == name
  {
    assert kw + sep + name + rest == kw + (sep + name + rest);
    TokenBeforeSeparator(kw, sep + name + rest);
    SplitWhitespaceCons(sep, name, rest);
  }

  /**
    `extract_function_name`: the second whitespace-separated token of the text before
    the first `':'`; nothing when there is no colon or fewer than two tokens.
  */
  function ExtractFunctionName(line: string): (r: Option<string>)
    ensures ':' !in line ==> r.None?
    ensures r.Some? ==> r.value != [] && NoWhitespace(r.value)
  {
    match Find(line, ':')
    case None => None
    case Some(colon) =>
      var parts := SplitWhitespace(line[..colon]);
      if |parts| >= 2 then Some(parts[1]) else None
  }

  /** For `kw sep name sep2 ":" rest`, the function name is `name`. */
  lemma FunctionNameOfDeclaration(kw: string, sep: string, name: string, sep2: string, rest: string)
    requires kw != [] && NoWhitespace(kw) && ':' !in kw
    requires sep != [] && AllWhitespace(sep) && AllWhitespace(sep2)
    requires name != [] && NoWhitespace(name) && ':' !in name
    ensures ExtractFunctionName(kw + sep + name + sep2 + ":" + rest) == Some(name)
  {
    var head := kw + sep + name + sep2;
    var line := head + (":" + rest);
    assert kw + sep + name + sep2 + ":" + rest == line;
    NoColonInDeclarationHead(kw, sep, name, sep2);
    FindAfterPrefix(head, ":" + rest, ':');
    assert line[..|head|] == head;
    TwoTokens(kw, sep, name, sep2);
  }

  lemma NoColonInDeclarationHead(kw: string, sep: string, name: string, sep2: string)
    requires ':' !in kw && ':' !in name && AllWhitespace(sep) && AllWhitespace(sep2)
    ensures ':' !in kw + sep + name + sep2
  {
    assert !IsWhitespace(':');
    assert ':' !in sep;
    assert ':' !in sep2;
  }

  lemma TwoTokens(kw: string, sep: string, name: string, sep2: string)
    requires kw != [] && NoWhitespace(kw) && sep != [] && AllWhitespace(sep)
    requires name != [] && NoWhitespace(name) && AllWhitespace(sep2)
    ensures SplitWhitespace(kw + sep + name + sep2) == [kw, name]
  {
    BlankLedFirst(sep, name + sep2);
    ConcatAssoc4(kw, sep, name, sep2);
    TokenBeforeSeparator(kw, sep + name + sep2);
    LoneToken(sep, name, sep2);
  }

  // Two small facts about concatenation, kept apart so that the proofs above stay cheap.

  /** A text that starts with whitespace starts with whitespace after anything is appended. */
  lemma BlankLedFirst(sep: string, rest: string)
    requires sep != [] && AllWhitespace(sep)
    ensures (sep + rest)[0] == sep[0] && IsWhitespace((sep + rest)[0])
  {
  }

  /** Concatenation of four texts, regrouped. */
  lemma ConcatAssoc4(a: string, b: string, c: string, d: string)
    ensures a + b + c + d == a + (b + c + d) && b + (c + d) == b + c + d
  {
  }

  lemma TokenBeforeSeparator(kw: string, tail: string)
    requires kw != [] && NoWhitespace(kw) && tail != [] && IsWhitespace(tail[0])
    ensures SplitWhitespace(kw + tail) == [kw] + SplitWhitespace(tail)
  {
    assert kw + tail == [] + kw + tail;
    SplitWhitespaceCons([], kw, tail);
  }

  lemma LoneToken(sep: string, name: string, sep2: string)
    requires AllWhitespace(sep) && name != [] && NoWhitespace(name) && AllWhitespace(sep2)
    ensures SplitWhitespace(sep + name + sep2) == [name]
  {
    assert sep2 == [] || IsWhitespace(sep2[0]);
    SplitWhitespaceCons(sep, name, sep2);
    SplitWhitespaceOfBlank(sep2);
  }

  /** No colon, or fewer than two tokens before it: no function name. */
  lemma FunctionNameNeedsTwoTokens(line: string, colon: nat)
    requires Find(line, ':') == Some(colon) && |SplitWhitespace(line[..colon])| < 2
    ensures ExtractFunctionName(line).None?
  {
  }

  /** `get_indent`: the leading whitespace of the line. */
  function GetIndent(line: string): (r: string)
    ensures r + TrimStart(line) == line
    ensures AllWhitespace(r)
  {
    var trimmedLen := |TrimStart(line)|;
    line[..|line| - trimmedLen]
  }

  // ---------------------------------------------------------------------------
  // The injection scanner, `inject_docs_into_wit`
  // ---------------------------------------------------------------------------

  /** The scanner's two states: top level, or inside the body of the named world. */
  datatype Scope = TopLevel | InWorld(name: string)

  /** An output line: a documentation comment the scanner added, or a line of the input. */
  datatype Emitted = Inserted(text: string) | Copied(text: string)

  predicate IsWorldHeader(line: string) {
    StartsWith(Trim(line), "world ")
  }

  predicate IsFunctionDeclaration(line: string) {
    StartsWith(Trim(line), "export ") || StartsWith(Trim(line), "import ")
  }

  /** `format!("{indent}/// {doc_line}")` for each line of a documentation text. */
  function CommentLines(indent: string, text: string): (r: seq<string>)
    ensures |r| == |Lines(text)|
    ensures forall k :: 0 <= k < |r| ==> r[k] == indent + "/// " + Lines(text)[k]
  {
    seq(|Lines(text)|, k requires 0 <= k < |Lines(text)| => indent + "/// " + Lines(text)[k])
  }

  function CommentsFor(indent: string, docs: Option<string>): seq<string> {
    match docs
    case None => []
    case Some(text) => CommentLines(indent, text)
  }

  /** The comment lines the scanner writes before `line`, in the given state. */
  function CommentsBefore(docs: Value, scope: Scope, line: string): (r: seq<string>)
    ensures scope.TopLevel? && !IsWorldHeader(line) ==> r == []
    ensures scope.InWorld? && !IsFunctionDeclaration(line) ==> r == []
    ensures scope.TopLevel? ==> forall k :: 0 <= k < |r| ==> StartsWith(r[k], "/// ")
    ensures scope.InWorld? ==> forall k :: 0 <= k < |r| ==> StartsWith(r[k], GetIndent(line) + "/// ")
  {
    match scope
    case TopLevel =>
      if IsWorldHeader(line) then CommentsFor("", GetWorldDocs(docs, ExtractWorldName(Trim(line)))) else []
    case InWorld(world) =>
      if IsFunctionDeclaration(line) then
        match ExtractFunctionName(Trim(line))
        case None => []
        case Some(f) => CommentsFor(GetIndent(line), GetFunctionDocs(docs, world, f))
      else []
  }

  /** A line that trims to `}` ends the body of a world. */
  predicate ClosesBody(line: string) {
    Trim(line) == "}"
  }

  /** The state after `line`: a world header opens a body; a `}` line closes it. */
  function NextScope(scope: Scope, line: string): (r: Scope)
    ensures r.TopLevel? <==> (scope.TopLevel? && !IsWorldHeader(line)) || (scope.InWorld? && ClosesBody(line))
    ensures scope.InWorld? && !ClosesBody(line) ==> r == scope
    ensures scope.TopLevel? && IsWorldHeader(line) ==> r == InWorld(ExtractWorldName(Trim(line)))
  {
    match scope
    case TopLevel => if IsWorldHeader(line) then InWorld(ExtractWorldName(Trim(line))) else TopLevel
    case InWorld(_) => if ClosesBody(line) then TopLevel else scope
  }

  /** What the scanner does at one line: the comments it writes before it, and its next state. */
  datatype Action = Action(comments: seq<string>, next: Scope)

  /**
    A line scanner with a state, given by what it does at each line in each state.
    The laws of the pass below hold for any rule; `Injector` is the one of
    `inject_docs_into_wit`.
  */
  type Rule = (Scope, string) -> Action

  /** The rule of `inject_docs_into_wit`. */
  function Injector(docs: Value): Rule {
    (scope, line) => Action(CommentsBefore(docs, scope, line), NextScope(scope, line))
  }

  lemma InjectorAt(docs: Value, scope: Scope, line: string)
    ensures Injector(docs)(scope, line) == Action(CommentsBefore(docs, scope, line), NextScope(scope, line))
  {
  }

  function AsInserted(comments: seq<string>): (r: seq<Emitted>)
    ensures |r| == |comments| && forall k :: 0 <= k < |r| ==> r[k] == Inserted(comments[k])
  {
    seq(|comments|, k requires 0 <= k < |comments| => Inserted(comments[k]))
  }

  /** The output of a pass of `rule` over `lines`, started in `scope`. */
  function Run(rule: Rule, lines: seq<string>, scope: Scope): seq<Emitted>
    decreases |lines|
  {
    if lines == [] then []
    else
      var act := rule(scope, lines[0]);
      AsInserted(act.comments) + [Copied(lines[0])] + Run(rule, lines[1..], act.next)
  }

  /** The state a pass of `rule` is in after the given lines. */
  function StateAfter(rule: Rule, scope: Scope, lines: seq<string>): Scope
    decreases |lines|
  {
    if lines == [] then scope else StateAfter(rule, rule(scope, lines[0]).next, lines[1..])
  }

  /** The state in which a pass of `rule` from the top level reads line `i`. */
  function StateAt(rule: Rule, lines: seq<string>, i: nat): Scope
    requires i <= |lines|
  {
    StateAfter(rule, TopLevel, lines[..i])
  }

  /** A pass over a concatenation: the second part is read in the state the first leaves. */
  lemma {:induction false} RunAppend(rule: Rule, a: seq<string>, b: seq<string>, scope: Scope)
    ensures Run(rule, a + b, scope) == Run(rule, a, scope) + Run(rule, b, StateAfter(rule, scope, a))
    decreases |a|
  {
    if a == [] {
      assert a + b == b;
    } else {
      var act := rule(scope, a[0]);
      var c := AsInserted(act.comments) + [Copied(a[0])];
      var s := StateAfter(rule, act.next, a[1..]);
      assert (a + b)[0] == a[0];
      assert (a + b)[1..] == a[1..] + b;
      assert Run(rule, a + b, scope) == c + Run(rule, a[1..] + b, act.next);
      RunAppend(rule, a[1..], b, act.next);
      ConcatAssoc(c, Run(rule, a[1..], act.next), Run(rule, b, s));
    }
  }

  /** Concatenation regrouped; longer chains need this step spelt out. */
  lemma ConcatAssoc<T>(x: seq<T>, y: seq<T>, z: seq<T>)
    ensures x + (y + z) == x + y + z
  {
  }

  lemma {:induction false} StateAfterAppend(rule: Rule, a: seq<string>, b: seq<string>, scope: Scope)
    ensures StateAfter(rule, scope, a + b) == StateAfter(rule, StateAfter(rule, scope, a), b)
    decreases |a|
  {
    if a == [] {
      assert a + b == b;
    } else {
      assert (a + b)[0] == a[0];
      assert (a + b)[1..] == a[1..] + b;
      StateAfterAppend(rule, a[1..], b, rule(scope, a[0]).next);
    }
  }

  function Texts(out: seq<Emitted>): (r: seq<string>)
    ensures |r| == |out| && forall k :: 0 <= k < |r| ==> r[k] == out[k].text
  {
    seq(|out|, k requires 0 <= k < |out| => out[k].text)
  }

  /** The output with the inserted comments deleted. */
  function Originals(out: seq<Emitted>): seq<string>
    decreases |out|
  {
    if out == [] then []
    else (if out[0].Copied? then [out[0].text] else []) + Originals(out[1..])
  }

  /** What a pass of `rule` from the top level has written after the first `i` lines. */
  ghost function Written(rule: Rule, lines: seq<string>, i: nat): string
    requires i <= |lines|
  {
    Render(Texts(Run(rule, lines[..i], TopLevel)))
  }

  /** One step of a pass: line `i` adds its comments and itself, and moves the state on. */
  lemma Advance(rule: Rule, lines: seq<string>, i: nat)
    requires i < |lines|
    ensures Written(rule, lines, i + 1)
         == Written(rule, lines, i) + Render(rule(StateAt(rule, lines, i), lines[i]).comments) + lines[i] + "\n"
    ensures StateAt(rule, lines, i + 1) == rule(StateAt(rule, lines, i), lines[i]).next
  {
    var pre, line, scope := lines[..i], lines[i], StateAt(rule, lines, i);
    assert lines[..i + 1] == pre + [line];
    RunAppend(rule, pre, [line], TopLevel);
    StateAfterAppend(rule, pre, [line], TopLevel);
    var c := rule(scope, line).comments;
    assert [line][1..] == [];
    assert Run(rule, [line], scope) == AsInserted(c) + [Copied(line)];
    var t := Texts(Run(rule, pre, TopLevel));
    assert Texts(Run(rule, pre + [line], TopLevel)) == t + c + [line];
    RenderAppend(t + c, [line]);
    RenderAppend(t, c);
    assert Render([line]) == line + "\n";
  }

  /** The output of `inject_docs_into_wit`'s scanner, from the given state, over the remaining lines. */
  function Scan(lines: seq<string>, docs: Value, scope: Scope): seq<Emitted> {
    Run(Injector(docs), lines, scope)
  }

  /** The annotated lines for a WIT rendering split into `lines`. */
  function InjectedLines(lines: seq<string>, docs: Value): seq<string> {
    Texts(Scan(lines, docs, TopLevel))
  }

  lemma RenderSnocAssoc(prefix: string, ls: seq<string>, k: nat)
    requires k < |ls|
    ensures prefix + Render(ls[..k + 1]) == prefix + Render(ls[..k]) + (ls[k] + "\n")
  {
    assert ls[..k + 1] == ls[..k] + [ls[k]];
    RenderAppend(ls[..k], [ls[k]]);
    assert Render([ls[k]]) == ls[k] + "\n";
  }

  lemma BodyStep(docs: Value, world: string, line: string)
    ensures NextScope(InWorld(world), line) == if Trim(line) == "}" then TopLevel else InWorld(world)
    ensures !IsFunctionDeclaration(line) || ExtractFunctionName(Trim(line)).None? ==>
      CommentsBefore(docs, InWorld(world), line) == []
    ensures IsFunctionDeclaration(line) && ExtractFunctionName(Trim(line)).Some? ==>
      CommentsBefore(docs, InWorld(world), line)
      == CommentsFor(GetIndent(line), GetFunctionDocs(docs, world, ExtractFunctionName(Trim(line)).value))
  {
  }

  /**
    The two `for doc_line in docs.lines()` loops of `inject_docs_into_wit`: one
    comment line per documentation line, after `indent` (empty for a world).
  */
  method PushDocComments(result: string, indent: string, text: string) returns (r: string)
    ensures r == result + Render(CommentLines(indent, text))
  {
    r := result;
    var docLines := Lines(text);
    ghost var comments := CommentLines(indent, text);
    for k := 0 to |docLines|
      invariant r == result + Render(comments[..k])
    {
      RenderSnocAssoc(result, comments, k);
      r := r + (indent + "/// " + docLines[k] + "\n");
    }
    assert comments[..|docLines|] == comments;
  }

  /**
    The part of the world-body loop of `inject_docs_into_wit` that writes the
    comments before an `export`/`import` line whose function has documentation.
  */
  method PushFunctionDocs(result: string, docs: Value, world: string, line: string) returns (r: string)
    ensures r == result + Render(CommentsBefore(docs, InWorld(world), line))
  {
    r := result;
    assert result + Render([]) == result;
    var trimmed := Trim(line);
    BodyStep(docs, world, line);
    if StartsWith(trimmed, "export ") || StartsWith(trimmed, "import ") {
      var funcName := ExtractFunctionName(trimmed);
      if funcName.Some? {
        var funcDocs := GetFunctionDocs(docs, world, funcName.value);
        if funcDocs.Some? {
          var indent := GetIndent(line);
          r := PushDocComments(r, indent, funcDocs.value);
        }
      }
    }
  }

  /** A step of `inject_docs_into_wit` at a top-level line. */
  lemma TopLevelAdvance(docs: Value, lines: seq<string>, i: nat)
    requires i < |lines| && StateAt(Injector(docs), lines, i) == TopLevel
    ensures IsWorldHeader(lines[i]) ==>
      Written(Injector(docs), lines, i + 1) == Written(Injector(docs), lines, i)
        + Render(CommentsFor("", GetWorldDocs(docs, ExtractWorldName(Trim(lines[i]))))) + lines[i] + "\n"
    ensures IsWorldHeader(lines[i]) ==>
      StateAt(Injector(docs), lines, i + 1) == InWorld(ExtractWorldName(Trim(lines[i])))
    ensures !IsWorldHeader(lines[i]) ==>
      Written(Injector(docs), lines, i + 1) == Written(Injector(docs), lines, i) + lines[i] + "\n"
    ensures !IsWorldHeader(lines[i]) ==> StateAt(Injector(docs), lines, i + 1) == TopLevel
  {
    Advance(Injector(docs), lines, i);
    InjectorAt(docs, TopLevel, lines[i]);
    if !IsWorldHeader(lines[i]) {
      assert Written(Injector(docs), lines, i) + Render([]) == Written(Injector(docs), lines, i);
    }
  }

  /** A step of `inject_docs_into_wit` at a line inside the body of `world`. */
  lemma BodyAdvance(docs: Value, world: string, lines: seq<string>, i: nat)
    requires i < |lines| && StateAt(Injector(docs), lines, i) == InWorld(world)
    ensures Written(Injector(docs), lines, i + 1)
         == Written(Injector(docs), lines, i) + Render(CommentsBefore(docs, InWorld(world), lines[i])) + lines[i] + "\n"
    ensures StateAt(Injector(docs), lines, i + 1) == if ClosesBody(lines[i]) then TopLevel else InWorld(world)
  {
    Advance(Injector(docs), lines, i);
    InjectorAt(docs, InWorld(world), lines[i]);
  }

  /** The comments `inject_docs_into_wit` writes before the header of a documented world. */
  method PushWorldDocs(result: string, docs: Value, worldName: string) returns (r: string)
    ensures r == result + Render(CommentsFor("", GetWorldDocs(docs, worldName)))
  {
    r := result;
    var worldDocs := GetWorldDocs(docs, worldName);
    if worldDocs.Some? {
      r := PushDocComments(r, "", worldDocs.value);
    } else {
      assert r == result + [];
    }
  }

  /** No line from `from` up to, not including, `to` trims to `}`. */
  predicate OpenBetween(lines: seq<string>, from: nat, to: int) {
    forall k :: from <= k < to && k < |lines| ==> !ClosesBody(lines[k])
  }

  /** A line that does not close extends the run of open lines by one. */
  lemma OpenStep(lines: seq<string>, from: nat, i: nat)
    requires OpenBetween(lines, from, i - 1)
    requires from < i <= |lines| ==> !ClosesBody(lines[i - 1])
    ensures OpenBetween(lines, from, i)
  {
  }

  /**
    The world-body loop of `inject_docs_into_wit`: from line `i`, read inside
    `worldName`, it copies lines and writes function comments up to and including
    the first line that trims to `}`, or to the end of the text.
  */
  method ScanWorldBody(lines: seq<string>, docs: Value, worldName: string, start: nat, written: string)
    returns (i: nat, result: string)
    requires start <= |lines| && StateAt(Injector(docs), lines, start) == InWorld(worldName)
    requires written == Written(Injector(docs), lines, start)
    ensures start <= i <= |lines| && result == Written(Injector(docs), lines, i)
    ensures i < |lines| ==> StateAt(Injector(docs), lines, i) == TopLevel
    ensures OpenBetween(lines, start, i - 1)
    ensures i < |lines| ==> i > start && ClosesBody(lines[i - 1])
  {
    i, result := start, written;
    var closed := false;
    ghost var last: int := start - 1;
    while i < |lines| && !closed
      invariant start <= i <= |lines| && last == i - 1
      invariant closed ==> i > start && ClosesBody(lines[last])
      invariant !closed && i > start ==> !ClosesBody(lines[last])
      invariant OpenBetween(lines, start, last)
      invariant StateAt(Injector(docs), lines, i) == if closed then TopLevel else InWorld(worldName)
      invariant result == Written(Injector(docs), lines, i)
    {
      OpenStep(lines, start, i);
      closed, result := BodyLine(lines, docs, worldName, i, result);
      last := i;
      i := i + 1;
    }
    if i < |lines| {
      assert closed && last == i - 1;
      assert ClosesBody(lines[i - 1]);
    }
  }

  /** One pass of the world-body loop: the line's function comments, the line, and whether it closed the body. */
  method BodyLine(lines: seq<string>, docs: Value, worldName: string, i: nat, written: string)
    returns (closed: bool, result: string)
    requires i < |lines| && StateAt(Injector(docs), lines, i) == InWorld(worldName)
    requires written == Written(Injector(docs), lines, i)
    ensures closed == ClosesBody(lines[i])
    ensures result == Written(Injector(docs), lines, i + 1)
    ensures StateAt(Injector(docs), lines, i + 1) == if closed then TopLevel else InWorld(worldName)
  {
    BodyAdvance(docs, worldName, lines, i);
    var currentLine := lines[i];
    closed := ClosesBody(currentLine);
    result := PushFunctionDocs(written, docs, worldName, currentLine);
    result := result + currentLine + "\n";
  }

  /**
    The world branch of `inject_docs_into_wit`: the world's comments, its header
    line, then its body.
  */
  method ScanWorld(lines: seq<string>, docs: Value, start: nat, written: string) returns (i: nat, result: string)
    requires start < |lines| && StateAt(Injector(docs), lines, start) == TopLevel && IsWorldHeader(lines[start])
    requires written == Written(Injector(docs), lines, start)
    ensures start < i <= |lines| && result == Written(Injector(docs), lines, i)
    ensures i < |lines| ==> StateAt(Injector(docs), lines, i) == TopLevel
    ensures OpenBetween(lines, start + 1, i - 1)
    ensures i < |lines| ==> i > start + 1 && ClosesBody(lines[i - 1])
  {
    TopLevelAdvance(docs, lines, start);
    var worldName := ExtractWorldName(Trim(lines[start]));
    result := PushWorldDocs(written, docs, worldName);
    result := result + lines[start] + "\n";
    i, result := ScanWorldBody(lines, docs, worldName, start + 1, result);
  }

  /** `inject_docs_into_wit`, over the text `wasm-tools component wit` printed. */
  method InjectDocsIntoWit(witText: string, docs: Value) returns (result: string)
    ensures result == Render(InjectedLines(Lines(witText), docs))
  {
    result := "";
    var lines := Lines(witText);
    var i := 0;
    while i < |lines|
      invariant i <= |lines|
      invariant i < |lines| ==> StateAt(Injector(docs), lines, i) == TopLevel
      invariant result == Written(Injector(docs), lines, i)
    {
      var line := Trim(lines[i]);
      if StartsWith(line, "world ") {
        i, result := ScanWorld(lines, docs, i, result);
      } else {
        TopLevelAdvance(docs, lines, i);
        result := result + lines[i] + "\n";
        i := i + 1;
      }
    }
    assert lines[..i] == lines;
  }

  // ---------------------------------------------------------------------------
  // Laws of the scanner
  // ---------------------------------------------------------------------------

  lemma {:induction false} OriginalsAppend(a: seq<Emitted>, b: seq<Emitted>)
    ensures Originals(a + b) == Originals(a) + Originals(b)
    decreases |a|
  {
    if a == [] {
      assert a + b == b;
    } else {
      assert (a + b)[0] == a[0];
      assert (a + b)[1..] == a[1..] + b;
      OriginalsAppend(a[1..], b);
    }
  }

  lemma {:induction false} OriginalsOfInserted(comments: seq<string>)
    ensures Originals(AsInserted(comments)) == []
    decreases |comments|
  {
    if comments != [] {
      assert AsInserted(comments)[1..] == AsInserted(comments[1..]);
      OriginalsOfInserted(comments[1..]);
    }
  }

  /** Deleting the inserted lines from a pass of any rule gives back its input. */
  lemma {:induction false} RunKeepsLines(rule: Rule, lines: seq<string>, scope: Scope)
    ensures Originals(Run(rule, lines, scope)) == lines
    decreases |lines|
  {
    if lines != [] {
      var act := rule(scope, lines[0]);
      var ins, rest := AsInserted(act.comments), Run(rule, lines[1..], act.next);
      OriginalsAppend(ins + [Copied(lines[0])], rest);
      OriginalsAppend(ins, [Copied(lines[0])]);
      OriginalsOfInserted(act.comments);
      assert Originals([Copied(lines[0])]) == [lines[0]];
      RunKeepsLines(rule, lines[1..], act.next);
      assert lines == [lines[0]] + lines[1..];
    }
  }

  /**
    `inject_docs_into_wit` never edits, drops or reorders an input line: without the
    comment lines it inserted, its output is its input.
  */
  lemma ScanKeepsLines(lines: seq<string>, docs: Value)
    ensures Originals(Scan(lines, docs, TopLevel)) == lines
  {
    RunKeepsLines(Injector(docs), lines, TopLevel);
  }

  lemma TextsAppend(a: seq<Emitted>, b: seq<Emitted>)
    ensures Texts(a + b) == Texts(a) + Texts(b)
  {
    assert forall k :: 0 <= k < |a + b| ==> Texts(a + b)[k] == (Texts(a) + Texts(b))[k];
  }

  lemma TextsOfInserted(comments: seq<string>)
    ensures Texts(AsInserted(comments)) == comments
  {
  }

  /** A pass that writes nothing and stays in its state copies its input through. */
  lemma {:induction false} RunQuiet(rule: Rule, lines: seq<string>, scope: Scope)
    requires forall k :: 0 <= k < |lines| ==> rule(scope, lines[k]) == Action([], scope)
    ensures Texts(Run(rule, lines, scope)) == lines
    decreases |lines|
  {
    if lines != [] {
      var rest := Run(rule, lines[1..], scope);
      assert Run(rule, lines, scope) == AsInserted([]) + [Copied(lines[0])] + rest;
      assert AsInserted([]) + [Copied(lines[0])] + rest == [Copied(lines[0])] + rest;
      TextsAppend([Copied(lines[0])], rest);
      RunQuiet(rule, lines[1..], scope);
      assert lines == [lines[0]] + lines[1..];
    }
  }

  /** Without a `world ` line, nothing is inserted: the output lines are the input lines. */
  lemma NoWorldNoComments(lines: seq<string>, docs: Value)
    requires forall k :: 0 <= k < |lines| ==> !IsWorldHeader(lines[k])
    ensures InjectedLines(lines, docs) == lines
  {
    forall k | 0 <= k < |lines| ensures Injector(docs)(TopLevel, lines[k]) == Action([], TopLevel) {
      InjectorAt(docs, TopLevel, lines[k]);
    }
    RunQuiet(Injector(docs), lines, TopLevel);
  }

  /**
    Without a `world ` line, the text comes back unchanged, ended by a `"\n"` if it
    was not already, when no line ends in `"\r\n"`.
  */
  lemma NoWorldUnchanged(witText: string, docs: Value)
    requires NoCrLf(witText)
    requires forall k :: 0 <= k < |Lines(witText)| ==> !IsWorldHeader(Lines(witText)[k])
    ensures Render(InjectedLines(Lines(witText), docs)) == Terminated(witText)
  {
    NoWorldNoComments(Lines(witText), docs);
    RenderOfLines(witText);
  }

  /** In a state whose world does not resolve, a line gets no comments, and the next state does not resolve either. */
  lemma SilentStep(docs: Value, scope: Scope, line: string)
    requires scope.InWorld? ==> Unresolved(docs, scope.name)
    requires IsWorldHeader(line) ==> Unresolved(docs, ExtractWorldName(Trim(line)))
    ensures CommentsBefore(docs, scope, line) == []
    ensures NextScope(scope, line).InWorld? ==> Unresolved(docs, NextScope(scope, line).name)
  {
    match scope
    case TopLevel =>
      if IsWorldHeader(line) {
        UnresolvedHasNoDocs(docs, ExtractWorldName(Trim(line)), "");
      }
    case InWorld(world) =>
      match ExtractFunctionName(Trim(line))
      case None =>
      case Some(f) => UnresolvedHasNoDocs(docs, world, f);
  }

  /** A state whose world, if any, does not resolve in `docs`. */
  predicate SilentScope(docs: Value, scope: Scope) {
    scope.InWorld? ==> Unresolved(docs, scope.name)
  }

  /**
    A pass that starts in a state of `ok`, and in which every line read in a state of
    `ok` gets no comments and leaves the pass in `ok`, copies its input through.
  */
  lemma {:induction false} RunSilent(rule: Rule, lines: seq<string>, scope: Scope, ok: Scope -> bool)
    requires ok(scope)
    requires forall sc, k {:trigger rule(sc, lines[k])} :: ok(sc) && 0 <= k < |lines| ==> rule(sc, lines[k]).comments == [] && ok(rule(sc, lines[k]).next)
    ensures Texts(Run(rule, lines, scope)) == lines
    decreases |lines|
  {
    if lines != [] {
      var act := rule(scope, lines[0]);
      assert act.comments == [] && ok(act.next);
      var rest := Run(rule, lines[1..], act.next);
      assert Run(rule, lines, scope) == [Copied(lines[0])] + rest by {
        assert AsInserted(act.comments) == [];
      }
      SilentTail(rule, lines, ok);
      RunSilent(rule, lines[1..], act.next, ok);
      TextsAppend([Copied(lines[0])], rest);
      assert lines == [lines[0]] + lines[1..];
    }
  }

  /** The hypothesis of `RunSilent` carries over to the lines after the first. */
  lemma SilentTail(rule: Rule, lines: seq<string>, ok: Scope -> bool)
    requires lines != []
    requires forall sc, k {:trigger rule(sc, lines[k])} :: ok(sc) && 0 <= k < |lines| ==> rule(sc, lines[k]).comments == [] && ok(rule(sc, lines[k]).next)
    ensures forall sc, k {:trigger rule(sc, lines[1..][k])} :: ok(sc) && 0 <= k < |lines[1..]| ==> rule(sc, lines[1..][k]).comments == [] && ok(rule(sc, lines[1..][k]).next)
  {
    forall sc, k | ok(sc) && 0 <= k < |lines[1..]|
      ensures rule(sc, lines[1..][k]).comments == [] && ok(rule(sc, lines[1..][k]).next)
    {
      assert lines[1..][k] == lines[k + 1];
    }
  }

  /**
    Multi-world, no fallback: when the tree's worlds are not exactly one and no
    `world` line names one of them, nothing is inserted anywhere and every line comes
    back as it was.
  */
  lemma NoMatchingWorldUnchanged(lines: seq<string>, docs: Value)
    requires Worlds(docs).Some? ==> |Worlds(docs).value| != 1
    requires forall k :: 0 <= k < |lines| && IsWorldHeader(lines[k]) ==>
      Worlds(docs).None? || ExtractWorldName(Trim(lines[k])) !in Worlds(docs).value
    ensures InjectedLines(lines, docs) == lines
  {
    var ok := (sc: Scope) => SilentScope(docs, sc);
    forall sc, k | ok(sc) && 0 <= k < |lines|
      ensures Injector(docs)(sc, lines[k]).comments == [] && ok(Injector(docs)(sc, lines[k]).next)
    {
      InjectorAt(docs, sc, lines[k]);
      SilentStep(docs, sc, lines[k]);
    }
    RunSilent(Injector(docs), lines, TopLevel, ok);
  }

  /** The state after line `i` is the one the rule moves to from the state before it. */
  lemma StateStep(rule: Rule, lines: seq<string>, i: nat)
    requires i < |lines|
    ensures StateAt(rule, lines, i + 1) == rule(StateAt(rule, lines, i), lines[i]).next
  {
    assert lines[..i + 1] == lines[..i] + [lines[i]];
    StateAfterAppend(rule, lines[..i], [lines[i]], TopLevel);
    assert [lines[i]][1..] == [];
  }

  /** The output of a pass around input line `i`: what came before, `i`'s comments and itself, what follows. */
  lemma RunAt(rule: Rule, lines: seq<string>, i: nat)
    requires i < |lines|
    ensures Run(rule, lines, TopLevel)
         == Run(rule, lines[..i], TopLevel) + AsInserted(rule(StateAt(rule, lines, i), lines[i]).comments)
            + [Copied(lines[i])] + Run(rule, lines[i + 1..], StateAt(rule, lines, i + 1))
  {
    var pre, suf, scope := lines[..i], lines[i..], StateAt(rule, lines, i);
    assert lines == pre + suf;
    RunAppend(rule, pre, suf, TopLevel);
    StateStep(rule, lines, i);
    var act := rule(scope, lines[i]);
    assert suf[0] == lines[i] && suf[1..] == lines[i + 1..];
    var ins, copy := AsInserted(act.comments), [Copied(lines[i])];
    var rest := Run(rule, lines[i + 1..], act.next);
    assert Run(rule, suf, scope) == ins + copy + rest;
    ConcatAssoc(Run(rule, pre, TopLevel), ins + copy, rest);
    ConcatAssoc(Run(rule, pre, TopLevel), ins, copy);
  }

  /** The same, for the lines of text written. */
  lemma TextsAt(rule: Rule, lines: seq<string>, i: nat)
    requires i < |lines|
    ensures Texts(Run(rule, lines, TopLevel))
         == Texts(Run(rule, lines[..i], TopLevel)) + rule(StateAt(rule, lines, i), lines[i]).comments
            + [lines[i]] + Texts(Run(rule, lines[i + 1..], StateAt(rule, lines, i + 1)))
  {
    var comments := rule(StateAt(rule, lines, i), lines[i]).comments;
    RunAt(rule, lines, i);
    var a, b, c := Run(rule, lines[..i], TopLevel), AsInserted(comments), [Copied(lines[i])];
    var d := Run(rule, lines[i + 1..], StateAt(rule, lines, i + 1));
    TextsAppend(a + b + c, d);
    TextsAppend(a + b, c);
    TextsAppend(a, b);
    TextsOfInserted(comments);
    assert Texts(c) == [lines[i]];
  }

  /**
    The output lines of `inject_docs_into_wit` around input line `i`: the output of
    the lines before it, the comments for `i` in the state it is read in, the line,
    then the rest of the scan.
  */
  lemma InjectedAt(lines: seq<string>, docs: Value, i: nat)
    requires i < |lines|
    ensures InjectedLines(lines, docs)
         == InjectedLines(lines[..i], docs) + CommentsBefore(docs, StateAt(Injector(docs), lines, i), lines[i])
            + [lines[i]] + Texts(Scan(lines[i + 1..], docs, StateAt(Injector(docs), lines, i + 1)))
  {
    TextsAt(Injector(docs), lines, i);
    InjectorAt(docs, StateAt(Injector(docs), lines, i), lines[i]);
  }

  /**
    Before a top-level `world` line whose documentation resolves to `text`, the output
    holds the comment lines for `text` (one `"/// " + l` per line `l` of it), right
    after the output of the lines before it; the body is then read inside that world.
  */
  lemma WorldDocsBefore(lines: seq<string>, docs: Value, i: nat, text: string)
    requires i < |lines| && StateAt(Injector(docs), lines, i) == TopLevel && IsWorldHeader(lines[i])
    requires GetWorldDocs(docs, ExtractWorldName(Trim(lines[i]))) == Some(text)
    ensures InjectedLines(lines, docs)
         == InjectedLines(lines[..i], docs) + CommentLines("", text) + [lines[i]]
            + Texts(Scan(lines[i + 1..], docs, InWorld(ExtractWorldName(Trim(lines[i])))))
  {
    InjectedAt(lines, docs, i);
    StateStep(Injector(docs), lines, i);
    InjectorAt(docs, TopLevel, lines[i]);
  }

  /** An `export`/`import` line never closes a body. */
  lemma DeclarationDoesNotClose(line: string)
    requires IsFunctionDeclaration(line)
    ensures !ClosesBody(line)
  {
  }

  /**
    Before an `export`/`import` line inside the body of world `world`, whose function
    documentation resolves to `text`, the output holds the comment lines for `text`
    after the line's own indentation, and the body goes on.
  */
  lemma FunctionDocsBefore(lines: seq<string>, docs: Value, i: nat, world: string, f: string, text: string)
    requires i < |lines| && StateAt(Injector(docs), lines, i) == InWorld(world) && IsFunctionDeclaration(lines[i])
    requires ExtractFunctionName(Trim(lines[i])) == Some(f) && GetFunctionDocs(docs, world, f) == Some(text)
    ensures InjectedLines(lines, docs)
         == InjectedLines(lines[..i], docs) + CommentLines(GetIndent(lines[i]), text) + [lines[i]]
            + Texts(Scan(lines[i + 1..], docs, InWorld(world)))
  {
    InjectedAt(lines, docs, i);
    StateStep(Injector(docs), lines, i);
    InjectorAt(docs, InWorld(world), lines[i]);
    DeclarationDoesNotClose(lines[i]);
  }

  /**
    Nothing is inserted before a top-level line that is not a `world` line (an
    `export`/`import` line outside a world among them), nor before a body line that
    is not an `export`/`import` line.
  */
  lemma NothingBefore(lines: seq<string>, docs: Value, i: nat)
    requires i < |lines|
    requires var scope := StateAt(Injector(docs), lines, i);
      (scope == TopLevel && !IsWorldHeader(lines[i])) || (scope.InWorld? && !IsFunctionDeclaration(lines[i]))
    ensures InjectedLines(lines, docs)
         == InjectedLines(lines[..i], docs) + [lines[i]]
            + Texts(Scan(lines[i + 1..], docs, StateAt(Injector(docs), lines, i + 1)))
  {
    InjectedAt(lines, docs, i);
    InjectorAt(docs, StateAt(Injector(docs), lines, i), lines[i]);
    assert InjectedLines(lines[..i], docs) + [] == InjectedLines(lines[..i], docs);
  }

  /**
    From a top-level `world` line up to the first later line that trims to `}`, every
    line is read inside that world, whatever it says (another `world` line included).
  */
  lemma BodyStaysOpen(lines: seq<string>, docs: Value, i: nat, j: nat)
    requires i < j <= |lines| && StateAt(Injector(docs), lines, i) == TopLevel && IsWorldHeader(lines[i])
    requires forall k :: i < k < j ==> !ClosesBody(lines[k])
    ensures StateAt(Injector(docs), lines, j) == InWorld(ExtractWorldName(Trim(lines[i])))
  {
    ScopeStep(lines, docs, i);
    InsideBody(lines, docs, ExtractWorldName(Trim(lines[i])), i + 1, j);
  }

  /** Inside a body, the state only changes at a line that trims to `}`. */
  lemma InsideBody(lines: seq<string>, docs: Value, world: string, i: nat, j: nat)
    requires i <= j <= |lines| && StateAt(Injector(docs), lines, i) == InWorld(world)
    requires forall k :: i <= k < j ==> !ClosesBody(lines[k])
    ensures StateAt(Injector(docs), lines, j) == InWorld(world)
  {
    forall k | i <= k < j ensures Injector(docs)(InWorld(world), lines[k]).next == InWorld(world) {
      InjectorAt(docs, InWorld(world), lines[k]);
    }
    StateKept(Injector(docs), lines, InWorld(world), i, j);
  }

  /** A state that no line of a stretch moves away from is kept over the stretch. */
  lemma {:induction false} StateKept(rule: Rule, lines: seq<string>, scope: Scope, i: nat, j: nat)
    requires i <= j <= |lines| && StateAt(rule, lines, i) == scope
    requires forall k :: i <= k < j ==> rule(scope, lines[k]).next == scope
    ensures StateAt(rule, lines, j) == scope
    decreases j
  {
    if j > i {
      StateKept(rule, lines, scope, i, j - 1);
      StateStep(rule, lines, j - 1);
    }
  }

  /** The state after line `k` is `NextScope` of the state before it. */
  lemma ScopeStep(lines: seq<string>, docs: Value, k: nat)
    requires k < |lines|
    ensures StateAt(Injector(docs), lines, k + 1) == NextScope(StateAt(Injector(docs), lines, k), lines[k])
  {
    StateStep(Injector(docs), lines, k);
    InjectorAt(docs, StateAt(Injector(docs), lines, k), lines[k]);
  }

  /**
    The body of a world opened at line `i` ends right after the first later line `j`
    that trims to `}`: that line is still read inside the world, and the scan is back
    at the top level after it.
  */
  lemma WorldBodyEnds(lines: seq<string>, docs: Value, i: nat, j: nat)
    requires i < j < |lines| && StateAt(Injector(docs), lines, i) == TopLevel && IsWorldHeader(lines[i])
    requires forall k :: i < k < j ==> !ClosesBody(lines[k])
    requires ClosesBody(lines[j])
    ensures StateAt(Injector(docs), lines, j) == InWorld(ExtractWorldName(Trim(lines[i])))
    ensures StateAt(Injector(docs), lines, j + 1) == TopLevel
  {
    BodyStaysOpen(lines, docs, i, j);
    ScopeStep(lines, docs, j);
  }

  // ---------------------------------------------------------------------------
  // A worked example
  // ---------------------------------------------------------------------------

  /** A tree with one documented world `app` exporting one documented function `run`. */
  function AppDocs(): Value {
    Object(map["worlds" := Object(map["app" := Object(map[
      "docs" := Str("Top level."),
      "func_exports" := Object(map["run" := Object(map["docs" := Str("Runs it.")])])])])])
  }

  lemma AppResolves()
    ensures GetWorldDocs(AppDocs(), "app") == Some("Top level.")
    ensures GetFunctionDocs(AppDocs(), "app", "run") == Some("Runs it.")
  {
    var worlds := Worlds(AppDocs()).value;
    assert "app" in worlds;
    ExactMatchFirst(AppDocs(), "app", "run");
  }

  // Facts about the example's individual lines. Each is stated in a lemma of its
  // own because facts about several string literals at once are slow to check.

  lemma AppHeader()
    ensures Trim("world app {") == "world app {" && IsWorldHeader("world app {")
    ensures ExtractWorldName(Trim("world app {")) == "app"
    ensures !ClosesBody("world app {")
  {
    HeaderLine("world app {");
    AppName();
  }

  lemma HeaderLine(line: string)
    requires line == "world app {"
    ensures Trim(line) == line && StartsWith(line, "world ") && line != "}"
  {
    TrimmedAlready(line);
    assert line[..6] == "world ";
  }

  lemma TrimmedAlready(line: string)
    requires line != [] && !IsWhitespace(line[0]) && !IsWhitespace(line[|line| - 1])
    ensures Trim(line) == line
  {
    assert [] + line == line;
    TrimAfterBlank([], line);
  }

  lemma AppName()
    ensures ExtractWorldName("world app {") == "app"
  {
    assert "world" + " " + "app" + " {" == "world app {";
    WorldNameOfHeader("world", " ", "app", " {");
  }

  lemma RunDeclaration()
    ensures Trim("  export run: func();") == "export run: func();"
    ensures GetIndent("  export run: func();") == "  "
    ensures IsFunctionDeclaration("  export run: func();") && !ClosesBody("  export run: func();")
    ensures ExtractFunctionName(Trim("  export run: func();")) == Some("run")
  {
    RunTrim();
    RunIndent();
    assert "export run: func();"[..7] == "export ";
    RunName();
  }

  lemma RunTrim()
    ensures Trim("  export run: func();") == "export run: func();"
  {
    assert "  " + "export run: func();" == "  export run: func();";
    TrimAfterBlank("  ", "export run: func();");
  }

  lemma RunIndent()
    ensures GetIndent("  export run: func();") == "  "
  {
    assert "  " + "export run: func();" == "  export run: func();";
    TrimStartAfterBlank("  ", "export run: func();");
  }

  lemma RunName()
    ensures ExtractFunctionName("export run: func();") == Some("run")
  {
    assert "export" + " " + "run" + "" + ":" + " func();" == "export run: func();";
    FunctionNameOfDeclaration("export", " ", "run", "", " func();");
  }

  lemma ClosingLine()
    ensures Trim("}") == "}" && ClosesBody("}") && !IsWorldHeader("}")
  {
    TrimmedAlready("}");
  }

  /** A one-line documentation text gives one comment line. */
  lemma SingleDocLine(indent: string, text: string, comment: string)
    requires '\n' !in text && text != [] && indent + "/// " + text == comment
    ensures CommentsFor(indent, Some(text)) == [comment]
  {
    assert Find(text, '\n') == None;
    assert Lines(text) == [text];
  }

  /** The output lines of a pass: the first line's comments, the line, then the rest read in the next state. */
  lemma TextsCons(rule: Rule, line: string, rest: seq<string>, scope: Scope)
    ensures Texts(Run(rule, [line] + rest, scope))
         == rule(scope, line).comments + [line] + Texts(Run(rule, rest, rule(scope, line).next))
  {
    var act := rule(scope, line);
    assert ([line] + rest)[0] == line && ([line] + rest)[1..] == rest;
    var tail := Run(rule, rest, act.next);
    TextsAppend(AsInserted(act.comments) + [Copied(line)], tail);
    TextsAppend(AsInserted(act.comments), [Copied(line)]);
    TextsOfInserted(act.comments);
  }

  // The scanner's three steps over the example, each from the facts above.

  lemma AppWorldStep()
    ensures Injector(AppDocs())(TopLevel, "world app {") == Action(["/// Top level."], InWorld("app"))
  {
    AppWorldComments(AppDocs(), "world app {");
    AppHeader();
    InjectorAt(AppDocs(), TopLevel, "world app {");
  }

  lemma AppWorldComments(docs: Value, line: string)
    requires docs == AppDocs() && line == "world app {"
    ensures CommentsBefore(docs, TopLevel, line) == ["/// Top level."]
  {
    AppHeader();
    AppWorldDocs(docs);
    WorldComments(docs, line, "app");
  }

  lemma AppWorldDocs(docs: Value)
    requires docs == AppDocs()
    ensures CommentsFor("", GetWorldDocs(docs, "app")) == ["/// Top level."]
  {
    AppResolves();
    TopLevelComment();
  }

  lemma TopLevelComment()
    ensures CommentsFor("", Some("Top level.")) == ["/// Top level."]
  {
    SingleDocLine("", "Top level.", "/// Top level.");
  }

  /** The comments before a world line: its world's documentation, one line each. */
  lemma WorldComments(docs: Value, line: string, name: string)
    requires IsWorldHeader(line) && ExtractWorldName(Trim(line)) == name
    ensures CommentsBefore(docs, TopLevel, line) == CommentsFor("", GetWorldDocs(docs, name))
  {
  }

  lemma AppRunStep()
    ensures Injector(AppDocs())(InWorld("app"), "  export run: func();") == Action(["  /// Runs it."], InWorld("app"))
  {
    AppRunComments(AppDocs(), "  export run: func();");
    RunDeclaration();
    InjectorAt(AppDocs(), InWorld("app"), "  export run: func();");
  }

  lemma AppRunComments(docs: Value, line: string)
    requires docs == AppDocs() && line == "  export run: func();"
    ensures CommentsBefore(docs, InWorld("app"), line) == ["  /// Runs it."]
  {
    RunDeclaration();
    AppRunDocs(docs);
    FunctionComments(docs, "app", line, "  ", "run");
  }

  lemma AppRunDocs(docs: Value)
    requires docs == AppDocs()
    ensures CommentsFor("  ", GetFunctionDocs(docs, "app", "run")) == ["  /// Runs it."]
  {
    AppResolves();
    RunsItComment();
  }

  lemma RunsItComment()
    ensures CommentsFor("  ", Some("Runs it.")) == ["  /// Runs it."]
  {
    SingleDocLine("  ", "Runs it.", "  /// Runs it.");
  }

  /** The comments before a declaration inside `world`: its function's documentation, after the line's indentation. */
  lemma FunctionComments(docs: Value, world: string, line: string, indent: string, f: string)
    requires IsFunctionDeclaration(line) && GetIndent(line) == indent && ExtractFunctionName(Trim(line)) == Some(f)
    ensures CommentsBefore(docs, InWorld(world), line) == CommentsFor(indent, GetFunctionDocs(docs, world, f))
  {
  }

  lemma AppCloseStep()
    ensures Injector(AppDocs())(InWorld("app"), "}") == Action([], TopLevel)
  {
    ClosingLine();
    assert !StartsWith("}", "export ") && !StartsWith("}", "import ");
    InjectorAt(AppDocs(), InWorld("app"), "}");
  }

  /**
    A pass over three lines that writes one comment before the first, one before the
    second and none before the third.
  */
  lemma ThreeLineRun(rule: Rule, a: string, b: string, c: string, x: string, y: string, s1: Scope, s2: Scope)
    requires rule(TopLevel, a) == Action([x], s1) && rule(s1, b) == Action([y], s2) && rule(s2, c).comments == []
    ensures Texts(Run(rule, [a, b, c], TopLevel)) == [x, a, y, b, c]
  {
    assert [a, b, c] == [a] + [b, c] && [b, c] == [b] + [c] && [c] == [c] + [];
    TextsCons(rule, a, [b, c], TopLevel);
    TextsCons(rule, b, [c], s1);
    TextsCons(rule, c, [], s2);
    assert Texts(Run(rule, [], rule(s2, c).next)) == [];
  }

  /**
    An example: `world app {`, `  export run: func();`, `}` with the tree
    of `AppDocs` gains `/// Top level.` before the world line and `  /// Runs it.`,
    indented like the declaration, before the export line.
  */
  lemma AppExample()
    ensures InjectedLines(["world app {", "  export run: func();", "}"], AppDocs())
         == ["/// Top level.", "world app {", "  /// Runs it.", "  export run: func();", "}"]
  {
    AppWorldStep();
    AppRunStep();
    AppCloseStep();
    ThreeLineRun(Injector(AppDocs()), "world app {", "  export run: func();", "}",
                 "/// Top level.", "  /// Runs it.", InWorld("app"), InWorld("app"));
  }

  /** Three lines joined by `"\n"` split back into those lines. */
  lemma ThreeLines(a: string, b: string, c: string)
    requires '\n' !in a && '\n' !in b && '\n' !in c && c != []
    requires !EndsWithCarriageReturn(a) && !EndsWithCarriageReturn(b)
    ensures Lines(a + "\n" + b + "\n" + c) == [a, b, c]
  {
    assert a + "\n" + b + "\n" + c == a + "\n" + (b + "\n" + c);
    LinesOfLine(a, b + "\n" + c);
    LinesOfLine(b, c);
    assert Lines(c) == [c];
  }

  /** Five rendered lines. */
  lemma RenderFive(a: string, b: string, c: string, d: string, e: string)
    ensures Render([a, b, c, d, e]) == (a + "\n") + (b + "\n") + (c + "\n") + (d + "\n") + (e + "\n")
  {
    RenderOne(a);
    RenderOne(b);
    RenderOne(c);
    RenderOne(d);
    RenderOne(e);
    assert [a, b] == [a] + [b];
    RenderAppend([a], [b]);
    assert [a, b, c] == [a, b] + [c];
    RenderAppend([a, b], [c]);
    assert [a, b, c, d] == [a, b, c] + [d];
    RenderAppend([a, b, c], [d]);
    assert [a, b, c, d, e] == [a, b, c, d] + [e];
    RenderAppend([a, b, c, d], [e]);
  }

  lemma RenderOne(x: string)
    ensures Render([x]) == x + "\n"
  {
    assert [x][1..] == [];
  }

  lemma AppTextLines(text: string)
    requires text == "world app {" + "\n" + "  export run: func();" + "\n" + "}"
    ensures Lines(text) == ["world app {", "  export run: func();", "}"]
  {
    var w, f, c := "world app {", "  export run: func();", "}";
    assert '\n' !in w && '\n' !in f && '\n' !in c;
    assert !EndsWithCarriageReturn(w) && !EndsWithCarriageReturn(f);
    ThreeLines(w, f, c);
  }

  lemma AppRendered(out: seq<string>)
    requires out == ["/// Top level.", "world app {", "  /// Runs it.", "  export run: func();", "}"]
    ensures Render(out) == "/// Top level.\n" + "world app {\n" + "  /// Runs it.\n" + "  export run: func();\n" + "}\n"
  {
    var a, b, c, d, e := "/// Top level.", "world app {", "  /// Runs it.", "  export run: func();", "}";
    RenderFive(a, b, c, d, e);
    assert a + "\n" == "/// Top level.\n" && b + "\n" == "world app {\n" && c + "\n" == "  /// Runs it.\n";
    assert d + "\n" == "  export run: func();\n" && e + "\n" == "}\n";
  }

  /**
    An example at the level of text: what `inject_docs_into_wit`
    returns for the rendering `world app {` / `  export run: func();` / `}`.
  */
  lemma AppTextExample()
    ensures Render(InjectedLines(Lines("world app {" + "\n" + "  export run: func();" + "\n" + "}"), AppDocs()))
         == "/// Top level.\n" + "world app {\n" + "  /// Runs it.\n" + "  export run: func();\n" + "}\n"
  {
    AppTextLines("world app {" + "\n" + "  export run: func();" + "\n" + "}");
    AppExample();
    AppRendered(["/// Top level.", "world app {", "  /// Runs it.", "  export run: func();", "}"]);
  }
}
