/**
  The injector (`wit-docs-inject`): it re-encodes a component section by section,
  appends one `package-docs` custom section holding the encoded documentation, and
  writes the result to a path chosen from the command-line flags.
*/
module WitDocsInject {
  import opened Wrappers
  import opened Json
  import opened Wasm
  import opened WitDocsView

  // ---------------------------------------------------------------------------
  // Paths: a simplified `std::path`
  // ---------------------------------------------------------------------------

  /** The index of the last occurrence of `c` in `s`. */
  function LastIndex(s: string, c: char): (r: Option<nat>)
    ensures r.None? <==> c !in s
    ensures r.Some? ==> r.value < |s| && s[r.value] == c && c !in s[r.value + 1..]
    decreases |s|
  {
    if s == [] then None
    else if s[|s| - 1] == c then Some(|s| - 1)
    else
      match LastIndex(s[..|s| - 1], c)
      case None => None
      case Some(i) =>
        assert s[i + 1..] == s[..|s| - 1][i + 1..] + [s[|s| - 1]];
        Some(i)
  }

  /** The text after the last `/`: the final component of the path as written. */
  function FinalComponent(p: string): (r: string)
    ensures '/' !in r
    ensures |r| <= |p| && r == p[|p| - |r|..]
    ensures |r| < |p| ==> p[|p| - |r| - 1] == '/'
  {
    match LastIndex(p, '/')
    case None => p
    case Some(i) => p[i + 1..]
  }

  /** The text up to and including the last `/`. */
  function DirPrefix(p: string): (r: string)
    ensures r + FinalComponent(p) == p
    ensures r == [] || r[|r| - 1] == '/'
  {
    match LastIndex(p, '/')
    case None => []
    case Some(i) =>
      assert p[..i + 1] + p[i + 1..] == p;
      p[..i + 1]
  }

  /** `Path::file_name`: the final component, unless it is empty, `.` or `..`. */
  function FileName(p: string): (r: Option<string>)
    ensures r.None? <==> FinalComponent(p) == "" || FinalComponent(p) == "." || FinalComponent(p) == ".."
    ensures r.Some? ==> r.value == FinalComponent(p) && r.value != []
  {
    var name := FinalComponent(p);
    if name == "" || name == "." || name == ".." then None else Some(name)
  }

  /**
    `rsplit_file_at_dot`: a name is cut at its last `.` into a stem and an
    extension, except when that dot is its first character (a dotfile) or it has none.
  */
  function StemAndExtension(name: string): (r: (string, Option<string>))
    ensures r.1.None? ==> r.0 == name
    ensures r.1.Some? ==> r.0 != [] && r.0 + "." + r.1.value == name && '.' !in r.1.value
  {
    match LastIndex(name, '.')
    case None => (name, None)
    case Some(i) =>
      if i == 0 then (name, None)
      else
        assert name[..i] + "." + name[i + 1..] == name[..i + 1] + name[i + 1..];
        (name[..i], Some(name[i + 1..]))
  }

  /** `Path::file_stem`. */
  function FileStem(p: string): (r: Option<string>)
    ensures FileName(p).None? <==> r.None?
    ensures r.Some? ==> r.value != [] && '/' !in r.value
    ensures r.Some? ==> var name := FileName(p).value;
      r.value == name || (|r.value| < |name| && name[..|r.value| + 1] == r.value + ".")
  {
    match FileName(p)
    case None => None
    case Some(name) => Some(StemAndExtension(name).0)
  }

  /** `Path::extension`. */
  function Extension(p: string): (r: Option<string>)
    ensures FileName(p).None? ==> r.None?
    ensures r.Some? ==> '.' !in r.value && '/' !in r.value
    ensures r.Some? ==> FileStem(p).value + "." + r.value == FileName(p).value
    ensures r.None? && FileStem(p).Some? ==> FileStem(p).value == FileName(p).value
  {
    match FileName(p)
    case None => None
    case Some(name) => StemAndExtension(name).1
  }

  /**
    `PathBuf::set_extension`: with a file stem, everything after the stem is replaced
    by `.` and the new extension (by nothing for an empty one); without one, the path
    is left alone.
  */
  function SetExtension(p: string, ext: string): (r: string)
    ensures FileStem(p).None? ==> r == p
    ensures FileStem(p).Some? && '/' !in ext ==> DirPrefix(r) == DirPrefix(p)
    ensures FileStem(p).Some? && ext == "" ==> FinalComponent(r) == FileStem(p).value
    ensures FileStem(p).Some? && ext != "" && '/' !in ext ==> FinalComponent(r) == FileStem(p).value + "." + ext
    ensures FileStem(p).Some? && ext != "" && '.' !in ext && '/' !in ext ==>
      FileStem(r) == FileStem(p) && Extension(r) == Some(ext)
  {
    match FileStem(p)
    case None => p
    case Some(stem) =>
      var dir := DirPrefix(p);
      if ext == "" then
        JoinFinal(dir, stem);
        dir + stem
      else
        DottedName(dir, stem, ext);
        dir + (stem + "." + ext)
  }

  /** Behind a directory prefix, `<stem>.<ext>` is the final component, split back into its stem and extension. */
  lemma DottedName(dir: string, stem: string, ext: string)
    requires dir == [] || dir[|dir| - 1] == '/'
    requires stem != [] && '/' !in stem
    ensures '/' !in ext ==> FinalComponent(dir + (stem + "." + ext)) == stem + "." + ext
    ensures '/' !in ext ==> DirPrefix(dir + (stem + "." + ext)) == dir
    ensures ext != "" && '.' !in ext && '/' !in ext ==>
      FileStem(dir + (stem + "." + ext)) == Some(stem) && Extension(dir + (stem + "." + ext)) == Some(ext)
  {
    var name := stem + "." + ext;
    if '/' !in ext {
      NoSlashDotted(stem, ext);
      JoinFinal(dir, name);
      if ext != "" && '.' !in ext {
        StemOfDotted(stem, ext);
        FileNameAfterDir(dir, name);
      }
    }
  }

  /** `Path::parent`: the path without its final component and the separator before it. */
  function Parent(p: string): (r: Option<string>)
    ensures r.None? <==> FinalComponent(p) == ""
    ensures r.Some? && |DirPrefix(p)| > 1 ==> r.value + "/" == DirPrefix(p)
    ensures r.Some? && |DirPrefix(p)| <= 1 ==> r.value == DirPrefix(p)
  {
    if FinalComponent(p) == "" then None
    else
      var dir := DirPrefix(p);
      if |dir| <= 1 then Some(dir)
      else
        DropLastSlash(dir);
        Some(dir[..|dir| - 1])
  }

  lemma DropLastSlash(dir: string)
    requires dir != [] && dir[|dir| - 1] == '/'
    ensures dir[..|dir| - 1] + "/" == dir
  {
    assert dir == dir[..|dir| - 1] + [dir[|dir| - 1]];
  }

  /** `Path::join`: an absolute `name` replaces the base; otherwise a `/` goes between them when needed. */
  function Join(base: string, name: string): (r: string)
    ensures name != [] && name[0] == '/' ==> r == name
    ensures (name == [] || name[0] != '/') && (base == [] || base[|base| - 1] == '/') ==> r == base + name
    ensures (name == [] || name[0] != '/') && base != [] && base[|base| - 1] != '/' ==> r == base + "/" + name
  {
    if name != [] && name[0] == '/' then name
    else if base == [] || base[|base| - 1] == '/' then base + name
    else base + "/" + name
  }

  /** A name without `/` is the final component of the joined path. */
  lemma JoinedName(base: string, name: string)
    requires '/' !in name
    ensures FinalComponent(Join(base, name)) == name
  {
    if base == [] || base[|base| - 1] == '/' {
      JoinFinal(base, name);
    } else {
      JoinFinal(base + "/", name);
    }
  }

  /** After a prefix ending in `/`, a name without `/` is the final component. */
  lemma JoinFinal(dir: string, name: string)
    requires dir == [] || dir[|dir| - 1] == '/'
    requires '/' !in name
    ensures FinalComponent(dir + name) == name && DirPrefix(dir + name) == dir
  {
    var p := dir + name;
    if dir == [] {
      assert p == name;
    } else {
      LastIndexAfter(dir, name, '/');
      assert p[|dir|..] == name && p[..|dir|] == dir;
    }
  }

  /** The name that marks the output next to the input. */
  function DocsName(stem: string): string {
    stem + ".docs.wasm"
  }

  /** The name used when `DocsName` would be the input itself. */
  function InjectedName(stem: string): string {
    stem + ".docs.injected.wasm"
  }

  /** The input path after an empty or missing extension has been set to `wasm`. */
  function WithExtension(component: string): (r: string)
    ensures FileName(component).None? ==> r == component
    ensures Extension(component).Some? && Extension(component).value != "" ==> r == component
    ensures FileName(component).Some? ==> FileStem(r) == FileStem(component) && DirPrefix(r) == DirPrefix(component)
    ensures FileName(component).Some? && (Extension(component).None? || Extension(component).value == "") ==>
      Extension(r) == Some("wasm")
  {
    var ext := match Extension(component) case None => "" case Some(e) => e;
    if ext == "" then
      assert "wasm" != "" && '.' !in "wasm" && '/' !in "wasm";
      SetExtension(component, "wasm")
    else component
  }

  /** `file_stem().unwrap_or_default()`. */
  function StemOrEmpty(p: string): (r: string)
    ensures '/' !in r
    ensures FileStem(p).Some? ==> r == FileStem(p).value
    ensures FileStem(p).None? ==> r == ""
  {
    match FileStem(p) case None => "" case Some(s) => s
  }

  /** `parent().unwrap_or_else(|| Path::new("."))`. */
  function ParentOrDot(p: string): (r: string)
    ensures FinalComponent(p) == "" ==> r == "."
    ensures FinalComponent(p) != "" && |DirPrefix(p)| > 1 ==> r + "/" == DirPrefix(p)
    ensures FinalComponent(p) != "" && |DirPrefix(p)| <= 1 ==> r == DirPrefix(p)
  {
    match Parent(p) case None => "." case Some(d) => d
  }

  /** `<stem>.docs.wasm` next to the input. */
  function DocsCandidate(component: string): string {
    var p := WithExtension(component);
    Join(ParentOrDot(p), DocsName(StemOrEmpty(p)))
  }

  /**
    The default output path: `<stem>.docs.wasm` in the parent directory, or
    `<stem>.docs.injected.wasm` when that would be the input.
  */
  function DefaultOutputPath(component: string): (r: string)
    ensures r != component
  {
    var p := WithExtension(component);
    var stem, parent := StemOrEmpty(p), ParentOrDot(p);
    var candidate := Join(parent, DocsName(stem));
    if candidate == component then
      assert |DocsName(stem)| != |InjectedName(stem)|;
      JoinInjective(parent, DocsName(stem), InjectedName(stem));
      Join(parent, InjectedName(stem))
    else candidate
  }

  /**
    The `<stem>.docs.wasm` candidate is never the input itself, so the
    `.docs.injected.wasm` fallback is never taken: an input without extension is
    renamed before the stem is taken, and an extension cannot hold the `.` of
    `docs.wasm`.
  */
  lemma CandidateIsNotInput(component: string)
    ensures DocsCandidate(component) != component
  {
    CandidateName(component);
    InputNameDiffers(component);
  }

  /** The candidate's final component is `<stem>.docs.wasm`. */
  lemma CandidateName(component: string)
    ensures FinalComponent(DocsCandidate(component)) == DocsName(StemOrEmpty(WithExtension(component)))
  {
    var p := WithExtension(component);
    var stem := StemOrEmpty(p);
    DocsNameWithoutSlash(stem);
    assert DocsCandidate(component) == Join(ParentOrDot(p), DocsName(stem));
    JoinedName(ParentOrDot(p), DocsName(stem));
  }

  /** A stem without `/` gives a docs name without `/`. */
  lemma DocsNameWithoutSlash(stem: string)
    requires '/' !in stem
    ensures '/' !in DocsName(stem)
  {
    assert '/' !in ".docs.wasm";
  }

  /** The default output path is always the `<stem>.docs.wasm` candidate. */
  lemma DefaultIsCandidate(component: string)
    ensures DefaultOutputPath(component) == DocsCandidate(component)
  {
    CandidateIsNotInput(component);
  }

  /** A directory prefix that does not end in `//`: dropping its `/` and joining puts it back. */
  predicate OneTrailingSlash(dir: string) {
    |dir| < 2 || dir[|dir| - 2] != '/'
  }

  /**
    The default output goes next to the input: for an input with a file name, in a
    directory not written with a doubled final `/`, it is the input's directory
    followed by `<stem>.docs.wasm`, the stem taken before a missing or empty
    extension is set to `wasm`.
  */
  lemma DefaultOutputLocation(component: string)
    ensures FileName(component).Some? && OneTrailingSlash(DirPrefix(component)) ==>
      DefaultOutputPath(component) == DirPrefix(component) + DocsName(FileStem(component).value)
  {
    if FileName(component).Some? && OneTrailingSlash(DirPrefix(component)) {
      DefaultIsCandidate(component);
      var p := WithExtension(component);
      var stem := FileStem(component).value;
      assert StemOrEmpty(p) == stem;
      DocsNameWithoutSlash(stem);
      ParentJoin(p, DocsName(stem));
    }
  }

  /** Joining a relative name to the parent puts it behind the path's directory prefix. */
  lemma ParentJoin(p: string, name: string)
    requires FinalComponent(p) != "" && OneTrailingSlash(DirPrefix(p))
    requires name != [] && name[0] != '/'
    ensures Join(ParentOrDot(p), name) == DirPrefix(p) + name
  {
    var dir, par := DirPrefix(p), ParentOrDot(p);
    if |dir| > 1 {
      assert par + "/" == dir;
      assert par != [] && par[|par| - 1] == dir[|dir| - 2];
      assert Join(par, name) == par + "/" + name;
    } else {
      assert par == dir;
    }
  }

  /** The input's final component is never `<stem>.docs.wasm`. */
  lemma InputNameDiffers(component: string)
    ensures FinalComponent(component) != DocsName(StemOrEmpty(WithExtension(component)))
  {
    if FileName(component).None? {
      NamelessCandidate(component);
    } else {
      var se := StemAndExtension(FileName(component).value);
      if se.1.None? || se.1.value == "" {
        RenamedCandidate(component, se.0);
      } else {
        ExtendedCandidate(component, se.0, se.1.value);
      }
    }
  }

  /** The docs name spelt with its dot apart. */
  lemma DocsNameDotted(stem: string)
    ensures DocsName(stem) == stem + "." + "docs.wasm"
  {
    assert ".docs.wasm" == "." + "docs.wasm";
    ConcatAssoc(stem, ".", "docs.wasm");
  }

  /** Without a file name the candidate is named `.docs.wasm`, and the input ends in nothing, `.` or `..`. */
  lemma NamelessCandidate(component: string)
    requires FileName(component).None?
    ensures FinalComponent(component) != DocsName(StemOrEmpty(WithExtension(component)))
  {
    assert WithExtension(component) == component;
    assert DocsName(StemOrEmpty(component)) == ".docs.wasm";
  }

  /** Renamed to `<stem>.wasm`, the input's name is shorter than `<stem>.docs.wasm`. */
  lemma RenamedCandidate(component: string, s: string)
    requires FileName(component).Some?
    requires StemAndExtension(FileName(component).value).0 == s
    requires var e := StemAndExtension(FileName(component).value).1; e.None? || e.value == ""
    ensures FinalComponent(component) != DocsName(StemOrEmpty(WithExtension(component)))
  {
    RenamedStem(component, s);
    assert |FileName(component).value| <= |s| + 1;
  }

  /** With an extension, the input keeps its name, and `docs.wasm` holds a dot no extension has. */
  lemma ExtendedCandidate(component: string, s: string, e: string)
    requires FileName(component).Some?
    requires StemAndExtension(FileName(component).value) == (s, Some(e)) && e != ""
    ensures FinalComponent(component) != DocsName(StemOrEmpty(WithExtension(component)))
  {
    assert WithExtension(component) == component;
    assert StemOrEmpty(component) == s;
    DocsNameDotted(s);
  }

  /** An input whose extension is empty or missing is renamed to `<stem>.wasm`, which has stem `<stem>`. */
  lemma RenamedStem(component: string, s: string)
    requires FileName(component).Some?
    requires StemAndExtension(FileName(component).value).0 == s
    requires var e := StemAndExtension(FileName(component).value).1; e.None? || e.value == ""
    ensures StemOrEmpty(WithExtension(component)) == s
  {
    assert FileStem(component) == Some(s);
  }

  /** A stem, a dot and an extension, none with `/`, make a name without `/`. */
  lemma NoSlashDotted(stem: string, ext: string)
    requires '/' !in stem && '/' !in ext
    ensures '/' !in stem + "." + ext && |stem + "." + ext| == |stem| + 1 + |ext|
  {
    var name := stem + "." + ext;
    forall k | 0 <= k < |name| ensures name[k] != '/' {
      if k < |stem| { assert name[k] == stem[k]; }
      else if k > |stem| { assert name[k] == ext[k - |stem| - 1]; }
    }
  }

  /** A name cut at a dot that is not its first character: the stem before, the extension after. */
  lemma StemOfDotted(s: string, ext: string)
    requires s != [] && '.' !in ext
    ensures StemAndExtension(s + "." + ext) == (s, Some(ext))
  {
    var pre := s + ".";
    var n := pre + ext;
    LastIndexAfter(pre, ext, '.');
    assert n[..|s|] == pre[..|s|] == s;
    assert n[|pre|..] == ext;
  }

  /** Behind a directory prefix, a name of two or more characters without `/` is the file name. */
  lemma FileNameAfterDir(dir: string, name: string)
    requires dir == [] || dir[|dir| - 1] == '/'
    requires '/' !in name && |name| > 2
    ensures FileName(dir + name) == Some(name)
    ensures FileStem(dir + name) == Some(StemAndExtension(name).0)
  {
    JoinFinal(dir, name);
  }

  /** After a `c`, a text without `c` leaves that `c` the last one. */
  lemma {:induction false} LastIndexAfter(pre: string, rest: string, c: char)
    requires pre != [] && pre[|pre| - 1] == c && c !in rest
    ensures LastIndex(pre + rest, c) == Some(|pre| - 1)
    decreases |rest|
  {
    if rest == [] {
      assert pre + rest == pre;
    } else {
      var s := pre + rest;
      var init := rest[..|rest| - 1];
      assert s[..|s| - 1] == pre + init;
      assert s[|s| - 1] == rest[|rest| - 1];
      LastIndexAfter(pre, init, c);
    }
  }

  /** Joined to the same base, different relative names give different paths. */
  lemma JoinInjective(base: string, a: string, b: string)
    requires a != [] && b != [] && a[0] != '/' && b[0] != '/'
    ensures Join(base, a) == Join(base, b) ==> a == b
  {
    var pre := if base == [] || base[|base| - 1] == '/' then base else base + "/";
    assert Join(base, a) == pre + a && Join(base, b) == pre + b;
    assert (pre + a)[|pre|..] == a && (pre + b)[|pre|..] == b;
  }

  /** The output path: the input with `--inplace`, else `--out` when given, else the default. */
  function OutputPath(component: string, out: Option<string>, inplace: bool): (r: string)
    ensures inplace ==> r == component
    ensures !inplace && out.Some? ==> r == out.value
    ensures !inplace && out.None? ==> r != component && r == DocsCandidate(component)
    ensures !inplace && out.None? && FileName(component).Some? && OneTrailingSlash(DirPrefix(component)) ==>
      r == DirPrefix(component) + DocsName(FileStem(component).value)
  {
    if inplace then component
    else match out
      case Some(o) => o
      case None =>
        DefaultIsCandidate(component);
        DefaultOutputLocation(component);
        DefaultOutputPath(component)
  }

  // ---------------------------------------------------------------------------
  // Assembling the output component
  // ---------------------------------------------------------------------------

  /** `wasm_encoder::Component`: the sections written so far. */
  class Component {
    var sections: seq<Payload>

    /** `Component::new`. */
    constructor()
      ensures sections == []
    {
      sections := [];
    }

    /** `Component::section`: one more section at the end. */
    method Section(s: Payload)
      modifies this
      ensures sections == old(sections) + [s]
    {
      sections := sections + [s];
    }

    /**
      `parse_component` with the round-trip re-encoder: a stream that parses is copied
      section by section, verbatim and in order; one that does not is an error.
    */
    method ParseComponent(stream: seq<Parsed>) returns (ok: bool)
      modifies this
      ensures ok == WellFormed(stream)
      ensures ok ==> sections == old(sections) + Payloads(stream)
      ensures !ok ==> sections == old(sections)
    {
      ok := WellFormed(stream);
      if ok {
        sections := sections + Payloads(stream);
      }
    }

    /** `Component::finish`: the finished module. */
    method Finish() returns (bytes: seq<Payload>)
      ensures bytes == sections
    {
      bytes := sections;
    }
  }

  /** The failures of the injector, in the order it meets them. */
  datatype InjectError =
    | ReadError        // "reading {component}"
    | WitParseError    // "parsing WIT dir {wit_dir}"
    | EncodeError      // "encoding package-docs"
    | ReencodeError    // "reencoding original component"

  datatype Args = Args(component: string, witDir: string, out: Option<string>, inplace: bool)

  /** The one write the injector makes: the module, to the path. */
  datatype WriteRequest = WriteRequest(path: string, sections: seq<Payload>)

  /** The module the injector writes: the input sections, then the documentation section. */
  function Assembled(stream: seq<Parsed>, payload: seq<byte>): (r: seq<Payload>)
    requires WellFormed(stream)
    ensures |r| == |stream| + 1 && r[..|stream|] == Payloads(stream)
    ensures r[|stream|] == CustomSection(PackageDocsName, payload)
  {
    Payloads(stream) + [CustomSection(PackageDocsName, payload)]
  }

  /**
    Reading back what was injected: when the input holds no `package-docs` section
    longer than one byte, the viewer finds the appended payload and parses it past its
    version byte; a payload of one byte or less reads as no documentation.
  */
  lemma {:induction false} ViewAfterInject(stream: seq<Parsed>, payload: seq<byte>, parse: seq<byte> -> Option<Value>)
    requires WellFormed(stream)
    requires forall j :: 0 <= j < |stream| ==> !IsDocsSection(stream[j].payload)
    ensures |payload| > 1 ==>
              PackageDocs(Items(Assembled(stream, payload)), parse)
              == (match parse(payload[1..]) case Some(v) => Ok(Some(v)) case None => Err(JsonParseError))
    ensures |payload| <= 1 ==> PackageDocs(Items(Assembled(stream, payload)), parse) == Ok(None)
  {
    var out := Items(Assembled(stream, payload));
    assert |out| == |stream| + 1;
    assert forall j :: 0 <= j < |stream| ==> out[j] == stream[j];
    assert out[|stream|] == Item(CustomSection(PackageDocsName, payload));
    if |payload| > 1 {
      PackageDocsFirstSection(out, parse, |stream|);
    } else {
      PackageDocsAbsent(out, parse);
    }
  }

  /**
    Injecting into a component that already holds a taken `package-docs` section
    leaves that older section the one the viewer reads: the appended one is never
    reached.
  */
  lemma ViewAfterInjectFindsEarlier(stream: seq<Parsed>, payload: seq<byte>, parse: seq<byte> -> Option<Value>, i: nat)
    requires WellFormed(stream) && i < |stream| && IsDocsSection(stream[i].payload)
    requires forall j :: 0 <= j < i ==> !IsDocsSection(stream[j].payload)
    ensures PackageDocs(Items(Assembled(stream, payload)), parse) == DecodeDocs(stream[i].payload.data, parse)
  {
    var out := Items(Assembled(stream, payload));
    assert forall j :: 0 <= j < |stream| ==> out[j] == stream[j];
    PackageDocsFirstSection(out, parse, i);
  }

  /**
    `main` of the injector. Reading the input, building the documentation payload
    (`push_dir`, `extract`, `encode`) and writing are outside the model: the input is
    given as the stream the parser yields (`None` when it cannot be read), the
    payload as its bytes or the error that stopped it. The result is the write that
    is made, which only happens when every earlier step succeeded.
  */
  method Inject(args: Args, input: Option<seq<Parsed>>, metadata: Result<seq<byte>, InjectError>)
    returns (r: Result<WriteRequest, InjectError>)
    ensures input.None? ==> r == Err(ReadError)
    ensures input.Some? && metadata.Err? ==> r == Err(metadata.error)
    ensures input.Some? && metadata.Ok? && !WellFormed(input.value) ==> r == Err(ReencodeError)
    ensures input.Some? && metadata.Ok? && WellFormed(input.value) ==>
      r == Ok(WriteRequest(OutputPath(args.component, args.out, args.inplace), Assembled(input.value, metadata.value)))
  {
    if input.None? {
      return Err(ReadError);
    }
    if metadata.Err? {
      return Err(metadata.error);
    }
    var payload := metadata.value;
    var outComp := new Component();
    var ok := outComp.ParseComponent(input.value);
    if !ok {
      return Err(ReencodeError);
    }
    assert outComp.sections == Payloads(input.value);
    outComp.Section(CustomSection(PackageDocsName, payload));
    var bytes := outComp.Finish();
    var outPath := OutputPath(args.component, args.out, args.inplace);
    return Ok(WriteRequest(outPath, bytes));
  }
}
