/** File names for snapshots: percent-encoding by three replacements, and the decoder that makes it reversible. */
module PathNames {
  import opened Basics

  /** `str::replace` of one character. */
  function Replace(s: string, c: char, text: string): string {
    if s == [] then [] else (if s[0] == c then text else [s[0]]) + Replace(s[1..], c, text)
  }

  function Encode(s: string): string {
    Replace(Replace(Replace(s, '%', "%25"), '/', "%2F"), '\\', "%5C")
  }

  predicate IsLetter(c: char) { 'a' <= c <= 'z' || 'A' <= c <= 'Z' }

  /** The path without its root: a leading slash, or else a drive prefix. */
  function Strip(path: string): string {
    if path != [] && path[0] == '/' then path[1..]
    else if |path| >= 3 && IsLetter(path[0]) && path[1] == ':' && (path[2] == '\\' || path[2] == '/') then path[3..]
    else path
  }

  function SanitizePath(path: string): string {
    Encode(Strip(path))
  }

  /** The roots: a slash, or a drive letter with a colon and either slash. Anything else stays. */
  lemma RootsAreStripped(path: string, drive: char)
    ensures Strip("/" + path) == path
    ensures 'a' <= drive <= 'z' || 'A' <= drive <= 'Z' ==>
              Strip([drive, ':', '/'] + path) == path && Strip([drive, ':', '\\'] + path) == path
    ensures |path| > 0 && path[0] != '/' && (|path| < 3 || path[1] != ':') ==> Strip(path) == path
  {
    assert ("/" + path)[1..] == path;
    assert ([drive, ':', '/'] + path)[3..] == path && ([drive, ':', '\\'] + path)[3..] == path;
  }

  // --- one encoding per character -------------------------------------------------------------------------------

  function EncodeChar(c: char): string {
    if c == '%' then "%25" else if c == '/' then "%2F" else if c == '\\' then "%5C" else [c]
  }

  function EncodeAll(s: string): string {
    if s == [] then [] else EncodeChar(s[0]) + EncodeAll(s[1..])
  }

  lemma {:induction false} ReplaceAppend(a: string, b: string, c: char, text: string)
    ensures Replace(a + b, c, text) == Replace(a, c, text) + Replace(b, c, text)
  {
    if a == [] {
      assert a + b == b;
    } else {
      var rest := a[1..];
      ReplaceAppend(rest, b, c, text);
      assert (a + b)[1..] == rest + b;
      Associative(if a[0] == c then text else [a[0]], Replace(rest, c, text), Replace(b, c, text));
    }
  }

  lemma {:induction false} ReplaceAbsent(s: string, c: char, text: string)
    requires c !in s
    ensures Replace(s, c, text) == s
  {
    if s != [] {
      ReplaceAbsent(s[1..], c, text);
      assert s == [s[0]] + s[1..];
    }
  }

  lemma ReplaceOne(c: char, d: char, text: string)
    ensures Replace([c], d, text) == if c == d then text else [c]
  {
    assert [c][1..] == [];
  }

  /** The three replacements do not touch what an earlier one wrote. */
  lemma EncodeOne(c: char)
    ensures Replace(Replace(if c == '%' then "%25" else [c], '/', "%2F"), '\\', "%5C") == EncodeChar(c)
  {
    if c == '%' {
      ReplaceAbsent("%25", '/', "%2F");
      ReplaceAbsent("%25", '\\', "%5C");
    } else {
      ReplaceOne(c, '/', "%2F");
      if c == '/' {
        ReplaceAbsent("%2F", '\\', "%5C");
      } else {
        ReplaceOne(c, '\\', "%5C");
      }
    }
  }

  lemma {:induction false} EncodeIsPerCharacter(s: string)
    ensures Encode(s) == EncodeAll(s)
  {
    if s != [] {
      EncodeIsPerCharacter(s[1..]);
      var first, rest := if s[0] == '%' then "%25" else [s[0]], Replace(s[1..], '%', "%25");
      ReplaceAppend(first, rest, '/', "%2F");
      ReplaceAppend(Replace(first, '/', "%2F"), Replace(rest, '/', "%2F"), '\\', "%5C");
      EncodeOne(s[0]);
    }
  }

  // --- and back ---------------------------------------------------------------------------------------------------

  function Decode(s: string): string
    decreases |s|
  {
    if s == [] then []
    else if s[0] == '%' && |s| >= 3 then
      [if s[1] == '2' && s[2] == '5' then '%' else if s[1] == '2' then '/' else '\\'] + Decode(s[3..])
    else [s[0]] + Decode(s[1..])
  }

  lemma DecodeStep(c: char, rest: string)
    ensures Decode(EncodeChar(c) + rest) == [c] + Decode(rest)
  {
    var s := EncodeChar(c) + rest;
    if c == '%' || c == '/' || c == '\\' {
      assert s[3..] == rest;
    } else {
      assert s[1..] == rest;
    }
  }

  lemma {:induction false} DecodeEncoded(s: string)
    ensures Decode(EncodeAll(s)) == s
  {
    if s != [] {
      DecodeEncoded(s[1..]);
      DecodeStep(s[0], EncodeAll(s[1..]));
      assert s == [s[0]] + s[1..];
    }
  }

  lemma {:induction false} EncodedIsFlat(s: string)
    ensures '/' !in EncodeAll(s) && '\\' !in EncodeAll(s)
  {
    if s != [] {
      EncodedIsFlat(s[1..]);
    }
  }

  /** A name holds no separator, and two paths share one exactly when they differ only in their root. */
  lemma NamesAreFlatAndFaithful(p: string, q: string)
    ensures '/' !in SanitizePath(p) && '\\' !in SanitizePath(p)
    ensures SanitizePath(p) == SanitizePath(q) <==> Strip(p) == Strip(q)
  {
    EncodeIsPerCharacter(Strip(p));
    EncodeIsPerCharacter(Strip(q));
    EncodedIsFlat(Strip(p));
    DecodeEncoded(Strip(p));
    DecodeEncoded(Strip(q));
  }

  lemma {:induction false} EncodeAppend(a: string, b: string)
    ensures EncodeAll(a + b) == EncodeAll(a) + EncodeAll(b)
  {
    if a == [] {
      assert a + b == b;
    } else {
      EncodeAppend(a[1..], b);
      assert (a + b)[0] == a[0] && (a + b)[1..] == a[1..] + b;
      Associative(EncodeChar(a[0]), EncodeAll(a[1..]), EncodeAll(b));
    }
  }

  lemma EncodeAllAt(a: string, c: char, b: string)
    ensures EncodeAll(a + [c] + b) == EncodeAll(a) + EncodeChar(c) + EncodeAll(b)
  {
    EncodeAppend(a + [c], b);
    EncodeAppend(a, [c]);
    assert [c][1..] == [] && EncodeAll([c]) == EncodeChar(c);
  }

  lemma EncodeAt(a: string, c: char, b: string)
    ensures Encode(a + [c] + b) == Encode(a) + EncodeChar(c) + Encode(b)
  {
    EncodeIsPerCharacter(a);
    EncodeIsPerCharacter(b);
    EncodeIsPerCharacter(a + [c] + b);
    EncodeAllAt(a, c, b);
  }

  /** How a name is written on disk: each of the three characters by its own escape, every other as it is. */
  lemma NameOnDisk(a: string, c: char, b: string)
    ensures Encode(a + "/" + b) == Encode(a) + "%2F" + Encode(b)
    ensures Encode(a + "%" + b) == Encode(a) + "%25" + Encode(b)
    ensures Encode(a + "\\" + b) == Encode(a) + "%5C" + Encode(b)
    ensures c != '/' && c != '%' && c != '\\' ==> Encode(a + [c] + b) == Encode(a) + [c] + Encode(b)
  {
    EncodeAt(a, '/', b);
    EncodeAt(a, '%', b);
    EncodeAt(a, '\\', b);
    EncodeAt(a, c, b);
  }

  predicate Absolute(path: string) { path != [] && path[0] == '/' }

  /** So absolute paths have names of their own. */
  lemma AbsoluteNamesDiffer(p: string, q: string)
    requires Absolute(p) && Absolute(q) && SanitizePath(p) == SanitizePath(q)
    ensures p == q
  {
    NamesAreFlatAndFaithful(p, q);
    assert p == ['/'] + p[1..] && q == ['/'] + q[1..];
  }
}

/** Snapshots of files before their first edit: the first content seen of a file is the one that is kept. */
module Snapshots {
  import opened Basics
  import opened PathNames

  const MANIFEST: string := "manifest.json"

  /** A file of the session directory: a saved content, or the manifest with the names it lists. */
  datatype File = Content(bytes: string) | Manifest(names: set<string>)

  type Directory = map<string, File>

  datatype State = State(files: Directory, manifest: set<string>)

  /** The manifest a fresh store loads; anything else under its name does not parse. */
  function Load(files: Directory): Option<set<string>> {
    if MANIFEST !in files then Some({})
    else if files[MANIFEST].Manifest? then Some(files[MANIFEST].names) else None
  }

  /** The names under which a directory can hold a file. */
  predicate IsFileName(name: string) {
    name != "" && name != "." && name != ".."
  }

  /** Writing fails where no file can be, before anything is recorded. */
  function Ensured(s: State, path: string, content: string): State {
    var name := SanitizePath(path);
    if name in s.manifest || !IsFileName(name) then s
    else
      var names := s.manifest + {name};
      State(s.files[name := Content(content)][MANIFEST := Manifest(names)], names)
  }

  predicate Synced(s: State) { Load(s.files) == Some(s.manifest) }

  class SnapshotStore {
    var files: Directory
    var manifest: set<string>

    function Now(): State
      reads this
    {
      State(files, manifest)
    }

    constructor (files: Directory, manifest: set<string>)
      ensures Now() == State(files, manifest)
    {
      this.files, this.manifest := files, manifest;
    }

    /** Whether a snapshot was made, or nothing if it could not be written. */
    method EnsureSnapshot(path: string, content: string) returns (created: Option<bool>)
      modifies this
      ensures Now() == Ensured(old(Now()), path, content)
      ensures old(Synced(Now())) ==> Synced(Now())
      ensures created == if SanitizePath(path) in old(manifest) then Some(false)
                         else if IsFileName(SanitizePath(path)) then Some(true) else None
    {
      var name := SanitizePath(path);
      if name in manifest {
        return Some(false);
      }
      if !IsFileName(name) {
        return None;
      }
      files := files[name := Content(content)];
      manifest := manifest + {name};
      SaveManifest();
      created := Some(true);
    }

    method SaveManifest()
      modifies this`files
      ensures files == old(files)[MANIFEST := Manifest(manifest)]
    {
      files := files[MANIFEST := Manifest(manifest)];
    }
  }

  /** Opening fails exactly when something else than a manifest has its name. */
  method Open(dir: Directory) returns (store: SnapshotStore?)
    ensures store == null <==> Load(dir).None?
    ensures store != null ==> fresh(store) && store.files == dir && Synced(store.Now())
  {
    var manifest := Load(dir);
    if manifest.None? {
      return null;
    }
    store := new SnapshotStore(dir, manifest.value);
  }

  // --- runs ---------------------------------------------------------------------------------------------------------

  datatype Op = Ensure(path: string, content: string) | Reopen

  function Step(s: State, op: Op): State {
    match op
    case Ensure(path, content) => Ensured(s, path, content)
    case Reopen => if Load(s.files).Some? then s.(manifest := Load(s.files).value) else s
  }

  /** A session from an empty directory on. */
  function Run(ops: seq<Op>): State {
    if ops == [] then State(map[], {}) else Step(Run(ops[..|ops| - 1]), ops[|ops| - 1])
  }

  /** The content of the first snapshot asked for under a name. */
  function FirstContent(ops: seq<Op>, name: string): Option<string> {
    if ops == [] then None
    else
      var before, op := FirstContent(ops[..|ops| - 1], name), ops[|ops| - 1];
      if before.None? && op.Ensure? && SanitizePath(op.path) == name then Some(op.content) else before
  }

  function Stored(s: State, name: string): Option<string> {
    if name in s.files && s.files[name].Content? then Some(s.files[name].bytes) else None
  }

  /** Under every file name but the manifest's, the directory keeps the first content of the session. */
  lemma {:induction false} RunKeepsFirst(ops: seq<Op>, name: string)
    ensures Synced(Run(ops))
    ensures name in Run(ops).manifest <==> IsFileName(name) && FirstContent(ops, name).Some?
    ensures IsFileName(name) && name != MANIFEST ==> Stored(Run(ops), name) == FirstContent(ops, name)
    ensures !IsFileName(name) || name == MANIFEST ==> Stored(Run(ops), name) == None
  {
    if ops != [] {
      RunKeepsFirst(ops[..|ops| - 1], name);
    }
  }

  /** The first content of a path, however it was named. */
  function FirstOf(ops: seq<Op>, path: string): Option<string> {
    if ops == [] then None
    else
      var before, op := FirstOf(ops[..|ops| - 1], path), ops[|ops| - 1];
      if before.None? && op.Ensure? && op.path == path then Some(op.content) else before
  }

  ghost predicate AbsoluteOnly(ops: seq<Op>) {
    forall i :: 0 <= i < |ops| && ops[i].Ensure? ==> Absolute(ops[i].path)
  }

  lemma {:induction false} FirstByName(ops: seq<Op>, path: string)
    requires AbsoluteOnly(ops) && Absolute(path)
    ensures FirstContent(ops, SanitizePath(path)) == FirstOf(ops, path)
  {
    if ops != [] {
      var op := ops[|ops| - 1];
      FirstByName(ops[..|ops| - 1], path);
      if op.Ensure? && SanitizePath(op.path) == SanitizePath(path) {
        AbsoluteNamesDiffer(op.path, path);
      }
    }
  }

  predicate NeedsNoEncoding(s: string) {
    forall i :: 0 <= i < |s| ==> s[i] != '%' && s[i] != '/' && s[i] != '\\'
  }

  lemma PlainName(path: string, name: string)
    requires Absolute(path) && NeedsNoEncoding(name)
    ensures SanitizePath(path) == name <==> path == ['/'] + name
  {
    var stripped := path[1..];
    EncodeIsPerCharacter(stripped);
    DecodeEncoded(stripped);
    NothingToEncode(name);
    DecodeEncoded(name);
    assert path == ['/'] + stripped;
    assert (['/'] + name)[1..] == name;
  }

  /** The paths of the root directory itself. */
  predicate IsRoot(path: string) {
    path == "/" || path == "/." || path == "/.."
  }

  lemma RootName(path: string)
    requires Absolute(path)
    ensures IsFileName(SanitizePath(path)) <==> !IsRoot(path)
  {
    PlainName(path, "");
    PlainName(path, ".");
    PlainName(path, "..");
    assert ['/'] + "" == "/" && ['/'] + "." == "/." && ['/'] + ".." == "/..";
  }

  lemma ManifestName(path: string)
    requires Absolute(path)
    ensures SanitizePath(path) == MANIFEST <==> path == "/manifest.json"
  {
    PlainName(path, MANIFEST);
    assert ['/'] + MANIFEST == "/manifest.json";
  }

  lemma {:induction false} NothingToEncode(s: string)
    requires NeedsNoEncoding(s)
    ensures EncodeAll(s) == s
  {
    if s != [] {
      NothingToEncode(s[1..]);
      assert s == [s[0]] + s[1..];
    }
  }

  /**
   In every session over absolute paths, a snapshotted path keeps the content of its first snapshot, unless no file can
   have it, or its name is that of the manifest, which overwrites it.
   */
  lemma FirstSnapshotWins(ops: seq<Op>, path: string)
    requires AbsoluteOnly(ops) && Absolute(path) && FirstOf(ops, path).Some?
    ensures Stored(Run(ops), SanitizePath(path)) == FirstOf(ops, path) <==> path != "/manifest.json" && !IsRoot(path)
  {
    RunKeepsFirst(ops, SanitizePath(path));
    FirstByName(ops, path);
    ManifestName(path);
    RootName(path);
  }
}
