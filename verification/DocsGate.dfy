/** Recognising a diff that touches nothing but prose, from git's NUL-separated raw records. */
module DocsGate {
  import opened Options
  import opened Texts

  const DOCS_SUFFIX := ".md"
  const DOCS_ROOTS: seq<string> := ["docs/", ".planning/", "design/"]
  const DOCS_MODE := "100644"
  const EMPTY_MODE := "000000"
  const CLASSIFIABLE: set<char> := {'A', 'C', 'D', 'M', 'R'}
  const TWO_PATHS: set<char> := {'C', 'R'}

  /** A Markdown file at the root or in a directory the repository keeps prose in. */
  predicate IsDocsPath(path: string) {
    && EndsWith(path, DOCS_SUFFIX) && path != DOCS_SUFFIX
    && ".." !in Pieces(path, "")
    && ('/' !in path || exists i :: 0 <= i < |DOCS_ROOTS| && DOCS_ROOTS[i] <= path)
  }

  /** Which paths are prose: a name before ".md", nowhere a step up, and either no directory at all or
      one of the three that hold prose. */
  lemma {:induction false} DocsPathIff(path: string)
    ensures IsDocsPath(path) <==>
              && (exists name :: name != "" && path == name + ".md")
              && !(exists a, b :: PieceAt(path, a, "..", b))
              && ('/' !in path || "docs/" <= path || ".planning/" <= path || "design/" <= path)
  {
    PieceIff(path, "..");
    if EndsWith(path, ".md") && path != ".md" {
      var name := path[..|path| - 3];
      assert path == name + ".md" && name != "";
    }
    forall name | name != "" && path == name + ".md"
      ensures EndsWith(path, ".md") && path != ".md"
    {
    }
    assert DOCS_ROOTS[0] == "docs/" && DOCS_ROOTS[1] == ".planning/" && DOCS_ROOTS[2] == "design/";
  }

  /** One record of the stream: its header token and the path tokens after it. */
  datatype DiffRecord = DiffRecord(header: string, paths: seq<string>)

  /** A record header, but not that of a merge's combined record. */
  predicate IsHeader(header: string) {
    ":" <= header && !("::" <= header)
  }

  function Fields(header: string): seq<string>
    requires IsHeader(header)
  {
    Words(Space, header[1..], "")
  }

  /** The status letter, when the header has its five fields. */
  function StatusLetter(header: string): Option<char> {
    if IsHeader(header) && |Fields(header)| == 5 && Fields(header)[4] != "" then Some(Fields(header)[4][0]) else None
  }

  function PathCount(letter: char): nat {
    if letter in TWO_PATHS then 2 else 1
  }

  predicate AllowedMode(mode: string) {
    mode == DOCS_MODE || mode == EMPTY_MODE
  }

  predicate Classifiable(header: string) {
    StatusLetter(header).Some? && StatusLetter(header).value in CLASSIFIABLE
  }

  /** A prose edit: known status, plain modes, and prose on every end. */
  predicate IsProse(r: DiffRecord) {
    && Classifiable(r.header)
    && |r.paths| == PathCount(StatusLetter(r.header).value)
    && AllowedMode(Fields(r.header)[0]) && AllowedMode(Fields(r.header)[1])
    && forall i :: 0 <= i < |r.paths| ==> IsDocsPath(r.paths[i])
  }

  predicate AllProse(records: seq<DiffRecord>) {
    forall i :: 0 <= i < |records| ==> IsProse(records[i])
  }

  /** The token stream of some records. */
  function Tokens(records: seq<DiffRecord>): seq<string> {
    if records == [] then [] else [records[0].header] + records[0].paths + Tokens(records[1..])
  }

  function Paths(records: seq<DiffRecord>): seq<string> {
    if records == [] then [] else records[0].paths + Paths(records[1..])
  }

  lemma {:induction false} TokensAppend(records: seq<DiffRecord>, r: DiffRecord)
    ensures Tokens(records + [r]) == Tokens(records) + [r.header] + r.paths
    ensures Paths(records + [r]) == Paths(records) + r.paths
  {
    if records != [] {
      assert (records + [r])[0] == records[0] && (records + [r])[1..] == records[1..] + [r];
      TokensAppend(records[1..], r);
    } else {
      assert (records + [r])[1..] == [];
    }
  }

  /** A header says how many paths follow, so two streams that agree have the same first record. */
  lemma {:induction false} SameFirst(a: DiffRecord, b: DiffRecord, afterA: seq<string>, afterB: seq<string>)
    requires IsProse(a) && IsProse(b) && [a.header] + a.paths + afterA == [b.header] + b.paths + afterB
    ensures a == b && afterA == afterB
  {
    var tokens := [a.header] + a.paths + afterA;
    assert tokens[0] == a.header && tokens[0] == b.header;
    var n := 1 + |a.paths|;
    assert n == 1 + |b.paths|;
    assert tokens[1..n] == a.paths && tokens[1..n] == b.paths;
    assert tokens[n..] == afterA && tokens[n..] == afterB;
  }

  /** So prose records can be cut off the front one by one. */
  lemma {:induction false} ParseIsUnique(done: seq<DiffRecord>, all: seq<DiffRecord>, rest: seq<string>)
    requires AllProse(done) && AllProse(all) && Tokens(all) == Tokens(done) + rest
    ensures done <= all && Tokens(all[|done|..]) == rest
  {
    if done == [] {
      assert all[0..] == all && Tokens(done) + rest == rest;
    } else {
      assert all != [];
      assert Tokens(done) + rest == [done[0].header] + done[0].paths + (Tokens(done[1..]) + rest);
      SameFirst(done[0], all[0], Tokens(done[1..]) + rest, Tokens(all[1..]));
      ParseIsUnique(done[1..], all[1..], rest);
      assert all[1..][|done| - 1..] == all[|done|..];
    }
  }

  /** The stream is a non-empty list of prose records and nothing else. */
  ghost predicate IsProseStream(tokens: seq<string>) {
    tokens != [] && exists records :: AllProse(records) && Tokens(records) == tokens
  }

  /** A prose stream begins with a header: one colon, five fields, then one or two paths. */
  lemma {:induction false} StreamStarts(tokens: seq<string>)
    requires IsProseStream(tokens)
    ensures ":" <= tokens[0] && !("::" <= tokens[0]) && |Words(Space, tokens[0][1..], "")| == 5
    ensures |tokens| >= 2
  {
    var records: seq<DiffRecord> :| AllProse(records) && Tokens(records) == tokens;
    assert records != [] && tokens[0] == records[0].header && tokens[1] == records[0].paths[0];
    assert IsProse(records[0]);
  }

  /** The next prose record, if the tokens from `index` start with one. */
  function NextRecord(tokens: seq<string>, index: nat): Option<DiffRecord>
    requires index < |tokens|
  {
    var header := tokens[index];
    if !Classifiable(header) then None
    else
      var count := PathCount(StatusLetter(header).value);
      if index + 1 + count > |tokens| then None
      else
        var r := DiffRecord(header, tokens[index + 1..index + 1 + count]);
        if IsProse(r) then Some(r) else None
  }

  /** If the rest of the stream is prose records, its first one is what the loop reads next. */
  lemma {:induction false} NextOfStream(tokens: seq<string>, index: nat, rest: seq<DiffRecord>)
    requires index < |tokens| && AllProse(rest) && Tokens(rest) == tokens[index..]
    ensures NextRecord(tokens, index).Some?
  {
  }

  /** Accepts exactly the prose streams, whatever the input, and then returns the distinct paths in
      order. */
  method DocsOnly(raw: string) returns (r: Option<seq<string>>)
    ensures r.Some? <==> IsProseStream(Words(Nul, raw, ""))
    ensures forall records :: r.Some? && AllProse(records) && Tokens(records) == Words(Nul, raw, "") ==>
              IsSortedSet(r.value, Paths(records))
  {
    var tokens := Words(Nul, raw, "");
    if tokens == [] {
      return None;
    }
    var paths: seq<string> := [];
    ghost var records: seq<DiffRecord> := [];
    var index := 0;
    while index < |tokens|
      invariant index <= |tokens|
      invariant AllProse(records) && Tokens(records) == tokens[..index] && Paths(records) == paths
      decreases |tokens| - index
    {
      var next := NextRecord(tokens, index);
      if next.None? {
        RejectionIsRight(tokens, index, records);
        return None;
      }
      TokensAppend(records, next.value);
      records := records + [next.value];
      paths := paths + next.value.paths;
      index := index + 1 + |next.value.paths|;
    }
    assert tokens[..index] == tokens;
    SortedSetIs(paths);
    forall other | AllProse(other) && Tokens(other) == tokens
      ensures other == records
    {
      SameParse(records, other);
    }
    return Some(SortedSet(paths));
  }

  lemma {:induction false} SameParse(a: seq<DiffRecord>, b: seq<DiffRecord>)
    requires AllProse(a) && AllProse(b) && Tokens(a) == Tokens(b)
    ensures a == b
  {
    assert Tokens(b) == Tokens(a) + [];
    ParseIsUnique(a, b, []);
    assert Tokens(b[|a|..]) == [];
  }

  lemma {:induction false} RejectionIsRight(tokens: seq<string>, index: nat, records: seq<DiffRecord>)
    requires index < |tokens| && AllProse(records) && Tokens(records) == tokens[..index]
    requires NextRecord(tokens, index).None?
    ensures !IsProseStream(tokens)
  {
    if IsProseStream(tokens) {
      var all :| AllProse(all) && Tokens(all) == tokens;
      assert tokens == tokens[..index] + tokens[index..];
      ParseIsUnique(records, all, tokens[index..]);
      NextOfStream(tokens, index, all[|records|..]);
    }
  }

  // ----- diffs as git renders them -----

  /** One entry of `git diff --raw -z`. */
  datatype RawRecord = RawRecord(srcMode: string, dstMode: string, srcSha: string, dstSha: string,
                                 status: string, paths: seq<string>)

  predicate IsField(field: string) {
    IsWord(Space, field) && IsWord(Nul, field)
  }

  /** Fields without blanks, a mode that is not a colon, as many paths as the status has. */
  predicate WellFormed(r: RawRecord) {
    && IsField(r.srcMode) && IsField(r.dstMode) && IsField(r.srcSha) && IsField(r.dstSha) && IsField(r.status)
    && r.srcMode[0] != ':'
    && |r.paths| == (if r.status[0] in {'R', 'C'} then 2 else 1)
    && forall i :: 0 <= i < |r.paths| ==> IsWord(Nul, r.paths[i])
  }

  predicate AllWellFormed(raws: seq<RawRecord>) {
    forall i :: 0 <= i < |raws| ==> WellFormed(raws[i])
  }

  function Header(r: RawRecord): string {
    ":" + (r.srcMode + " " + (r.dstMode + " " + (r.srcSha + " " + (r.dstSha + " " + r.status))))
  }

  function ToRecord(r: RawRecord): DiffRecord {
    DiffRecord(Header(r), r.paths)
  }

  function ToRecords(raws: seq<RawRecord>): seq<DiffRecord> {
    if raws == [] then [] else [ToRecord(raws[0])] + ToRecords(raws[1..])
  }

  predicate AllTokens(tokens: seq<string>) {
    forall i :: 0 <= i < |tokens| ==> IsWord(Nul, tokens[i])
  }

  /** Tokens, each ended by a NUL. */
  function Terminated(tokens: seq<string>): string {
    if tokens == [] then "" else tokens[0] + [0 as char] + Terminated(tokens[1..])
  }

  /** Prose by its own fields. */
  predicate IsProseRaw(r: RawRecord)
    requires WellFormed(r)
  {
    && r.status[0] in {'A', 'C', 'D', 'M', 'R'}
    && r.srcMode in {"100644", "000000"} && r.dstMode in {"100644", "000000"}
    && forall i :: 0 <= i < |r.paths| ==> IsDocsPath(r.paths[i])
  }

  predicate AllProseRaw(raws: seq<RawRecord>)
    requires AllWellFormed(raws)
  {
    forall i :: 0 <= i < |raws| ==> IsProseRaw(raws[i])
  }

  /** The five fields of a rendered header come back. */
  lemma {:induction false} HeaderFields(r: RawRecord)
    requires WellFormed(r)
    ensures IsHeader(Header(r))
    ensures Fields(Header(r)) == [r.srcMode, r.dstMode, r.srcSha, r.dstSha, r.status]
  {
    var last := r.status;
    var fourth := r.dstSha + " " + last;
    var third := r.srcSha + " " + fourth;
    var second := r.dstMode + " " + third;
    var first := r.srcMode + " " + second;
    assert Header(r) == ":" + first;
    assert Header(r)[1..] == first;
    assert first[0] == r.srcMode[0];
    WordSplit(Space, r.srcMode, ' ', second);
    WordSplit(Space, r.dstMode, ' ', third);
    WordSplit(Space, r.srcSha, ' ', fourth);
    WordSplit(Space, r.dstSha, ' ', last);
    LastWord(Space, r.status);
  }

  /** A rendered record is a prose record exactly when its fields say so. */
  lemma {:induction false} ProseByFields(r: RawRecord)
    requires WellFormed(r)
    ensures IsProse(ToRecord(r)) <==> IsProseRaw(r)
    ensures Classifiable(Header(r)) ==> |r.paths| == PathCount(StatusLetter(Header(r)).value)
  {
    HeaderFields(r);
  }

  lemma {:induction false} TerminatedTokens(tokens: seq<string>)
    requires AllTokens(tokens)
    ensures Words(Nul, Terminated(tokens), "") == tokens
  {
    if tokens != [] {
      WordSplit(Nul, tokens[0], 0 as char, Terminated(tokens[1..]));
      TerminatedTokens(tokens[1..]);
    }
  }

  lemma {:induction false} HeaderIsToken(r: RawRecord)
    requires WellFormed(r)
    ensures IsWord(Nul, Header(r))
  {
  }

  lemma {:induction false} TokensAreWords(raws: seq<RawRecord>)
    requires AllWellFormed(raws)
    ensures AllTokens(Tokens(ToRecords(raws)))
  {
    if raws != [] {
      HeaderIsToken(raws[0]);
      TokensAreWords(raws[1..]);
      assert ToRecords(raws)[1..] == ToRecords(raws[1..]);
      assert Tokens(ToRecords(raws)) == [Header(raws[0])] + raws[0].paths + Tokens(ToRecords(raws[1..]));
    }
  }

  /** A stream of prose records can only be the records it was rendered from. */
  lemma {:induction false} ProseParse(prose: seq<DiffRecord>, raws: seq<RawRecord>)
    requires AllProse(prose) && Tokens(prose) == Tokens(ToRecords(raws))
    requires AllWellFormed(raws)
    ensures prose == ToRecords(raws)
  {
    var records := ToRecords(raws);
    if raws != [] {
      var tokens := Tokens(records);
      assert records[1..] == ToRecords(raws[1..]);
      assert tokens[0] == Header(raws[0]);
      assert prose != [];
      assert tokens[0] == prose[0].header;
      ProseByFields(raws[0]);
      var n := 1 + |raws[0].paths|;
      assert tokens[1..n] == raws[0].paths;
      assert tokens[1..n] == prose[0].paths;
      assert tokens[n..] == Tokens(records[1..]);
      assert tokens[n..] == Tokens(prose[1..]);
      ProseParse(prose[1..], raws[1..]);
    }
  }

  lemma {:induction false} ProseRecords(raws: seq<RawRecord>)
    requires AllWellFormed(raws)
    ensures |ToRecords(raws)| == |raws|
    ensures AllProse(ToRecords(raws)) <==> AllProseRaw(raws)
  {
    if raws != [] {
      var records := ToRecords(raws);
      ProseByFields(raws[0]);
      ProseRecords(raws[1..]);
      assert records[1..] == ToRecords(raws[1..]);
      assert AllProse(records) <==> IsProse(records[0]) && AllProse(records[1..]);
    }
  }

  /** What git writes for these entries. */
  function Rendered(raws: seq<RawRecord>): string {
    Terminated(Tokens(ToRecords(raws)))
  }

  /** Splitting what git wrote gives the records' tokens back. */
  lemma {:induction false} RenderedTokens(raws: seq<RawRecord>)
    requires AllWellFormed(raws)
    ensures Words(Nul, Rendered(raws), "") == Tokens(ToRecords(raws))
  {
    TokensAreWords(raws);
    TerminatedTokens(Tokens(ToRecords(raws)));
  }

  lemma {:induction false} ProseTokens(raws: seq<RawRecord>)
    requires AllWellFormed(raws) && IsProseStream(Tokens(ToRecords(raws)))
    ensures AllProse(ToRecords(raws))
  {
    var prose :| AllProse(prose) && Tokens(prose) == Tokens(ToRecords(raws));
    ProseParse(prose, raws);
  }

  /** On what git renders for any non-empty diff, acceptance means: every entry has a known status,
      plain modes, and prose on all its ends. */
  lemma {:induction false} RenderedDiff(raws: seq<RawRecord>)
    requires raws != [] && AllWellFormed(raws)
    ensures IsProseStream(Words(Nul, Rendered(raws), "")) <==> AllProseRaw(raws)
  {
    RenderedTokens(raws);
    ProseRecords(raws);
    if IsProseStream(Tokens(ToRecords(raws))) {
      ProseTokens(raws);
    }
  }

  /** An edit of a Markdown file, as git writes it. */
  function EditOf(path: string): RawRecord {
    RawRecord("100644", "100644", "a1b2c3", "d4e5f6", "M", [path])
  }

  lemma {:induction false} PlainFields()
    ensures IsField("100644") && IsField("a1b2c3") && IsField("d4e5f6") && IsField("M")
  {
  }

  /** One edited file at the root with a name before ".md" is prose, whatever the name; the same file in a
      directory that does not hold prose is not. */
  lemma {:induction false} OneEdit(name: string, directory: string)
    requires '/' !in name && IsWord(Nul, name)
    requires IsWord(Nul, directory) && '/' !in directory && directory !in {"docs", ".planning", "design"}
    ensures IsProseStream(Words(Nul, Rendered([EditOf(name + ".md")]), ""))
    ensures !IsProseStream(Words(Nul, Rendered([EditOf(directory + "/" + name + ".md")]), ""))
  {
    var root, inside := name + ".md", directory + "/" + name + ".md";
    PlainFields();
    RenderedDiff([EditOf(root)]);
    RenderedDiff([EditOf(inside)]);
    RootIsProse(name);
    ElsewhereIsNot(directory, name + ".md");
    assert inside == directory + "/" + (name + ".md");
    assert [EditOf(root)][0].paths[0] == root;
    assert [EditOf(inside)][0].paths[0] == inside;
  }

  lemma {:induction false} RootIsProse(name: string)
    requires name != "" && '/' !in name
    ensures IsDocsPath(name + ".md")
  {
    var path := name + ".md";
    DocsPathIff(path);
    assert '/' !in path && path[|path| - 1] == 'd';
    forall a, b
      ensures !PieceAt(path, a, "..", b)
    {
      var text := a + ".." + b;
      assert a != "" ==> text[|a| - 1] == a[|a| - 1];
      assert b != "" ==> text[|a| + 2] == b[0];
      assert b == "" ==> text[|text| - 1] == '.';
    }
  }

  lemma {:induction false} ElsewhereIsNot(directory: string, name: string)
    requires directory != "" && '/' !in directory && directory !in {"docs", ".planning", "design"}
    ensures !IsDocsPath(directory + "/" + name)
  {
    var path := directory + "/" + name;
    DocsPathIff(path);
    assert path[|directory|] == '/';
    assert "docs" + "/" == "docs/" && ".planning" + "/" == ".planning/" && "design" + "/" == "design/";
    FirstDirectory(path, directory, name, "docs");
    FirstDirectory(path, directory, name, ".planning");
    FirstDirectory(path, directory, name, "design");
  }

  lemma {:induction false} FirstDirectory(path: string, directory: string, name: string, root: string)
    requires path == directory + "/" + name && '/' !in directory && '/' !in root
    ensures root + "/" <= path ==> directory == root
  {
    assert path[|directory|] == '/' && path[..|directory|] == directory;
    if root + "/" <= path {
      var text := root + "/";
      assert path[..|text|] == text && path[|root|] == text[|root|] == '/';
      assert |directory| == |root|;
      assert path[..|root|] == text[..|root|] == root;
    }
  }
}
