/** From a coverage-map report and a diff to a verdict: run a measured selection, run the prose
    guards, escalate to the full suite, or fail. Git, the coverage tool and the disk are answers
    in `Repo`. */
module Selector {
  import opened Options
  import opened Texts
  import opened DocsGate
  import Manifests

  const CHANGED_TEST := "changed-test"
  const GUESSES: set<string> := {"call-graph", "import-graph", "filename-pattern"}
  const CONTEXT_SUFFIXES: seq<string> := ["|run", "|setup", "|teardown"]

  // ----- node ids -----

  /** Drops a known coverage-context suffix. */
  function StripContext(id: string): string {
    if EndsWith(id, CONTEXT_SUFFIXES[0]) then id[..|id| - |CONTEXT_SUFFIXES[0]|]
    else if EndsWith(id, CONTEXT_SUFFIXES[1]) then id[..|id| - |CONTEXT_SUFFIXES[1]|]
    else if EndsWith(id, CONTEXT_SUFFIXES[2]) then id[..|id| - |CONTEXT_SUFFIXES[2]|]
    else id
  }

  lemma {:induction false} Appended(id: string, suffix: string)
    ensures EndsWith(id + suffix, suffix) && (id + suffix)[..|id + suffix| - |suffix|] == id
  {
  }

  /** One differing character rules a suffix out. */
  lemma {:induction false} OtherEnding(s: string, suffix: string, i: nat)
    requires i < |suffix| <= |s| && s[|s| - |suffix| + i] != suffix[i]
    ensures !EndsWith(s, suffix)
  {
  }

  /** Every known suffix comes off again, whatever it was put on. */
  lemma {:induction false} SuffixComesOff(id: string)
    ensures StripContext(id + "|run") == id
    ensures StripContext(id + "|setup") == id
    ensures StripContext(id + "|teardown") == id
  {
    Appended(id, "|run");
    Appended(id, "|setup");
    Appended(id, "|teardown");
    OtherEnding(id + "|setup", "|run", 3);
    OtherEnding(id + "|teardown", "|run", 0);
    OtherEnding(id + "|teardown", "|setup", 0);
  }

  /** Anything else is left alone. */
  lemma {:induction false} OtherSuffixStays(id: string)
    requires !EndsWith(id, "|run") && !EndsWith(id, "|setup") && !EndsWith(id, "|teardown")
    ensures StripContext(id) == id
  {
  }

  /** The text after the last slash. */
  function BaseName(path: string): string {
    if '/' !in path then path
    else if path[0] == '/' && '/' !in path[1..] then path[1..]
    else BaseName(path[1..])
  }

  /** A path is its directory part, empty or ending in a slash, and then its slash-free base name. */
  lemma {:induction false} BaseNameIs(path: string) returns (directory: string)
    ensures path == directory + BaseName(path) && '/' !in BaseName(path)
    ensures directory == "" || directory[|directory| - 1] == '/'
  {
    if '/' !in path {
      directory := "";
    } else if path[0] == '/' && '/' !in path[1..] {
      directory := "/";
    } else {
      var rest := BaseNameIs(path[1..]);
      directory := [path[0]] + rest;
      assert path == [path[0]] + path[1..];
    }
  }

  /** And there is only one way to cut it so. */
  lemma {:induction false} BaseNameUnique(directory: string, name: string)
    requires '/' !in name && (directory == "" || directory[|directory| - 1] == '/')
    ensures BaseName(directory + name) == name
  {
    var path := directory + name;
    if directory == "" {
      assert path == name;
    } else {
      assert path[|directory| - 1] == '/';
      assert path[1..] == directory[1..] + name;
      if |directory| > 1 {
        assert directory[1..][|directory| - 2] == '/';
        assert path[1..][|directory| - 2] == '/';
      } else {
        assert path[1..] == name;
      }
      BaseNameUnique(directory[1..], name);
    }
  }

  /** A path pytest can collect: Python, under tests/, with a test module's name. */
  predicate IsCollectable(path: string) {
    var file := Manifests.FilePart(path);
    && EndsWith(file, ".py")
    && "tests/" <= file
    && ("test_" <= BaseName(file) || EndsWith(BaseName(file), "_test.py"))
  }

  /** The name of a test module: "test_", anything, ".py", or anything, "_test.py". */
  ghost predicate TestName(name: string) {
    || (exists x :: name == "test_" + x + ".py")
    || (exists x :: name == x + "_test.py")
  }

  /** Which paths those are: before the first "::", a place under tests/ and the name of a test module. */
  lemma {:induction false} CollectableIff(path: string)
    ensures IsCollectable(path) <==>
              && "tests/" <= Manifests.FilePart(path)
              && exists directory, name ::
                   InDirectory(Manifests.FilePart(path), directory, name) && TestName(name)
  {
    var file := Manifests.FilePart(path);
    var directory := BaseNameIs(file);
    assert InDirectory(file, directory, BaseName(file));
    if IsCollectable(path) {
      CollectedName(file, BaseName(file), directory);
    }
    forall directory, name | InDirectory(file, directory, name) && TestName(name)
      ensures EndsWith(file, ".py") && ("test_" <= BaseName(file) || EndsWith(BaseName(file), "_test.py"))
    {
      BaseNameUnique(directory, name);
      NamedTest(file, directory, name);
    }
  }

  ghost predicate InDirectory(file: string, directory: string, name: string) {
    file == directory + name && '/' !in name && (directory == "" || directory[|directory| - 1] == '/')
  }

  lemma {:induction false} CollectedName(file: string, name: string, directory: string)
    requires file == directory + name && EndsWith(file, ".py") && (directory == "" || directory[|directory| - 1] == '/')
    requires "test_" <= name || EndsWith(name, "_test.py")
    ensures TestName(name)
  {
    var n := |name|;
    if EndsWith(name, "_test.py") {
      assert name == name[..n - 8] + "_test.py";
    } else {
      assert file[|file| - 3] == '.' && file[|file| - 2] == 'p' && file[|file| - 1] == 'y';
      assert name[4] == "test_"[4] == '_';
      assert name[n - 3] == '.' && name[n - 2] == 'p' && name[n - 1] == 'y';
      assert name[..5] == "test_" && name[3] == 't' && name[2] == 's';
      assert n >= 8;
      assert name[n - 3..] == ".py";
      assert name == "test_" + name[5..n - 3] + ".py";
    }
  }

  lemma {:induction false} NamedTest(file: string, directory: string, name: string)
    requires file == directory + name && TestName(name)
    ensures EndsWith(file, ".py") && ("test_" <= name || EndsWith(name, "_test.py"))
  {
    if x :| name == "test_" + x + ".py" {
      assert name[|name| - 3..] == ".py";
      assert file[|file| - 3..] == ".py";
    } else {
      var x :| name == x + "_test.py";
      assert name[|name| - 8..] == "_test.py";
      assert name[|name| - 3..] == ".py";
      assert file[|file| - 3..] == ".py";
    }
  }

  // ----- the coverage tool's report -----

  /** A test inferred for a changed file, with the label saying how. */
  datatype Inferred = Inferred(via: Option<string>, testFile: string)

  /** A test measured to execute changed lines of these sources. */
  datatype Impacted = Impacted(testId: string, sources: seq<string>)

  datatype Report = Report(noIndex: bool, mapEmpty: bool, unknown: seq<string>,
                           inferred: seq<Inferred>, impacted: seq<Impacted>, changedFiles: int)

  datatype Verdict = Escalate | Fail

  datatype Selection = Selected(ids: seq<string>, sources: set<string>) | Refuse(verdict: Verdict)

  predicate IsFact(g: Inferred) {
    g.via == Some(CHANGED_TEST)
  }

  predicate IsGuess(g: Inferred) {
    g.via.Some? && g.via.value in GUESSES
  }

  /** Nothing in the report is a guess, unknown, unlabelled or not a test module. */
  predicate Trustworthy(report: Report) {
    && !report.noIndex && !report.mapEmpty && report.unknown == []
    && forall g :: g in report.inferred ==> IsFact(g) && IsCollectable(g.testFile)
  }

  /** The id is measured by coverage, or is a test file the change itself edits. */
  ghost predicate Backed(report: Report, id: string) {
    || (exists e :: e in report.impacted && id == StripContext(e.testId))
    || (exists g :: g in report.inferred && id == g.testFile)
  }

  ghost predicate Covered(report: Report, source: string) {
    exists e :: e in report.impacted && source in e.sources
  }

  function MeasuredIds(impacted: seq<Impacted>): (ids: seq<string>)
    ensures |ids| == |impacted| && forall i :: 0 <= i < |ids| ==> ids[i] == StripContext(impacted[i].testId)
  {
    seq(|impacted|, i requires 0 <= i < |impacted| => StripContext(impacted[i].testId))
  }

  function EditedIds(inferred: seq<Inferred>): (ids: seq<string>)
    ensures |ids| == |inferred| && forall i :: 0 <= i < |ids| ==> ids[i] == inferred[i].testFile
  {
    seq(|inferred|, i requires 0 <= i < |inferred| => inferred[i].testFile)
  }

  /** Node ids before removing duplicates: measured ones first. */
  function NodeIds(report: Report): seq<string> {
    MeasuredIds(report.impacted) + EditedIds(report.inferred)
  }

  /** Measured ids come first, in the report's order, then the edited files in theirs. */
  lemma {:induction false} NodeIdsInOrder(report: Report, i: nat)
    requires i < |report.impacted| + |report.inferred|
    ensures |NodeIds(report)| == |report.impacted| + |report.inferred|
    ensures NodeIds(report)[i] == if i < |report.impacted| then StripContext(report.impacted[i].testId)
                                  else report.inferred[i - |report.impacted|].testFile
  {
  }

  lemma {:induction false} NodeIdsAreBacked(report: Report, id: string)
    ensures id in NodeIds(report) <==> Backed(report, id)
  {
  }

  /** `at` says where in `ids` each element of `unique` stands for the first time. */
  ghost predicate FirstSeenAt(unique: seq<string>, ids: seq<string>, at: seq<nat>) {
    && Manifests.Embeds(unique, ids, at)
    && forall j, m :: 0 <= j < |at| && 0 <= m < at[j] ==> ids[m] != unique[j]
  }

  /** First occurrences in their order. */
  ghost predicate FirstSeen(unique: seq<string>, ids: seq<string>) {
    exists at :: FirstSeenAt(unique, ids, at)
  }

  /** Removes duplicates, keeping first occurrences in order. */
  method Deduplicate(ids: seq<string>) returns (unique: seq<string>)
    ensures Manifests.NoDuplicates(unique)
    ensures forall id :: id in unique <==> id in ids
    ensures FirstSeen(unique, ids)
  {
    unique := [];
    var seen: set<string> := {};
    ghost var at: seq<nat> := [];
    for i := 0 to |ids|
      invariant FirstSeenAt(unique, ids, at) && forall j :: 0 <= j < |at| ==> at[j] < i
      invariant forall id :: id in seen <==> id in unique
      invariant forall id :: id in unique <==> id in ids[..i]
      invariant Manifests.NoDuplicates(unique)
    {
      assert ids[..i + 1] == ids[..i] + [ids[i]];
      if ids[i] !in seen {
        seen := seen + {ids[i]};
        unique := unique + [ids[i]];
        at := at + [i];
      }
    }
    assert ids[..|ids|] == ids;
  }

  method CoveredSources(impacted: seq<Impacted>) returns (sources: set<string>)
    ensures forall s :: s in sources <==> exists e :: e in impacted && s in e.sources
  {
    sources := {};
    for i := 0 to |impacted|
      invariant forall s :: s in sources <==> exists j :: 0 <= j < i && s in impacted[j].sources
    {
      sources := sources + set s | s in impacted[i].sources;
    }
    forall s
      ensures s in sources <==> exists e :: e in impacted && s in e.sources
    {
      if s in sources {
        var j :| 0 <= j < |impacted| && s in impacted[j].sources;
        assert impacted[j] in impacted;
      }
    }
  }

  /** Something changed and the report names no test at all. */
  predicate Silent(report: Report) {
    report.changedFiles != 0 && NodeIds(report) == []
  }

  /** Selects exactly the backed ids of a trustworthy report, and refuses every other report. */
  method Classify(report: Report) returns (r: Selection)
    ensures r.Selected? <==> Trustworthy(report) && !Silent(report)
    ensures r.Selected? <==>
              && !report.noIndex && !report.mapEmpty && report.unknown == []
              && (forall g :: g in report.inferred ==> g.via == Some("changed-test") && IsCollectable(g.testFile))
              && (report.changedFiles == 0 || report.impacted != [] || report.inferred != [])
    ensures r.Selected? ==>
              && Manifests.NoDuplicates(r.ids) && FirstSeen(r.ids, NodeIds(report))
              && (forall id :: id in r.ids <==> Backed(report, id))
              && (forall s :: s in r.sources <==> Covered(report, s))
    ensures r == Refuse(Fail) <==> Trustworthy(report) && Silent(report)
  {
    if report.noIndex { return Refuse(Escalate); }
    if report.mapEmpty { return Refuse(Escalate); }
    if report.unknown != [] { return Refuse(Escalate); }
    if exists g :: g in report.inferred && IsGuess(g) { return Refuse(Escalate); }
    if exists g :: g in report.inferred && !IsGuess(g) && !IsFact(g) { return Refuse(Escalate); }
    if exists g :: g in report.inferred && IsFact(g) && !IsCollectable(g.testFile) { return Refuse(Escalate); }
    assert Trustworthy(report);
    var sources := CoveredSources(report.impacted);
    var ids := Deduplicate(NodeIds(report));
    forall id
      ensures id in ids <==> Backed(report, id)
    {
      NodeIdsAreBacked(report, id);
    }
    assert NodeIds(report) != [] ==> NodeIds(report)[0] in ids;
    assert ids != [] ==> ids[0] in NodeIds(report);
    if report.changedFiles != 0 && ids == [] { return Refuse(Fail); }
    return Selected(ids, sources);
  }

  // ----- the repository's answers -----

  datatype ShaKind = Unknown | NotACommit | Commit

  /** What git, the coverage tool and the disk answer. `gitWorks` is about the tree, HEAD, the merge
      base and the diff, `cloneFound` about where the main clone is; `toolFound` says that the coverage
      tool is installed. A missing report is one the tool could not produce. `moved` are the files
      other commits changed after the map was built, `unlogged` those git cannot say that of. */
  datatype Repo = Repo(dirty: bool, gitWorks: bool, cloneFound: bool, indexed: bool, toolFound: bool,
                       statusWorks: bool, pairs: nat, mapSha: string, shaKind: ShaKind, report: Option<Report>,
                       moved: set<string>, unlogged: set<string>, files: set<string>)

  /** There is a dated map and the tool reported from it. */
  predicate HasMap(repo: Repo) {
    && repo.cloneFound && repo.indexed && repo.toolFound && repo.statusWorks
    && repo.pairs > 0 && repo.mapSha != "" && repo.report.Some?
  }

  /** Git cannot say what the map's commit is, or whether a source it covers has moved since. */
  ghost predicate Undatable(repo: Repo)
    requires repo.report.Some?
  {
    || repo.shaKind == Unknown
    || (repo.shaKind == Commit && exists s :: Covered(repo.report.value, s) && s in repo.unlogged)
  }

  /** Asking the map goes wrong rather than finding it wanting: no clone, an index but no tool to read
      it, or a trusted map that names no test for a change or cannot be dated. */
  ghost predicate MapFails(repo: Repo) {
    || !repo.cloneFound
    || (repo.indexed && !repo.toolFound)
    || (HasMap(repo) && Trustworthy(repo.report.value) && (Silent(repo.report.value) || Undatable(repo)))
  }

  /** The map can speak for this change: it exists, is dated, trusted, names something, and is not
      stale for any source or test it names. */
  ghost predicate MapSpeaks(repo: Repo) {
    && HasMap(repo)
    && Trustworthy(repo.report.value)
    && !Silent(repo.report.value)
    && repo.shaKind == Commit
    && (forall s :: Covered(repo.report.value, s) ==> s !in repo.moved && s !in repo.unlogged)
    && (forall id :: Backed(repo.report.value, id) ==> Manifests.FilePart(id) in repo.files)
  }

  method Select(repo: Repo) returns (r: Selection)
    ensures r.Selected? <==> !repo.dirty && repo.gitWorks && MapSpeaks(repo)
    ensures r.Selected? ==>
              && Manifests.NoDuplicates(r.ids) && FirstSeen(r.ids, NodeIds(repo.report.value))
              && forall id :: id in r.ids <==> Backed(repo.report.value, id)
    ensures r == Refuse(Fail) <==> repo.dirty || !repo.gitWorks || MapFails(repo)
  {
    if repo.dirty || !repo.gitWorks { return Refuse(Fail); }
    if !repo.cloneFound { return Refuse(Fail); }
    if !repo.indexed { return Refuse(Escalate); }
    if !repo.toolFound { return Refuse(Fail); }
    if !repo.statusWorks || repo.pairs == 0 || repo.mapSha == "" || repo.report.None? { return Refuse(Escalate); }
    r := Classify(repo.report.value);
    if r.Refuse? { return; }
    if repo.shaKind == Unknown { return Refuse(Fail); }
    if repo.shaKind == NotACommit { return Refuse(Escalate); }
    if exists s :: s in r.sources && s in repo.unlogged { return Refuse(Fail); }
    if exists s :: s in r.sources && s in repo.moved { return Refuse(Escalate); }
    if exists id :: id in r.ids && Manifests.FilePart(id) !in repo.files { return Refuse(Escalate); }
  }

  // ----- the always-run floors -----

  function StripLeft(s: string): string {
    if s != "" && IsSpace(s[0]) then StripLeft(s[1..]) else s
  }

  function StripRight(s: string): string {
    if s != "" && IsSpace(s[|s| - 1]) then StripRight(s[..|s| - 1]) else s
  }

  function Strip(s: string): string {
    StripRight(StripLeft(s))
  }

  ghost predicate AllSpace(s: string) {
    forall i :: 0 <= i < |s| ==> IsSpace(s[i])
  }

  ghost predicate Trimmed(s: string) {
    s != "" ==> !IsSpace(s[0]) && !IsSpace(s[|s| - 1])
  }

  lemma {:induction false} LeftIs(s: string) returns (margin: string)
    ensures s == margin + StripLeft(s) && AllSpace(margin)
    ensures StripLeft(s) != "" ==> !IsSpace(StripLeft(s)[0])
  {
    margin := "";
    if s != "" && IsSpace(s[0]) {
      var rest := LeftIs(s[1..]);
      margin := [s[0]] + rest;
    }
  }

  lemma {:induction false} RightIs(s: string) returns (margin: string)
    ensures s == StripRight(s) + margin && AllSpace(margin)
    ensures StripRight(s) != "" ==> !IsSpace(StripRight(s)[|StripRight(s)| - 1])
  {
    margin := "";
    if s != "" && IsSpace(s[|s| - 1]) {
      var rest := RightIs(s[..|s| - 1]);
      margin := rest + [s[|s| - 1]];
    }
  }

  /** Stripping takes off white space only, and all of it at both ends. */
  lemma {:induction false} StripIs(s: string) returns (left: string, right: string)
    ensures s == left + Strip(s) + right && AllSpace(left) && AllSpace(right) && Trimmed(Strip(s))
  {
    left := LeftIs(s);
    right := RightIs(StripLeft(s));
    assert Strip(s) != "" ==> StripLeft(s)[0] == Strip(s)[0];
  }

  /** The entries of a floor manifest: stripped lines that are neither blank nor comments. */
  function FloorEntries(lines: seq<string>): seq<string> {
    if lines == [] then []
    else
      var entry := Strip(lines[|lines| - 1]);
      FloorEntries(lines[..|lines| - 1]) + (if entry != "" && entry[0] != '#' then [entry] else [])
  }

  /** Entries come in the order of their lines, one each at most. */
  lemma {:induction false} FloorInOrder(lines: seq<string>, line: string)
    ensures FloorEntries([]) == []
    ensures FloorEntries(lines + [line])
            == FloorEntries(lines) + (if Strip(line) == "" || Strip(line)[0] == '#' then [] else [Strip(line)])
  {
    assert (lines + [line])[..|lines|] == lines;
  }

  /** A line gives an entry exactly when something is left of it that is no comment. */
  lemma {:induction false} FloorMembers(lines: seq<string>, e: string)
    ensures e in FloorEntries(lines) <==> e != "" && e[0] != '#' && exists line :: line in lines && Strip(line) == e
  {
    if lines != [] {
      FloorMembers(lines[..|lines| - 1], e);
      assert lines == lines[..|lines| - 1] + [lines[|lines| - 1]];
    }
  }

  /** A floor file: missing, or its lines. */
  predicate HasFloor(lines: Option<seq<string>>) {
    lines.Some? && FloorEntries(lines.value) != []
  }

  // ----- the verdict -----

  datatype Outcome =
    | Run(selection: seq<string>)
    | Docs(guards: seq<string>, prose: seq<string>)
    | Refused(verdict: Verdict)

  /** The part of `ids` not already in the floor, in order. */
  function Beyond(floor: seq<string>, ids: seq<string>): seq<string> {
    if ids == [] then []
    else Beyond(floor, ids[..|ids| - 1]) + (if ids[|ids| - 1] in floor then [] else [ids[|ids| - 1]])
  }

  /** `tail` is what is left of `ids`, in order and each once, without what the floor has. */
  ghost predicate Filtered(tail: seq<string>, ids: seq<string>, floor: seq<string>) {
    && Manifests.NoDuplicates(tail) && Manifests.IsSubsequence(tail, ids)
    && forall id :: id in tail <==> id in ids && id !in floor
  }

  lemma {:induction false} BeyondFilters(floor: seq<string>, ids: seq<string>)
    requires Manifests.NoDuplicates(ids)
    ensures Filtered(Beyond(floor, ids), ids, floor)
  {
    BeyondMembers(floor, ids);
    BeyondSelects(floor, ids, Manifests.Elements(ids) - Manifests.Elements(floor));
    var at := Manifests.SelectEmbeds(ids, Manifests.Elements(ids) - Manifests.Elements(floor));
    forall i, j | 0 <= i < j < |at|
      ensures Beyond(floor, ids)[i] != Beyond(floor, ids)[j]
    {
      assert ids[at[i]] != ids[at[j]];
    }
  }

  lemma {:induction false} BeyondSelects(floor: seq<string>, ids: seq<string>, keep: set<string>)
    requires forall id :: id in ids ==> (id in keep <==> id !in floor)
    ensures Beyond(floor, ids) == Manifests.Select(ids, keep)
  {
    if ids != [] {
      BeyondSelects(floor, ids[..|ids| - 1], keep);
    }
  }

  lemma {:induction false} BeyondMembers(floor: seq<string>, ids: seq<string>)
    ensures forall id :: id in Beyond(floor, ids) <==> id in ids && id !in floor
  {
    if ids != [] {
      BeyondMembers(floor, ids[..|ids| - 1]);
      assert ids == ids[..|ids| - 1] + [ids[|ids| - 1]];
    }
  }

  ghost predicate ProseDiff(diff: string) {
    IsProseStream(Words(Nul, diff, ""))
  }

  /** The verdict is `docs` exactly for a committed prose-only diff and `run` exactly when the map can
      speak for the change; a run covers the whole floor and every backed test, and nothing that is
      not one of these. */
  method Decide(repo: Repo, floorLines: Option<seq<string>>, docsLines: Option<seq<string>>, diff: string)
    returns (out: Outcome)
    ensures out.Docs? <==> HasFloor(floorLines) && HasFloor(docsLines) && !repo.dirty && repo.gitWorks
                           && ProseDiff(diff)
    ensures out.Docs? ==> out.guards == FloorEntries(docsLines.value) && out.guards != []
    ensures out.Run? <==> HasFloor(floorLines) && HasFloor(docsLines) && !repo.dirty && repo.gitWorks
                          && !ProseDiff(diff) && MapSpeaks(repo)
    ensures out.Run? ==>
              && out.selection != [] && FloorEntries(floorLines.value) <= out.selection
              && (exists ids :: FirstSeen(ids, NodeIds(repo.report.value))
                                && Filtered(out.selection[|FloorEntries(floorLines.value)|..],
                                            ids, FloorEntries(floorLines.value)))
              && (forall id :: Backed(repo.report.value, id) ==> id in out.selection)
              && forall id :: id in out.selection && id !in FloorEntries(floorLines.value) ==>
                   Backed(repo.report.value, id) && Manifests.FilePart(id) in repo.files
    ensures out == Refused(Fail) <==>
              || !HasFloor(floorLines) || !HasFloor(docsLines) || repo.dirty || !repo.gitWorks
              || (!ProseDiff(diff) && MapFails(repo))
  {
    if !HasFloor(floorLines) || !HasFloor(docsLines) { return Refused(Fail); }
    var floor, guards := FloorEntries(floorLines.value), FloorEntries(docsLines.value);
    if repo.dirty || !repo.gitWorks { return Refused(Fail); }
    var prose := DocsOnly(diff);
    if prose.Some? {
      return Docs(guards, prose.value);
    }
    var selection := Select(repo);
    if selection.Refuse? { return Refused(selection.verdict); }
    BeyondMembers(floor, selection.ids);
    BeyondFilters(floor, selection.ids);
    assert (floor + Beyond(floor, selection.ids))[|floor|..] == Beyond(floor, selection.ids);
    return Run(floor + Beyond(floor, selection.ids));
  }
}
