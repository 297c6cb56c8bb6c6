/** Splitting the collected test nodes into two lanes, and the check that the split is one. */
module Manifests {
  import opened Options

  type NodeId = string

  // ----- sequences without duplicates and their subsequences -----

  ghost predicate NoDuplicates<T>(s: seq<T>) {
    forall i, j :: 0 <= i < j < |s| ==> s[i] != s[j]
  }

  function Elements<T>(s: seq<T>): set<T> {
    set x | x in s
  }

  /** The elements of `s` in `keep`, in the order of `s`. */
  function Select<T(==)>(s: seq<T>, keep: set<T>): seq<T> {
    if s == [] then []
    else Select(s[..|s| - 1], keep) + (if s[|s| - 1] in keep then [s[|s| - 1]] else [])
  }

  /** `at` gives, in increasing order, where in `s` the elements of `sub` are. */
  ghost predicate Embeds<T>(sub: seq<T>, s: seq<T>, at: seq<nat>) {
    && |at| == |sub|
    && (forall i, j :: 0 <= i < j < |at| ==> at[i] < at[j])
    && (forall i :: 0 <= i < |at| ==> at[i] < |s| && s[at[i]] == sub[i])
  }

  ghost predicate IsSubsequence<T>(sub: seq<T>, s: seq<T>) {
    exists at :: Embeds(sub, s, at)
  }

  lemma {:induction false} SelectMembers<T>(s: seq<T>, keep: set<T>)
    ensures forall x :: x in Select(s, keep) <==> x in s && x in keep
  {
    if s != [] {
      SelectMembers(s[..|s| - 1], keep);
    }
  }

  lemma {:induction false} EmbedsInLonger<T>(sub: seq<T>, s: seq<T>, at: seq<nat>, x: T, taken: bool)
    requires Embeds(sub, s, at)
    ensures Embeds(sub + (if taken then [x] else []), s + [x], at + (if taken then [|s|] else []))
  {
  }

  lemma {:induction false} SelectEmbeds<T>(s: seq<T>, keep: set<T>) returns (at: seq<nat>)
    ensures Embeds(Select(s, keep), s, at)
  {
    at := [];
    if s != [] {
      var n := |s| - 1;
      at := SelectEmbeds(s[..n], keep);
      EmbedsInLonger(Select(s[..n], keep), s[..n], at, s[n], s[n] in keep);
      assert s == s[..n] + [s[n]];
      at := at + if s[n] in keep then [n] else [];
    }
  }

  lemma {:induction false} SelectAgrees<T>(s: seq<T>, keep: set<T>, keep': set<T>)
    requires forall x :: x in s ==> (x in keep <==> x in keep')
    ensures Select(s, keep) == Select(s, keep')
  {
    if s != [] {
      SelectAgrees(s[..|s| - 1], keep, keep');
    }
  }

  lemma {:induction false} IndexAtLeast(at: seq<nat>, i: nat)
    requires i < |at| && forall i, j :: 0 <= i < j < |at| ==> at[i] < at[j]
    ensures i <= at[i]
  {
    if i > 0 {
      IndexAtLeast(at, i - 1);
    }
  }

  lemma {:induction false} EmbedsShorter<T>(sub: seq<T>, s: seq<T>, at: seq<nat>)
    requires Embeds(sub, s, at)
    ensures |sub| <= |s|
  {
    if |sub| > 0 {
      IndexAtLeast(at, |sub| - 1);
    }
  }

  /** When the last element is taken, it is the last one taken. */
  lemma {:induction false} TakenLast<T>(sub: seq<T>, s: seq<T>)
    requires NoDuplicates(s) && |s| > 0 && |sub| > 0 && sub[|sub| - 1] == s[|s| - 1]
    requires sub[..|sub| - 1] == Select(s[..|s| - 1], Elements(sub[..|sub| - 1]))
    ensures sub == Select(s, Elements(sub))
  {
    var n, m := |s| - 1, |sub| - 1;
    assert sub == sub[..m] + [sub[m]];
    forall x | x in s[..n]
      ensures x in Elements(sub) <==> x in Elements(sub[..m])
    {
      assert x != sub[m];
    }
    SelectAgrees(s[..n], Elements(sub), Elements(sub[..m]));
    assert s[n] in Elements(sub);
  }

  /** A duplicate-free list has only one way to be a subsequence: picking out its own elements. */
  lemma {:induction false} SubsequenceIsSelect<T>(sub: seq<T>, s: seq<T>, at: seq<nat>)
    requires NoDuplicates(s) && Embeds(sub, s, at)
    ensures sub == Select(s, Elements(sub))
    decreases |s|
  {
    EmbedsShorter(sub, s, at);
    if s != [] {
      var n, m := |s| - 1, |sub| - 1;
      if m >= 0 && at[m] == n {
        SubsequenceIsSelect(sub[..m], s[..n], at[..m]);
        TakenLast(sub, s);
      } else {
        assert forall i :: 0 <= i < |at| ==> at[i] < n;
        SubsequenceIsSelect(sub, s[..n], at);
        assert s[n] !in sub;
      }
    }
  }

  lemma {:induction false} SelectIffSubsequence<T>(sub: seq<T>, s: seq<T>)
    requires NoDuplicates(s)
    ensures sub == Select(s, Elements(sub)) <==> IsSubsequence(sub, s)
  {
    if sub == Select(s, Elements(sub)) {
      var at := SelectEmbeds(s, Elements(sub));
    }
    if IsSubsequence(sub, s) {
      var at :| Embeds(sub, s, at);
      SubsequenceIsSelect(sub, s, at);
    }
  }

  // ----- the check -----

  datatype Verdict = Accepted | CanonicalDuplicates | InexactUnion | OrderDrifted(lane: nat)

  /** The lanes' nodes one after the other. */
  function Assigned(lanes: seq<seq<NodeId>>): seq<NodeId> {
    if lanes == [] then [] else Assigned(lanes[..|lanes| - 1]) + lanes[|lanes| - 1]
  }

  predicate HasDuplicates(s: seq<NodeId>) {
    exists i, j :: 0 <= i < j < |s| && s[i] == s[j]
  }

  /** Every node of a duplicate-free collection sits in exactly one lane exactly once, nothing else
      does, and no lane reorders the collection. */
  ghost predicate ExactPartition(canonical: seq<NodeId>, lanes: seq<seq<NodeId>>) {
    && NoDuplicates(canonical)
    && multiset(Assigned(lanes)) == multiset(canonical)
    && forall k :: 0 <= k < |lanes| ==> IsSubsequence(lanes[k], canonical)
  }

  lemma {:induction false} DuplicateFreeCounts(s: seq<NodeId>)
    ensures NoDuplicates(s) <==> forall x :: multiset(s)[x] <= 1
  {
    if s != [] {
      var n := |s| - 1;
      assert s == s[..n] + [s[n]];
      DuplicateFreeCounts(s[..n]);
      if NoDuplicates(s) {
        assert s[n] !in s[..n];
      } else if NoDuplicates(s[..n]) {
        var i, j :| 0 <= i < j < |s| && s[i] == s[j];
        assert j == n && s[n] in s[..n];
        assert s[n] in multiset(s[..n]) && multiset(s)[s[n]] == multiset(s[..n])[s[n]] + 1;
      } else {
        var x :| multiset(s[..n])[x] > 1;
        assert multiset(s)[x] > 1;
      }
    }
  }

  /** Two duplicate-free lists with the same elements hold each the same number of times. */
  lemma {:induction false} SameMultiset(a: seq<NodeId>, b: seq<NodeId>)
    requires NoDuplicates(b)
    ensures multiset(a) == multiset(b) <==> NoDuplicates(a) && Elements(a) == Elements(b)
  {
    DuplicateFreeCounts(a);
    DuplicateFreeCounts(b);
    assert forall x :: x in multiset(a) <==> x in a;
    assert forall x :: x in multiset(b) <==> x in b;
    if multiset(a) == multiset(b) {
      forall x
        ensures x in Elements(a) <==> x in Elements(b)
      {
        assert x in multiset(a) <==> x in multiset(b);
      }
    }
    if NoDuplicates(a) && Elements(a) == Elements(b) {
      forall x
        ensures multiset(a)[x] == multiset(b)[x]
      {
        assert x in a <==> x in Elements(a);
        assert x in b <==> x in Elements(b);
      }
    }
  }

  method ValidateLanePartition(canonical: seq<NodeId>, lanes: seq<seq<NodeId>>) returns (v: Verdict)
    ensures v == Accepted <==> ExactPartition(canonical, lanes)
    ensures v == CanonicalDuplicates <==> !NoDuplicates(canonical)
    ensures v.OrderDrifted? ==> v.lane < |lanes| && !IsSubsequence(lanes[v.lane], canonical)
  {
    if HasDuplicates(canonical) {
      return CanonicalDuplicates;
    }
    var union := Assigned(lanes);
    SameMultiset(union, canonical);
    if HasDuplicates(union) || Elements(canonical) != Elements(union) {
      return InexactUnion;
    }
    for k := 0 to |lanes|
      invariant forall j :: 0 <= j < k ==> IsSubsequence(lanes[j], canonical)
    {
      SelectIffSubsequence(lanes[k], canonical);
      if lanes[k] != Select(canonical, Elements(lanes[k])) {
        return OrderDrifted(k);
      }
    }
    return Accepted;
  }

  // ----- paths and owners -----

  /** Position of the first "::" at or after `i`; the length of the text if there is none. */
  function Separator(s: string, i: nat): (k: nat)
    requires i <= |s|
    ensures i <= k <= |s|
    ensures k < |s| ==> k + 1 < |s| && s[k] == ':' && s[k + 1] == ':'
    ensures forall j :: i <= j < k && j + 1 < |s| ==> !(s[j] == ':' && s[j + 1] == ':')
    decreases |s| - i
  {
    if i + 1 >= |s| then |s|
    else if s[i] == ':' && s[i + 1] == ':' then i
    else Separator(s, i + 1)
  }

  /** The text before the first "::". */
  function FilePart(id: NodeId): string {
    id[..Separator(id, 0)]
  }

  predicate HasSeparator(id: NodeId) {
    Separator(id, 0) < |id|
  }

  /** A test id that a string prefix of itself also is names the same file. */
  lemma {:induction false} PrefixSameFile(short: NodeId, long: NodeId)
    requires HasSeparator(short) && short <= long
    ensures FilePart(short) == FilePart(long)
  {
  }

  /** The components of a posix path: empty and "." components vanish. */
  function Components(s: string, i: nat, current: string): seq<string>
    requires i <= |s|
    decreases |s| - i
  {
    if i == |s| then Component(current)
    else if s[i] == '/' then Component(current) + Components(s, i + 1, "")
    else Components(s, i + 1, current + [s[i]])
  }

  function Component(c: string): seq<string> {
    if c == "" || c == "." then [] else [c]
  }

  /** A safe repository-relative path below tests/, or nothing. */
  function TestPath(s: string): Option<seq<string>> {
    var parts := Components(s, 0, "");
    if (s != "" && s[0] == '/') || ".." in parts || parts == [] || parts[0] != "tests" then None else Some(parts)
  }

  /** One CI shard: the paths it includes and the ones it leaves out again. */
  datatype Shard = Shard(name: string, includes: seq<seq<string>>, ignores: seq<seq<string>>)

  predicate Contains(root: seq<string>, candidate: seq<string>) {
    root <= candidate
  }

  predicate Selects(shard: Shard, file: seq<string>) {
    && (exists p :: p in shard.includes && Contains(p, file))
    && !(exists p :: p in shard.ignores && Contains(p, file))
  }

  /** The names of the shards that select a file, in order. */
  function Owners(shards: seq<Shard>, file: seq<string>): seq<string> {
    if shards == [] then []
    else Owners(shards[..|shards| - 1], file)
         + (if Selects(shards[|shards| - 1], file) then [shards[|shards| - 1].name] else [])
  }

  /** The shard claims the file: some included path is a beginning of the file's, and no ignored one. */
  ghost predicate Claims(shard: Shard, file: seq<string>) {
    && (exists i :: 0 <= i < |shard.includes| && shard.includes[i] <= file)
    && (forall i :: 0 <= i < |shard.ignores| ==> !(shard.ignores[i] <= file))
  }

  lemma {:induction false} ClaimsIsSelects(shard: Shard, file: seq<string>)
    ensures Claims(shard, file) <==> Selects(shard, file)
  {
    if Claims(shard, file) {
      var i :| 0 <= i < |shard.includes| && shard.includes[i] <= file;
      assert shard.includes[i] in shard.includes && Contains(shard.includes[i], file);
    }
    if Selects(shard, file) {
      var p :| p in shard.includes && Contains(p, file);
      forall i | 0 <= i < |shard.ignores|
        ensures !(shard.ignores[i] <= file)
      {
        assert shard.ignores[i] in shard.ignores;
      }
    }
  }

  /** One shard owns a file exactly when it is the only one that claims it. */
  lemma {:induction false} OneOwner(shards: seq<Shard>, file: seq<string>, name: string)
    ensures Owners(shards, file) == [name] <==>
              exists i :: 0 <= i < |shards| && shards[i].name == name && OnlyClaim(shards, file, i)
    ensures Owners(shards, file) == [] <==> forall i :: 0 <= i < |shards| ==> !Claims(shards[i], file)
  {
    if shards != [] {
      var n := |shards| - 1;
      var earlier := shards[..n];
      OneOwner(earlier, file, name);
      ClaimsIsSelects(shards[n], file);
      assert forall i :: 0 <= i < n ==> earlier[i] == shards[i];
      if Claims(shards[n], file) {
        assert OnlyClaim(shards, file, n) <==> Owners(earlier, file) == [];
        assert forall i :: 0 <= i < n ==> !OnlyClaim(shards, file, i);
        assert Owners(shards, file)[|Owners(earlier, file)|] == shards[n].name;
      } else {
        assert forall i :: 0 <= i < n ==> (OnlyClaim(earlier, file, i) <==> OnlyClaim(shards, file, i));
      }
    }
  }

  ghost predicate OnlyClaim(shards: seq<Shard>, file: seq<string>, i: int) {
    && 0 <= i < |shards| && Claims(shards[i], file)
    && forall j :: 0 <= j < |shards| && j != i ==> !Claims(shards[j], file)
  }

  /** A path written out: its parts with slashes between. */
  function Joined(parts: seq<string>): string
    requires |parts| > 0
  {
    if |parts| == 1 then parts[0] else parts[0] + "/" + Joined(parts[1..])
  }

  /** What a path keeps of its parts: not the empty ones and not ".". */
  ghost function Solid(parts: seq<string>): seq<string> {
    if parts == [] then [] else (if parts[0] in {"", "."} then [] else [parts[0]]) + Solid(parts[1..])
  }

  lemma {:induction false} PartRead(s: string, i: nat, part: string, current: string)
    requires '/' !in part && i + |part| <= |s| && s[i..i + |part|] == part
    ensures Components(s, i, current) == Components(s, i + |part|, current + part)
    decreases |part|
  {
    if part == "" {
      assert current + part == current;
    } else {
      assert s[i] == part[0] && s[i + 1..i + 1 + |part[1..]|] == part[1..];
      PartRead(s, i + 1, part[1..], current + [part[0]]);
      assert current + [part[0]] + part[1..] == current + part;
    }
  }

  /** The text of some parts from `i` on is read back as the solid ones. */
  lemma {:induction false} PartsRead(s: string, i: nat, parts: seq<string>)
    requires |parts| > 0 && (forall k :: 0 <= k < |parts| ==> '/' !in parts[k])
    requires i <= |s| && s[i..] == Joined(parts)
    ensures Components(s, i, "") == Solid(parts)
    decreases |parts|
  {
    var first := parts[0];
    var at := i + |first|;
    assert "" + first == first;
    if |parts| == 1 {
      assert s[i..at] == first && parts[1..] == [];
      PartRead(s, i, first, "");
    } else {
      NextParts(s, i, first, Joined(parts[1..]));
      PartRead(s, i, first, "");
      PartsRead(s, at + 1, parts[1..]);
    }
  }

  lemma {:induction false} NextParts(s: string, i: nat, first: string, rest: string)
    requires i <= |s| && s[i..] == first + "/" + rest
    ensures i + |first| < |s| && s[i..i + |first|] == first && s[i + |first|] == '/' && s[i + |first| + 1..] == rest
  {
    var text := first + "/" + rest;
    assert text[|first|] == '/' && text[..|first|] == first && text[|first| + 1..] == rest;
    assert s[i..][..|first|] == s[i..i + |first|] && s[i..][|first|] == s[i + |first|];
    assert s[i..][|first| + 1..] == s[i + |first| + 1..];
  }

  /** A path whose first solid part is tests/ and that has no step up is read back as its solid parts;
      any other, and any that starts with a slash, is refused. */
  lemma {:induction false} TestPathReadsBack(parts: seq<string>)
    requires |parts| > 0 && forall i :: 0 <= i < |parts| ==> '/' !in parts[i]
    ensures parts[0] != "" ==>
              TestPath(Joined(parts)) == (if Solid(parts) != [] && Solid(parts)[0] == "tests" && ".." !in Solid(parts)
                                          then Some(Solid(parts)) else None)
    ensures parts[0] == "" && |parts| > 1 ==> TestPath(Joined(parts)) == None
  {
    var s := Joined(parts);
    assert s[0..] == s;
    PartsRead(s, 0, parts);
    assert parts[0] != "" ==> s[0] == parts[0][0];
  }

  /** Which lane a bucket runs in. */
  type Grouping = map<string, nat>

  datatype Ownership = Owner(lane: nat) | BadPath | NotOne(owners: seq<string>) | NoLane(bucket: string)

  /** Everything that decides a node's lane: the text before its first "::". */
  function OwnerOfFile(file: string, shards: seq<Shard>, grouping: Grouping): Ownership {
    match TestPath(file)
    case None => BadPath
    case Some(path) =>
      var owners := Owners(shards, path);
      if |owners| != 1 then NotOne(owners)
      else if owners[0] !in grouping then NoLane(owners[0])
      else Owner(grouping[owners[0]])
  }

  function OwnerOf(id: NodeId, shards: seq<Shard>, grouping: Grouping): Ownership {
    OwnerOfFile(FilePart(id), shards, grouping)
  }

  /** A node has a lane exactly when its file is a test path that one shard alone claims and that shard
      is in a lane. */
  lemma {:induction false} LaneIff(id: NodeId, shards: seq<Shard>, grouping: Grouping, k: nat)
    ensures OwnerOf(id, shards, grouping) == Owner(k) <==>
              && TestPath(FilePart(id)).Some?
              && exists i :: 0 <= i < |shards| && OnlyClaim(shards, TestPath(FilePart(id)).value, i)
                             && shards[i].name in grouping && grouping[shards[i].name] == k
  {
    if TestPath(FilePart(id)).Some? {
      var file := TestPath(FilePart(id)).value;
      var owners := Owners(shards, file);
      if |owners| == 1 {
        assert owners == [owners[0]];
        OneOwner(shards, file, owners[0]);
      }
      forall i | 0 <= i < |shards| && OnlyClaim(shards, file, i)
        ensures owners == [shards[i].name]
      {
        OneOwner(shards, file, shards[i].name);
      }
    }
  }

  // ----- the plan -----

  /** A lane's nodes, and the ones its pytest is told to deselect. */
  datatype Lane = Lane(nodes: seq<NodeId>, deselected: seq<NodeId>)

  datatype Plan = Planned(lanes: seq<Lane>) | Refused(id: NodeId, why: Ownership) | Invalid(verdict: Verdict)

  /** The canonical nodes owned by lane `k`, in canonical order. */
  function OwnedBy(canonical: seq<NodeId>, shards: seq<Shard>, grouping: Grouping, k: nat): seq<NodeId> {
    if canonical == [] then []
    else
      var n := |canonical| - 1;
      OwnedBy(canonical[..n], shards, grouping, k)
      + (if OwnerOf(canonical[n], shards, grouping) == Owner(k) then [canonical[n]] else [])
  }

  lemma {:induction false} OwnedMembers(canonical: seq<NodeId>, shards: seq<Shard>, grouping: Grouping, k: nat)
    ensures forall id :: id in OwnedBy(canonical, shards, grouping, k)
                         <==> id in canonical && OwnerOf(id, shards, grouping) == Owner(k)
  {
    if canonical != [] {
      OwnedMembers(canonical[..|canonical| - 1], shards, grouping, k);
    }
  }

  lemma {:induction false} OwnedIsSelect(canonical: seq<NodeId>, shards: seq<Shard>, grouping: Grouping, k: nat,
                                         keep: set<NodeId>)
    requires forall id :: id in canonical ==> (id in keep <==> OwnerOf(id, shards, grouping) == Owner(k))
    ensures OwnedBy(canonical, shards, grouping, k) == Select(canonical, keep)
  {
    if canonical != [] {
      OwnedIsSelect(canonical[..|canonical| - 1], shards, grouping, k, keep);
    }
  }

  /** Appending a node to one lane adds exactly that node to the union. */
  lemma {:induction false} AssignedGrows(lanes: seq<seq<NodeId>>, k: nat, id: NodeId)
    requires k < |lanes|
    ensures multiset(Assigned(lanes[k := lanes[k] + [id]])) == multiset(Assigned(lanes)) + multiset{id}
  {
    var n := |lanes| - 1;
    var lanes' := lanes[k := lanes[k] + [id]];
    if k < n {
      AssignedGrows(lanes[..n], k, id);
      assert lanes'[..n] == lanes[..n][k := lanes[k] + [id]];
    } else {
      assert lanes'[..n] == lanes[..n];
    }
  }

  lemma {:induction false} AssignedEmpty(lanes: seq<seq<NodeId>>)
    requires forall k :: 0 <= k < |lanes| ==> lanes[k] == []
    ensures Assigned(lanes) == []
  {
    if lanes != [] {
      AssignedEmpty(lanes[..|lanes| - 1]);
    }
  }

  /** Nodes owned by a lane are a subsequence of the collection. */
  lemma {:induction false} OwnedEmbeds(canonical: seq<NodeId>, shards: seq<Shard>, grouping: Grouping, k: nat)
    ensures IsSubsequence(OwnedBy(canonical, shards, grouping, k), canonical)
  {
    var keep := set id | id in canonical && OwnerOf(id, shards, grouping) == Owner(k);
    OwnedIsSelect(canonical, shards, grouping, k, keep);
    var at := SelectEmbeds(canonical, keep);
  }

  ghost predicate AllOwned(canonical: seq<NodeId>, shards: seq<Shard>, grouping: Grouping) {
    forall id :: id in canonical ==> OwnerOf(id, shards, grouping).Owner?
  }

  /** What each lane's manifest holds. */
  ghost predicate IsPlan(canonical: seq<NodeId>, shards: seq<Shard>, grouping: Grouping, lanes: seq<Lane>) {
    forall k :: 0 <= k < |lanes| ==>
      && lanes[k].nodes == OwnedBy(canonical, shards, grouping, k)
      && lanes[k].deselected == Select(canonical, Elements(canonical) - Elements(lanes[k].nodes))
  }

  function NodesOf(lanes: seq<Lane>): (nodes: seq<seq<NodeId>>)
    ensures |nodes| == |lanes| && forall k :: 0 <= k < |lanes| ==> nodes[k] == lanes[k].nodes
  {
    seq(|lanes|, k requires 0 <= k < |lanes| => lanes[k].nodes)
  }

  /** `nodes` holds, lane by lane, what the first `i` nodes gave. */
  ghost predicate AssignedUpTo(canonical: seq<NodeId>, i: nat, shards: seq<Shard>, grouping: Grouping,
                               nodes: seq<seq<NodeId>>)
    requires i <= |canonical|
  {
    forall k :: 0 <= k < |nodes| ==> nodes[k] == OwnedBy(canonical[..i], shards, grouping, k)
  }

  lemma {:induction false} OwnedStep(canonical: seq<NodeId>, i: nat, shards: seq<Shard>, grouping: Grouping,
                                     nodes: seq<seq<NodeId>>, lane: nat)
    requires i < |canonical| && lane < |nodes| && AssignedUpTo(canonical, i, shards, grouping, nodes)
    requires OwnerOf(canonical[i], shards, grouping) == Owner(lane)
    ensures AssignedUpTo(canonical, i + 1, shards, grouping, nodes[lane := nodes[lane] + [canonical[i]]])
    ensures canonical[..i + 1] == canonical[..i] + [canonical[i]]
  {
    assert canonical[..i + 1][..i] == canonical[..i];
  }

  /** The loop that hands each node to its lane. */
  /** `id` is the first node that has no lane. */
  ghost predicate FirstUnowned(canonical: seq<NodeId>, shards: seq<Shard>, grouping: Grouping, id: NodeId) {
    && !OwnerOf(id, shards, grouping).Owner?
    && exists i :: 0 <= i < |canonical| && canonical[i] == id && AllOwned(canonical[..i], shards, grouping)
  }

  method AssignNodes(canonical: seq<NodeId>, shards: seq<Shard>, grouping: Grouping, laneCount: nat)
    returns (refused: Option<NodeId>, nodes: seq<seq<NodeId>>)
    requires forall b :: b in grouping ==> grouping[b] < laneCount
    ensures refused.Some? ==> FirstUnowned(canonical, shards, grouping, refused.value)
    ensures refused.None? ==>
              && AllOwned(canonical, shards, grouping)
              && |nodes| == laneCount
              && (forall k :: 0 <= k < laneCount ==> nodes[k] == OwnedBy(canonical, shards, grouping, k))
              && multiset(Assigned(nodes)) == multiset(canonical)
  {
    nodes := seq(laneCount, _ => []);
    AssignedEmpty(nodes);
    for i := 0 to |canonical|
      invariant AllOwned(canonical[..i], shards, grouping)
      invariant |nodes| == laneCount && AssignedUpTo(canonical, i, shards, grouping, nodes)
      invariant multiset(Assigned(nodes)) == multiset(canonical[..i])
    {
      var owner := OwnerOf(canonical[i], shards, grouping);
      if !owner.Owner? {
        return Some(canonical[i]), nodes;
      }
      AssignedGrows(nodes, owner.lane, canonical[i]);
      OwnedStep(canonical, i, shards, grouping, nodes, owner.lane);
      nodes := nodes[owner.lane := nodes[owner.lane] + [canonical[i]]];
    }
    assert canonical[..|canonical|] == canonical;
    return None, nodes;
  }

  /** Pairs every lane's nodes with the nodes it deselects. */
  method MakeLanes(canonical: seq<NodeId>, nodes: seq<seq<NodeId>>) returns (lanes: seq<Lane>)
    ensures |lanes| == |nodes|
    ensures forall k :: 0 <= k < |lanes| ==>
              lanes[k] == Lane(nodes[k], Select(canonical, Elements(canonical) - Elements(nodes[k])))
  {
    lanes := [];
    for k := 0 to |nodes|
      invariant |lanes| == k
      invariant forall j :: 0 <= j < k ==>
                  lanes[j] == Lane(nodes[j], Select(canonical, Elements(canonical) - Elements(nodes[j])))
    {
      var deselected := Select(canonical, Elements(canonical) - Elements(nodes[k]));
      lanes := lanes + [Lane(nodes[k], deselected)];
    }
  }

  /** Building the plan fails only on a node without exactly one owner, or on duplicate nodes; the
      partition check it runs on itself never finds anything else. */
  method BuildManifestPlan(canonical: seq<NodeId>, shards: seq<Shard>, grouping: Grouping,
                           laneCount: nat) returns (plan: Plan)
    requires forall b :: b in grouping ==> grouping[b] < laneCount
    ensures plan.Planned? ==>
              && |plan.lanes| == laneCount && IsPlan(canonical, shards, grouping, plan.lanes)
              && ExactPartition(canonical, NodesOf(plan.lanes))
    ensures plan.Planned? <==> AllOwned(canonical, shards, grouping) && NoDuplicates(canonical)
    ensures plan.Refused? ==> plan.id in canonical && plan.why == OwnerOf(plan.id, shards, grouping) && !plan.why.Owner?
    ensures plan.Invalid? ==> plan.verdict == CanonicalDuplicates
  {
    var refused, nodes := AssignNodes(canonical, shards, grouping, laneCount);
    if refused.Some? {
      return Refused(refused.value, OwnerOf(refused.value, shards, grouping));
    }
    forall k | 0 <= k < laneCount
      ensures IsSubsequence(nodes[k], canonical)
    {
      OwnedEmbeds(canonical, shards, grouping, k);
    }
    var verdict := ValidateLanePartition(canonical, nodes);
    if verdict != Accepted {
      return Invalid(verdict);
    }
    var lanes := MakeLanes(canonical, nodes);
    assert NodesOf(lanes) == nodes;
    return Planned(lanes);
  }

  // ----- what pytest then runs -----

  /** pytest drops every collected id that starts with a deselected one. */
  predicate Dropped(id: NodeId, deselected: seq<NodeId>) {
    exists d :: d in deselected && d <= id
  }

  function Runs(canonical: seq<NodeId>, deselected: seq<NodeId>): seq<NodeId> {
    if canonical == [] then []
    else
      var n := |canonical| - 1;
      Runs(canonical[..n], deselected) + (if Dropped(canonical[n], deselected) then [] else [canonical[n]])
  }

  lemma {:induction false} RunsIsSelect(canonical: seq<NodeId>, deselected: seq<NodeId>, keep: set<NodeId>)
    requires forall id :: id in canonical ==> (id in keep <==> !Dropped(id, deselected))
    ensures Runs(canonical, deselected) == Select(canonical, keep)
  {
    if canonical != [] {
      RunsIsSelect(canonical[..|canonical| - 1], deselected, keep);
    }
  }

  /** No id deselected in a lane is a string prefix of an id the lane keeps. */
  lemma {:induction false} DeselectionIsExact(canonical: seq<NodeId>, shards: seq<Shard>, grouping: Grouping,
                                              lanes: seq<Lane>, k: nat, id: NodeId)
    requires forall x :: x in canonical ==> HasSeparator(x)
    requires IsPlan(canonical, shards, grouping, lanes) && k < |lanes| && id in canonical
    ensures id in lanes[k].nodes <==> !(exists d :: d in lanes[k].deselected && d <= id)
  {
    var lane := lanes[k];
    OwnedMembers(canonical, shards, grouping, k);
    SelectMembers(canonical, Elements(canonical) - Elements(lane.nodes));
    if id in lane.nodes && Dropped(id, lane.deselected) {
      var d :| d in lane.deselected && d <= id;
      PrefixSameFile(d, id);
    }
    if id !in lane.nodes {
      assert id in lane.deselected && id <= id;
    }
  }

  /** Under its manifest each lane runs exactly its own nodes, in the canonical order. */
  lemma {:induction false} LaneRunsItsNodes(canonical: seq<NodeId>, shards: seq<Shard>, grouping: Grouping,
                                            lanes: seq<Lane>, k: nat)
    requires forall x :: x in canonical ==> HasSeparator(x)
    requires IsPlan(canonical, shards, grouping, lanes) && k < |lanes|
    ensures Runs(canonical, lanes[k].deselected) == lanes[k].nodes
  {
    var keep := Elements(lanes[k].nodes);
    forall id | id in canonical
      ensures id in keep <==> !Dropped(id, lanes[k].deselected)
    {
      DeselectionIsExact(canonical, shards, grouping, lanes, k, id);
    }
    RunsIsSelect(canonical, lanes[k].deselected, keep);
    OwnedMembers(canonical, shards, grouping, k);
    OwnedIsSelect(canonical, shards, grouping, k, keep);
  }
}
