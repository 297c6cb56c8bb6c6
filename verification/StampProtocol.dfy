/** Any number of coverage runs, reuse queries and git changes interleaving over one start marker
    and one full-suite report. Every read of git, every file read, write and delete is a step of
    its own, so a run can be overtaken between any two of them. The log remembers what happened. */
module StampProtocol {
  import opened Options

  type Head = string
  type Token = string
  type RunId = nat

  datatype Marker = Marker(head: Head, dirty: bool, token: Token)

  /** `Unreadable`: not JSON, not an object, or without a head or a token. */
  datatype MarkerFile = NoMarker | Unreadable | Written(marker: Marker)

  /** `Unusable`: missing, not JSON, or without branch data. `origin` is the position in the log of
      the write that produced the measurements inside. */
  datatype ReportFile = Unusable | Report(origin: nat, stamp: Option<Head>)

  datatype Event =
    | HeadMoved(head: Head)
    | TreeChanged(dirty: bool)
    | Rewritten
    | Measured(run: RunId)
    | StartHead(run: RunId, head: Head)
    | StartTree(run: RunId, dirty: bool)
    | ReportRead(run: RunId, origin: nat)
    | EndHead(run: RunId, head: Head)
    | Stamped(run: RunId, head: Head, origin: nat)
    | QueryHead(run: RunId, head: Head)
    | QueryTree(run: RunId, answered: bool, dirty: bool)
    | Reused(run: RunId, head: Head, origin: nat)

  type Log = seq<Event>

  /** What a minted token stands for: whose record-start it was and what that one read, when. */
  datatype Claim = Claim(run: RunId, head: Head, dirty: bool, headAt: nat, treeAt: nat)

  /** Where a run or a query stands, with the local variables it carries. */
  datatype Pc =
    | Idle
    | Cleared
    | SawHead(head: Head, at: nat)
    | SawTree(token: Token)
    | Started(token: Token)
    | Discarding
    | HasReport(token: Token, origin: nat, at: nat)
    | HasMarker(token: Token, origin: nat, at: nat, found: MarkerFile)
    | Consumed(token: Token, origin: nat, at: nat, found: MarkerFile)
    | Verified(token: Token, origin: nat, at: nat, head: Head, endAt: nat)
    | QuerySawHead(head: Head, at: nat)
    | QuerySawTree(head: Head, at: nat, dirty: bool, treeAt: nat)
    | Done

  datatype World = World(head: Head, dirty: bool, marker: MarkerFile, report: ReportFile,
                         minted: map<Token, Claim>, pcs: map<RunId, Pc>, log: Log)

  /** Git unresolvable and nothing on disk; any other start is reached by environment steps. */
  const INIT: World := World("", true, NoMarker, Unusable, map[], map[], [])

  /** What the rest of the world may do at any moment. */
  datatype Change =
    | MoveHead(head: Head)
    | ChangeTree(dirty: bool)
    | DropMarker
    | SpoilMarker
    | RewriteReport(usable: bool)

  /** The steps of `--record-start`, and of the coverage run that follows it. */
  datatype RecordMove =
    | ClearMarker
    | ReadStartHead
    | ReadStartTree(token: Token, answered: bool)
    | WriteMarker
    | Measure

  /** The steps of the stamp call. */
  datatype StampMove = ReadReport | DiscardMarker | ReadMarker | DeleteMarker | ReadEndHead | WriteStamp

  /** The steps of looking for a reusable report. */
  datatype QueryMove = ReadQueryHead | ReadQueryTree(answered: bool) | ReadQueryReport

  datatype Action =
    | Environment(change: Change)
    | Record(run: RunId, record: RecordMove)
    | Stamp(run: RunId, stamp: StampMove)
    | Query(run: RunId, query: QueryMove)

  function PcOf(w: World, r: RunId): Pc {
    if r in w.pcs then w.pcs[r] else Idle
  }

  function Goes(w: World, r: RunId, pc: Pc): World {
    w.(pcs := w.pcs[r := pc])
  }

  function Logs(w: World, e: Event): World {
    w.(log := w.log + [e])
  }

  /** Only the marker's own checks: the expected token, and a tree that was clean. */
  predicate MarkerAccepted(found: MarkerFile, token: Token) {
    found.Written? && found.marker.token == token && !found.marker.dirty
  }

  function EnvironmentStep(w: World, c: Change): World {
    match c
    case MoveHead(h) => Logs(w.(head := h), HeadMoved(h))
    case ChangeTree(d) => Logs(w.(dirty := d), TreeChanged(d))
    case DropMarker => w.(marker := NoMarker)
    case SpoilMarker => w.(marker := Unreadable)
    case RewriteReport(usable) =>
      Logs(w.(report := if usable then Report(|w.log|, None) else Unusable), Rewritten)
  }

  function RecordStep(w: World, r: RunId, m: RecordMove): Option<World> {
    var pc := PcOf(w, r);
    match m
    case ClearMarker =>
      if pc.Idle? then Some(Goes(w.(marker := NoMarker), r, Cleared)) else None
    case ReadStartHead =>
      if !pc.Cleared? then None
      else if w.head == "" then Some(Goes(w, r, Started("")))
      else Some(Goes(Logs(w, StartHead(r, w.head)), r, SawHead(w.head, |w.log|)))
    case ReadStartTree(t, answered) =>
      if !pc.SawHead? || t == "" || t in w.minted then None
      else
        var dirty := w.dirty || !answered;
        var claim := Claim(r, pc.head, dirty, pc.at, |w.log|);
        Some(Goes(Logs(w.(minted := w.minted[t := claim]), StartTree(r, dirty)), r, SawTree(t)))
    case WriteMarker =>
      if !pc.SawTree? || pc.token !in w.minted then None
      else
        var c := w.minted[pc.token];
        Some(Goes(w.(marker := Written(Marker(c.head, c.dirty, pc.token))), r, Started(pc.token)))
    case Measure =>
      if !pc.Started? then None else Some(Logs(w.(report := Report(|w.log|, None)), Measured(r)))
  }

  function StampStep(w: World, r: RunId, m: StampMove): Option<World> {
    var pc := PcOf(w, r);
    match m
    case ReadReport =>
      if !pc.Started? then None
      else if w.report.Unusable? then Some(Goes(w, r, Discarding))
      else Some(Goes(Logs(w, ReportRead(r, w.report.origin)), r, HasReport(pc.token, w.report.origin, |w.log|)))
    case DiscardMarker =>
      if pc.Discarding? then Some(Goes(w.(marker := NoMarker), r, Done)) else None
    case ReadMarker =>
      if !pc.HasReport? then None
      else if w.marker.NoMarker? then Some(Goes(w, r, Done))
      else Some(Goes(w, r, HasMarker(pc.token, pc.origin, pc.at, w.marker)))
    case DeleteMarker =>
      if !pc.HasMarker? then None
      else Some(Goes(w.(marker := NoMarker), r, Consumed(pc.token, pc.origin, pc.at, pc.found)))
    case ReadEndHead =>
      if !pc.Consumed? then None
      else if !MarkerAccepted(pc.found, pc.token) || w.head == "" || w.head != pc.found.marker.head
      then Some(Goes(w, r, Done))
      else Some(Goes(Logs(w, EndHead(r, w.head)), r, Verified(pc.token, pc.origin, pc.at, w.head, |w.log|)))
    case WriteStamp =>
      if !pc.Verified? then None
      else Some(Goes(Logs(w.(report := Report(pc.origin, Some(pc.head))), Stamped(r, pc.head, pc.origin)), r, Done))
  }

  function QueryStep(w: World, r: RunId, m: QueryMove): Option<World> {
    var pc := PcOf(w, r);
    match m
    case ReadQueryHead =>
      if !pc.Idle? then None
      else Some(Goes(Logs(w, QueryHead(r, w.head)), r, QuerySawHead(w.head, |w.log|)))
    case ReadQueryTree(answered) =>
      if !pc.QuerySawHead? then None
      else
        var dirty := w.dirty && answered;
        Some(Goes(Logs(w, QueryTree(r, answered, dirty)), r, QuerySawTree(pc.head, pc.at, dirty, |w.log|)))
    case ReadQueryReport =>
      if !pc.QuerySawTree? then None
      else if w.report.Report? && w.report.stamp == Some(pc.head) && !pc.dirty && pc.head != ""
      then Some(Goes(Logs(w, Reused(r, pc.head, w.report.origin)), r, Done))
      else Some(Goes(w, r, Done))
  }

  /** One step, or nothing when it cannot happen here. */
  function Step(w: World, a: Action): Option<World> {
    match a
    case Environment(c) => Some(EnvironmentStep(w, c))
    case Record(r, m) => RecordStep(w, r, m)
    case Stamp(r, m) => StampStep(w, r, m)
    case Query(r, m) => QueryStep(w, r, m)
  }

  /** The world after a schedule of steps. */
  function Execute(w: World, actions: seq<Action>): Option<World> {
    if actions == [] then Some(w)
    else match Execute(w, actions[..|actions| - 1])
         case None => None
         case Some(before) => Step(before, actions[|actions| - 1])
  }

  // ----- reading the log -----

  /** The commit HEAD names after a log. */
  function HeadAfter(log: Log): Head {
    if log == [] then ""
    else if log[|log| - 1].HeadMoved? then log[|log| - 1].head
    else HeadAfter(log[..|log| - 1])
  }

  /** Whether the working tree is dirty after a log. */
  function DirtyAfter(log: Log): bool {
    if log == [] then true
    else if log[|log| - 1].TreeChanged? then log[|log| - 1].dirty
    else DirtyAfter(log[..|log| - 1])
  }

  predicate WritesReport(e: Event) {
    e.Rewritten? || e.Measured? || e.Stamped?
  }

  /** Position of the last write to the report, or -1. */
  function LastWrite(log: Log): (k: int)
    ensures -1 <= k < |log|
    ensures 0 <= k ==> WritesReport(log[k])
    ensures forall i :: k < i < |log| ==> !WritesReport(log[i])
  {
    if log == [] then -1
    else if WritesReport(log[|log| - 1]) then |log| - 1
    else LastWrite(log[..|log| - 1])
  }

  /** Position where this run last opened the report for stamping, or -1. */
  function LastRead(log: Log, r: RunId): (p: int)
    ensures -1 <= p < |log|
    ensures 0 <= p ==> log[p].ReportRead? && log[p].run == r
    ensures forall i :: p < i < |log| ==> !(log[i].ReportRead? && log[i].run == r)
  {
    if log == [] then -1
    else if log[|log| - 1].ReportRead? && log[|log| - 1].run == r then |log| - 1
    else LastRead(log[..|log| - 1], r)
  }

  /** The measurement a write left in the report: its own, or the one a stamp was put on. */
  function OriginOf(log: Log, k: nat): nat
    requires k < |log|
  {
    if log[k].Stamped? then log[k].origin else k
  }

  // ----- what the protocol promises -----

  /** At `p` this run read the report as its last write had left it. */
  ghost predicate ReadLast(log: Log, p: nat, r: RunId, origin: nat) {
    && p < |log| && log[p] == ReportRead(r, origin)
    && 0 <= LastWrite(log[..p])
    && OriginOf(log, LastWrite(log[..p])) == origin
  }

  /** At `i` this process read HEAD and it was `h`, truly. */
  ghost predicate ReadHead(log: Log, i: nat, e: Event, h: Head) {
    i < |log| && log[i] == e && HeadAfter(log[..i]) == h && h != ""
  }

  /** At `j` this process asked git for the tree's state and was told the truth. */
  ghost predicate ReadTree(log: Log, j: nat, e: Event, dirty: bool) {
    j < |log| && log[j] == e && DirtyAfter(log[..j]) == dirty
  }

  /** The four reads that must precede a stamp, all by the stamping run and in this order; the
      report is not opened again after the third. */
  ghost predicate Bracket(log: Log, r: RunId, h: Head, origin: nat, i: nat, j: nat, p: nat, e: nat, k: nat) {
    && i < j < p < e < k < |log|
    && ReadHead(log, i, StartHead(r, h), h)
    && ReadTree(log, j, StartTree(r, false), false)
    && ReadLast(log, p, r, origin) && origin < p && IsMeasurement(log, origin)
    && p == LastRead(log[..k], r)
    && ReadHead(log, e, EndHead(r, h), h)
  }

  ghost predicate StampJustified(log: Log, k: nat)
    requires k < |log| && log[k].Stamped?
  {
    exists i, j, p, e :: Bracket(log, log[k].run, log[k].head, log[k].origin, i, j, p, e, k)
  }

  /** At `j` this query asked git for the tree's state; an answer is the truth, a failure says nothing
      and counts as clean. */
  ghost predicate AskedTree(log: Log, j: nat, r: RunId, dirty: bool) {
    && j < |log| && log[j].QueryTree? && log[j].run == r && log[j].dirty == dirty
    && dirty == (log[j].answered && DirtyAfter(log[..j]))
  }

  /** The query's own reads of git, and the stamp that was the report's last write. */
  ghost predicate ReuseJustifiedBy(log: Log, n: nat, a: nat, b: nat, k: nat)
    requires n < |log| && log[n].Reused?
  {
    && a < b < n && k < n
    && ReadHead(log, a, QueryHead(log[n].run, log[n].head), log[n].head)
    && AskedTree(log, b, log[n].run, false)
    && LastWrite(log[..n]) == k
    && log[k].Stamped? && log[k].head == log[n].head && log[k].origin == log[n].origin
  }

  ghost predicate ReuseJustified(log: Log, n: nat)
    requires n < |log| && log[n].Reused?
  {
    exists a, b, k :: ReuseJustifiedBy(log, n, a, b, k)
  }

  ghost predicate AllJustified(log: Log) {
    && (forall k {:trigger StampJustified(log, k)} :: 0 <= k < |log| && log[k].Stamped? ==> StampJustified(log, k))
    && (forall n {:trigger ReuseJustified(log, n)} :: 0 <= n < |log| && log[n].Reused? ==> ReuseJustified(log, n))
  }

  // ----- the invariant -----

  ghost predicate ClaimHolds(log: Log, c: Claim) {
    && c.headAt < c.treeAt
    && ReadHead(log, c.headAt, StartHead(c.run, c.head), c.head)
    && c.treeAt < |log| && log[c.treeAt] == StartTree(c.run, c.dirty)
    && (!c.dirty ==> ReadTree(log, c.treeAt, StartTree(c.run, false), false))
  }

  /** A readable marker says exactly what its token was minted for. */
  ghost predicate Honest(minted: map<Token, Claim>, found: MarkerFile) {
    found.Written? ==>
      && found.marker.token in minted
      && minted[found.marker.token].head == found.marker.head
      && minted[found.marker.token].dirty == found.marker.dirty
  }

  ghost predicate Owns(minted: map<Token, Claim>, r: RunId, t: Token) {
    t != "" ==> t in minted && minted[t].run == r
  }

  ghost predicate IsMeasurement(log: Log, o: nat) {
    o < |log| && (log[o].Measured? || log[o].Rewritten?)
  }

  /** The run read the report at `at`, after its record-start, and not again. */
  ghost predicate TookReport(minted: map<Token, Claim>, log: Log, r: RunId, t: Token, origin: nat, at: nat) {
    && Owns(minted, r, t)
    && ReadLast(log, at, r, origin) && at == LastRead(log, r)
    && (t in minted ==> minted[t].treeAt < at)
    && origin < at && IsMeasurement(log, origin)
  }

  ghost predicate PcHolds(minted: map<Token, Claim>, log: Log, r: RunId, pc: Pc) {
    match pc
    case SawHead(h, at) => ReadHead(log, at, StartHead(r, h), h)
    case SawTree(t) => t != "" && Owns(minted, r, t)
    case Started(t) => Owns(minted, r, t)
    case HasReport(t, o, at) => TookReport(minted, log, r, t, o, at)
    case HasMarker(t, o, at, found) => TookReport(minted, log, r, t, o, at) && Honest(minted, found)
    case Consumed(t, o, at, found) => TookReport(minted, log, r, t, o, at) && Honest(minted, found)
    case Verified(t, o, at, h, endAt) =>
      && TookReport(minted, log, r, t, o, at)
      && t in minted && minted[t].run == r && minted[t].head == h && !minted[t].dirty
      && at < endAt && ReadHead(log, endAt, EndHead(r, h), h)
    case QuerySawHead(h, at) => h != "" ==> ReadHead(log, at, QueryHead(r, h), h)
    case QuerySawTree(h, at, d, treeAt) =>
      && AskedTree(log, treeAt, r, d)
      && (h != "" ==> at < treeAt && ReadHead(log, at, QueryHead(r, h), h))
    case _ => true
  }

  ghost predicate ReportHolds(log: Log, report: ReportFile) {
    report.Report? ==>
      && IsMeasurement(log, report.origin)
      && var k := LastWrite(log);
         match report.stamp
         case None => k == report.origin
         case Some(h) => 0 <= k && log[k].Stamped? && log[k].head == h && log[k].origin == report.origin
  }

  ghost predicate Inv(w: World) {
    && w.head == HeadAfter(w.log) && w.dirty == DirtyAfter(w.log)
    && Honest(w.minted, w.marker)
    && ReportHolds(w.log, w.report)
    && (forall t :: t in w.minted ==> t != "" && ClaimHolds(w.log, w.minted[t]))
    && (forall r :: r in w.pcs ==> PcHolds(w.minted, w.log, r, w.pcs[r]))
    && AllJustified(w.log)
  }

  // ----- facts survive as the log grows -----

  lemma {:induction false} LogGrows(log: Log, e: Event)
    ensures forall i, f, h :: ReadHead(log, i, f, h) ==> ReadHead(log + [e], i, f, h)
    ensures forall i, f, d :: ReadTree(log, i, f, d) ==> ReadTree(log + [e], i, f, d)
    ensures forall j, r, d :: AskedTree(log, j, r, d) ==> AskedTree(log + [e], j, r, d)
    ensures forall p, r, o :: ReadLast(log, p, r, o) ==> ReadLast(log + [e], p, r, o)
    ensures (log + [e])[..|log|] == log
    ensures forall i :: 0 <= i <= |log| ==> (log + [e])[..i] == log[..i]
  {
    assert forall i :: 0 <= i <= |log| ==> (log + [e])[..i] == log[..i];
  }

  lemma {:induction false} ClaimGrows(log: Log, e: Event, c: Claim)
    requires ClaimHolds(log, c)
    ensures ClaimHolds(log + [e], c)
  {
    LogGrows(log, e);
  }

  lemma {:induction false} PcGrows(minted: map<Token, Claim>, log: Log, e: Event, r: RunId, pc: Pc)
    requires PcHolds(minted, log, r, pc) && !(e.ReportRead? && e.run == r)
    ensures PcHolds(minted, log + [e], r, pc)
  {
    LogGrows(log, e);
  }

  lemma {:induction false} PcMint(minted: map<Token, Claim>, log: Log, t: Token, c: Claim, r: RunId, pc: Pc)
    requires PcHolds(minted, log, r, pc) && t !in minted
    requires forall t' :: t' in minted ==> t' != ""
    requires t != ""
    ensures PcHolds(minted[t := c], log, r, pc)
  {
  }

  lemma {:induction false} StampedGrows(log: Log, e: Event, k: nat)
    requires k < |log| && log[k].Stamped? && StampJustified(log, k)
    ensures StampJustified(log + [e], k)
  {
    var i, j, p, x :| Bracket(log, log[k].run, log[k].head, log[k].origin, i, j, p, x, k);
    LogGrows(log, e);
    assert Bracket(log + [e], log[k].run, log[k].head, log[k].origin, i, j, p, x, k);
  }

  lemma {:induction false} ReusedGrows(log: Log, e: Event, n: nat)
    requires n < |log| && log[n].Reused? && ReuseJustified(log, n)
    ensures ReuseJustified(log + [e], n)
  {
    var a, b, k :| ReuseJustifiedBy(log, n, a, b, k);
    LogGrows(log, e);
    assert ReuseJustifiedBy(log + [e], n, a, b, k);
  }

  lemma {:induction false} StampsGrow(log: Log, e: Event)
    requires forall k {:trigger StampJustified(log, k)} :: 0 <= k < |log| && log[k].Stamped? ==> StampJustified(log, k)
    requires e.Stamped? ==> StampJustified(log + [e], |log|)
    ensures forall k {:trigger StampJustified(log + [e], k)} ::
              0 <= k < |log + [e]| && (log + [e])[k].Stamped? ==> StampJustified(log + [e], k)
  {
    forall k | 0 <= k < |log + [e]| && (log + [e])[k].Stamped?
      ensures StampJustified(log + [e], k)
    {
      if k < |log| {
        assert StampJustified(log, k);
        StampedGrows(log, e, k);
      }
    }
  }

  lemma {:induction false} ReusesGrow(log: Log, e: Event)
    requires forall n {:trigger ReuseJustified(log, n)} :: 0 <= n < |log| && log[n].Reused? ==> ReuseJustified(log, n)
    requires e.Reused? ==> ReuseJustified(log + [e], |log|)
    ensures forall n {:trigger ReuseJustified(log + [e], n)} ::
              0 <= n < |log + [e]| && (log + [e])[n].Reused? ==> ReuseJustified(log + [e], n)
  {
    forall n | 0 <= n < |log + [e]| && (log + [e])[n].Reused?
      ensures ReuseJustified(log + [e], n)
    {
      if n < |log| {
        assert ReuseJustified(log, n);
        ReusedGrows(log, e, n);
      }
    }
  }

  /** Everything already justified stays so; only the new event needs a justification. */
  lemma {:induction false} JustifiedGrows(log: Log, e: Event)
    requires AllJustified(log)
    requires e.Stamped? ==> StampJustified(log + [e], |log|)
    requires e.Reused? ==> ReuseJustified(log + [e], |log|)
    ensures AllJustified(log + [e])
  {
    StampsGrow(log, e);
    ReusesGrow(log, e);
  }

  /** A step that logs one event and moves at most one process keeps the invariant, given what is
      new about it. */
  lemma {:induction false} LoggedStep(w: World, w': World, e: Event, r: RunId, pc: Pc)
    requires Inv(w) && w'.log == w.log + [e] && w'.minted == w.minted && w'.marker == w.marker
    requires w'.pcs == w.pcs || w'.pcs == w.pcs[r := pc]
    requires PcHolds(w.minted, w.log + [e], r, pc)
    requires e.ReportRead? ==> e.run == r && w'.pcs == w.pcs[r := pc]
    requires w'.head == HeadAfter(w'.log) && w'.dirty == DirtyAfter(w'.log)
    requires ReportHolds(w'.log, w'.report)
    requires e.Stamped? ==> StampJustified(w.log + [e], |w.log|)
    requires e.Reused? ==> ReuseJustified(w.log + [e], |w.log|)
    ensures Inv(w')
  {
    forall t | t in w'.minted
      ensures ClaimHolds(w'.log, w'.minted[t])
    {
      ClaimGrows(w.log, e, w.minted[t]);
    }
    forall q | q in w'.pcs
      ensures PcHolds(w'.minted, w'.log, q, w'.pcs[q])
    {
      if w'.pcs != w.pcs[r := pc] || q != r {
        PcGrows(w.minted, w.log, e, q, w.pcs[q]);
      }
    }
    JustifiedGrows(w.log, e);
  }

  /** Events other than the report's writers leave the report and its last write alone. */
  lemma {:induction false} ReportGrows(log: Log, e: Event, report: ReportFile)
    requires ReportHolds(log, report) && !WritesReport(e)
    ensures ReportHolds(log + [e], report)
  {
  }

  lemma {:induction false} SilentStep(w: World, w': World, r: RunId, pc: Pc)
    requires Inv(w) && w'.log == w.log && w'.minted == w.minted
    requires w'.head == w.head && w'.dirty == w.dirty && w'.report == w.report
    requires Honest(w.minted, w'.marker)
    requires w'.pcs == w.pcs || w'.pcs == w.pcs[r := pc]
    requires PcHolds(w.minted, w.log, r, pc)
    ensures Inv(w')
  {
  }

  lemma {:induction false} PcKnown(w: World, r: RunId)
    requires Inv(w)
    ensures PcHolds(w.minted, w.log, r, PcOf(w, r))
  {
  }

  /** Logging anything but a write, a git change, a stamp or a reuse keeps the invariant. */
  lemma {:induction false} ObservationKeeps(w: World, e: Event, r: RunId, pc: Pc)
    requires Inv(w) && PcHolds(w.minted, w.log + [e], r, pc)
    requires !WritesReport(e) && !e.HeadMoved? && !e.TreeChanged? && (e.ReportRead? ==> e.run == r)
    requires e.Reused? ==> ReuseJustified(w.log + [e], |w.log|)
    ensures Inv(Goes(Logs(w, e), r, pc))
  {
    LogGrows(w.log, e);
    ReportGrows(w.log, e, w.report);
    LoggedStep(w, Goes(Logs(w, e), r, pc), e, r, pc);
  }

  lemma {:induction false} MoveHeadKeeps(w: World, h: Head)
    requires Inv(w)
    ensures Inv(Logs(w.(head := h), HeadMoved(h)))
  {
    LogGrows(w.log, HeadMoved(h));
    ReportGrows(w.log, HeadMoved(h), w.report);
    LoggedStep(w, Logs(w.(head := h), HeadMoved(h)), HeadMoved(h), 0, Idle);
  }

  lemma {:induction false} ChangeTreeKeeps(w: World, d: bool)
    requires Inv(w)
    ensures Inv(Logs(w.(dirty := d), TreeChanged(d)))
  {
    LogGrows(w.log, TreeChanged(d));
    ReportGrows(w.log, TreeChanged(d), w.report);
    LoggedStep(w, Logs(w.(dirty := d), TreeChanged(d)), TreeChanged(d), 0, Idle);
  }

  /** A write of fresh measurements, by a run or by anything else. */
  lemma {:induction false} MeasurementKeeps(w: World, e: Event, report: ReportFile)
    requires Inv(w) && (e.Measured? || e.Rewritten?)
    requires report == Unusable || report == Report(|w.log|, None)
    ensures Inv(Logs(w.(report := report), e))
  {
    LogGrows(w.log, e);
    LoggedStep(w, Logs(w.(report := report), e), e, 0, Idle);
  }

  lemma {:induction false} StartHeadKeeps(w: World, r: RunId)
    requires Inv(w) && w.head != ""
    ensures Inv(Goes(Logs(w, StartHead(r, w.head)), r, SawHead(w.head, |w.log|)))
  {
    LogGrows(w.log, StartHead(r, w.head));
    ObservationKeeps(w, StartHead(r, w.head), r, SawHead(w.head, |w.log|));
  }

  lemma {:induction false} PcsMint(w: World, t: Token, c: Claim)
    requires Inv(w) && t != "" && t !in w.minted
    ensures forall q :: q in w.pcs ==> PcHolds(w.minted[t := c], w.log, q, w.pcs[q])
  {
    forall q | q in w.pcs
      ensures PcHolds(w.minted[t := c], w.log, q, w.pcs[q])
    {
      PcMint(w.minted, w.log, t, c, q, w.pcs[q]);
    }
  }

  lemma {:induction false} MintOnlyKeeps(w: World, t: Token, c: Claim)
    requires Inv(w) && ClaimHolds(w.log, c) && t != "" && t !in w.minted
    ensures Inv(w.(minted := w.minted[t := c]))
  {
    PcsMint(w, t, c);
  }

  /** Minting: log the read, bind the token to it, move on. */
  lemma {:induction false} MintKeeps(w: World, r: RunId, t: Token, h: Head, at: nat, dirty: bool)
    requires Inv(w) && ReadHead(w.log, at, StartHead(r, h), h) && t != "" && t !in w.minted && (w.dirty ==> dirty)
    ensures var c := Claim(r, h, dirty, at, |w.log|);
            Inv(Goes(Logs(w.(minted := w.minted[t := c]), StartTree(r, dirty)), r, SawTree(t)))
  {
    var e := StartTree(r, dirty);
    var c := Claim(r, h, dirty, at, |w.log|);
    var logged := Goes(Logs(w, e), r, Done);
    ObservationKeeps(w, e, r, Done);
    NewClaim(w.log, r, h, dirty, at);
    MintOnlyKeeps(logged, t, c);
    MoveOn(logged.(minted := w.minted[t := c]), r, SawTree(t));
    LastUpdateWins(w.pcs, r, Done, SawTree(t));
  }

  lemma {:induction false} LastUpdateWins(pcs: map<RunId, Pc>, r: RunId, a: Pc, b: Pc)
    ensures pcs[r := a][r := b] == pcs[r := b]
  {
  }

  lemma {:induction false} NewClaim(log: Log, r: RunId, h: Head, dirty: bool, at: nat)
    requires ReadHead(log, at, StartHead(r, h), h) && (DirtyAfter(log) ==> dirty)
    ensures ClaimHolds(log + [StartTree(r, dirty)], Claim(r, h, dirty, at, |log|))
  {
    LogGrows(log, StartTree(r, dirty));
  }

  lemma {:induction false} MoveOn(w: World, r: RunId, pc: Pc)
    requires Inv(w) && PcHolds(w.minted, w.log, r, pc)
    ensures Inv(Goes(w, r, pc))
  {
  }

  lemma {:induction false} ReadReportKeeps(w: World, r: RunId, t: Token)
    requires Inv(w) && Owns(w.minted, r, t) && w.report.Report?
    ensures Inv(Goes(Logs(w, ReportRead(r, w.report.origin)), r, HasReport(t, w.report.origin, |w.log|)))
  {
    var e := ReportRead(r, w.report.origin);
    LogGrows(w.log, e);
    assert t in w.minted ==> ClaimHolds(w.log, w.minted[t]);
    ObservationKeeps(w, e, r, HasReport(t, w.report.origin, |w.log|));
  }

  /** The token check is what ties an accepted marker to the run's own record-start. */
  lemma {:induction false} AcceptedIsOwn(minted: map<Token, Claim>, r: RunId, t: Token, found: MarkerFile)
    requires Owns(minted, r, t) && (forall t' :: t' in minted ==> t' != "")
    requires Honest(minted, found) && MarkerAccepted(found, t)
    ensures t in minted && minted[t].run == r && minted[t].head == found.marker.head && !minted[t].dirty
  {
  }

  /** With the marker accepted and HEAD unmoved, the run stands where a stamp is justified. */
  lemma {:induction false} AcceptedPc(minted: map<Token, Claim>, log: Log, r: RunId, pc: Pc, h: Head)
    requires pc.Consumed? && PcHolds(minted, log, r, pc) && forall t :: t in minted ==> t != ""
    requires MarkerAccepted(pc.found, pc.token) && h == pc.found.marker.head && h == HeadAfter(log) && h != ""
    ensures PcHolds(minted, log + [EndHead(r, h)], r, Verified(pc.token, pc.origin, pc.at, h, |log|))
  {
    AcceptedIsOwn(minted, r, pc.token, pc.found);
    EndHeadPc(minted, log, r, pc.token, pc.origin, pc.at, h);
  }

  lemma {:induction false} EndHeadPc(minted: map<Token, Claim>, log: Log, r: RunId, t: Token, o: nat, at: nat, h: Head)
    requires TookReport(minted, log, r, t, o, at) && h == HeadAfter(log) && h != ""
    requires t in minted && minted[t].head == h && !minted[t].dirty && t != ""
    ensures PcHolds(minted, log + [EndHead(r, h)], r, Verified(t, o, at, h, |log|))
  {
    LogGrows(log, EndHead(r, h));
  }

  lemma {:induction false} VerifiedJustifies(minted: map<Token, Claim>, log: Log, r: RunId, pc: Pc)
    requires pc.Verified? && PcHolds(minted, log, r, pc) && ClaimHolds(log, minted[pc.token])
    ensures StampJustified(log + [Stamped(r, pc.head, pc.origin)], |log|)
  {
    var c := minted[pc.token];
    var e := Stamped(r, pc.head, pc.origin);
    var log' := log + [e];
    LogGrows(log, e);
    assert log'[|log|] == e;
    assert Bracket(log', r, pc.head, pc.origin, c.headAt, c.treeAt, pc.at, pc.endAt, |log|);
  }

  lemma {:induction false} StampedReport(log: Log, r: RunId, h: Head, o: nat)
    requires IsMeasurement(log, o)
    ensures ReportHolds(log + [Stamped(r, h, o)], Report(o, Some(h)))
    ensures HeadAfter(log + [Stamped(r, h, o)]) == HeadAfter(log)
    ensures DirtyAfter(log + [Stamped(r, h, o)]) == DirtyAfter(log)
  {
  }

  lemma {:induction false} WriteStampKeeps(w: World, r: RunId, pc: Pc)
    requires Inv(w) && pc.Verified? && PcHolds(w.minted, w.log, r, pc)
    ensures Inv(Goes(Logs(w.(report := Report(pc.origin, Some(pc.head))), Stamped(r, pc.head, pc.origin)), r, Done))
  {
    var e := Stamped(r, pc.head, pc.origin);
    VerifiedJustifies(w.minted, w.log, r, pc);
    StampedReport(w.log, r, pc.head, pc.origin);
    LoggedStep(w, Goes(Logs(w.(report := Report(pc.origin, Some(pc.head))), e), r, Done), e, r, Done);
  }

  lemma {:induction false} QueryHeadKeeps(w: World, r: RunId)
    requires Inv(w)
    ensures Inv(Goes(Logs(w, QueryHead(r, w.head)), r, QuerySawHead(w.head, |w.log|)))
  {
    LogGrows(w.log, QueryHead(r, w.head));
    ObservationKeeps(w, QueryHead(r, w.head), r, QuerySawHead(w.head, |w.log|));
  }

  lemma {:induction false} QueryTreeKeeps(w: World, r: RunId, h: Head, at: nat, answered: bool)
    requires Inv(w) && PcHolds(w.minted, w.log, r, QuerySawHead(h, at))
    ensures var dirty := w.dirty && answered;
            Inv(Goes(Logs(w, QueryTree(r, answered, dirty)), r, QuerySawTree(h, at, dirty, |w.log|)))
  {
    var dirty := w.dirty && answered;
    var e := QueryTree(r, answered, dirty);
    LogGrows(w.log, e);
    assert AskedTree(w.log + [e], |w.log|, r, dirty);
    ObservationKeeps(w, e, r, QuerySawTree(h, at, dirty, |w.log|));
  }

  lemma {:induction false} ReuseKeeps(w: World, r: RunId, pc: Pc)
    requires Inv(w) && pc.QuerySawTree? && PcHolds(w.minted, w.log, r, pc) && !pc.dirty && pc.head != ""
    requires w.report.Report? && w.report.stamp == Some(pc.head)
    ensures Inv(Goes(Logs(w, Reused(r, pc.head, w.report.origin)), r, Done))
  {
    var e := Reused(r, pc.head, w.report.origin);
    LogGrows(w.log, e);
    assert ReuseJustifiedBy(w.log + [e], |w.log|, pc.at, pc.treeAt, LastWrite(w.log));
    ObservationKeeps(w, e, r, Done);
  }

  lemma {:induction false} EnvironmentKeeps(w: World, c: Change)
    requires Inv(w)
    ensures Inv(EnvironmentStep(w, c))
  {
    match c
    case MoveHead(h) => MoveHeadKeeps(w, h);
    case ChangeTree(d) => ChangeTreeKeeps(w, d);
    case DropMarker => SilentStep(w, w.(marker := NoMarker), 0, Idle);
    case SpoilMarker => SilentStep(w, w.(marker := Unreadable), 0, Idle);
    case RewriteReport(usable) =>
      MeasurementKeeps(w, Rewritten, if usable then Report(|w.log|, None) else Unusable);
  }

  lemma {:induction false} RecordKeeps(w: World, r: RunId, m: RecordMove, w': World)
    requires Inv(w) && RecordStep(w, r, m) == Some(w')
    ensures Inv(w')
  {
    var pc := PcOf(w, r);
    PcKnown(w, r);
    match m
    case ClearMarker => SilentStep(w, w', r, Cleared);
    case ReadStartHead =>
      if w.head == "" {
        SilentStep(w, w', r, Started(""));
      } else {
        StartHeadKeeps(w, r);
      }
    case ReadStartTree(t, answered) => MintKeeps(w, r, t, pc.head, pc.at, w.dirty || !answered);
    case WriteMarker => SilentStep(w, w', r, Started(pc.token));
    case Measure => MeasurementKeeps(w, Measured(r), w'.report);
  }

  lemma {:induction false} StampReadKeeps(w: World, r: RunId, w': World)
    requires Inv(w) && StampStep(w, r, ReadReport) == Some(w')
    ensures Inv(w')
  {
    PcKnown(w, r);
    if w.report.Unusable? {
      SilentStep(w, w', r, Discarding);
    } else {
      ReadReportKeeps(w, r, PcOf(w, r).token);
    }
  }

  lemma {:induction false} StampReadMarkerKeeps(w: World, r: RunId, w': World)
    requires Inv(w) && StampStep(w, r, ReadMarker) == Some(w')
    ensures Inv(w')
  {
    PcKnown(w, r);
    MoveOn(w, r, PcOf(w', r));
  }

  lemma {:induction false} StampDropMarkerKeeps(w: World, r: RunId, m: StampMove, w': World)
    requires Inv(w) && StampStep(w, r, m) == Some(w') && (m == DiscardMarker || m == DeleteMarker)
    ensures Inv(w')
  {
  }

  lemma {:induction false} AcceptedKnown(w: World, r: RunId, pc: Pc)
    requires Inv(w) && pc.Consumed? && PcHolds(w.minted, w.log, r, pc)
    requires MarkerAccepted(pc.found, pc.token) && w.head == pc.found.marker.head && w.head != ""
    ensures PcHolds(w.minted, w.log + [EndHead(r, w.head)], r, Verified(pc.token, pc.origin, pc.at, w.head, |w.log|))
  {
    AcceptedPc(w.minted, w.log, r, pc, w.head);
  }

  /** The stamp call's last look at HEAD: onwards when all checks pass, otherwise finished. */
  lemma {:induction false} StampEndKeeps(w: World, r: RunId, w': World)
    requires Inv(w) && StampStep(w, r, ReadEndHead) == Some(w')
    ensures Inv(w')
  {
    var pc := PcOf(w, r);
    PcKnown(w, r);
    if MarkerAccepted(pc.found, pc.token) && w.head != "" && w.head == pc.found.marker.head {
      AcceptedKnown(w, r, pc);
      VerifiedKeeps(w, r, Verified(pc.token, pc.origin, pc.at, w.head, |w.log|), w');
    } else {
      MoveOn(w, r, Done);
    }
  }

  lemma {:induction false} VerifiedKeeps(w: World, r: RunId, pc: Pc, w': World)
    requires Inv(w) && PcHolds(w.minted, w.log + [EndHead(r, w.head)], r, pc)
    requires w' == Goes(Logs(w, EndHead(r, w.head)), r, pc)
    ensures Inv(w')
  {
    ObservationKeeps(w, EndHead(r, w.head), r, pc);
  }

  lemma {:induction false} StampWriteKeeps(w: World, r: RunId, w': World)
    requires Inv(w) && StampStep(w, r, WriteStamp) == Some(w')
    ensures Inv(w')
  {
    PcKnown(w, r);
    WriteStampKeeps(w, r, PcOf(w, r));
  }

  lemma {:induction false} StampKeeps(w: World, r: RunId, m: StampMove, w': World)
    requires Inv(w) && StampStep(w, r, m) == Some(w')
    ensures Inv(w')
  {
    match m
    case ReadReport => StampReadKeeps(w, r, w');
    case DiscardMarker => StampDropMarkerKeeps(w, r, m, w');
    case ReadMarker => StampReadMarkerKeeps(w, r, w');
    case DeleteMarker => StampDropMarkerKeeps(w, r, m, w');
    case ReadEndHead => StampEndKeeps(w, r, w');
    case WriteStamp => StampWriteKeeps(w, r, w');
  }

  lemma {:induction false} QueryTreeStepKeeps(w: World, r: RunId, answered: bool, w': World)
    requires Inv(w) && QueryStep(w, r, ReadQueryTree(answered)) == Some(w')
    ensures Inv(w')
  {
    PcKnown(w, r);
    QueryTreeKeeps(w, r, PcOf(w, r).head, PcOf(w, r).at, answered);
  }

  lemma {:induction false} QueryReportStepKeeps(w: World, r: RunId, w': World)
    requires Inv(w) && QueryStep(w, r, ReadQueryReport) == Some(w')
    ensures Inv(w')
  {
    var pc := PcOf(w, r);
    PcKnown(w, r);
    if w.report.Report? && w.report.stamp == Some(pc.head) && !pc.dirty && pc.head != "" {
      ReuseKeeps(w, r, pc);
    } else {
      SilentStep(w, w', r, Done);
    }
  }

  lemma {:induction false} QueryKeeps(w: World, r: RunId, m: QueryMove, w': World)
    requires Inv(w) && QueryStep(w, r, m) == Some(w')
    ensures Inv(w')
  {
    match m
    case ReadQueryHead => QueryHeadKeeps(w, r);
    case ReadQueryTree(answered) => QueryTreeStepKeeps(w, r, answered, w');
    case ReadQueryReport => QueryReportStepKeeps(w, r, w');
  }

  lemma {:induction false} StepKeeps(w: World, a: Action, w': World)
    requires Inv(w) && Step(w, a) == Some(w')
    ensures Inv(w')
  {
    match a
    case Environment(c) => EnvironmentKeeps(w, c);
    case Record(r, m) => RecordKeeps(w, r, m, w');
    case Stamp(r, m) => StampKeeps(w, r, m, w');
    case Query(r, m) => QueryKeeps(w, r, m, w');
  }

  lemma {:induction false} ExecutionsKeep(actions: seq<Action>, w: World)
    requires Execute(INIT, actions) == Some(w)
    ensures Inv(w)
  {
    if actions != [] {
      var before := Execute(INIT, actions[..|actions| - 1]);
      ExecutionsKeep(actions[..|actions| - 1], before.value);
      StepKeeps(before.value, actions[|actions| - 1], w);
    }
  }

  // ----- the theorems -----

  /** In every interleaving, a run that stamps `h` itself read HEAD as `h` and the tree as clean at
      its record-start, and HEAD as `h` again before stamping; and those readings were true. */
  lemma {:induction false} StampsAreTrue(actions: seq<Action>, w: World, k: nat)
    requires Execute(INIT, actions) == Some(w)
    requires k < |w.log| && w.log[k].Stamped?
    ensures StampJustified(w.log, k)
  {
    ExecutionsKeep(actions, w);
  }

  /** In every interleaving, a query that reuses the full report truly read the stamped HEAD, took
      the tree for clean, which it was if git answered, and the last write to the report was a stamp
      for that HEAD, itself justified. */
  lemma {:induction false} ReuseIsSound(actions: seq<Action>, w: World, n: nat)
    requires Execute(INIT, actions) == Some(w)
    requires n < |w.log| && w.log[n].Reused?
    ensures exists a, b, k: nat :: ReuseJustifiedBy(w.log, n, a, b, k) && StampJustified(w.log, k)
  {
    ExecutionsKeep(actions, w);
    assert ReuseJustified(w.log, n);
    var a, b, k: nat :| ReuseJustifiedBy(w.log, n, a, b, k);
    assert StampJustified(w.log, k);
  }

  // ----- when a reuse rests on a clean tree -----

  /** This query's status call. */
  ghost predicate StatusCall(log: Log, j: int, r: RunId) {
    0 <= j < |log| && log[j].QueryTree? && log[j].run == r
  }

  /** Git told this query that the tree is clean, and it was. */
  ghost predicate ReadClean(log: Log, j: int, r: RunId) {
    0 <= j < |log| && log[j] == QueryTree(r, true, false) && !DirtyAfter(log[..j])
  }

  /** A query asks for the tree's state once and never starts over. */
  ghost predicate AskedOnce(w: World) {
    && (forall i, r :: StatusCall(w.log, i, r) ==> PcOf(w, r).QuerySawTree? || PcOf(w, r).Done?)
    && (forall i, j, r :: StatusCall(w.log, i, r) && StatusCall(w.log, j, r) ==> i == j)
  }

  /** A step that logs at most one event, and no status call unless none was made, keeps that. */
  lemma {:induction false} AskedOnceAfter(w: World, w': World, r: RunId, logged: seq<Event>)
    requires AskedOnce(w) && w'.log == w.log + logged && |logged| <= 1
    requires forall q :: q != r ==> PcOf(w', q) == PcOf(w, q)
    requires PcOf(w, r).QuerySawTree? || PcOf(w, r).Done? ==> PcOf(w', r).QuerySawTree? || PcOf(w', r).Done?
    requires |logged| == 1 && logged[0].QueryTree? ==>
               logged[0].run == r && PcOf(w, r).QuerySawHead? && PcOf(w', r).QuerySawTree?
    ensures AskedOnce(w')
  {
    forall i, q | StatusCall(w'.log, i, q)
      ensures StatusCall(w.log, i, q) || (i == |w.log| && q == r && PcOf(w, r).QuerySawHead?)
    {
    }
  }

  lemma {:induction false} RecordAsksNothing(w: World, r: RunId, m: RecordMove, w': World)
    requires AskedOnce(w) && RecordStep(w, r, m) == Some(w')
    ensures AskedOnce(w')
  {
    AskedOnceAfter(w, w', r, w'.log[|w.log|..]);
  }

  lemma {:induction false} StampAsksNothing(w: World, r: RunId, m: StampMove, w': World)
    requires AskedOnce(w) && StampStep(w, r, m) == Some(w')
    ensures AskedOnce(w')
  {
    AskedOnceAfter(w, w', r, w'.log[|w.log|..]);
  }

  lemma {:induction false} QueryAsksOnce(w: World, r: RunId, m: QueryMove, w': World)
    requires AskedOnce(w) && QueryStep(w, r, m) == Some(w')
    ensures AskedOnce(w')
  {
    AskedOnceAfter(w, w', r, w'.log[|w.log|..]);
  }

  lemma {:induction false} StepAsksOnce(w: World, a: Action, w': World)
    requires AskedOnce(w) && Step(w, a) == Some(w')
    ensures AskedOnce(w')
  {
    match a
    case Environment(c) => AskedOnceAfter(w, w', 0, w'.log[|w.log|..]);
    case Record(r, m) => RecordAsksNothing(w, r, m, w');
    case Stamp(r, m) => StampAsksNothing(w, r, m, w');
    case Query(r, m) => QueryAsksOnce(w, r, m, w');
  }

  lemma {:induction false} ExecutionsAskOnce(actions: seq<Action>, w: World)
    requires Execute(INIT, actions) == Some(w)
    ensures AskedOnce(w)
  {
    if actions != [] {
      var before := Execute(INIT, actions[..|actions| - 1]);
      ExecutionsAskOnce(actions[..|actions| - 1], before.value);
      StepAsksOnce(before.value, actions[|actions| - 1], w);
    }
  }

  /** In every interleaving, a reuse rests on a tree that git called clean, and that was clean then,
      exactly when the query's one status call was answered. */
  lemma {:induction false} CleanReuseIff(actions: seq<Action>, w: World, n: nat) returns (b: nat)
    requires Execute(INIT, actions) == Some(w)
    requires n < |w.log| && w.log[n].Reused?
    ensures b < n && w.log[b].QueryTree? && forall j :: StatusCall(w.log, j, w.log[n].run) <==> j == b
    ensures (exists j :: j < n && ReadClean(w.log, j, w.log[n].run)) <==> w.log[b].answered
  {
    ExecutionsKeep(actions, w);
    ExecutionsAskOnce(actions, w);
    assert ReuseJustified(w.log, n);
    var a, b', k: nat :| ReuseJustifiedBy(w.log, n, a, b', k);
    b := b';
    assert StatusCall(w.log, b, w.log[n].run);
    if w.log[b].answered {
      assert ReadClean(w.log, b, w.log[n].run);
    }
    forall j | ReadClean(w.log, j, w.log[n].run)
      ensures j == b
    {
      assert StatusCall(w.log, j, w.log[n].run);
    }
  }

  // ----- whose measurements a stamp covers -----

  /** The report as it stands before `p` holds what run `r` measured, judged by who wrote and opened
      it when: the last write is a coverage run of `r`, or a stamp by a run that opened the report
      while it held what `r` measured. */
  ghost predicate Holds(log: Log, r: RunId, p: nat)
    requires p <= |log|
    decreases p
  {
    var k := LastWrite(log[..p]);
    && 0 <= k
    && (|| log[k] == Measured(r)
        || (&& log[k].Stamped?
            && var at := LastRead(log[..k], log[k].run);
               0 <= at && Holds(log, r, at)))
  }

  /** Following stamps back to where their runs opened the report ends at the measurement inside. */
  lemma {:induction false} OriginIff(log: Log, r: RunId, p: nat)
    requires AllJustified(log) && p <= |log| && 0 <= LastWrite(log[..p])
    ensures var o := OriginOf(log, LastWrite(log[..p])); o < p && (log[o] == Measured(r) <==> Holds(log, r, p))
    decreases p
  {
    var k := LastWrite(log[..p]);
    if log[k].Stamped? {
      assert StampJustified(log, k);
      var i, j, at, e :| Bracket(log, log[k].run, log[k].head, log[k].origin, i, j, at, e, k);
      OriginIff(log, r, at);
    }
  }

  /** In every interleaving, a stamp covers what run `r` measured, the stamping run's own case among
      them, exactly when the report held that at the moment the stamp call opened it. */
  lemma {:induction false} StampedMeasurementsIff(actions: seq<Action>, w: World, k: nat, r: RunId)
    requires Execute(INIT, actions) == Some(w)
    requires k < |w.log| && w.log[k].Stamped?
    ensures 0 <= LastRead(w.log[..k], w.log[k].run) && w.log[k].origin < k
    ensures w.log[w.log[k].origin] == Measured(r) <==> Holds(w.log, r, LastRead(w.log[..k], w.log[k].run))
  {
    ExecutionsKeep(actions, w);
    assert StampJustified(w.log, k);
    var i, j, at, e :| Bracket(w.log, w.log[k].run, w.log[k].head, w.log[k].origin, i, j, at, e, k);
    OriginIff(w.log, r, at);
  }

  /** The same of a report that is reused. */
  lemma {:induction false} ReusedMeasurementsIff(actions: seq<Action>, w: World, n: nat, r: RunId)
    requires Execute(INIT, actions) == Some(w)
    requires n < |w.log| && w.log[n].Reused?
    ensures w.log[n].origin < n && (w.log[w.log[n].origin] == Measured(r) <==> Holds(w.log, r, n))
  {
    ExecutionsKeep(actions, w);
    assert ReuseJustified(w.log, n);
    var a, b, k :| ReuseJustifiedBy(w.log, n, a, b, k);
    OriginIff(w.log, r, n);
  }

  /** Where no stamp intervenes, whoever wrote the report last decides. */
  lemma {:induction false} LastMeasurementDecides(log: Log, r: RunId, m: nat, p: nat)
    requires m < p <= |log| && IsMeasurement(log, m)
    requires forall q :: m < q < p ==> !WritesReport(log[q])
    ensures Holds(log, r, p) <==> log[m] == Measured(r)
  {
  }
}
