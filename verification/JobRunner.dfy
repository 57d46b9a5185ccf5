/** A whole job: its commands one after another, the look at the source afterwards, the artifacts, and the
    manifest that is written about them. */
module JobRunner {
  import opened Common
  import opened JobResult
  import opened JobExecution
  import Utf8

  const MAX_ARTIFACT_BYTES := 4 * 1024 * 1024

  type Digest = d: string | DigestValid(d) witness ZeroDigest()

  function ZeroDigest(): (d: string)
    ensures DigestValid(d)
  {
    "sha256:" + seq(64, _ => '0')
  }

  /** What freezing the workspace again gives. */
  datatype Inventory = Inventoried(digest: string) | NotInventoried(error: Text)

  /** What opening a declared path gives, and how the file is found to be while it is read. */
  datatype Look = Unreachable | Opened(regular: bool, links: nat, size: nat, content: seq<octet>, stable: bool)

  /** One artifact's turn; `error` is the message of whichever failure arises. */
  datatype Collection = Collection(expired: bool, look: Look, stored: bool, error: Text)

  /** Everything the runner meets, in the order it meets it. */
  datatype World = World(
    scripts: seq<Script>, inventory: Inventory, refusal: Text, directoryMade: bool,
    collections: seq<Collection>, expiredAtEnd: bool, hash: seq<octet> -> Digest)

  ghost predicate Fits(spec: JobSpec, world: World) {
    |world.scripts| == |spec.commands| && |world.collections| == |spec.artifacts|
  }

  // ---- The commands ------------------------------------------------------------------------

  /** The result recorded for a command the runner gave up on. */
  function GivenUp(index: nat, error: Text): CommandResult {
    CommandResult(index, None, InfrastructureFailed, 0, BoundError(error), false, true, false, Some(BoundError(error)))
  }

  /** An infrastructure failure whose message is both the output and the reason why nothing is known of the end. */
  ghost predicate GaveUp(r: CommandResult, index: nat, error: Text) {
    && r.commandIndex == index && r.exitCode.None? && r.outcome == InfrastructureFailed && r.durationMs == 0
    && !r.outputTruncated && r.logsTruncated && !r.terminationConfirmed
    && r.output == Utf8.TakeChars(error, 128) && r.terminationError == Some(r.output)
  }

  predicate Stops(r: CommandResult) {
    !r.terminationConfirmed || r.outcome == TimedOut || r.outcome == InfrastructureFailed
  }

  /** `r` is what happened to the command, and `heard` what it had put out by then. */
  ghost predicate Happened(script: Script, used: nat, index: nat, before: nat, r: CommandResult, heard: seq<octet>) {
    if script.NotStarted? then GaveUp(r, index, script.error) && heard == []
    else
      && used <= |script.events| && heard == Heard(script.events[..used])
      && (|| Tells(r, script.events, used, index, before)
          || (0 < used && exists error :: Troubles(script.events[used - 1], error) && GaveUp(r, index, error)))
  }

  ghost predicate Explained(script: Script, index: nat, r: CommandResult, heard: seq<octet>) {
    exists used: nat, before: nat :: before <= MAX_FORWARDED_OUTPUT && Happened(script, used, index, before, r, heard)
  }

  /** The outcome of the last command that did not complete. */
  function LastFailure(commands: seq<CommandResult>): Outcome {
    if commands == [] then Completed
    else
      var last := commands[|commands| - 1].outcome;
      if last != Completed then last else LastFailure(commands[..|commands| - 1])
  }

  function Flat(heard: seq<seq<octet>>): seq<octet> {
    if heard == [] then [] else Flat(heard[..|heard| - 1]) + heard[|heard| - 1]
  }

  ghost predicate Accounted(script: Script, index: nat, r: CommandResult, heard: seq<octet>) {
    CommandStands(index, r) && Explained(script, index, r, heard)
  }

  ghost predicate AllAccounted(scripts: seq<Script>, commands: seq<CommandResult>, heard: seq<seq<octet>>) {
    && |commands| == |heard| <= |scripts|
    && forall k :: 0 <= k < |commands| ==> Accounted(scripts[k], k, commands[k], heard[k])
  }

  predicate OnlyLastStops(commands: seq<CommandResult>) {
    forall k :: 0 <= k < |commands| - 1 ==> !Stops(commands[k])
  }

  /** The results are of a prefix of the commands, cut off by the first that stops the job. */
  ghost predicate RanInOrder(scripts: seq<Script>, commands: seq<CommandResult>, heard: seq<seq<octet>>) {
    AllAccounted(scripts, commands, heard) && OnlyLastStops(commands)
  }

  /** What was passed on is a prefix of all output within the limit, and all of it unless a result says otherwise. */
  ghost predicate PassedOnAll(commands: seq<CommandResult>, heard: seq<seq<octet>>, sink: seq<octet>) {
    && sink <= Flat(heard) && |sink| <= 4 * 1024 * 1024
    && ((forall c :: c in commands ==> !c.logsTruncated) ==> sink == Flat(heard))
  }

  lemma FlatNext(heard: seq<seq<octet>>, more: seq<octet>)
    ensures Flat(heard + [more]) == Flat(heard) + more
  {
    assert (heard + [more])[..|heard|] == heard;
  }

  lemma LastFailureNext(commands: seq<CommandResult>, c: CommandResult)
    ensures LastFailure(commands + [c]) == if c.outcome != Completed then c.outcome else LastFailure(commands)
  {
    assert (commands + [c])[..|commands|] == commands;
  }

  lemma AllAccountedNext(scripts: seq<Script>, commands: seq<CommandResult>, heard: seq<seq<octet>>, c: CommandResult, h: seq<octet>)
    requires AllAccounted(scripts, commands, heard) && |commands| < |scripts|
    requires Accounted(scripts[|commands|], |commands|, c, h)
    ensures AllAccounted(scripts, commands + [c], heard + [h])
  {
    var more, said := commands + [c], heard + [h];
    forall k | 0 <= k < |more| ensures Accounted(scripts[k], k, more[k], said[k]) {
      if k < |commands| {
        assert more[k] == commands[k] && said[k] == heard[k];
        assert Accounted(scripts[k], k, commands[k], heard[k]);
      }
    }
  }

  lemma OnlyLastStopsNext(commands: seq<CommandResult>, c: CommandResult)
    requires OnlyLastStops(commands) && (commands == [] || !Stops(commands[|commands| - 1]))
    ensures OnlyLastStops(commands + [c])
  {}

  lemma PassedNext(commands: seq<CommandResult>, heard: seq<seq<octet>>, sink: seq<octet>,
                   c: CommandResult, h: seq<octet>, more: seq<octet>)
    requires PassedOnAll(commands, heard, sink) && more <= h && |more| <= Room(|sink|)
    requires sink == Flat(heard) || |sink| == MAX_FORWARDED_OUTPUT
    requires !c.logsTruncated ==> more == h
    ensures PassedOnAll(commands + [c], heard + [h], sink + more)
    ensures more == h || |sink + more| == MAX_FORWARDED_OUTPUT ==>
              sink + more == Flat(heard + [h]) || |sink + more| == MAX_FORWARDED_OUTPUT
  {
    FlatNext(heard, h);
    assert forall x :: x in commands ==> x in commands + [c];
    assert c in commands + [c];
    if sink != Flat(heard) { assert sink + more == sink; }
  }

  /** The events give no end to the command: it is still running. */
  predicate Endless(script: Script) { script.Started? && !Over(script.events) }

  /** What one command had passed on of what it put out. */
  ghost predicate Delivered(c: CommandResult, h: seq<octet>, more: seq<octet>, forwarded: nat, total: nat) {
    && more <= h && |more| <= Room(forwarded) && (!c.logsTruncated ==> more == h)
    && (!Stops(c) ==> total == forwarded + |more| && (more == h || total == MAX_FORWARDED_OUTPUT))
  }

  /** The command loop between two commands. */
  ghost predicate Between(scripts: seq<Script>, commands: seq<CommandResult>, heard: seq<seq<octet>>,
                          sink: seq<octet>, outcome: Outcome, forwarded: nat, stop: bool)
  {
    && RanInOrder(scripts, commands, heard) && PassedOnAll(commands, heard, sink)
    && outcome == LastFailure(commands)
    && (stop <==> commands != [] && Stops(commands[|commands| - 1]))
    && (!stop ==> forwarded == |sink| && (sink == Flat(heard) || |sink| == MAX_FORWARDED_OUTPUT))
  }

  lemma BetweenNext(scripts: seq<Script>, commands: seq<CommandResult>, heard: seq<seq<octet>>, sink: seq<octet>,
                    outcome: Outcome, forwarded: nat, c: CommandResult, h: seq<octet>, more: seq<octet>, total: nat)
    requires Between(scripts, commands, heard, sink, outcome, forwarded, false) && |commands| < |scripts|
    requires Accounted(scripts[|commands|], |commands|, c, h) && Delivered(c, h, more, forwarded, total)
    ensures Between(scripts, commands + [c], heard + [h], sink + more,
                    if c.outcome != Completed then c.outcome else outcome, total, Stops(c))
  {
    LastFailureNext(commands, c);
    AllAccountedNext(scripts, commands, heard, c, h);
    OnlyLastStopsNext(commands, c);
    PassedNext(commands, heard, sink, c, h, more);
  }

  lemma BrokeIs(script: Script, used: nat, index: nat, before: nat, error: Text, h: seq<octet>)
    requires before <= MAX_FORWARDED_OUTPUT
    requires if script.NotStarted? then error == script.error && h == []
             else 0 < used <= |script.events| && h == Heard(script.events[..used]) && Troubles(script.events[used - 1], error)
    ensures Accounted(script, index, GivenUp(index, error), h)
  {
    assert GaveUp(GivenUp(index, error), index, error);
    assert Happened(script, used, index, before, GivenUp(index, error), h);
  }

  lemma FinishedIs(script: Script, used: nat, index: nat, before: nat, report: CommandResult, h: seq<octet>)
    requires before <= MAX_FORWARDED_OUTPUT && script.Started? && used <= |script.events|
    requires h == Heard(script.events[..used]) && Tells(report, script.events, used, index, before)
    ensures Accounted(script, index, report, h)
  {
    ReportStands(report, script.events, used, index, before);
    assert Happened(script, used, index, before, report, h);
  }

  /** One command and its result. */
  method RunCommand(script: Script, index: nat, ghost sink: seq<octet>, forwarded: nat)
    returns (result: Option<CommandResult>, total: nat, more: seq<octet>, ghost h: seq<octet>)
    requires forwarded == |sink| <= MAX_FORWARDED_OUTPUT
    ensures result.None? ==> Endless(script)
    ensures result.Some? ==> Accounted(script, index, result.value, h)
    ensures result.Some? ==> Delivered(result.value, h, more, forwarded, total)
  {
    var r, forwardedNow, landed, used := Execute(script, index, forwarded);
    total, more := forwardedNow, landed;
    h := if script.Started? then Heard(script.events[..used]) else [];
    match r
    case Running => result := None;
    case Finished(report) =>
      FinishedIs(script, used, index, forwarded, report, h);
      NothingLost(report, script.events, used, index, forwarded, more, total);
      assert |h| <= Room(forwarded) ==> h[..|h|] == h;
      result := Some(report);
    case Broke(error) =>
      BrokeIs(script, used, index, forwarded, error, h);
      result := Some(GivenUp(index, error));
  }

  // ---- Which commands run ------------------------------------------------------------------

  /** The command ends by itself, and so does everything it started. */
  predicate Waits(e: Event) { e.Waited? && e.confirmation.Confirmed? }

  /** The command is over at some point, and what ended it is a confirmed wait. */
  ghost predicate EndsByWait(script: Script) {
    && script.Started?
    && exists used: nat, k: nat :: used <= |script.events| && Over(script.events[..used])
                                   && EndsFirst(script.events[..used], k) && Waits(script.events[k])
  }

  ghost predicate SomethingFails(script: Script) {
    script.NotStarted? || exists e, error :: e in script.events && Troubles(e, error)
  }

  lemma PrefixEndsFirst(events: seq<Event>, used: nat, k: nat)
    requires used <= |events| && EndsFirst(events[..used], k)
    ensures EndsFirst(events, k)
  {
    assert forall i :: 0 <= i < used ==> events[..used][i] == events[i];
    assert forall i :: 0 <= i < k ==> !EndsCommand(events[..used][i]);
  }

  /** With nothing failing the result is told by the events. */
  lemma HappenedIsTold(script: Script, used: nat, index: nat, before: nat, r: CommandResult, heard: seq<octet>)
    requires Happened(script, used, index, before, r, heard)
    ensures SomethingFails(script) || Tells(r, script.events, used, index, before)
  {
    assert script.Started? && 0 < used <= |script.events| ==> script.events[used - 1] in script.events;
  }

  /** A command's result stops the job only if a failure was met or it did not end by a confirmed wait, and does not
      only if it did. */
  lemma StopsExactly(script: Script, index: nat, r: CommandResult, heard: seq<octet>)
    requires Explained(script, index, r, heard)
    ensures !Stops(r) ==> EndsByWait(script)
    ensures Stops(r) ==> SomethingFails(script) || !EndsByWait(script)
  {
    var used: nat, before: nat :| before <= MAX_FORWARDED_OUTPUT && Happened(script, used, index, before, r, heard);
    HappenedIsTold(script, used, index, before, r, heard);
    if script.Started? && Tells(r, script.events, used, index, before) { ToldStops(script, used, index, before, r); }
  }

  lemma StopsByEnd(r: CommandResult, e: Event)
    requires TellsEnd(r, e)
    ensures Stops(r) <==> !Waits(e)
    ensures Waits(e) ==> r.outcome == if e.status == Exited(0) then Completed else CommandFailed
  {}

  lemma WaitIsTheEnd(script: Script, used: nat, k: nat)
    requires script.Started? && used <= |script.events| && Over(script.events[..used]) && EndsFirst(script.events[..used], k)
    ensures EndsByWait(script) <==> Waits(script.events[k])
  {
    var events := script.events;
    PrefixEndsFirst(events, used, k);
    if EndsByWait(script) {
      var u: nat, j: nat :| u <= |events| && Over(events[..u]) && EndsFirst(events[..u], j) && Waits(events[j]);
      PrefixEndsFirst(events, u, j);
      OneEndsFirst(events, j, k);
    }
  }

  lemma ToldStops(script: Script, used: nat, index: nat, before: nat, r: CommandResult)
    requires script.Started? && Tells(r, script.events, used, index, before)
    ensures Stops(r) <==> !EndsByWait(script)
  {
    var k: nat :| EndsFirst(script.events[..used], k) && TellsEnd(r, script.events[..used][k]);
    StopsByEnd(r, script.events[k]);
    WaitIsTheEnd(script, used, k);
  }

  lemma ExplainedAt(scripts: seq<Script>, commands: seq<CommandResult>, heard: seq<seq<octet>>, k: nat)
    requires AllAccounted(scripts, commands, heard) && k < |commands|
    ensures Explained(scripts[k], k, commands[k], heard[k])
  {
    assert Accounted(scripts[k], k, commands[k], heard[k]);
  }

  /** All but the last of these were ended by a confirmed wait; and if there were more to come, the last was not, or
      met a failure. */
  ghost predicate RanOn(scripts: seq<Script>, count: nat) {
    && 0 < count <= |scripts|
    && (forall k :: 0 <= k < count - 1 ==> EndsByWait(scripts[k]))
    && (count < |scripts| ==> SomethingFails(scripts[count - 1]) || !EndsByWait(scripts[count - 1]))
  }

  lemma RanOnExactly(scripts: seq<Script>, commands: seq<CommandResult>, heard: seq<seq<octet>>)
    requires AllAccounted(scripts, commands, heard) && OnlyLastStops(commands) && commands != []
    requires |commands| < |scripts| ==> Stops(commands[|commands| - 1])
    ensures RanOn(scripts, |commands|)
  {
    forall k | 0 <= k < |commands|
      ensures !Stops(commands[k]) ==> EndsByWait(scripts[k])
      ensures Stops(commands[k]) ==> SomethingFails(scripts[k]) || !EndsByWait(scripts[k])
    {
      ExplainedAt(scripts, commands, heard, k);
      StopsExactly(scripts[k], k, commands[k], heard[k]);
    }
  }

  /** The command loop of `run`. */
  method RunCommands(scripts: seq<Script>)
    returns (finished: bool, commands: seq<CommandResult>, outcome: Outcome, sink: seq<octet>, ghost heard: seq<seq<octet>>)
    ensures !finished ==> exists script :: script in scripts && Endless(script)
    ensures finished ==>
              && RanInOrder(scripts, commands, heard) && PassedOnAll(commands, heard, sink)
              && outcome == LastFailure(commands)
              && (|commands| < |scripts| ==> commands != [] && Stops(commands[|commands| - 1]))
              && (scripts != [] ==> RanOn(scripts, |commands|))
  {
    finished, commands, outcome, sink, heard := true, [], Completed, [], [];
    var forwarded, stop := 0, false;
    while |commands| < |scripts| && !stop
      invariant Between(scripts, commands, heard, sink, outcome, forwarded, stop)
      decreases |scripts| - |commands|
    {
      var index := |commands|;
      var result, total, more, h := RunCommand(scripts[index], index, sink, forwarded);
      if result.None? { finished := false; return; }
      var c := result.value;
      BetweenNext(scripts, commands, heard, sink, outcome, forwarded, c, h, more, total);
      if c.outcome != Completed { outcome := c.outcome; }
      commands, heard, sink, forwarded, stop := commands + [c], heard + [h], sink + more, total, Stops(c);
    }
    if scripts != [] { RanOnExactly(scripts, commands, heard); }
  }

  // ---- The artifacts -----------------------------------------------------------------------

  /** The file is there, whole and unchanged, within the bound. */
  predicate Collectable(look: Look, max: nat) {
    && look.Opened? && look.regular && look.links == 1 && look.stable
    && |look.content| == look.size <= max && 0 < max <= 4 * 1024 * 1024
  }

  /** `collect_declared_artifact`: a read bounded by one byte more than the limit either has the announced
      length or is refused. */
  method CollectArtifact(look: Look, max: nat) returns (data: Option<seq<octet>>)
    ensures data == if Collectable(look, max) then Some(look.content) else None
  {
    if max == 0 || max > MAX_ARTIFACT_BYTES || look.Unreachable? { return None; }
    if !look.regular || look.links != 1 || look.size > max { return None; }
    var read := look.content[..Min(|look.content|, max + 1)];
    if |read| != look.size || !look.stable { return None; }
    assert look.content[..|look.content|] == look.content;
    return Some(read);
  }

  predicate Retrievable(c: Collection, declared: Artifact, terminated: bool) {
    !c.expired && terminated && Collectable(c.look, declared.maxBytes) && c.stored
  }

  /** The receipt for an artifact's turn: all of it or nothing. */
  predicate Receipted(world: World, declared: Artifact, index: nat, terminated: bool, a: ArtifactResult)
    requires index < |world.collections|
  {
    var c := world.collections[index];
    a == if Retrievable(c, declared, terminated)
         then ArtifactResult(declared.path, Some(StoredName(index)), Some(world.hash(c.look.content)),
                             Some(|c.look.content|), None)
         else ArtifactResult(declared.path, None, None, None, Some(BoundError(c.error)))
  }

  /** One turn of the artifact loop. */
  method Retrieve(declared: Artifact, world: World, index: nat, terminated: bool) returns (a: ArtifactResult)
    requires index < |world.collections|
    ensures Receipted(world, declared, index, terminated, a)
  {
    var c := world.collections[index];
    var data: Option<seq<octet>> := None;
    if !c.expired && terminated { data := CollectArtifact(c.look, declared.maxBytes); }
    if data.Some? && c.stored {
      a := ArtifactResult(declared.path, Some(StoredName(index)), Some(world.hash(data.value)), Some(|data.value|), None);
    } else {
      a := ArtifactResult(declared.path, None, None, None, Some(BoundError(c.error)));
    }
  }

  ghost predicate Receipts(declared: seq<Artifact>, world: World, terminated: bool, artifacts: seq<ArtifactResult>) {
    && |artifacts| <= |declared| && |artifacts| <= |world.collections|
    && forall i :: 0 <= i < |artifacts| ==> Receipted(world, declared[i], i, terminated, artifacts[i])
  }

  ghost predicate SomeMissing(artifacts: seq<ArtifactResult>) { exists a :: a in artifacts && a.error.Some? }

  lemma ReceiptsNext(declared: seq<Artifact>, world: World, terminated: bool, artifacts: seq<ArtifactResult>, a: ArtifactResult)
    requires Receipts(declared, world, terminated, artifacts)
    requires |artifacts| < |declared| && |artifacts| < |world.collections|
    requires Receipted(world, declared[|artifacts|], |artifacts|, terminated, a)
    ensures Receipts(declared, world, terminated, artifacts + [a])
  {
    var more := artifacts + [a];
    forall i | 0 <= i < |more| ensures Receipted(world, declared[i], i, terminated, more[i]) {
      if i < |artifacts| { assert more[i] == artifacts[i]; }
    }
  }

  lemma SomeMissingNext(artifacts: seq<ArtifactResult>, a: ArtifactResult)
    ensures SomeMissing(artifacts + [a]) <==> SomeMissing(artifacts) || a.error.Some?
  {
    assert forall x :: x in artifacts + [a] <==> x in artifacts || x == a;
  }

  /** The artifact loop of `run`. */
  method CollectArtifacts(declared: seq<Artifact>, world: World, terminated: bool)
    returns (artifacts: seq<ArtifactResult>, failed: bool)
    requires |world.collections| == |declared|
    ensures |artifacts| == |declared| && Receipts(declared, world, terminated, artifacts)
    ensures failed <==> SomeMissing(artifacts)
  {
    artifacts, failed := [], false;
    for index := 0 to |declared|
      invariant |artifacts| == index && Receipts(declared, world, terminated, artifacts)
      invariant failed <==> SomeMissing(artifacts)
    {
      var a := Retrieve(declared[index], world, index, terminated);
      if a.error.Some? { failed := true; }
      ReceiptsNext(declared, world, terminated, artifacts, a);
      SomeMissingNext(artifacts, a);
      artifacts := artifacts + [a];
    }
  }

  // ---- The manifest ------------------------------------------------------------------------

  ghost predicate AllTerminated(commands: seq<CommandResult>) {
    forall c :: c in commands ==> c.terminationConfirmed
  }

  /** What the manifest says of the source: looked at only when nothing is left that could change it. */
  ghost predicate TellsSource(m: Manifest, spec: JobSpec, world: World) {
    if !AllTerminated(m.commands) then m.sourceChanged.None? && m.sourceVerificationError == Some(BoundError(world.refusal))
    else match world.inventory
      case Inventoried(digest) =>
        m.sourceChanged == Some(digest != spec.source.digest) && m.sourceVerificationError.None?
      case NotInventoried(error) =>
        m.sourceChanged.None? && m.sourceVerificationError == Some(BoundError(error))
  }

  ghost predicate TellsArtifacts(m: Manifest, spec: JobSpec, world: World)
    requires Fits(spec, world)
  {
    |m.artifacts| == |spec.artifacts| && Receipts(spec.artifacts, world, AllTerminated(m.commands), m.artifacts)
  }

  ghost predicate SomeLogCut(m: Manifest) { exists c :: c in m.commands && c.logsTruncated }

  /** The outcome and status follow from the parts; the later finding counts. */
  ghost predicate Concludes(m: Manifest, world: World) {
    && m.outcome == (if world.expiredAtEnd then TimedOut
                     else if m.sourceChanged != Some(false) || SomeMissing(m.artifacts) then InfrastructureFailed
                     else LastFailure(m.commands))
    && m.collectionStatus == (if m.sourceVerificationError.Some? || SomeMissing(m.artifacts) then Failed
                              else if SomeLogCut(m) then Truncated else Complete)
  }

  /** The source and artifact part of `run`, after the commands. */
  method Conclude(spec: JobSpec, world: World, jobId: nat, specDigest: string,
                  commands: seq<CommandResult>, lastFailure: Outcome) returns (m: Manifest)
    requires Fits(spec, world) && lastFailure == LastFailure(commands)
    ensures Identified(m, spec, specDigest, jobId) && m.commands == commands
    ensures TellsSource(m, spec, world) && TellsArtifacts(m, spec, world) && Concludes(m, world)
  {
    var status, outcome := Complete, lastFailure;
    if exists c :: c in commands && c.logsTruncated { status := Truncated; }
    var terminated := forall c :: c in commands ==> c.terminationConfirmed;
    var sourceChanged: Option<bool>, sourceError: Option<Text> := None, None;
    var inventory := if terminated then world.inventory else NotInventoried(world.refusal);
    match inventory {
      case Inventoried(digest) =>
        sourceChanged := Some(digest != spec.source.digest);
        if digest != spec.source.digest { outcome := InfrastructureFailed; }
      case NotInventoried(error) =>
        sourceError := Some(BoundError(error));
        status, outcome := Failed, InfrastructureFailed;
    }
    var artifacts, failed := CollectArtifacts(spec.artifacts, world, terminated);
    if failed { status, outcome := Failed, InfrastructureFailed; }
    if world.expiredAtEnd { outcome := TimedOut; }
    m := Manifest(1, jobId, specDigest, spec.image, spec.source, spec.acceptance, commands, artifacts,
                  sourceChanged, sourceError, status, outcome);
  }

  /** What ended the command is its exit with this status. */
  ghost predicate EndedWith(script: Script, status: Status) {
    script.Started? && exists k: nat :: EndsFirst(script.events, k) && ExitsWith(script.events[k], status)
  }

  predicate ExitsWith(e: Event, status: Status) { e.Waited? && e.status == status }

  lemma EndedWithMeans(script: Script, k: nat, status: Status)
    requires script.Started? && EndsFirst(script.events, k)
    ensures EndedWith(script, status) <==> ExitsWith(script.events[k], status)
  {
    if EndedWith(script, status) {
      var j: nat :| EndsFirst(script.events, j) && ExitsWith(script.events[j], status);
      OneEndsFirst(script.events, j, k);
    }
  }

  lemma ToldOutcome(script: Script, used: nat, index: nat, before: nat, r: CommandResult)
    requires script.Started? && Tells(r, script.events, used, index, before) && !Stops(r)
    ensures r.terminationConfirmed && (r.outcome == Completed || r.outcome == CommandFailed)
    ensures r.outcome == Completed <==> EndedWith(script, Exited(0))
  {
    var k: nat :| EndsFirst(script.events[..used], k) && TellsEnd(r, script.events[..used][k]);
    StopsByEnd(r, script.events[k]);
    PrefixEndsFirst(script.events, used, k);
    EndedWithMeans(script, k, Exited(0));
  }

  lemma WaitedResult(script: Script, index: nat, r: CommandResult, heard: seq<octet>)
    requires Explained(script, index, r, heard) && EndsByWait(script) && !SomethingFails(script)
    ensures !Stops(r) && r.terminationConfirmed && (r.outcome == Completed || r.outcome == CommandFailed)
    ensures r.outcome == Completed <==> EndedWith(script, Exited(0))
  {
    StopsExactly(script, index, r, heard);
    var used: nat, before: nat :| before <= MAX_FORWARDED_OUTPUT && Happened(script, used, index, before, r, heard);
    HappenedIsTold(script, used, index, before, r, heard);
    ToldOutcome(script, used, index, before, r);
  }

  /** Every script is ended by a confirmed wait and meets no failure. */
  ghost predicate AllWait(scripts: seq<Script>) {
    forall script :: script in scripts ==> EndsByWait(script) && !SomethingFails(script)
  }

  /** The results tell the exits. */
  ghost predicate TellsExits(scripts: seq<Script>, commands: seq<CommandResult>) {
    && |commands| == |scripts| && AllTerminated(commands)
    && forall k :: 0 <= k < |commands| ==>
         && (commands[k].outcome == Completed || commands[k].outcome == CommandFailed)
         && (commands[k].outcome == Completed <==> EndedWith(scripts[k], Exited(0)))
  }

  lemma AllHaveResults(scripts: seq<Script>, commands: seq<CommandResult>, heard: seq<seq<octet>>)
    requires AllAccounted(scripts, commands, heard) && AllWait(scripts) && commands != []
    requires |commands| < |scripts| ==> Stops(commands[|commands| - 1])
    ensures TellsExits(scripts, commands)
  {
    forall k | 0 <= k < |commands|
      ensures !Stops(commands[k]) && commands[k].terminationConfirmed
      ensures commands[k].outcome == Completed || commands[k].outcome == CommandFailed
      ensures commands[k].outcome == Completed <==> EndedWith(scripts[k], Exited(0))
    {
      ExplainedAt(scripts, commands, heard, k);
      assert scripts[k] in scripts;
      WaitedResult(scripts[k], k, commands[k], heard[k]);
    }
  }

  lemma ExitsAreTold(scripts: seq<Script>, commands: seq<CommandResult>, heard: seq<seq<octet>>)
    requires AllAccounted(scripts, commands, heard) && commands != []
    requires |commands| < |scripts| ==> Stops(commands[|commands| - 1])
    ensures AllWait(scripts) ==> TellsExits(scripts, commands)
  {
    if AllWait(scripts) { AllHaveResults(scripts, commands, heard); }
  }

  /** The whole account of a job. */
  ghost predicate Account(m: Manifest, spec: JobSpec, world: World, heard: seq<seq<octet>>)
    requires Fits(spec, world)
  {
    && RanInOrder(world.scripts, m.commands, heard) && 1 <= |m.commands| <= |spec.commands|
    && (|m.commands| < |spec.commands| ==> Stops(m.commands[|m.commands| - 1]))
    && (AllWait(world.scripts) ==> TellsExits(world.scripts, m.commands))
    && TellsSource(m, spec, world) && TellsArtifacts(m, spec, world) && Concludes(m, world)
  }

  /** The host takes the manifest for what it is, whenever it is short enough. */
  ghost predicate Accepted(m: Manifest, spec: JobSpec, digest: string, jobId: nat) {
    forall size: nat :: size <= MAX_JOB_MANIFEST_BYTES ==> DecodeFor(size, m, spec, Success(digest), jobId) == Success(m)
  }

  lemma AccountHolds(m: Manifest, spec: JobSpec, world: World, heard: seq<seq<octet>>, commands: seq<CommandResult>)
    requires Fits(spec, world) && spec.commands != [] && RanInOrder(world.scripts, commands, heard) && m.commands == commands
    requires |commands| < |spec.commands| ==> commands != [] && Stops(commands[|commands| - 1])
    requires TellsSource(m, spec, world) && TellsArtifacts(m, spec, world) && Concludes(m, world)
    ensures Account(m, spec, world, heard)
  {
    ExitsAreTold(world.scripts, commands, heard);
  }

  /** The manifest for finished commands, as it is written and checked. */
  method WriteManifest(spec: JobSpec, world: World, jobId: nat, specDigest: string,
                       commands: seq<CommandResult>, lastFailure: Outcome, ghost heard: seq<seq<octet>>) returns (m: Manifest)
    requires Fits(spec, world) && spec.commands != [] && RanInOrder(world.scripts, commands, heard)
    requires |commands| < |spec.commands| ==> commands != [] && Stops(commands[|commands| - 1])
    requires lastFailure == LastFailure(commands)
    ensures m.commands == commands && Account(m, spec, world, heard) && Accepted(m, spec, specDigest, jobId)
  {
    m := Conclude(spec, world, jobId, specDigest, commands, lastFailure);
    AccountHolds(m, spec, world, heard, commands);
    AccountIsAccepted(m, spec, world, heard, specDigest, jobId);
  }

  /** `run`: whatever happens, the manifest that is written gives a true account, passes the host's check if it
      is short enough, and no more than the limit was passed on. */
  method Run(spec: JobSpec, world: World, jobId: nat, specDigest: string)
    returns (m: Option<Manifest>, sink: seq<octet>, ghost heard: seq<seq<octet>>)
    requires Fits(spec, world) && spec.commands != []
    ensures m.None? ==> !world.directoryMade || exists script :: script in world.scripts && Endless(script)
    ensures m.Some? ==> Account(m.value, spec, world, heard) && PassedOnAll(m.value.commands, heard, sink)
    ensures m.Some? ==> Accepted(m.value, spec, specDigest, jobId)
  {
    var finished, commands, outcome;
    finished, commands, outcome, sink, heard := RunCommands(world.scripts);
    if !finished || !world.directoryMade { return None, sink, heard; }
    var manifest := WriteManifest(spec, world, jobId, specDigest, commands, outcome, heard);
    m := Some(manifest);
  }

  lemma {:induction false} NoFailure(commands: seq<CommandResult>)
    ensures LastFailure(commands) == Completed <==> forall c :: c in commands ==> c.outcome == Completed
  {
    if commands != [] {
      var front, last := commands[..|commands| - 1], commands[|commands| - 1];
      NoFailure(front);
      assert commands == front + [last];
    }
  }

  lemma ReceiptStands(world: World, declared: Artifact, index: nat, terminated: bool, a: ArtifactResult)
    requires index < |world.collections| && Receipted(world, declared, index, terminated, a)
    ensures ArtifactStands(index, a, declared)
    ensures a.error.None? <==> Retrievable(world.collections[index], declared, terminated)
  {}

  lemma AccountIsEvidence(m: Manifest, spec: JobSpec, world: World, heard: seq<seq<octet>>, digest: string, jobId: nat)
    requires Fits(spec, world) && Account(m, spec, world, heard) && Identified(m, spec, digest, jobId)
    ensures Evidence(m, spec, digest, jobId)
  {
    forall i | 0 <= i < |m.artifacts| ensures ArtifactStands(i, m.artifacts[i], spec.artifacts[i]) {
      ReceiptStands(world, spec.artifacts[i], i, AllTerminated(m.commands), m.artifacts[i]);
    }
    NoFailure(m.commands);
    if m.outcome == Completed { CompletedCommands(m, spec, world, heard); }
  }

  lemma AccountIsAccepted(m: Manifest, spec: JobSpec, world: World, heard: seq<seq<octet>>, digest: string, jobId: nat)
    requires Fits(spec, world) && Account(m, spec, world, heard) && Identified(m, spec, digest, jobId)
    ensures Accepted(m, spec, digest, jobId)
  {
    AccountIsEvidence(m, spec, world, heard, digest, jobId);
    forall size: nat | size <= MAX_JOB_MANIFEST_BYTES
      ensures DecodeFor(size, m, spec, Success(digest), jobId) == Success(m)
    {
      DecodesExactly(size, m, spec, digest, jobId);
    }
  }

  lemma CompletedCommands(m: Manifest, spec: JobSpec, world: World, heard: seq<seq<octet>>)
    requires Fits(spec, world) && Account(m, spec, world, heard) && LastFailure(m.commands) == Completed
    ensures |m.commands| == |spec.commands| && AllTerminated(m.commands)
    ensures forall c :: c in m.commands ==> c.outcome == Completed && c.exitCode == Some(0)
  {
    NoFailure(m.commands);
    forall k | 0 <= k < |m.commands|
      ensures m.commands[k].terminationConfirmed && m.commands[k].exitCode == Some(0)
    {
      assert CommandStands(k, m.commands[k]) && m.commands[k] in m.commands;
    }
  }

  /** A job is called complete exactly when every command completed, the source is as it was, every artifact
      could be retrieved and the deadline was met. */
  lemma CompletedExactly(m: Manifest, spec: JobSpec, world: World, heard: seq<seq<octet>>)
    requires Fits(spec, world) && Account(m, spec, world, heard)
    ensures m.outcome == Completed <==>
              && |m.commands| == |spec.commands|
              && (forall c :: c in m.commands ==> c.outcome == Completed && c.exitCode == Some(0) && c.terminationConfirmed)
              && world.inventory == Inventoried(spec.source.digest)
              && (forall i :: 0 <= i < |spec.artifacts| ==> Retrievable(world.collections[i], spec.artifacts[i], true))
              && !world.expiredAtEnd
  {
    NoFailure(m.commands);
    forall i | 0 <= i < |m.artifacts|
      ensures m.artifacts[i].error.None? <==> Retrievable(world.collections[i], spec.artifacts[i], AllTerminated(m.commands))
    {
      ReceiptStands(world, spec.artifacts[i], i, AllTerminated(m.commands), m.artifacts[i]);
    }
    if LastFailure(m.commands) == Completed { CompletedCommands(m, spec, world, heard); }
  }

  // ---- How a job fails ---------------------------------------------------------------------

  lemma {:induction false} LastFailureIs(commands: seq<CommandResult>)
    requires forall c :: c in commands ==> c.outcome == Completed || c.outcome == CommandFailed
    ensures LastFailure(commands) == Completed || LastFailure(commands) == CommandFailed
  {
    if commands != [] {
      assert forall c :: c in commands[..|commands| - 1] ==> c in commands;
      assert commands[|commands| - 1] in commands;
      LastFailureIs(commands[..|commands| - 1]);
    }
  }

  lemma FailureTellsExits(scripts: seq<Script>, commands: seq<CommandResult>)
    requires TellsExits(scripts, commands)
    ensures LastFailure(commands) ==
              if forall script :: script in scripts ==> EndedWith(script, Exited(0)) then Completed else CommandFailed
  {
    NoFailure(commands);
    LastFailureIs(commands);
    if forall c :: c in commands ==> c.outcome == Completed {
      forall script | script in scripts ensures EndedWith(script, Exited(0)) {
        var k :| 0 <= k < |scripts| && scripts[k] == script;
        assert commands[k] in commands;
      }
    }
  }

  /** The source is unchanged, every artifact can be retrieved and the deadline is met. */
  ghost predicate Favourable(spec: JobSpec, world: World)
    requires Fits(spec, world)
  {
    && world.inventory == Inventoried(spec.source.digest) && !world.expiredAtEnd
    && forall i :: 0 <= i < |spec.artifacts| ==> Retrievable(world.collections[i], spec.artifacts[i], true)
  }

  ghost predicate Concluded(m: Manifest, spec: JobSpec, world: World)
    requires Fits(spec, world)
  {
    TellsSource(m, spec, world) && TellsArtifacts(m, spec, world) && Concludes(m, world)
  }

  /** Then the commands decide. */
  lemma CommandsDecide(m: Manifest, spec: JobSpec, world: World)
    requires Fits(spec, world) && Concluded(m, spec, world) && Favourable(spec, world) && AllTerminated(m.commands)
    ensures m.outcome == LastFailure(m.commands)
  {
    forall i | 0 <= i < |m.artifacts| ensures m.artifacts[i].error.None? {
      ReceiptStands(world, spec.artifacts[i], i, true, m.artifacts[i]);
    }
  }

  lemma AccountConcludes(m: Manifest, spec: JobSpec, world: World, heard: seq<seq<octet>>)
    requires Fits(spec, world) && Account(m, spec, world, heard)
    ensures Concluded(m, spec, world) && (AllWait(world.scripts) ==> TellsExits(world.scripts, m.commands))
  {}

  /** What the outcome is when every command ends by a confirmed wait. */
  ghost predicate OutcomeOfExits(m: Manifest, scripts: seq<Script>) {
    m.outcome == if forall script :: script in scripts ==> EndedWith(script, Exited(0)) then Completed else CommandFailed
  }

  lemma ExitsDecide(m: Manifest, spec: JobSpec, world: World)
    requires Fits(spec, world) && Concluded(m, spec, world) && Favourable(spec, world) && TellsExits(world.scripts, m.commands)
    ensures |m.commands| == |spec.commands| && OutcomeOfExits(m, world.scripts)
  {
    FailureTellsExits(world.scripts, m.commands);
    CommandsDecide(m, spec, world);
  }

  /** If every command ends by a confirmed wait, every command has a result; and with the source unchanged, the
      artifacts retrieved and the deadline met, the job fails as its commands' failure exactly if some command did
      not exit with 0, and is complete otherwise. */
  lemma CommandFailedExactly(m: Manifest, spec: JobSpec, world: World, heard: seq<seq<octet>>)
    requires Fits(spec, world) && Account(m, spec, world, heard) && AllWait(world.scripts) && Favourable(spec, world)
    ensures |m.commands| == |spec.commands| && OutcomeOfExits(m, world.scripts)
  {
    AccountConcludes(m, spec, world, heard);
    ExitsDecide(m, spec, world);
  }
}
