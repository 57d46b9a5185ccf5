/** The guest's evidence of a finished job, and the host's check of it. */
module JobResult {
  import opened Common
  import Utf8

  /** A string, as its UTF-8 bytes. */
  type Text = s: seq<octet> | Utf8.Text(s)

  datatype Outcome = Completed | CommandFailed | InfrastructureFailed | Cancelled | TimedOut | Interrupted | Unknown

  datatype CollectionStatus = Complete | Truncated | Failed

  datatype CommandResult = CommandResult(
    commandIndex: nat, exitCode: Option<int>, outcome: Outcome, durationMs: nat, output: Text,
    outputTruncated: bool, logsTruncated: bool, terminationConfirmed: bool, terminationError: Option<Text>)

  datatype ArtifactResult = ArtifactResult(
    path: string, storedName: Option<string>, digest: Option<string>, sizeBytes: Option<nat>, error: Option<Text>)

  datatype Image = Image(catalogId: nat, rootfsDigest: string, kernelDigest: string, initrdDigest: Option<string>)

  datatype Bundle = Bundle(digest: string, sizeBytes: nat)

  datatype Artifact = Artifact(path: string, maxBytes: nat)

  datatype Command = Command(argv: seq<string>, timeoutSecs: nat)

  /** The parts of an execution specification the runner and the check use. */
  datatype JobSpec = JobSpec(
    image: Image, source: Bundle, acceptance: Bundle, commands: seq<Command>,
    writableDirectories: seq<string>, artifacts: seq<Artifact>)

  datatype Manifest = Manifest(
    version: nat, jobId: nat, specificationDigest: string, image: Image, source: Bundle, acceptance: Bundle,
    commands: seq<CommandResult>, artifacts: seq<ArtifactResult>, sourceChanged: Option<bool>,
    sourceVerificationError: Option<Text>, collectionStatus: CollectionStatus, outcome: Outcome)

  const MAX_JOB_MANIFEST_BYTES := 64 * 1024
  const MAX_TEXT := 2048

  predicate HexDigit(c: char) { '0' <= c <= '9' || 'a' <= c <= 'f' }

  predicate DigestValid(d: string) {
    |d| == 71 && d[..7] == "sha256:" && forall i :: 7 <= i < 71 ==> HexDigit(d[i])
  }

  function Decimal(n: nat): string {
    if n < 10 then [('0' as int + n) as char] else Decimal(n / 10) + Decimal(n % 10)
  }

  /** The number a text of decimal digits stands for. */
  ghost function ValueOf(s: string): int {
    if s == "" then 0 else 10 * ValueOf(s[..|s| - 1]) + (s[|s| - 1] as int - 0x30)
  }

  /** A decimal text is the digits of its number, without a zero in front of others. */
  lemma {:induction false} DecimalReturns(n: nat)
    ensures ValueOf(Decimal(n)) == n && Decimal(n) != "" && (n > 0 ==> Decimal(n)[0] != '0')
    ensures forall i :: 0 <= i < |Decimal(n)| ==> '0' <= Decimal(n)[i] <= '9'
    decreases n
  {
    if n < 10 {
      assert Decimal(n)[..0] == "";
    } else {
      DecimalReturns(n / 10);
      assert Decimal(n % 10) == [('0' as int + n % 10) as char];
      assert Decimal(n)[..|Decimal(n)| - 1] == Decimal(n / 10);
    }
  }

  ghost predicate Hex(c: char) { c in "0123456789abcdef" }

  lemma HexMeans(c: char)
    ensures HexDigit(c) <==> Hex(c)
  {
    var s := "0123456789abcdef";
    assert s[0] == '0' && s[1] == '1' && s[2] == '2' && s[3] == '3' && s[4] == '4' && s[5] == '5' && s[6] == '6' && s[7] == '7';
    assert s[8] == '8' && s[9] == '9' && s[10] == 'a' && s[11] == 'b' && s[12] == 'c' && s[13] == 'd' && s[14] == 'e' && s[15] == 'f';
  }

  ghost predicate HexText(s: string, n: nat) { |s| == n && forall i :: 0 <= i < n ==> Hex(s[i]) }

  /** A digest is valid exactly if it is the scheme and 64 hexadecimal digits in lower case. */
  lemma DigestMeans(d: string)
    ensures DigestValid(d) <==> exists hex :: d == "sha256:" + hex && HexText(hex, 64)
  {
    if DigestValid(d) {
      forall i | 0 <= i < 64 ensures Hex(d[7..][i]) { HexMeans(d[7 + i]); }
      assert d == "sha256:" + d[7..] && HexText(d[7..], 64);
    }
    if hex :| d == "sha256:" + hex && HexText(hex, 64) {
      forall i | 7 <= i < 71 ensures HexDigit(d[i]) { HexMeans(hex[i - 7]); }
    }
  }

  function StoredName(index: nat): string { Decimal(index) + ".bin" }

  predicate Bounded(text: Option<Text>) { text.None? || |text.value| <= MAX_TEXT }

  // ---- The check, in the order it is made --------------------------------------------------

  function CommandProblem(index: nat, c: CommandResult): Option<string> {
    if c.commandIndex != index || |c.output| > MAX_TEXT then Some("invalid command result index or output bound")
    else if !Bounded(c.terminationError) || (c.terminationConfirmed && c.terminationError.Some?) then
      Some("inconsistent termination evidence")
    else if c.outcome == Completed && (c.exitCode != Some(0) || !c.terminationConfirmed) then
      Some("completed command lacks successful confirmed termination")
    else if c.outcome == CommandFailed && (c.exitCode.None? || c.exitCode == Some(0) || !c.terminationConfirmed) then
      Some("command failure lacks confirmed nonzero exit")
    else None
  }

  function CommandsProblem(commands: seq<CommandResult>, index: nat): Option<string>
    requires index <= |commands|
    decreases |commands| - index
  {
    if index == |commands| then None
    else
      var p := CommandProblem(index, commands[index]);
      if p.Some? then p else CommandsProblem(commands, index + 1)
  }

  function ArtifactProblem(index: nat, a: ArtifactResult, declared: Artifact): Option<string> {
    if a.path != declared.path || !Bounded(a.error) then Some("invalid artifact declaration or error bound")
    else if a.error.Some? && a.digest.None? && a.storedName.None? && a.sizeBytes.None? then None
    else if && a.error.None?
            && a.storedName == Some(StoredName(index))
            && a.sizeBytes.Some? && a.sizeBytes.value <= declared.maxBytes
            && a.digest.Some? && DigestValid(a.digest.value) then None
    else Some("inconsistent artifact receipt")
  }

  function ArtifactsProblem(artifacts: seq<ArtifactResult>, declared: seq<Artifact>, index: nat): Option<string>
    requires index <= |artifacts| == |declared|
    decreases |artifacts| - index
  {
    if index == |artifacts| then None
    else
      var p := ArtifactProblem(index, artifacts[index], declared[index]);
      if p.Some? then p else ArtifactsProblem(artifacts, declared, index + 1)
  }

  predicate Unsupported(m: Manifest, spec: JobSpec) {
    m.outcome == Completed &&
    (|| |m.commands| != |spec.commands|
     || (exists i :: 0 <= i < |m.commands| && m.commands[i].outcome != Completed)
     || m.sourceChanged != Some(false)
     || m.sourceVerificationError.Some?
     || m.collectionStatus == Failed
     || (exists i :: 0 <= i < |m.artifacts| && m.artifacts[i].error.Some?))
  }

  /** `decode_for`: `size` is the length of the encoded manifest, `digest` what the specification's own
      digest computation returns. */
  function DecodeFor(size: nat, m: Manifest, spec: JobSpec, digest: Result<string, string>, jobId: nat): Result<Manifest, string> {
    if size > MAX_JOB_MANIFEST_BYTES then Failure("manifest exceeds 64 KiB")
    else if m.version != 1 || m.jobId != jobId then Failure("guest result identity mismatch")
    else if digest.Failure? then Failure(digest.error)
    else if || m.specificationDigest != digest.result
            || m.image != spec.image
            || m.source != spec.source
            || m.acceptance != spec.acceptance then Failure("guest result identity mismatch")
    else if m.commands == [] || |m.commands| > |spec.commands| then Failure("invalid command result count")
    else if CommandsProblem(m.commands, 0).Some? then Failure(CommandsProblem(m.commands, 0).value)
    else if |m.artifacts| != |spec.artifacts| then Failure("artifact declarations missing from result")
    else if ArtifactsProblem(m.artifacts, spec.artifacts, 0).Some? then
      Failure(ArtifactsProblem(m.artifacts, spec.artifacts, 0).value)
    else if !Bounded(m.sourceVerificationError) then Failure("source verification error exceeds bound")
    else if Unsupported(m, spec) then Failure("completed result lacks successful execution and collection evidence")
    else Success(m)
  }

  // ---- What passing it means ---------------------------------------------------------------

  predicate Short(text: Option<Text>) { text.Some? ==> |text.value| <= 2048 }

  /** A command ended as reported: success and failure both rest on a confirmed end with the fitting code. */
  predicate CommandStands(index: nat, c: CommandResult) {
    && c.commandIndex == index && |c.output| <= 2048 && Short(c.terminationError)
    && (c.terminationConfirmed ==> c.terminationError.None?)
    && (c.outcome == Completed ==> c.terminationConfirmed && c.exitCode == Some(0))
    && (c.outcome == CommandFailed ==> c.terminationConfirmed && c.exitCode.Some? && c.exitCode.value != 0)
  }

  /** An artifact was either collected whole within its bound, or not at all. */
  predicate ArtifactStands(index: nat, a: ArtifactResult, declared: Artifact) {
    && a.path == declared.path && Short(a.error)
    && match a.error
       case Some(_) => a.storedName.None? && a.digest.None? && a.sizeBytes.None?
       case None =>
         && a.storedName == Some(StoredName(index))
         && (a.sizeBytes.Some? && a.sizeBytes.value <= declared.maxBytes)
         && (a.digest.Some? && DigestValid(a.digest.value))
  }

  /** The manifest is about this job. */
  predicate Identified(m: Manifest, spec: JobSpec, digest: string, jobId: nat) {
    && m.version == 1 && m.jobId == jobId && m.specificationDigest == digest
    && m.image == spec.image && m.source == spec.source && m.acceptance == spec.acceptance
  }

  /** A job called complete ran every command to a confirmed successful end, left the source as it was and
      yielded every artifact. */
  predicate Supported(m: Manifest, spec: JobSpec) {
    m.outcome == Completed ==>
      && |m.commands| == |spec.commands| && (forall c :: c in m.commands ==> c.outcome == Completed)
      && m.sourceChanged == Some(false) && m.sourceVerificationError.None?
      && m.collectionStatus != Failed && (forall a :: a in m.artifacts ==> a.error.None?)
  }

  predicate Evidence(m: Manifest, spec: JobSpec, digest: string, jobId: nat) {
    && Identified(m, spec, digest, jobId)
    && 1 <= |m.commands| <= |spec.commands| && (forall i :: 0 <= i < |m.commands| ==> CommandStands(i, m.commands[i]))
    && |m.artifacts| == |spec.artifacts|
    && (forall i :: 0 <= i < |m.artifacts| ==> ArtifactStands(i, m.artifacts[i], spec.artifacts[i]))
    && Short(m.sourceVerificationError)
    && Supported(m, spec)
  }

  lemma {:induction false} CommandsStand(commands: seq<CommandResult>, index: nat)
    requires index <= |commands|
    ensures CommandsProblem(commands, index).None? <==>
              forall i :: index <= i < |commands| ==> CommandStands(i, commands[i])
    decreases |commands| - index
  {
    if index < |commands| {
      assert CommandProblem(index, commands[index]).None? <==> CommandStands(index, commands[index]);
      CommandsStand(commands, index + 1);
    }
  }

  lemma {:induction false} ArtifactsStand(artifacts: seq<ArtifactResult>, declared: seq<Artifact>, index: nat)
    requires index <= |artifacts| == |declared|
    ensures ArtifactsProblem(artifacts, declared, index).None? <==>
              forall i :: index <= i < |artifacts| ==> ArtifactStands(i, artifacts[i], declared[i])
    decreases |artifacts| - index
  {
    if index < |artifacts| {
      assert ArtifactProblem(index, artifacts[index], declared[index]).None? <==>
             ArtifactStands(index, artifacts[index], declared[index]);
      ArtifactsStand(artifacts, declared, index + 1);
    }
  }

  lemma SupportedExactly(m: Manifest, spec: JobSpec)
    ensures Unsupported(m, spec) <==> !Supported(m, spec)
  {
    assert (exists c :: c in m.commands && c.outcome != Completed) <==>
           (exists i :: 0 <= i < |m.commands| && m.commands[i].outcome != Completed);
    assert (exists a :: a in m.artifacts && a.error.Some?) <==>
           (exists i :: 0 <= i < |m.artifacts| && m.artifacts[i].error.Some?);
  }

  /** The check accepts exactly the manifests whose claims are backed. */
  lemma DecodesExactly(size: nat, m: Manifest, spec: JobSpec, digest: string, jobId: nat)
    ensures DecodeFor(size, m, spec, Success(digest), jobId).Success? <==>
              size <= 65536 && Evidence(m, spec, digest, jobId)
    ensures DecodeFor(size, m, spec, Success(digest), jobId).Success? ==>
              DecodeFor(size, m, spec, Success(digest), jobId).result == m
  {
    CommandsStand(m.commands, 0);
    if |m.artifacts| == |spec.artifacts| { ArtifactsStand(m.artifacts, spec.artifacts, 0); }
    SupportedExactly(m, spec);
  }
}
