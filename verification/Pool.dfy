/** The pool connection and the executor behind it, both on the event-loop thread: decoding of pool
    messages, publication of jobs, and share accounting. A parsed message is an abstract JSON value;
    datasets, sockets and the console are elsewhere or left out. */
module Pool {
  import opened Words
  import opened Vector32
  import opened HexCodec
  import opened CallTables
  import opened MiningProtocol
  import opened ResultQueue
  import opened SendSlots
  import opened Submissions

  const BLOB_SIZE: nat := 512
  const JOB_ID_SIZE: nat := 64

  // ------------------------------------------------------------------ messages

  datatype Json =
    | JNull
    | JUint(n: uint32)
    | JString(s: string)
    | JObject(members: map<string, Json>)
    | JOther

  type Members = map<string, Json>

  predicate HasString(m: Members, key: string) {
    key in m && m[key].JString?
  }

  function Text(m: Members, key: string): string
    requires HasString(m, key)
  {
    m[key].s
  }

  /** Blob bytes are pairs of digits; an odd last digit is ignored. */
  function BlobDigits(blob: string): (d: string)
    ensures |d| == |blob| / 2 * 2 && d <= blob
  {
    blob[..|blob| / 2 * 2]
  }

  function Algorithm(name: string): Option<PowType> {
    var c := CString(name);
    if c == "randomx" then Some(RandomX)
    else if c == "progpow" then Some(ProgPow)
    else if c == "cuckoo" then Some(Cuckoo)
    else None
  }

  /** The names of pow_type_to_str. */
  function PowName(pow: PowType): string {
    match pow
    case RandomX => "randomx"
    case ProgPow => "progpow"
    case Cuckoo => "cuckoo"
    case Idle => "idle"
  }

  /** A message names an algorithm by the name the program prints for it; idle is not one. */
  lemma AlgorithmInvertsName(name: string, pow: PowType)
    ensures Algorithm(name) == Some(pow) <==> pow != Idle && CString(name) == PowName(pow)
    ensures '\0' !in name ==> CString(name) == name
  {
  }

  /** What a job message must be to be accepted. */
  predicate WellFormedJob(p: Members) {
    && HasString(p, "job_id") && |Text(p, "job_id")| < 64
    && HasString(p, "pow_algo") && Algorithm(Text(p, "pow_algo")).Some?
    && HasString(p, "blob") && |Text(p, "blob")| / 2 <= 512 && AllHex(BlobDigits(Text(p, "blob")))
    && HasString(p, "target") && |Text(p, "target")| <= 8 && AllHex(Text(p, "target"))
    && TargetValue(Text(p, "target")) > 0
    && HasString(p, "seed_hash") && |Text(p, "seed_hash")| == 64 && AllHex(Text(p, "seed_hash"))
    && "height" in p && p["height"].JUint?
  }

  function TargetValue(target: string): nat
    requires |target| <= TARGET_DIGITS && AllHex(target)
  {
    PaddingIsHex(target);
    LittleEndian(Decoded(Padded(target)))
  }

  /** The target word from its digits: pairs, the first pair the lowest byte, and the high half of a
      byte before the low half. */
  lemma TargetFromDigits(target: string)
    requires |target| <= TARGET_DIGITS && AllHex(target)
    ensures var d := seq(TARGET_DIGITS, i requires 0 <= i < TARGET_DIGITS =>
                           if i < |target| then HexValue(target[i]).value else 0);
      TargetValue(target) == 0x10 * d[0] + d[1] + 0x1000 * d[2] + 0x100 * d[3]
                             + 0x10_0000 * d[4] + 0x1_0000 * d[5] + 0x1000_0000 * d[6] + 0x100_0000 * d[7]
  {
    PaddingIsHex(target);
    var b := Decoded(Padded(target));
    assert b == [b[0], b[1], b[2], b[3]];
    FourBytesSpell(b[0], b[1], b[2], b[3]);
    assert forall i :: 0 <= i < TARGET_DIGITS ==>
      Padded(target)[i] == if i < |target| then target[i] else '0';
  }

  /** A published job; immutable. */
  datatype MinerJob = MinerJob(
    pow: PowType, id: string, blob: seq<byte>, blobLen: uint32, noncePos: uint32,
    target: uint32, datasetId: nat, height: uint32)

  const IDLE_JOB: MinerJob := MinerJob(Idle, "", [], 0, 0, 0, 0, 0)

  /** The job that miners see is the one the message describes. Blob bytes past the message's own
      are whatever older messages left there. */
  predicate Describes(p: Members, job: MinerJob, epochOf: uint32 -> nat)
    requires WellFormedJob(p)
  {
    var bytes := Decoded(BlobDigits(Text(p, "blob")));
    && Some(job.pow) == Algorithm(Text(p, "pow_algo"))
    && job.id == Text(p, "job_id")
    && job.blobLen == |bytes| && |job.blob| == BLOB_SIZE && job.blob[..job.blobLen] == bytes
    && job.noncePos == W32(|bytes| - 4)
    && job.target == TargetValue(Text(p, "target"))
    && job.height == p["height"].n
    && job.datasetId == (match job.pow
                         case RandomX => GetId(Decoded(Text(p, "seed_hash")))
                         case ProgPow => epochOf(job.height)
                         case _ => 0)
  }

  // ------------------------------------------------------------------ the executor

  datatype Event = JobAccepted(params: Members) | Disconnected

  /** Folding the events of the connection: the last job message accepted since the last
      disconnect. */
  function LastJob(events: seq<Event>): Option<Members> {
    if events == [] then None
    else match events[|events| - 1]
      case JobAccepted(p) => Some(p)
      case Disconnected => None
  }

  /** The jobs published, oldest first, are those the events of the connection ask for: one for each
      message accepted, and the idle job for a disconnect that finds another one current. */
  predicate Published(events: seq<Event>, jobs: seq<MinerJob>, epochOf: uint32 -> nat)
    decreases |events|
  {
    if events == [] then jobs == [IDLE_JOB]
    else
      var before := events[..|events| - 1];
      && jobs != []
      && var current, older := jobs[|jobs| - 1], jobs[..|jobs| - 1];
         match events[|events| - 1]
         case JobAccepted(p) =>
           WellFormedJob(p) && Describes(p, current, epochOf) && Published(before, older, epochOf)
         case Disconnected =>
           && current == IDLE_JOB
           && if LastJob(before).Some? then Published(before, older, epochOf) else Published(before, jobs, epochOf)
  }

  /** The current job is the last one accepted since the last disconnect, or idle. */
  lemma CurrentJob(events: seq<Event>, jobs: seq<MinerJob>, epochOf: uint32 -> nat)
    requires Published(events, jobs, epochOf)
    ensures jobs != []
    ensures match LastJob(events)
            case None => jobs[|jobs| - 1] == IDLE_JOB
            case Some(p) => WellFormedJob(p) && Describes(p, jobs[|jobs| - 1], epochOf) && jobs[|jobs| - 1].pow != Idle
  {
    if LastJob(events).Some? {
      AlgorithmInvertsName(Text(LastJob(events).value, "pow_algo"), Idle);
    }
  }

  function Difficulty(target: uint32): (d: uint32)
    ensures target > 0 ==> d * target <= 0xFFFF_FFFF < (d + 1) * target
    ensures target == 0 ==> d == 0xFFFF_FFFF
  {
    if target > 0 then 0xFFFF_FFFF / target else 0xFFFF_FFFF
  }

  function SumOfDifficulties(targets: seq<uint32>): nat {
    if targets == [] then 0
    else SumOfDifficulties(targets[..|targets| - 1]) + Difficulty(targets[|targets| - 1])
  }

  /** What the executor keeps, but for the session's start. */
  datatype Books = Books(
    events: seq<Event>, jobs: seq<MinerJob>, credited: seq<uint32>, rejected: nat, totalDiff: uint64)

  /** Nothing changes but that this job, if any, is published. */
  predicate Publishes(b: Books, a: Books, p: Option<Members>) {
    && a.events == WithJob(b.events, p)
    && a.credited == b.credited && a.rejected == b.rejected && a.totalDiff == b.totalDiff
    && b.jobs <= a.jobs && (p.None? ==> a.jobs == b.jobs)
  }

  /** What a reply to a call of this kind does to the share counts. */
  function Counted(b: Books, kind: CallType, failed: bool, held: uint32): Books {
    if kind != Result then b
    else if failed then b.(rejected := b.rejected + 1)
    else b.(credited := b.credited + [held], totalDiff := W64(b.totalDiff + Difficulty(held)))
  }

  function WithJob(events: seq<Event>, p: Option<Members>): seq<Event> {
    if p.Some? then events + [JobAccepted(p.value)] else events
  }

  class Executor {
    const epochOf: uint32 -> nat
    var jobs: seq<MinerJob>  // oldest first; the last is the current job
    var sessionTimestamp: int
    var accepted: nat
    var rejected: nat
    var totalDiff: uint64
    ghost var events: seq<Event>
    ghost var credited: seq<uint32>  // the target of each accepted share of the session

    ghost predicate Valid()
      reads this
    {
      && Published(events, jobs, epochOf)
      && totalDiff == W64(SumOfDifficulties(credited)) && accepted == |credited|
    }

    ghost function KeptBooks(): Books
      reads this
    {
      Books(events, jobs, credited, rejected, totalDiff)
    }

    constructor (epochOf: uint32 -> nat)
      ensures Valid() && events == [] && credited == [] && rejected == 0
    {
      this.epochOf := epochOf;
      jobs := [IDLE_JOB];
      sessionTimestamp, accepted, rejected, totalDiff := 0, 0, 0, 0;
      events, credited := [], [];
    }

    method OnPoolNewJob(job: MinerJob, now: int, ghost params: Members)
      requires Valid() && WellFormedJob(params) && Describes(params, job, epochOf)
      modifies this
      ensures Valid() && jobs == old(jobs) + [job] && events == old(events) + [JobAccepted(params)]
      ensures credited == old(credited) && rejected == old(rejected) && totalDiff == old(totalDiff)
      ensures sessionTimestamp == if old(sessionTimestamp) == 0 then now else old(sessionTimestamp)
    {
      if sessionTimestamp == 0 {
        sessionTimestamp := now;
      }
      PublishMore(events, jobs, epochOf, JobAccepted(params), job);
      jobs := jobs + [job];
      events := events + [JobAccepted(params)];
    }

    method OnPoolDisconnect()
      requires Valid()
      modifies this
      ensures Valid() && events == old(events) + [Disconnected]
      ensures if LastJob(old(events)).None? then
                && jobs == old(jobs) && credited == old(credited) && rejected == old(rejected)
                && sessionTimestamp == old(sessionTimestamp)
              else
                jobs == old(jobs) + [IDLE_JOB] && credited == [] && rejected == 0 && sessionTimestamp == 0
    {
      CurrentJob(events, jobs, epochOf);
      PublishMore(events, jobs, epochOf, Disconnected, IDLE_JOB);
      if jobs[|jobs| - 1].pow != Idle {
        sessionTimestamp, accepted, rejected, totalDiff := 0, 0, 0, 0;
        credited := [];
        jobs := jobs + [IDLE_JOB];
      }
      events := events + [Disconnected];
    }

    method OnResultReply(target: uint32, failed: bool)
      requires Valid()
      modifies this
      ensures Valid() && KeptBooks() == Counted(old(KeptBooks()), Result, failed, target)
      ensures sessionTimestamp == old(sessionTimestamp)
    {
      var diff := Difficulty(target);
      if !failed {
        accepted := accepted + 1;
        ghost var more := credited + [target];
        assert more[..|credited|] == credited;
        SumWraps(SumOfDifficulties(credited), diff);
        totalDiff := W64(totalDiff + diff);
        credited := more;
      } else {
        rejected := rejected + 1;
      }
    }
  }

  /** One event more, and the job it calls for. */
  lemma PublishMore(events: seq<Event>, jobs: seq<MinerJob>, epochOf: uint32 -> nat, e: Event, job: MinerJob)
    requires Published(events, jobs, epochOf)
    requires match e
             case JobAccepted(p) => WellFormedJob(p) && Describes(p, job, epochOf)
             case Disconnected => job == IDLE_JOB
    ensures e.JobAccepted? || LastJob(events).Some? ==> Published(events + [e], jobs + [job], epochOf)
    ensures e.Disconnected? && LastJob(events).None? ==> Published(events + [e], jobs, epochOf)
  {
    assert (events + [e])[..|events|] == events && (jobs + [job])[..|jobs|] == jobs;
    CurrentJob(events, jobs, epochOf);
  }

  lemma SumWraps(sum: nat, diff: nat)
    ensures W64(W64(sum) + diff) == W64(sum + diff)
  {
  }

  // ------------------------------------------------------------------ the pool

  const JOB_KEYS: set<string> := {"job_id", "blob", "target", "pow_algo", "seed_hash", "height"}

  /** The first check of process_pool_job: everything present, and of the right type but for the
      seed, whose type is checked later. Past it, the job record is reset. */
  predicate HasFields(p: Members): (has: bool)
    ensures has ==> forall key :: key in JOB_KEYS ==> key in p
    ensures has <== WellFormedJob(p)
    ensures (forall key :: key in JOB_KEYS ==> key in p) ==>
      (has <==> p["height"].JUint? && forall key :: key in JOB_KEYS - {"height", "seed_hash"} ==> p[key].JString?)
  {
    && HasString(p, "job_id") && HasString(p, "blob") && HasString(p, "target") && HasString(p, "pow_algo")
    && "seed_hash" in p && "height" in p && p["height"].JUint?
  }

  datatype PoolState = PoolIdle | Connecting | Connected | HasJob

  /** pool_job: the one mutable job record, overwritten in place by every job message. */
  class PoolJob {
    const blob: array<byte>
    const seed: array<byte>
    const target: array<byte>  // the four bytes of a little-endian word
    var id: string
    var pow: PowType
    var height: uint32
    var blobLen: uint32
    var noncePos: uint32
    var nonce: uint32  // the counter all miners draw from

    ghost predicate Valid()
      reads this
    {
      && blob.Length == BLOB_SIZE && seed.Length == 32 && target.Length == 4
      && blob != seed && blob != target && seed != target
    }

    function Target(): (t: uint32)
      requires Valid()
      reads this, target
    {
      LittleEndianBound(target[..]);
      assert Pow256(4) == TWO32;
      LittleEndian(target[..])
    }

    constructor ()
      ensures Valid() && fresh(blob) && fresh(seed) && fresh(target)
      ensures nonce == 0 && blobLen == 0
    {
      blob, seed, target := new byte[BLOB_SIZE], new byte[32], new byte[4];
      id, pow, height, blobLen, noncePos, nonce := "", Idle, 0, 0, 0, 0;
    }

    method Reset()
      modifies this`nonce, this`blobLen
      ensures nonce == 0 && blobLen == 0
    {
      nonce, blobLen := 0, 0;
    }

    /** The record holds the decoded fields of the message. */
    ghost predicate Holds(p: Members)
      requires WellFormedJob(p) && Valid()
      reads this, blob, seed, target
    {
      var bytes := Decoded(BlobDigits(Text(p, "blob")));
      && Some(pow) == Algorithm(Text(p, "pow_algo")) && id == Text(p, "job_id")
      && blob[..|bytes|] == bytes && Target() == TargetValue(Text(p, "target"))
      && seed[..] == Decoded(Text(p, "seed_hash"))
      && height == p["height"].n && blobLen == |bytes| && noncePos == W32(|bytes| - 4)
    }

    method LoadBlob(text: string) returns (ok: bool)
      requires Valid()
      modifies blob
      ensures ok <==> |text| / 2 <= BLOB_SIZE && AllHex(BlobDigits(text))
      ensures ok ==> blob[..|text| / 2] == Decoded(BlobDigits(text))
    {
      var workLen := |text| / 2;
      if workLen > BLOB_SIZE {
        return false;
      }
      EvenPairs(text, workLen * 2);
      ok := Hex2Bin(text, workLen * 2, blob);
    }

    method LoadTarget(text: string) returns (ok: bool)
      requires Valid()
      modifies target
      ensures ok <==> |text| <= TARGET_DIGITS && AllHex(text) && TargetValue(text) > 0
      ensures ok ==> Target() == TargetValue(text)
    {
      if |text| > TARGET_DIGITS {
        return false;
      }
      var padded := Padded(text);
      EvenPairs(padded, TARGET_DIGITS);
      assert PairsOf(padded, TARGET_DIGITS) == padded;
      PaddingIsHex(text);
      ok := Hex2Bin(padded, TARGET_DIGITS, target);
      assert target[..] == target[..4];
      ok := ok && Target() != 0;
    }

    method LoadSeed(text: string) returns (ok: bool)
      requires Valid() && |text| == 64
      modifies seed
      ensures ok <==> AllHex(text)
      ensures ok ==> seed[..] == Decoded(text)
    {
      EvenPairs(text, 64);
      ok := Hex2Bin(text, 64, seed);
      assert seed[..] == seed[..32];
    }

    /** process_pool_job up to its publication: checks and writes field by field, so a rejected
        message leaves the record reset and partly overwritten. */
    method Load(p: Members) returns (ok: bool)
      requires Valid()
      modifies this, blob, seed, target
      ensures ok <==> WellFormedJob(p)
      ensures ok ==> Holds(p)
      ensures if HasFields(p) then nonce == 0 else nonce == old(nonce)
    {
      if !HasFields(p) {
        return false;
      }
      Reset();
      var algorithm := Algorithm(Text(p, "pow_algo"));
      if algorithm.None? {
        return false;
      }
      pow := algorithm.value;
      if |Text(p, "job_id")| >= JOB_ID_SIZE {
        return false;
      }
      id := Text(p, "job_id");
      ok := LoadBlob(Text(p, "blob"));
      if !ok {
        return;
      }
      ok := LoadTarget(Text(p, "target"));
      if !ok {
        return;
      }
      if !HasString(p, "seed_hash") || |Text(p, "seed_hash")| != 64 {
        return false;
      }
      ok := LoadSeed(Text(p, "seed_hash"));
      if !ok {
        return;
      }
      height := p["height"].n;
      noncePos := W32(|Text(p, "blob")| / 2 - 4);
      blobLen := |Text(p, "blob")| / 2;
      nonce := 0;
    }

    /** The miner_job snapshot constructor. */
    method Snapshot(epochOf: uint32 -> nat) returns (m: MinerJob)
      requires Valid()
      ensures forall p :: WellFormedJob(p) && Holds(p) ==> Describes(p, m, epochOf)
    {
      var datasetId := match pow
        case RandomX => GetId(seed[..])
        case ProgPow => epochOf(height)
        case _ => 0;
      m := MinerJob(pow, id, blob[..], blobLen, noncePos, Target(), datasetId, height);
    }
  }

  lemma EvenPairs(s: string, len: nat)
    requires len <= |s| && len % 2 == 0
    ensures PairsOf(s, len) == s[..len]
  {
  }

  datatype Message =
    | JobNotice(params: Members)
    | Response(callId: uint32, error: Option<string>, result: Members)
    | Malformed

  /** The first half of process_json_doc. */
  function Classify(doc: Members): Message {
    if "method" in doc then
      if HasString(doc, "method") && CString(Text(doc, "method")) == "job" && "params" in doc && doc["params"].JObject? then
        JobNotice(doc["params"].members)
      else Malformed
    else if !("id" in doc && doc["id"].JUint?) then Malformed
    else if "error" !in doc || doc["error"] == JNull then
      if "result" in doc && doc["result"].JObject? then Response(doc["id"].n, None, doc["result"].members)
      else Malformed
    else if doc["error"].JObject? && HasString(doc["error"].members, "message") then
      Response(doc["id"].n, Some(Text(doc["error"].members, "message")), map[])
    else Malformed
  }

  /** A login reply carries an id and a job; a job that is no object trips the JSON library's own
      assertion. */
  predicate IsLogin(result: Members) {
    HasString(result, "id") && "job" in result
  }

  datatype Outcome = Continue | Refuse | AssertFails

  /** The well-formed job of a reply to a login. */
  function LoginJob(error: Option<string>, result: Members): (p: Option<Members>)
    ensures p.Some? ==> WellFormedJob(p.value)
  {
    if error.None? && IsLogin(result) && result["job"].JObject? && WellFormedJob(result["job"].members)
    then Some(result["job"].members) else None
  }

  function LoginVerdict(error: Option<string>, result: Members): Outcome {
    if error.Some? || !IsLogin(result) then Refuse
    else if !result["job"].JObject? then AssertFails
    else if LoginJob(error, result).Some? then Continue
    else Refuse
  }

  /** The job a message publishes, given the outstanding calls. */
  function AcceptedJob(m: Message, calls: map<uint32, Call>): (p: Option<Members>)
    ensures p.Some? ==> WellFormedJob(p.value)
  {
    match m
    case JobNotice(params) => if WellFormedJob(params) then Some(params) else None
    case Response(callId, error, result) =>
      if callId in calls && calls[callId].kind == Login then LoginJob(error, result) else None
    case Malformed => None
  }

  predicate IsShareReply(m: Message, calls: map<uint32, Call>) {
    m.Response? && m.callId in calls && calls[m.callId].kind == Result
  }

  function CallVerdict(kind: CallType, error: Option<string>, result: Members): Outcome {
    match kind
    case Result => Continue
    case Keepalive => if error.Some? then Refuse else Continue
    case Login => LoginVerdict(error, result)
    case Invalid => Refuse
  }

  /** Whether the connection survives the message. */
  function Verdict(m: Message, calls: map<uint32, Call>): Outcome {
    match m
    case JobNotice(params) => if WellFormedJob(params) then Continue else Refuse
    case Malformed => Refuse
    case Response(callId, error, result) =>
      if callId !in calls then Refuse else CallVerdict(calls[callId].kind, error, result)
  }

  /** The room for a text and its terminator: a slot, or with TLS a buffer on the stack. */
  const CMD_SIZE: nat := 1024

  function Room(tls: bool): nat { if tls then 1024 else 2048 }

  function CallFor(callId: uint32, known: map<uint32, Call>): Call {
    if callId in known then known[callId] else Call(Invalid, INVALID_MINER)
  }

  /** The first call outstanding under the id is removed, and no other. */
  ghost predicate Removed(callId: uint32, before: seq<Slot>, after: seq<Slot>) {
    if callId in Outstanding(before) then
      && (exists i :: FirstAnswer(before, callId, i) && after == before[i := Cleared(before[i])])
      && (DistinctIds(before) ==> Outstanding(after) == Outstanding(before) - {callId})
    else after == before
  }

  ghost predicate Answered(m: Message, before: seq<Slot>, after: seq<Slot>) {
    if m.Response? then Removed(m.callId, before, after) else after == before
  }

  /** What one message does, given the outstanding calls and the target held. */
  predicate Handled(m: Message, known: map<uint32, Call>, held: uint32, before: Session, after: Session) {
    && after.minerId == NameAfter(m, known, before.minerId)
    && if IsShareReply(m, known) then
         after.books == Counted(before.books, Result, m.error.Some?, held) && after.state == before.state
       else
         && Publishes(before.books, after.books, AcceptedJob(m, known))
         && after.state == if AcceptedJob(m, known).Some? then HasJob else before.state
  }

  function NameAfter(m: Message, known: map<uint32, Call>, name: string): string {
    if m.Response? && m.callId in known && known[m.callId].kind == Login then LoginName(m.error, m.result, name)
    else name
  }

  function LoginName(error: Option<string>, result: Members, name: string): string {
    if error.None? && IsLogin(result) then CString(Text(result, "id")) else name
  }

  // ------------------------------------------------------------------ what a document asks for

  predicate IsJobNotice(doc: Members, params: Members) {
    && "method" in doc && doc["method"].JString? && CString(doc["method"].s) == "job"
    && "params" in doc && doc["params"] == JObject(params)
  }

  predicate IsReply(doc: Members, callId: uint32) {
    "method" !in doc && "id" in doc && doc["id"] == JUint(callId)
  }

  predicate Succeeds(doc: Members, result: Members) {
    ("error" in doc ==> doc["error"] == JNull) && "result" in doc && doc["result"] == JObject(result)
  }

  predicate Fails(doc: Members) {
    && "error" in doc && doc["error"].JObject?
    && "message" in doc["error"].members && doc["error"].members["message"].JString?
  }

  ghost predicate Answers(doc: Members, callId: uint32) {
    IsReply(doc, callId) && (Fails(doc) || exists result :: Succeeds(doc, result))
  }

  /** The books, the state of the connection and the name the pool gave the miner. */
  datatype Session = Session(books: Books, state: PoolState, minerId: string)

  /** A job notice publishes exactly a well-formed job. */
  predicate NoticeEffect(params: Members, before: Session, after: Session, outcome: Outcome) {
    if WellFormedJob(params) then
      outcome == Continue && Accepts(params, before, after) && after.minerId == before.minerId
    else outcome == Refuse && after == before
  }

  /** One job more is published, as the current one. */
  predicate Accepts(params: Members, before: Session, after: Session) {
    && after.state == HasJob && after.books.events == before.books.events + [JobAccepted(params)]
    && before.books.jobs <= after.books.jobs
    && after.books == before.books.(events := after.books.events, jobs := after.books.jobs)
  }

  /** A successful reply credits a share at the target held, confirms a keepalive, or logs in. */
  predicate SuccessEffect(kind: CallType, result: Members, held: uint32, before: Session, after: Session, outcome: Outcome)
  {
    match kind
    case Result =>
      && outcome == Continue
      && after == before.(books := before.books.(
                            credited := before.books.credited + [held],
                            totalDiff := W64(before.books.totalDiff + Difficulty(held))))
    case Login => LoginEffect(result, before, after, outcome)
    case _ => outcome == Continue && after == before
  }

  predicate LoginEffect(result: Members, before: Session, after: Session, outcome: Outcome) {
    if !("id" in result && result["id"].JString? && "job" in result) then outcome == Refuse && after == before
    else
      && after.minerId == CString(result["id"].s)
      && (if result["job"].JObject? && WellFormedJob(result["job"].members) then
            outcome == Continue && Accepts(result["job"].members, before, after)
          else
            && outcome == (if result["job"].JObject? then Refuse else AssertFails)
            && after == before.(minerId := after.minerId))
  }

  /** An error counts a share as rejected; any other call it ends the connection for. */
  predicate ErrorEffect(kind: CallType, before: Session, after: Session, outcome: Outcome) {
    if kind == Result then
      && outcome == Continue
      && after == before.(books := before.books.(rejected := before.books.rejected + 1))
    else outcome == Refuse && after == before
  }

  /** What the members of a document decide, whatever they are; any other document is refused and
      changes nothing. */
  ghost predicate DocEffect(doc: Members, known: map<uint32, Call>, held: uint32,
                            before: Session, after: Session, outcome: Outcome)
  {
    && (forall params :: IsJobNotice(doc, params) ==> NoticeEffect(params, before, after, outcome))
    && (forall callId, result :: IsReply(doc, callId) && callId in known && Succeeds(doc, result) ==>
          SuccessEffect(known[callId].kind, result, held, before, after, outcome))
    && (forall callId :: IsReply(doc, callId) && callId in known && Fails(doc) ==>
          ErrorEffect(known[callId].kind, before, after, outcome))
    && ((forall params :: !IsJobNotice(doc, params)) && (forall callId :: callId in known ==> !Answers(doc, callId)) ==>
          outcome == Refuse && after == before)
  }

  /** The call a document answers is the one removed from the table. */
  ghost predicate DocAnswers(doc: Members, before: seq<Slot>, after: seq<Slot>) {
    && (forall callId :: Answers(doc, callId) ==> Removed(callId, before, after))
    && ((forall callId :: !Answers(doc, callId)) ==> after == before)
  }

  /** The classification of a document and the handling of its class do what its members ask for. */
  lemma ClassDecidesEffect(doc: Members, known: map<uint32, Call>, held: uint32,
                           before: Session, after: Session, outcome: Outcome)
    requires forall callId :: callId in known ==> known[callId].kind != Invalid
    requires outcome == Verdict(Classify(doc), known)
    requires Handled(Classify(doc), known, held, before, after)
    ensures DocEffect(doc, known, held, before, after, outcome)
  {
    var m := Classify(doc);
    if m.JobNotice? {
      assert IsJobNotice(doc, m.params);
    } else if m.Response? {
      assert m.error.None? ==> Succeeds(doc, m.result);
      assert Answers(doc, m.callId);
    }
    if !m.JobNotice? && (m.Response? ==> m.callId !in known) {
      assert after.books == before.books;
    }
  }

  lemma ClassDecidesAnswer(doc: Members, before: seq<Slot>, after: seq<Slot>)
    requires Answered(Classify(doc), before, after)
    ensures DocAnswers(doc, before, after)
  {
    var m := Classify(doc);
    if m.Response? {
      assert m.error.None? ==> Succeeds(doc, m.result);
      assert Answers(doc, m.callId);
    }
  }

  /** A line of JSON goes out whole if and only if there is a buffer for it and it fits with its
      terminator; without TLS the socket is then given exactly the line. */
  predicate Delivered(text: string, tls: bool, active: seq<bool>, r: PrintResult,
                      before: seq<Option<Write>>, after: seq<Option<Write>>)
  {
    && r == Fate(text, Room(tls), !tls && AllActive(active))
    && after == if tls || r == NoBuffer || |before| != |active| then before
                else before[FirstInactive(active) := Some(Write(Covered(Printed(text), |text|), |text|))]
  }

  /** A call is registered, under the next id, exactly when a slot was free; otherwise the id is what
      the caller's variable held. */
  predicate Registered(callId: uint32, call: Call, unset: uint32, nextId: uint32, before: seq<Slot>, after: seq<Slot>) {
    if HasFree(before) then
      && callId == nextId
      && (callId !in Outstanding(before) ==> Outstanding(after) == Outstanding(before)[callId := call])
    else callId == unset && after == before
  }

  class Pool {
    const exec: Executor
    const calls: CallTable
    const job: PoolJob
    const net: SendBuffers
    const tls: bool
    const login: Credentials
    var state: PoolState
    var minerId: string
    var pingCallId: uint32
    var pingTimestamp: int
    ghost var open: bool  // between a connect and the close that ends it
    ghost var sent: nat   // shares registered in this connection

    ghost predicate Valid()
      reads this, exec, calls, calls.slots, job
    {
      && job.Valid() && exec.Valid() && calls.slots.Length == TABLE_SIZE
      && (state == HasJob ==> open && LastJob(exec.events).Some?)
      && (if open then
            && calls.Valid()
            && exec.accepted + exec.rejected + Results(calls.slots[..]) == sent
            && (LastJob(exec.events).None? ==> sent == 0)
          else exec.accepted == 0 && exec.rejected == 0)
    }

    constructor (exec: Executor, net: SendBuffers, tls: bool, login: Credentials)
      requires exec.Valid() && exec.credited == [] && exec.rejected == 0
      ensures Valid() && this.exec == exec && this.net == net && this.tls == tls && this.login == login
      ensures !open && state == PoolIdle
      ensures fresh(calls) && fresh(calls.slots) && fresh(job)
      ensures fresh(job.blob) && fresh(job.seed) && fresh(job.target)
    {
      this.exec, this.net, this.tls, this.login := exec, net, tls, login;
      calls := new CallTable();
      job := new PoolJob();
      state, minerId, pingCallId, pingTimestamp := PoolIdle, "", 0xFFFF_FFFF, -1;
      open, sent := false, 0;
    }

    ghost function Now(): Session
      reads this, exec
    {
      Session(exec.KeptBooks(), state, minerId)
    }

    /** do_connect; the previous connection has been closed. */
    method DoConnect()
      requires Valid() && !open
      modifies this, calls, calls.slots
      ensures Valid() && open && sent == 0 && state == Connecting
      ensures calls.Calls() == map[] && calls.nextId == 0 && HasFree(calls.slots[..])
    {
      state := Connecting;
      calls.Flush();
      open, sent := true, 0;
    }

    /** net_on_connect and the login call it makes. */
    method NetOnConnect(now: int, unset: uint32) returns (callId: uint32, r: PrintResult)
      requires Valid() && open && net.Valid()
      modifies this`state, calls, calls.slots, net`wire, net.active, net.attached, net.data
      ensures Valid() && net.Valid() && state == Connected
      ensures Registered(callId, Call(Login, INVALID_MINER), unset, old(calls.nextId),
                         old(calls.slots[..]), calls.slots[..])
      ensures Delivered(LoginText(login, callId), tls, old(net.active[..]), r, old(net.wire), net.wire)
    {
      callId := RegisterLogin(now, unset);
      r := SendLine(LoginText(login, callId));
    }

    method RegisterLogin(now: int, unset: uint32) returns (callId: uint32)
      requires Valid() && open
      modifies this`state, calls, calls.slots
      ensures Valid() && state == Connected
      ensures Registered(callId, Call(Login, INVALID_MINER), unset, old(calls.nextId),
                         old(calls.slots[..]), calls.slots[..])
    {
      state := Connected;
      var ok;
      ok, callId := calls.RegisterCall(Login, INVALID_MINER, now, unset);
    }

    /** What the TLS layer does with a line is not part of this model. */
    method SendLine(text: string) returns (r: PrintResult)
      requires Valid() && net.Valid() && text != ""
      modifies net`wire, net.active, net.attached, net.data
      ensures Valid() && net.Valid() && Delivered(text, tls, old(net.active[..]), r, old(net.wire), net.wire)
    {
      if tls {
        r := Fate(text, CMD_SIZE, false);
      } else {
        r := net.PrintAndSend(text);
      }
    }

    /** The result of the registration is not looked at: with the table full, the share goes out
        under whatever the local variable held. A reply to it then counts only if some other
        outstanding share happens to have that id. */
    method RegisterShare(minerThread: uint32, now: int, unset: uint32) returns (callId: uint32)
      requires Valid() && state == HasJob
      modifies this`sent, this`pingCallId, this`pingTimestamp, calls, calls.slots
      ensures Valid()
      ensures sent == old(sent) + if HasFree(old(calls.slots[..])) then 1 else 0
      ensures Registered(callId, Call(Result, minerThread), unset, old(calls.nextId), old(calls.slots[..]), calls.slots[..])
      ensures pingCallId == callId && pingTimestamp == now
    {
      var ok;
      ok, callId := calls.RegisterCall(Result, minerThread, now, unset);
      if ok {
        sent := sent + 1;
      }
      pingCallId, pingTimestamp := callId, now;
    }

    method PrepareShare(res: MinerResult, now: int, unset: uint32) returns (m: Submission)
      requires Valid() && net.Valid() && state == HasJob
      modifies this`sent, this`pingCallId, this`pingTimestamp, calls, calls.slots
      ensures Valid() && net.Valid() && Describing(m, minerId, res)
      ensures net.active[..] == old(net.active[..])
      ensures sent == old(sent) + if HasFree(old(calls.slots[..])) then 1 else 0
      ensures Registered(m.callId, Call(Result, res.minerId), unset, old(calls.nextId), old(calls.slots[..]), calls.slots[..])
    {
      var callId := RegisterShare(res.minerId, now, unset);
      m := FormatShare(minerId, res, callId);
    }

    /** The share is registered before it is known whether it can be sent. */
    method SubmitShare(res: MinerResult, now: int, unset: uint32) returns (m: Submission, r: PrintResult)
      requires Valid() && net.Valid() && state == HasJob
      modifies this`sent, this`pingCallId, this`pingTimestamp, calls, calls.slots
      modifies net`wire, net.active, net.attached, net.data
      ensures Valid() && net.Valid() && Describing(m, minerId, res)
      ensures sent == old(sent) + if HasFree(old(calls.slots[..])) then 1 else 0
      ensures Registered(m.callId, Call(Result, res.minerId), unset, old(calls.nextId), old(calls.slots[..]), calls.slots[..])
      ensures Delivered(SubmitText(m), tls, old(net.active[..]), r, old(net.wire), net.wire)
    {
      m := PrepareShare(res, now, unset);
      r := SendLine(SubmitText(m));
    }

    method DoSendResult(res: MinerResult, now: int, unset: uint32)
      returns (message: Option<Submission>, r: PrintResult)
      requires Valid() && net.Valid()
      modifies this`sent, this`pingCallId, this`pingTimestamp, calls, calls.slots
      modifies net`wire, net.active, net.attached, net.data
      ensures Valid() && net.Valid()
      ensures message.Some? <==> state == HasJob
      ensures message.None? ==>
        sent == old(sent) && calls.slots[..] == old(calls.slots[..]) && net.wire == old(net.wire)
      ensures message.Some? ==>
        && Describing(message.value, minerId, res)
        && sent == old(sent) + (if HasFree(old(calls.slots[..])) then 1 else 0)
        && Registered(message.value.callId, Call(Result, res.minerId), unset, old(calls.nextId),
                      old(calls.slots[..]), calls.slots[..])
        && Delivered(SubmitText(message.value), tls, old(net.active[..]), r, old(net.wire), net.wire)
    {
      if state != HasJob {
        return None, NoBuffer;
      }
      var m;
      m, r := SubmitShare(res, now, unset);
      message := Some(m);
    }

    method ProcessPoolJob(p: Members, now: int) returns (ok: bool)
      requires Valid() && open
      modifies this`state, exec, job, job.blob, job.seed, job.target
      ensures Valid()
      ensures ok <==> WellFormedJob(p)
      ensures Publishes(old(exec.KeptBooks()), exec.KeptBooks(), if ok then Some(p) else None)
      ensures if HasFields(p) then job.nonce == 0 else job.nonce == old(job.nonce)
      ensures state == if ok then HasJob else old(state)
      ensures ok ==> job.Target() == TargetValue(Text(p, "target"))
      ensures exec.sessionTimestamp == if ok && old(exec.sessionTimestamp) == 0 then now else old(exec.sessionTimestamp)
    {
      ok := job.Load(p);
      if ok {
        Publish(p, now);
      }
    }

    method Publish(ghost p: Members, now: int)
      requires Valid() && open && WellFormedJob(p) && job.Holds(p)
      modifies this`state, exec
      ensures Valid() && state == HasJob
      ensures Publishes(old(exec.KeptBooks()), exec.KeptBooks(), Some(p))
      ensures exec.sessionTimestamp == if old(exec.sessionTimestamp) == 0 then now else old(exec.sessionTimestamp)
    {
      state := HasJob;
      var snapshot := job.Snapshot(exec.epochOf);
      exec.OnPoolNewJob(snapshot, now, p);
    }

    method NetOnError()
      requires Valid()
      modifies this`state, job`nonce, job`blobLen
      ensures Valid() && state == PoolIdle && job.nonce == 0 && job.blobLen == 0
    {
      state := PoolIdle;
      job.Reset();
    }

    method NetOnClose()
      requires Valid() && open
      modifies this`state, this`open, job`nonce, job`blobLen, exec
      ensures Valid() && state == PoolIdle && !open && job.nonce == 0 && job.blobLen == 0
      ensures exec.events == old(exec.events) + [Disconnected] && old(exec.jobs) <= exec.jobs
      ensures exec.credited == [] && exec.rejected == 0
    {
      state := PoolIdle;
      job.Reset();
      exec.OnPoolDisconnect();
      open := false;
    }

    method ProcessPoolLogin(result: Members, error: Option<string>, now: int) returns (outcome: Outcome)
      requires Valid() && open
      modifies this`state, this`minerId, exec, job, job.blob, job.seed, job.target
      ensures Valid()
      ensures outcome == LoginVerdict(error, result)
      ensures Publishes(old(exec.KeptBooks()), exec.KeptBooks(), LoginJob(error, result))
      ensures minerId == LoginName(error, result, old(minerId))
      ensures state == if LoginJob(error, result).Some? then HasJob else old(state)
    {
      if error.Some? {
        return Refuse;
      }
      if "id" !in result || "job" !in result || !result["id"].JString? {
        return Refuse;
      }
      minerId := CString(result["id"].s);
      if !result["job"].JObject? {
        return AssertFails;
      }
      var ok := ProcessPoolJob(result["job"].members, now);
      outcome := if ok then Continue else Refuse;
    }

    method ProcessJsonDoc(doc: Members, now: int) returns (outcome: Outcome)
      requires Valid() && open
      modifies this`state, this`minerId, exec, job, job.blob, job.seed, job.target, calls, calls.slots
      ensures Valid()
      ensures DocEffect(doc, old(calls.Calls()), old(job.Target()), old(Now()), Now(), outcome)
      ensures DocAnswers(doc, old(calls.slots[..]), calls.slots[..])
    {
      outcome := ProcessMessage(doc, now);
      OutstandingCallsAreValid(old(calls.slots[..]));
      ClassDecidesEffect(doc, old(calls.Calls()), old(job.Target()), old(Now()), Now(), outcome);
      ClassDecidesAnswer(doc, old(calls.slots[..]), calls.slots[..]);
    }

    method ProcessMessage(doc: Members, now: int) returns (outcome: Outcome)
      requires Valid() && open
      modifies this`state, this`minerId, exec, job, job.blob, job.seed, job.target, calls, calls.slots
      ensures Valid()
      ensures outcome == Verdict(Classify(doc), old(calls.Calls()))
      ensures Handled(Classify(doc), old(calls.Calls()), old(job.Target()), old(Now()), Now())
      ensures Answered(Classify(doc), old(calls.slots[..]), calls.slots[..])
    {
      var m := Classify(doc);
      match m
      case Malformed => outcome := Refuse;
      case JobNotice(params) =>
        var ok := ProcessPoolJob(params, now);
        outcome := if ok then Continue else Refuse;
      case Response(callId, error, result) =>
        outcome := ProcessResponse(callId, error, result, now);
    }

    method ProcessResponse(callId: uint32, error: Option<string>, result: Members, now: int)
      returns (outcome: Outcome)
      requires Valid() && open
      modifies this`state, this`minerId, exec, job, job.blob, job.seed, job.target, calls, calls.slots
      ensures Valid()
      ensures outcome == Verdict(Response(callId, error, result), old(calls.Calls()))
      ensures Handled(Response(callId, error, result), old(calls.Calls()), old(job.Target()),
                      old(Now()), Now())
      ensures Answered(Response(callId, error, result), old(calls.slots[..]), calls.slots[..])
    {
      var call := TakeCall(callId, error.Some?);
      FoundCall(callId, error, result, old(calls.Calls()), call);
      ghost var slots := calls.slots[..];
      outcome := ActOnCall(call.kind, error, result, now);
      assert calls.slots[..] == slots;
    }

    /** What is left to do once the call of a reply is known. */
    method ActOnCall(kind: CallType, error: Option<string>, result: Members, now: int) returns (outcome: Outcome)
      requires Valid() && open
      modifies this`state, this`minerId, exec, job, job.blob, job.seed, job.target
      ensures Valid()
      ensures outcome == CallVerdict(kind, error, result)
      ensures if kind == Login then Publishes(old(exec.KeptBooks()), exec.KeptBooks(), LoginJob(error, result))
              else exec.KeptBooks() == old(exec.KeptBooks())
      ensures minerId == if kind == Login then LoginName(error, result, old(minerId)) else old(minerId)
      ensures state == if kind == Login && LoginJob(error, result).Some? then HasJob else old(state)
    {
      if kind == Login {
        outcome := ProcessPoolLogin(result, error, now);
      } else {
        outcome := if kind == Invalid || (kind == Keepalive && error.Some?) then Refuse else Continue;
      }
    }

    /** find_call, and on_result_reply if it finds a submitted share. */
    method TakeCall(callId: uint32, failed: bool) returns (call: Call)
      requires Valid() && open
      modifies exec, calls, calls.slots
      ensures Valid()
      ensures call == CallFor(callId, old(calls.Calls()))
      ensures call.kind == Invalid <==> callId !in old(calls.Calls())
      ensures Removed(callId, old(calls.slots[..]), calls.slots[..])
      ensures exec.KeptBooks() == Counted(old(exec.KeptBooks()), call.kind, failed, old(job.Target()))
    {
      call := calls.FindCall(callId);
      if call.kind == Result {
        exec.OnResultReply(job.Target(), failed);
      }
    }
  }

  lemma {:induction false} OutstandingCallsAreValid(slots: seq<Slot>)
    ensures forall callId :: callId in Outstanding(slots) ==> Outstanding(slots)[callId].kind != Invalid
  {
    if slots != [] { OutstandingCallsAreValid(slots[1..]); }
  }

  /** The effect of a reply follows from the kind of call found. */
  lemma FoundCall(callId: uint32, error: Option<string>, result: Members, known: map<uint32, Call>, call: Call)
    requires call == CallFor(callId, known)
    requires call.kind == Invalid <==> callId !in known
    ensures var m := Response(callId, error, result);
      && Verdict(m, known) == CallVerdict(call.kind, error, result)
      && AcceptedJob(m, known) == (if call.kind == Login then LoginJob(error, result) else None)
      && (IsShareReply(m, known) <==> call.kind == Result)
  {
  }

  /** A connection from its start: the login call, the pool's answer to it, and mining. */
  method ConnectAndLogin(pool: Pool, doc: Members, result: Members, now: int, unset: uint32)
    returns (outcome: Outcome)
    requires pool.Valid() && pool.net.Valid() && !pool.open
    requires IsReply(doc, 0) && Succeeds(doc, result)
    requires "id" in result && result["id"].JString? && "job" in result && result["job"].JObject?
    requires WellFormedJob(result["job"].members)
    modifies pool, pool.exec, pool.job, pool.job.blob, pool.job.seed, pool.job.target, pool.calls, pool.calls.slots
    modifies pool.net`wire, pool.net.active, pool.net.attached, pool.net.data
    ensures pool.Valid() && outcome == Continue
    ensures pool.state == HasJob && pool.minerId == CString(result["id"].s)
    ensures LastJob(pool.exec.events) == Some(result["job"].members)
  {
    Connect(pool, now, unset);
    ghost var known, held, before := pool.calls.Calls(), pool.job.Target(), pool.Now();
    outcome := pool.ProcessJsonDoc(doc, now);
    LoginAnswered(doc, known, held, before, pool.Now(), outcome, 0, result);
  }

  lemma LoginAnswered(doc: Members, known: map<uint32, Call>, held: uint32, before: Session, after: Session,
                      outcome: Outcome, callId: uint32, result: Members)
    requires DocEffect(doc, known, held, before, after, outcome)
    requires callId in known && known[callId].kind == Login && IsReply(doc, callId) && Succeeds(doc, result)
    ensures LoginEffect(result, before, after, outcome)
  {
    assert SuccessEffect(known[callId].kind, result, held, before, after, outcome);
  }

  method Connect(pool: Pool, now: int, unset: uint32)
    requires pool.Valid() && pool.net.Valid() && !pool.open
    modifies pool, pool.calls, pool.calls.slots
    modifies pool.net`wire, pool.net.active, pool.net.attached, pool.net.data
    ensures pool.Valid() && pool.open && pool.calls.Calls() == map[0 := Call(Login, INVALID_MINER)]
  {
    pool.DoConnect();
    var callId, r := pool.NetOnConnect(now, unset);
  }

  /** Two targets are credited alike exactly when the larger still allows the smaller one's quotient. */
  lemma CreditIsAlikeExactly(found: uint32, held: uint32)
    requires 0 < found <= held
    ensures Difficulty(found) == Difficulty(held) <==> held * Difficulty(found) <= 0xFFFF_FFFF
  {
    var n: int, q: int, p: int := 0xFFFF_FFFF, Difficulty(found), Difficulty(held);
    assert found * q <= n < found * (q + 1) && held * p <= n < held * (p + 1) by {
      QuotientBounds(n, found);
      QuotientBounds(n, held);
    }
    if held * q <= n {
      if p < q { Scale(held, p + 1, q); }
      if q < p {
        Scale(held, q + 1, p);
        ScaleLeft(q + 1, found, held);
      }
    }
  }

  lemma QuotientBounds(n: nat, d: nat)
    requires d > 0
    ensures d * (n / d) <= n < d * (n / d + 1)
  {
  }

  lemma Scale(a: nat, b: nat, c: nat)
    requires b <= c
    ensures a * b <= a * c
  {
  }

  lemma ScaleLeft(a: nat, b: nat, c: nat)
    requires b <= c
    ensures b * a <= c * a
  {
  }

  /** For targets up to 2^16 the credit is right if and only if the target has not changed. */
  lemma CreditIsRightExactly(found: uint32, held: uint32)
    requires 0 < found <= 0x1_0000 && 0 < held <= 0x1_0000
    ensures Difficulty(found) == Difficulty(held) <==> found == held
  {
    if found < held {
      SmallTargetsDiffer(found, held);
    } else if held < found {
      SmallTargetsDiffer(held, found);
    }
  }

  lemma SmallTargetsDiffer(a: uint32, b: uint32)
    requires 0 < a < b <= 0x1_0000
    ensures Difficulty(a) != Difficulty(b)
  {
    var n: int, q: int := 0xFFFF_FFFF, Difficulty(a);
    CreditIsAlikeExactly(a, b);
    QuotientBounds(n, a);
    Scale(q, a + 1, b);
    assert a * (q + 1) == a * q + a && q * (a + 1) == a * q + q;
    SmallDivisor(n, a);
  }

  /** Dividing by less than 2^16 leaves a quotient of at least 2^16. */
  lemma SmallDivisor(n: nat, a: nat)
    requires n == 0xFFFF_FFFF && 0 < a < 0x1_0000
    ensures n / a >= 0x1_0000
  {
    QuotientBounds(n, a);
    if n / a < 0x1_0000 {
      Scale(a, n / a + 1, 0x1_0000);
    }
  }

  /** The share-difficulty finding, on any connection that is mining: a share is sent, another job
      comes, and then the reply to the share. It is credited at the target of the other job. */
  method LateCredit(pool: Pool, other: Members, res: MinerResult, now: int, unset: uint32)
    requires pool.Valid() && pool.net.Valid() && pool.state == HasJob && WellFormedJob(other)
    requires HasFree(pool.calls.slots[..]) && pool.calls.nextId !in pool.calls.Calls()
    modifies pool, pool.exec, pool.job, pool.job.blob, pool.job.seed, pool.job.target, pool.calls, pool.calls.slots
    modifies pool.net`wire, pool.net.active, pool.net.attached, pool.net.data
    ensures pool.Valid()
    ensures pool.exec.credited == old(pool.exec.credited) + [TargetValue(Text(other, "target"))]
  {
    var callId := SendThenReplace(pool, other, res, now, unset);
    var call := pool.TakeCall(callId, false);
  }

  method SendThenReplace(pool: Pool, other: Members, res: MinerResult, now: int, unset: uint32)
    returns (callId: uint32)
    requires pool.Valid() && pool.net.Valid() && pool.state == HasJob && WellFormedJob(other)
    requires HasFree(pool.calls.slots[..]) && pool.calls.nextId !in pool.calls.Calls()
    modifies pool, pool.exec, pool.job, pool.job.blob, pool.job.seed, pool.job.target, pool.calls, pool.calls.slots
    modifies pool.net`wire, pool.net.active, pool.net.attached, pool.net.data
    ensures pool.Valid() && pool.open
    ensures callId in pool.calls.Calls() && pool.calls.Calls()[callId].kind == Result
    ensures pool.job.Target() == TargetValue(Text(other, "target"))
    ensures pool.exec.credited == old(pool.exec.credited)
  {
    var message, r := pool.DoSendResult(res, now, unset);
    callId := message.value.callId;
    ghost var slots := pool.calls.slots[..];
    var ok := pool.ProcessPoolJob(other, now);
    assert pool.calls.slots[..] == slots;
  }
}
