/** The lines the pool is sent: a login, and a submission for each share found. */
module Submissions {
  import opened Words
  import opened Vector32
  import opened HexCodec
  import opened ResultQueue
  import opened SendSlots
  import opened JsonText

  /** A JSON string may hold NUL characters; strcmp, std::string and printf stop at the first. */
  function CString(s: string): (c: string)
    ensures c <= s && '\0' !in c && (c == s || s[|c|] == '\0')
  {
    if s == "" || s[0] == '\0' then "" else [s[0]] + CString(s[1..])
  }

  /** A share as it is submitted. */
  datatype Submission = Submission(minerId: string, jobId: string, nonce: string, hash: string, callId: uint32)

  function NonceBytes(nonce: uint32): (b: seq<byte>)
    ensures |b| == 4
  {
    [nonce % 0x100, nonce / 0x100 % 0x100, nonce / 0x1_0000 % 0x100, nonce / 0x100_0000]
  }

  /** The texts of a submission decode to its nonce and hash. */
  predicate Spells(m: Submission, nonce: uint32, hash: V32) {
    && |m.nonce| == 8 && AllHex(m.nonce) && LittleEndian(Decoded(m.nonce)) == nonce
    && |m.hash| == 64 && AllHex(m.hash) && Decoded(m.hash) == hash
  }

  /** A submission carries the share found, its texts as C strings. */
  predicate Describing(m: Submission, minerId: string, res: MinerResult) {
    m.minerId == minerId && m.jobId == CString(res.jobId) && Spells(m, res.nonce, res.hash)
  }

  method FormatShare(minerId: string, res: MinerResult, callId: uint32) returns (m: Submission)
    ensures m.callId == callId && Describing(m, minerId, res)
  {
    var nonceText, hashText := new char[9], new char[65];
    Bin2Hex(NonceBytes(res.nonce), nonceText);
    Bin2Hex(res.hash, hashText);
    DecodeInvertsEncode(NonceBytes(res.nonce));
    DecodeInvertsEncode(res.hash);
    NonceBytesSpell(res.nonce);
    m := Submission(minerId, CString(res.jobId), nonceText[..8], hashText[..64], callId);
  }

  lemma NonceBytesSpell(nonce: uint32)
    ensures LittleEndian(NonceBytes(nonce)) == nonce
  {
    var a, b, c, d := nonce % 0x100, nonce / 0x100 % 0x100, nonce / 0x1_0000 % 0x100, nonce / 0x100_0000;
    FourBytesSpell(a, b, c, d);
    assert nonce == a + 0x100 * (nonce / 0x100);
    assert nonce / 0x100 == b + 0x100 * (nonce / 0x1_0000);
    assert nonce / 0x1_0000 == c + 0x100 * d;
  }

  // ------------------------------------------------------------------ lines of JSON

  datatype Credentials = Credentials(username: string, password: string, rigid: string)

  /** A call with string parameters. */
  function CallValue(name: string, params: seq<(string, string)>, callId: uint32): Value {
    Obj(More("method", Str(name), More("params", Obj(Params(params)), More("id", Num(callId), End))))
  }

  /** The submit call as one line of JSON. Nothing in it is escaped. */
  function SubmitText(m: Submission): string {
    Render(CallValue("submit", SubmitParams(m), m.callId)) + "\n"
  }

  function SubmitParams(m: Submission): seq<(string, string)> {
    [("id", m.minerId), ("job_id", m.jobId), ("nonce", m.nonce), ("result", m.hash)]
  }

  function LoginText(c: Credentials, callId: uint32): string {
    Render(CallValue("login", LoginParams(c), callId)) + "\n"
  }

  function LoginParams(c: Credentials): seq<(string, string)> {
    [("login", c.username), ("pass", c.password), ("rigid", c.rigid), ("agent", "epic_miner")]
  }

  function Params(list: seq<(string, string)>): Members {
    if list == [] then End else More(list[0].0, Str(list[0].1), Params(list[1..]))
  }

  /** A line that a reader takes for the call of this name and id, with these parameters. */
  predicate ReadsAs(line: string, name: string, callId: uint32, params: map<string, string>) {
    var r := ReadValue(line);
    && r.Got? && r.rest == "\n" && r.value.Obj?
    && Find(r.value.members, "method") == Some(Str(name))
    && Find(r.value.members, "id") == Some(Num(callId))
    && var p := Find(r.value.members, "params");
       p.Some? && p.value.Obj?
       && forall key :: key in params ==> Find(p.value.members, key) == Some(Str(params[key]))
  }

  lemma {:induction false} ParamsArePlain(list: seq<(string, string)>)
    requires forall i :: 0 <= i < |list| ==> Plain(list[i].0) && Plain(list[i].1)
    ensures PlainMembers(Params(list))
  {
    if list != [] { ParamsArePlain(list[1..]); }
  }

  lemma {:induction false} FindParam(list: seq<(string, string)>, i: nat)
    requires i < |list| && forall j :: 0 <= j < i ==> list[j].0 != list[i].0
    ensures Find(Params(list), list[i].0) == Some(Str(list[i].1))
  {
    if i > 0 {
      assert list[1..][i - 1] == list[i];
      FindParam(list[1..], i - 1);
    }
  }

  /** The keys of the two calls, in order. */
  predicate HasKeys(list: seq<(string, string)>, a: string, b: string, c: string, d: string) {
    && |list| == 4 && list[0].0 == a && list[1].0 == b && list[2].0 == c && list[3].0 == d
    && a != b && a != c && a != d && b != c && b != d && c != d
    && Plain(a) && Plain(b) && Plain(c) && Plain(d)
  }

  lemma CallReads(name: string, list: seq<(string, string)>, callId: uint32, a: string, b: string, c: string, d: string)
    requires Plain(name) && HasKeys(list, a, b, c, d) && forall i :: 0 <= i < |list| ==> Plain(list[i].1)
    ensures ReadsAs(Render(CallValue(name, list, callId)) + "\n", name, callId,
                    map[a := list[0].1, b := list[1].1, c := list[2].1, d := list[3].1])
  {
    ParamsArePlain(list);
    var last := More("id", Num(callId), End);
    var middle := More("params", Obj(Params(list)), last);
    assert Plain("method") && Plain("params") && Plain("id");
    assert PlainMembers(last.rest) && PlainMembers(last) && PlainMembers(middle);
    assert Find(last, "id") == Some(Num(callId)) && Find(middle, "id") == Find(last, "id");
    ReadInvertsRender(CallValue(name, list, callId), "\n");
    FindParam(list, 0);
    FindParam(list, 1);
    FindParam(list, 2);
    FindParam(list, 3);
  }

  /** The pool reads a submission as what was submitted, if the texts it was given need no escape. */
  lemma SubmissionReads(m: Submission, nonce: uint32, hash: V32)
    requires Spells(m, nonce, hash) && Plain(m.minerId) && Plain(m.jobId)
    ensures ReadsAs(SubmitText(m), "submit", m.callId,
                    map["id" := m.minerId, "job_id" := m.jobId, "nonce" := m.nonce, "result" := m.hash])
  {
    HexIsPlain(m.nonce);
    HexIsPlain(m.hash);
    CallReads("submit", SubmitParams(m), m.callId, "id", "job_id", "nonce", "result");
  }

  lemma LoginReads(c: Credentials, callId: uint32)
    requires Plain(c.username) && Plain(c.password) && Plain(c.rigid)
    ensures ReadsAs(LoginText(c, callId), "login", callId,
                    map["login" := c.username, "pass" := c.password, "rigid" := c.rigid, "agent" := "epic_miner"])
  {
    CallReads("login", LoginParams(c), callId, "login", "pass", "rigid", "agent");
  }

  lemma HexIsPlain(s: string)
    requires AllHex(s)
    ensures Plain(s)
  {
  }

  // ------------------------------------------------------------------ lengths

  function LengthOf(list: seq<(string, string)>): nat {
    if list == [] then 0
    else |list[0].0| + |list[0].1| + 5 + LengthOf(list[1..]) + if |list| > 1 then 1 else 0
  }

  lemma {:induction false} ParamsLength(list: seq<(string, string)>)
    ensures |RenderMembers(Params(list))| == LengthOf(list)
  {
    if list != [] { ParamsLength(list[1..]); }
  }

  lemma FourParamsLength(list: seq<(string, string)>)
    requires |list| == 4
    ensures LengthOf(list)
      == |list[0].0| + |list[0].1| + |list[1].0| + |list[1].1| + |list[2].0| + |list[2].1| + |list[3].0| + |list[3].1| + 23
  {
    var c, d := list[2..], list[3..];
    assert list[1..][1..] == c && c[1..] == d && d[1..] == [];
    assert LengthOf(d) == |d[0].0| + |d[0].1| + 5;
    assert LengthOf(c) == |c[0].0| + |c[0].1| + 6 + LengthOf(d);
  }

  lemma CallLength(name: string, list: seq<(string, string)>, callId: uint32)
    ensures |Render(CallValue(name, list, callId))| == 31 + |name| + LengthOf(list) + |Decimal(callId)|
  {
    ParamsLength(list);
    var last := More("id", Num(callId), End);
    var middle := More("params", Obj(Params(list)), last);
    assert |RenderMembers(last)| == 5 + |Decimal(callId)|;
    assert |RenderMembers(middle)| == 17 + LengthOf(list) + |Decimal(callId)|;
    assert |RenderMembers(More("method", Str(name), middle))| == 12 + |name| + |RenderMembers(middle)|;
  }

  /** How long a submission is, and so how long the miner id of the login reply may be for shares to
      fit a slot. */
  lemma SubmissionFitsExactly(m: Submission, nonce: uint32, hash: V32)
    requires Spells(m, nonce, hash)
    ensures Fate(SubmitText(m), SEND_SIZE, false) == Whole
            <==> |m.minerId| + |m.jobId| + |Decimal(m.callId)| < 2048 - 152
  {
    FourParamsLength(SubmitParams(m));
    CallLength("submit", SubmitParams(m), m.callId);
  }
}
