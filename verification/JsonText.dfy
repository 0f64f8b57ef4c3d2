/** The JSON lines the pool is sent: how they are written, and what a reader makes of them. Strings
    are written as they are, without escapes. */
module JsonText {
  import opened Words

  datatype Value = Str(s: string) | Num(n: nat) | Obj(members: Members)

  datatype Members = End | More(key: string, value: Value, rest: Members)

  // ------------------------------------------------------------------ writing

  function Decimal(n: nat): (d: string)
    ensures d != ""
  {
    (if n < 10 then "" else Decimal(n / 10)) + [Digit(n % 10)]
  }

  function Digit(n: nat): char
    requires n < 10
  {
    "0123456789"[n]
  }

  function Quoted(s: string): string { "\"" + s + "\"" }

  function Render(v: Value): string {
    match v
    case Str(s) => Quoted(s)
    case Num(n) => Decimal(n)
    case Obj(members) => "{" + RenderMembers(members) + "}"
  }

  function RenderMembers(m: Members): string {
    match m
    case End => ""
    case More(key, value, rest) =>
      Quoted(key) + ":" + Render(value) + (if rest.End? then "" else "," + RenderMembers(rest))
  }

  // ------------------------------------------------------------------ reading

  datatype Reading<T> = Got(value: T, rest: string) | Bad

  predicate IsDigit(c: char) { '0' <= c <= '9' }

  function DigitValue(c: char): nat
    requires IsDigit(c)
  {
    c as int - '0' as int
  }

  /** The number that decimal digits spell. */
  function Spelled(d: string): nat
    requires forall i :: 0 <= i < |d| ==> IsDigit(d[i])
  {
    if d == "" then 0 else 10 * Spelled(d[..|d| - 1]) + DigitValue(d[|d| - 1])
  }

  function LeadingDigits(s: string): (k: nat)
    ensures k <= |s| && (forall i :: 0 <= i < k ==> IsDigit(s[i])) && (k < |s| ==> !IsDigit(s[k]))
  {
    if s == "" || !IsDigit(s[0]) then 0 else 1 + LeadingDigits(s[1..])
  }

  /** What follows an opening quote, up to the next one. A backslash would begin an escape. */
  function ReadString(s: string): (r: Reading<string>)
    ensures r.Got? ==> |r.rest| < |s|
  {
    if s == "" || s[0] == '\\' then Bad
    else if s[0] == '"' then Got("", s[1..])
    else
      match ReadString(s[1..])
      case Got(text, rest) => Got([s[0]] + text, rest)
      case Bad => Bad
  }

  function ReadValue(s: string): (r: Reading<Value>)
    ensures r.Got? ==> |r.rest| < |s|
    decreases |s|
  {
    if s == "" then Bad
    else if s[0] == '"' then
      match ReadString(s[1..])
      case Got(text, rest) => Got(Str(text), rest)
      case Bad => Bad
    else if s[0] == '{' then
      if |s| > 1 && s[1] == '}' then Got(Obj(End), s[2..])
      else
        match ReadMembers(s[1..])
        case Got(members, rest) => Got(Obj(members), rest)
        case Bad => Bad
    else
      var k := LeadingDigits(s);
      if k == 0 then Bad else Got(Num(Spelled(s[..k])), s[k..])
  }

  /** Members up to and with the closing brace. */
  function ReadMembers(s: string): (r: Reading<Members>)
    ensures r.Got? ==> |r.rest| < |s|
    decreases |s|
  {
    if s == "" || s[0] != '"' then Bad
    else
      var key := ReadString(s[1..]);
      if key.Bad? || key.rest == "" || key.rest[0] != ':' then Bad
      else
        var value := ReadValue(key.rest[1..]);
        if value.Bad? || value.rest == "" then Bad
        else if value.rest[0] == '}' then Got(More(key.value, value.value, End), value.rest[1..])
        else if value.rest[0] != ',' then Bad
        else
          match ReadMembers(value.rest[1..])
          case Got(members, rest) => Got(More(key.value, value.value, members), rest)
          case Bad => Bad
  }

  // ------------------------------------------------------------------ round trip

  /** A text that needs no escape. */
  predicate Plain(s: string) { '"' !in s && '\\' !in s }

  predicate PlainValue(v: Value) {
    match v
    case Str(s) => Plain(s)
    case Num(_) => true
    case Obj(members) => PlainMembers(members)
  }

  predicate PlainMembers(m: Members) {
    m.More? ==> Plain(m.key) && PlainValue(m.value) && PlainMembers(m.rest)
  }

  lemma {:induction false} StringReads(s: string, rest: string)
    requires Plain(s)
    ensures ReadString(s + "\"" + rest) == Got(s, rest)
  {
    var all := s + "\"" + rest;
    if s == "" {
      assert all[0] == '"' && all[1..] == rest;
    } else {
      assert all[0] == s[0] && s[0] in s && all[1..] == s[1..] + "\"" + rest;
      StringReads(s[1..], rest);
      assert [s[0]] + s[1..] == s;
    }
  }

  lemma QuotedReads(s: string, rest: string)
    requires Plain(s)
    ensures var all := Quoted(s) + rest;
      all != "" && all[0] == '"' && ReadString(all[1..]) == Got(s, rest)
  {
    assert (Quoted(s) + rest)[1..] == s + "\"" + rest;
    StringReads(s, rest);
  }

  lemma {:induction false} DecimalSpells(n: nat)
    ensures var d := Decimal(n);
      (forall i :: 0 <= i < |d| ==> IsDigit(d[i])) && Spelled(d) == n
  {
    DigitIsUsual(n % 10);
    var front := if n < 10 then "" else Decimal(n / 10);
    if n >= 10 { DecimalSpells(n / 10); }
    SpelledMore(front, Digit(n % 10));
  }

  lemma DigitIsUsual(k: nat)
    requires k < 10
    ensures IsDigit(Digit(k)) && DigitValue(Digit(k)) == k
  {
  }

  lemma SpelledMore(front: string, c: char)
    requires (forall i :: 0 <= i < |front| ==> IsDigit(front[i])) && IsDigit(c)
    ensures forall i :: 0 <= i < |front + [c]| ==> IsDigit((front + [c])[i])
    ensures Spelled(front + [c]) == 10 * Spelled(front) + DigitValue(c)
  {
    var d := front + [c];
    assert d[..|d| - 1] == front;
  }

  lemma {:induction false} DigitsEnd(d: string, rest: string)
    requires (forall i :: 0 <= i < |d| ==> IsDigit(d[i])) && (rest == "" || !IsDigit(rest[0]))
    ensures LeadingDigits(d + rest) == |d|
  {
    if d == "" {
      assert d + rest == rest;
    } else {
      assert (d + rest)[1..] == d[1..] + rest;
      DigitsEnd(d[1..], rest);
    }
  }

  lemma NumberReads(n: nat, rest: string)
    requires rest == "" || !IsDigit(rest[0])
    ensures ReadValue(Decimal(n) + rest) == Got(Num(n), rest)
  {
    DecimalSpells(n);
    DigitsEnd(Decimal(n), rest);
    var all := Decimal(n) + rest;
    assert IsDigit(all[0]) && all[..|Decimal(n)|] == Decimal(n) && all[|Decimal(n)|..] == rest;
  }

  /** What has been written is read back, whatever follows it but a digit. */
  lemma {:induction false} ReadInvertsRender(v: Value, rest: string)
    requires PlainValue(v) && (rest == "" || !IsDigit(rest[0]))
    ensures ReadValue(Render(v) + rest) == Got(v, rest)
  {
    match v {
      case Str(s) => QuotedReads(s, rest);
      case Num(n) => NumberReads(n, rest);
      case Obj(members) =>
        var all := Render(v) + rest;
        assert all[1..] == RenderMembers(members) + ("}" + rest) && all[0] == '{';
        if members.End? {
          assert all[1] == '}' && all[2..] == rest;
        } else {
          MembersStart(members, "}" + rest);
          MembersRead(members, rest);
        }
    }
  }

  lemma MembersStart(m: Members, rest: string)
    requires m.More?
    ensures var all := RenderMembers(m) + rest;
      |all| > 0 && all[0] == '"'
  {
  }

  /** What comes after the value of the first member. */
  function AfterFirst(m: Members, rest: string): (s: string)
    requires m.More?
    ensures s != "" && !IsDigit(s[0])
  {
    if m.rest.End? then "}" + rest else "," + (RenderMembers(m.rest) + ("}" + rest))
  }

  lemma FirstMember(m: Members, rest: string)
    requires m.More?
    ensures RenderMembers(m) + ("}" + rest)
      == Quoted(m.key) + (":" + (Render(m.value) + AfterFirst(m, rest)))
  {
    var more := if m.rest.End? then "" else "," + RenderMembers(m.rest);
    Regroup(Quoted(m.key), ":", Render(m.value), more, "}" + rest);
    if m.rest.More? {
      Associate(",", RenderMembers(m.rest), "}" + rest);
    }
  }

  lemma Regroup(a: string, b: string, c: string, d: string, e: string)
    ensures a + b + c + d + e == a + (b + (c + (d + e)))
  {
    Associate(a + b + c, d, e);
    Associate(a + b, c, d + e);
    Associate(a, b, c + (d + e));
  }

  lemma Associate(a: string, b: string, c: string)
    ensures a + b + c == a + (b + c)
  {
  }

  lemma {:induction false} MembersRead(m: Members, rest: string)
    requires m.More? && PlainMembers(m)
    ensures ReadMembers(RenderMembers(m) + ("}" + rest)) == Got(m, rest)
    decreases m
  {
    var after := AfterFirst(m, rest);
    var value := ":" + (Render(m.value) + after);
    FirstMember(m, rest);
    QuotedReads(m.key, value);
    assert value[1..] == Render(m.value) + after;
    ReadInvertsRender(m.value, after);
    if m.rest.End? {
      assert after[1..] == rest;
    } else {
      assert after[1..] == RenderMembers(m.rest) + ("}" + rest);
      MembersRead(m.rest, rest);
    }
    FirstThenRest(Quoted(m.key) + value, m, after, rest);
  }

  /** ReadMembers, put together from what it reads. */
  lemma FirstThenRest(s: string, m: Members, after: string, rest: string)
    requires s != "" && s[0] == '"' && m.More? && after != ""
    requires var key := ReadString(s[1..]);
      && key.Got? && key.value == m.key && key.rest != "" && key.rest[0] == ':'
      && ReadValue(key.rest[1..]) == Got(m.value, after)
    requires if m.rest.End? then after[0] == '}' && after[1..] == rest
             else after[0] == ',' && ReadMembers(after[1..]) == Got(m.rest, rest)
    ensures ReadMembers(s) == Got(m, rest)
  {
  }

  /** The first member of that name. */
  function Find(m: Members, key: string): Option<Value> {
    match m
    case End => None
    case More(k, value, rest) => if k == key then Some(value) else Find(rest, key)
  }
}
