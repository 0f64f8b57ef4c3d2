/** The tokeniser of canonical OpenSSL error lines, working in place on a C string. */
module TlsErrors {

  const TOKENS: nat := 9

  datatype Token = Token(ptr: nat, len: nat)

  function Colons(s: string): nat {
    if s == [] then 0 else Colons(s[..|s| - 1]) + if s[|s| - 1] == ':' then 1 else 0
  }

  /** The C string in a buffer, whose terminator is at n. */
  predicate IsString(input: seq<char>, n: nat) {
    n < |input| && input[n] == '\0' && '\0' !in input[..n]
  }

  /** strchr: the first ':' of the string from `from` on. */
  method StrChr(input: array<char>, from: nat, ghost n: nat) returns (pos: int)
    requires from <= n < input.Length && input[n] == '\0' && '\0' !in input[from..n]
    ensures pos == -1 ==> ':' !in input[from..n]
    ensures pos != -1 ==> from <= pos < n && input[pos] == ':' && ':' !in input[from..pos]
  {
    var p := from;
    while input[p] != ':'
      invariant from <= p <= n && ':' !in input[from..p]
      decreases n - p
    {
      if input[p] == '\0' {
        return -1;
      }
      p := p + 1;
    }
    pos := p;
  }

  /** strcspn(ptr, "\n"). */
  method StrCspn(input: array<char>, from: nat, ghost n: nat) returns (len: nat)
    requires from <= n < input.Length && input[n] == '\0' && '\0' !in input[from..n]
    ensures from + len <= n && '\n' !in input[from..from + len]
    ensures from + len < n ==> input[from + len] == '\n'
  {
    len := 0;
    while input[from + len] != '\0' && input[from + len] != '\n'
      invariant from + len <= n && '\n' !in input[from..from + len]
      decreases n - len
    {
      len := len + 1;
    }
  }

  lemma {:induction false} ColonsAppend(a: string, b: string)
    ensures Colons(a + b) == Colons(a) + Colons(b)
  {
    if b == [] {
      assert a + b == a;
    } else {
      assert (a + b)[..|a + b| - 1] == a + b[..|b| - 1];
      ColonsAppend(a, b[..|b| - 1]);
    }
  }

  lemma {:induction false} NoColons(s: string)
    requires ':' !in s
    ensures Colons(s) == 0
  {
    if s != [] { NoColons(s[..|s| - 1]); }
  }

  /** The text a token stands for in a line. */
  function Text(s: string, t: Token): string
    requires t.ptr + t.len <= |s|
  {
    s[t.ptr..t.ptr + t.len]
  }

  /** The tokens end to end, from the start of the line to ptr: each without a colon and followed by
      one, which the buffer now holds a terminator for. */
  ghost predicate Cut(s: string, now: seq<char>, tokens: seq<Token>, ptr: nat)
    requires |now| > |s|
    decreases |tokens|
  {
    if tokens == [] then ptr == 0
    else
      var t := tokens[|tokens| - 1];
      && t.ptr + t.len + 1 == ptr <= |s|
      && s[t.ptr + t.len] == ':' && ':' !in Text(s, t)
      && now[t.ptr + t.len] == '\0' && now[t.ptr..t.ptr + t.len] == Text(s, t)
      && Cut(s, now, tokens[..|tokens| - 1], t.ptr)
  }

  /** The texts of the tokens, each followed by a colon. */
  ghost function Rejoined(s: string, tokens: seq<Token>): string
    requires forall t :: t in tokens ==> t.ptr + t.len <= |s|
  {
    if tokens == [] then []
    else
      assert tokens[|tokens| - 1] in tokens;
      Rejoined(s, tokens[..|tokens| - 1]) + Text(s, tokens[|tokens| - 1]) + ":"
  }

  lemma {:induction false} CutIsLocal(s: string, now: seq<char>, next: seq<char>, tokens: seq<Token>, ptr: nat)
    requires |now| == |next| > |s| >= ptr && now[..ptr] == next[..ptr]
    requires Cut(s, now, tokens, ptr)
    ensures Cut(s, next, tokens, ptr)
    decreases |tokens|
  {
    if tokens != [] {
      var t := tokens[|tokens| - 1];
      assert now[..t.ptr] == now[..ptr][..t.ptr] == next[..ptr][..t.ptr] == next[..t.ptr];
      assert now[t.ptr..t.ptr + t.len] == now[..ptr][t.ptr..t.ptr + t.len];
      assert next[t.ptr..t.ptr + t.len] == next[..ptr][t.ptr..t.ptr + t.len];
      assert now[..ptr][t.ptr + t.len] == next[..ptr][t.ptr + t.len];
      CutIsLocal(s, now, next, tokens[..|tokens| - 1], t.ptr);
    }
  }

  /** Cut tokens hold no colon, and there are as many as colons before ptr. */
  lemma {:induction false} CutCounts(s: string, now: seq<char>, tokens: seq<Token>, ptr: nat)
    requires |now| > |s| >= ptr && Cut(s, now, tokens, ptr)
    ensures Colons(s[..ptr]) == |tokens|
    ensures forall t :: t in tokens ==> t.ptr + t.len < |s| && ':' !in Text(s, t)
    decreases |tokens|
  {
    if tokens != [] {
      var t, front := tokens[|tokens| - 1], tokens[..|tokens| - 1];
      CutCounts(s, now, front, t.ptr);
      assert forall u :: u in tokens ==> u in front || u == t;
      ClosedText(s, t);
      CountNext(s[..t.ptr], Text(s, t));
    }
  }

  lemma ClosedText(s: string, t: Token)
    requires t.ptr + t.len < |s| && s[t.ptr + t.len] == ':'
    ensures s[..t.ptr + t.len + 1] == s[..t.ptr] + Text(s, t) + ":"
  {
  }

  /** Rejoined, the tokens are the line up to ptr. */
  lemma {:induction false} CutRejoins(s: string, now: seq<char>, tokens: seq<Token>, ptr: nat)
    requires |now| > |s| >= ptr && Cut(s, now, tokens, ptr)
    requires forall t :: t in tokens ==> t.ptr + t.len <= |s|
    ensures Rejoined(s, tokens) == s[..ptr]
    decreases |tokens|
  {
    if tokens != [] {
      var t := tokens[|tokens| - 1];
      CutRejoins(s, now, tokens[..|tokens| - 1], t.ptr);
      ClosedText(s, t);
    }
  }

  lemma CountNext(before: string, text: string)
    requires ':' !in text
    ensures Colons(before + text + ":") == Colons(before) + 1
  {
    ColonsAppend(before + text, ":");
    ColonsAppend(before, text);
    NoColons(text);
    assert ":"[..0] == [] && Colons(":") == 1;
  }

  lemma ColonsSplit(s: string, k: nat)
    requires k <= |s|
    ensures Colons(s) == Colons(s[..k]) + Colons(s[k..])
  {
    assert s == s[..k] + s[k..];
    ColonsAppend(s[..k], s[k..]);
  }

  /** Tokens cut so far, and the line untouched from ptr on. */
  ghost predicate Progress(s: string, now: seq<char>, tokens: seq<Token>, ptr: nat) {
    && |now| > |s| >= ptr && now[|s|] == '\0' && now[ptr..|s|] == s[ptr..]
    && Cut(s, now, tokens, ptr)
  }

  lemma CutNext(s: string, now: seq<char>, tokens: seq<Token>, ptr: nat, colon: nat)
    requires Progress(s, now, tokens, ptr)
    requires ptr <= colon < |s| && s[colon] == ':' && ':' !in s[ptr..colon]
    ensures Progress(s, now[colon := '\0'], tokens + [Token(ptr, colon - ptr)], colon + 1)
  {
    var next, t := now[colon := '\0'], Token(ptr, colon - ptr);
    assert now[ptr..|s|][..colon - ptr] == s[ptr..][..colon - ptr] == s[ptr..colon];
    assert next[ptr..colon] == s[ptr..colon];
    assert next[colon + 1..|s|] == now[ptr..|s|][colon + 1 - ptr..] == s[colon + 1..];
    assert now[..ptr] == next[..ptr];
    CutIsLocal(s, now, next, tokens, ptr);
    assert (tokens + [t])[..|tokens|] == tokens;
  }

  /** One search and cut: ptr moves past the next colon, or there is none. */
  method CutToken(input: array<char>, ptr: nat, ghost s: string, ghost tokens: seq<Token>)
    returns (colon: int, ghost now: seq<char>)
    requires Progress(s, input[..], tokens, ptr) && '\0' !in s
    modifies input
    ensures now == input[..]
    ensures colon == -1 ==> Colons(s) == |tokens|
    ensures colon != -1 ==>
      ptr <= colon < |s| && Progress(s, now, tokens + [Token(ptr, colon - ptr)], colon + 1)
  {
    now := input[..];
    assert input[ptr..|s|] == now[ptr..|s|] == s[ptr..];
    colon := StrChr(input, ptr, |s|);
    if colon == -1 {
      CutCounts(s, now, tokens, ptr);
      ColonsSplit(s, ptr);
      NoColons(s[ptr..]);
    } else {
      assert input[ptr..colon] == now[ptr..|s|][..colon - ptr] == s[ptr..colon];
      assert s[colon] == now[ptr..|s|][colon - ptr];
      CutNext(s, now, tokens, ptr, colon);
      now := now[colon := '\0'];
      input[colon] := '\0';
      assert input[..] == now;
    }
  }

  /** The first eight tokens, cut in place; ptr is where the ninth starts. */
  method CutTokens(input: array<char>, out: array<Token>, ghost s: string)
    returns (ok: bool, ptr: nat, ghost tokens: seq<Token>)
    requires input.Length > |s| && input[|s|] == '\0' && input[..|s|] == s && '\0' !in s && out.Length == TOKENS
    modifies input, out
    ensures ok <==> Colons(s) >= 8
    ensures ok ==> |tokens| == 8 && out[..8] == tokens && Progress(s, input[..], tokens, ptr)
  {
    ghost var now := input[..];
    tokens, ptr := [], 0;
    out[0] := Token(0, 0);
    var i := 1;
    while i < TOKENS
      invariant 1 <= i <= TOKENS && |tokens| == i - 1 && out[..i - 1] == tokens && out[i - 1].ptr == ptr
      invariant input[..] == now && Progress(s, now, tokens, ptr)
    {
      var colon;
      colon, now := CutToken(input, ptr, s, tokens);
      if colon == -1 {
        return false, ptr, tokens;
      }
      out[i - 1] := Token(ptr, colon - ptr);
      tokens := tokens + [Token(ptr, colon - ptr)];
      assert out[..i] == tokens;
      ptr := colon + 1;
      out[i] := Token(ptr, 0);
      i := i + 1;
    }
    EnoughColons(s, now, tokens, ptr);
    ok := true;
  }

  /** parse_canonical_ssl_error. It succeeds exactly when the line has at least eight colons. Then
      the first eight tokens hold no colon and are terminated in place, and the nine tokens rejoined
      with colons are the line up to the first newline after the eighth colon. */
  method ParseCanonicalSslError(input: array<char>, out: array<Token>, ghost n: nat)
    returns (ok: bool, ghost tokens: seq<Token>)
    requires IsString(input[..], n) && out.Length == TOKENS
    modifies input, out
    ensures ok <==> Colons(old(input[..n])) >= 8
    ensures ok ==> |tokens| == 8 && out[..8] == tokens
    ensures ok ==>
      var s, last := old(input[..n]), out[8];
      && Progress(s, input[..], tokens, last.ptr) && IsLast(s, last)
      && (forall t :: t in tokens ==> t.ptr + t.len < n && ':' !in Text(s, t))
      && Rejoined(s, tokens) + Text(s, last) == s[..last.ptr + last.len]
  {
    ghost var s := input[..n];
    var ptr;
    ok, ptr, tokens := CutTokens(input, out, s);
    if !ok {
      return;
    }
    ghost var now := input[..];
    assert input[ptr..n] == now[ptr..n] == s[ptr..];
    var len := StrCspn(input, ptr, n);
    out[TOKENS - 1] := Token(ptr, len);
    assert out[..8] == tokens && input[..] == now;
    LastTokenEnds(s, Token(ptr, len));
    AllRejoins(s, now, tokens, Token(ptr, len));
  }

  /** The ninth token ends at the first newline after it starts, or with the line. */
  predicate IsLast(s: string, last: Token) {
    && last.ptr + last.len <= |s| && '\n' !in Text(s, last)
    && (last.ptr + last.len < |s| ==> s[last.ptr + last.len] == '\n')
  }

  lemma LastTokenEnds(s: string, last: Token)
    requires last.ptr + last.len <= |s| && '\n' !in s[last.ptr..][..last.len]
    requires last.ptr + last.len < |s| ==> s[last.ptr..][last.len] == '\n'
    ensures IsLast(s, last)
  {
    assert Text(s, last) == s[last.ptr..][..last.len];
  }

  lemma EnoughColons(s: string, now: seq<char>, tokens: seq<Token>, ptr: nat)
    requires |now| > |s| >= ptr && Cut(s, now, tokens, ptr)
    ensures Colons(s) >= |tokens|
  {
    CutCounts(s, now, tokens, ptr);
    ColonsSplit(s, ptr);
  }

  lemma AllRejoins(s: string, now: seq<char>, tokens: seq<Token>, last: Token)
    requires |now| > |s| && last.ptr + last.len <= |s| && Cut(s, now, tokens, last.ptr)
    ensures forall t :: t in tokens ==> t.ptr + t.len < |s| && ':' !in Text(s, t)
    ensures Rejoined(s, tokens) + Text(s, last) == s[..last.ptr + last.len]
  {
    CutCounts(s, now, tokens, last.ptr);
    CutRejoins(s, now, tokens, last.ptr);
    Slices(s, last.ptr, last.ptr + last.len);
  }

  lemma Slices(s: string, i: nat, j: nat)
    requires i <= j <= |s|
    ensures s[..j] == s[..i] + s[i..j]
  {
  }
}
