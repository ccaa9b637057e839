/** Cutting container logs into WebSocket text messages: wsTextWriter.Write of
    internal/server/containers_logs.go. A text message must be valid UTF-8 by itself (section 5.6 of
    RFC 6455), so a chunk may only end where a character does. */
module LogChunks {
  import opened Bytes

  const LIMIT := 32_768

  /** utf8.RuneStart: not a continuation byte. */
  predicate RuneStart(b: Byte) {
    b < 0x80 || 0xC0 <= b
  }

  predicate Tail(b: Byte) {
    0x80 <= b <= 0xBF
  }

  /** The length of the UTF-8 character `s` starts with, by the grammar of section 4 of RFC 3629, or
      0 when it starts with none. */
  function CharLength(s: Bytes): (n: nat)
    ensures n <= |s| && n <= 4
    ensures n > 0 ==> RuneStart(s[0]) && forall i :: 1 <= i < n ==> !RuneStart(s[i])
  {
    if |s| >= 1 && s[0] <= 0x7F then 1
    else if |s| >= 2 && 0xC2 <= s[0] <= 0xDF && Tail(s[1]) then 2
    else if |s| >= 3 && s[0] == 0xE0 && 0xA0 <= s[1] <= 0xBF && Tail(s[2]) then 3
    else if |s| >= 3 && (0xE1 <= s[0] <= 0xEC || s[0] == 0xEE || s[0] == 0xEF) && Tail(s[1]) && Tail(s[2]) then 3
    else if |s| >= 3 && s[0] == 0xED && 0x80 <= s[1] <= 0x9F && Tail(s[2]) then 3
    else if |s| >= 4 && s[0] == 0xF0 && 0x90 <= s[1] <= 0xBF && Tail(s[2]) && Tail(s[3]) then 4
    else if |s| >= 4 && 0xF1 <= s[0] <= 0xF3 && Tail(s[1]) && Tail(s[2]) && Tail(s[3]) then 4
    else if |s| >= 4 && s[0] == 0xF4 && 0x80 <= s[1] <= 0x8F && Tail(s[2]) && Tail(s[3]) then 4
    else 0
  }

  predicate ValidUtf8(s: Bytes) {
    s == [] || (CharLength(s) > 0 && ValidUtf8(s[CharLength(s)..]))
  }

  /** The grammar looks at no byte past the character. */
  lemma CharLengthOfPrefix(s: Bytes, k: nat)
    requires 0 < CharLength(s) <= k <= |s|
    ensures CharLength(s[..k]) == CharLength(s)
  {
  }

  /** Valid text cut where a character starts gives two valid texts. */
  lemma {:induction false} CutAtRuneStart(s: Bytes, k: nat)
    requires ValidUtf8(s) && k <= |s|
    requires k < |s| ==> RuneStart(s[k])
    ensures ValidUtf8(s[..k]) && ValidUtf8(s[k..])
    decreases |s|
  {
    if k == |s| {
      assert s[..k] == s && s[k..] == [];
    } else if k == 0 {
      assert s[..k] == [] && s[k..] == s;
    } else {
      var n := CharLength(s);
      var later := s[n..];
      CutAtRuneStart(later, k - n);
      CharLengthOfPrefix(s, k);
      assert s[..k][n..] == later[..k - n];
      assert s[k..] == later[k - n..];
    }
  }

  /** Characters start at least every four bytes. */
  lemma {:induction false} RuneStartNearby(s: Bytes, k: nat) returns (j: nat)
    requires ValidUtf8(s) && 3 <= k < |s|
    ensures k - 3 <= j <= k && RuneStart(s[j])
    decreases |s|
  {
    var n := CharLength(s);
    if k < n {
      j := 0;
    } else if k < n + 3 {
      assert CharLength(s[n..]) > 0;
      j := n;
    } else {
      j := RuneStartNearby(s[n..], k - n);
      j := j + n;
    }
  }

  datatype WriteError = NoError | SocketError | InvalidUtf8

  predicate AllText(chunks: seq<Bytes>) {
    forall i :: 0 <= i < |chunks| ==> ValidUtf8(chunks[i])
  }

  /** None of the first `n` chunks is more than three bytes short of the limit. */
  predicate Full(chunks: seq<Bytes>, n: int) {
    forall i :: 0 <= i < n && i < |chunks| ==> LIMIT - 3 <= |chunks[i]|
  }

  /** The chunks fit the limit, and the socket took them. */
  ghost predicate Fitting(chunks: seq<Bytes>, accepts: nat -> bool) {
    forall i :: 0 <= i < |chunks| ==> 0 < |chunks[i]| <= LIMIT && accepts(i)
  }

  lemma OneMoreChunk(chunks: seq<Bytes>, c: Bytes, accepts: nat -> bool)
    requires Fitting(chunks, accepts) && 0 < |c| <= LIMIT && accepts(|chunks|)
    ensures Fitting(chunks + [c], accepts)
  {
  }

  /** Valid text still to be sent, after valid chunks of which only a last one may be short. */
  predicate WellCut(rest: Bytes, sent: seq<Bytes>) {
    ValidUtf8(rest) && AllText(sent) && Full(sent, if rest != [] then |sent| else |sent| - 1)
  }

  lemma CutOneMore(rest: Bytes, sent: seq<Bytes>, size: nat)
    requires WellCut(rest, sent) && 0 < size <= |rest|
    requires size < |rest| ==> RuneStart(rest[size]) && LIMIT - 3 <= size
    ensures WellCut(rest[size..], sent + [rest[..size]])
  {
    CutAtRuneStart(rest, size);
  }

  lemma Extend(p: Bytes, n: nat, rest: Bytes, size: nat, sent: seq<Bytes>)
    requires n <= |p| && rest == p[n..] && size <= |rest| && Concat(sent) == p[..n]
    ensures Concat(sent + [rest[..size]]) == p[..n + size] && rest[size..] == p[n + size..]
  {
    ConcatAppend(sent, rest[..size]);
    assert p[..n] + rest[..size] == p[..n + size];
  }

  /** `accepts(k)` says whether the socket takes the k-th message; `sent` are those it took. */
  method Write(connected: bool, p: Bytes, accepts: nat -> bool) returns (n: nat, err: WriteError, sent: seq<Bytes>)
    ensures !connected ==> n == |p| && err == NoError && sent == []
    ensures connected ==> n <= |p| && Concat(sent) == p[..n] && |Concat(sent)| == n
    ensures err == NoError ==> n == |p|
    ensures Fitting(sent, accepts)
    ensures err == SocketError ==> !accepts(|sent|)
    ensures ValidUtf8(p) ==> err != InvalidUtf8
    ensures ValidUtf8(p) ==> AllText(sent) && Full(sent, |sent| - 1)
    ensures err == InvalidUtf8 ==>
              n + LIMIT < |p| && forall j :: n < j <= n + LIMIT ==> !RuneStart(p[j])
  {
    sent := [];
    if p == [] || !connected {
      return |p|, NoError, [];
    }
    n := 0;
    var rest := p;
    ghost var valid := ValidUtf8(p);
    while rest != []
      invariant n <= |p| && rest == p[n..]
      invariant Concat(sent) == p[..n]
      invariant Fitting(sent, accepts)
      invariant valid ==> WellCut(rest, sent)
      decreases |rest|
    {
      var size := ChunkSize(rest);
      if size == 0 {
        return n, InvalidUtf8, sent;
      }
      if !accepts(|sent|) {
        return n, SocketError, sent;
      }
      Extend(p, n, rest, size, sent);
      OneMoreChunk(sent, rest[..size], accepts);
      if valid {
        CutOneMore(rest, sent, size);
      }
      sent := sent + [rest[..size]];
      n := n + size;
      rest := rest[size..];
    }
    assert p[..n] == p;
    return n, NoError, sent;
  }

  /** The inner loop: back from the limit to the last place a chunk may end, or to 0. */
  method ChunkSize(p: Bytes) returns (size: nat)
    requires p != []
    ensures size <= |p| && size <= LIMIT
    ensures size == 0 ==> LIMIT < |p| && forall j :: 0 < j <= LIMIT ==> !RuneStart(p[j])
    ensures 0 < size < |p| ==> RuneStart(p[size])
    ensures ValidUtf8(p) ==> size == |p| || LIMIT - 3 <= size
  {
    size := if |p| < LIMIT then |p| else LIMIT;
    if size < |p| {
      ghost var start := 0;
      if ValidUtf8(p) {
        start := RuneStartNearby(p, size);
      }
      while size > 0 && !RuneStart(p[size])
        invariant size <= LIMIT
        invariant forall j :: size < j <= LIMIT ==> !RuneStart(p[j])
        invariant ValidUtf8(p) ==> start <= size
      {
        size := size - 1;
      }
    }
  }
}
