/** Sanitising `.env` files: sanitizeEnvContent of internal/server/stacks.go. */
module EnvFile {
  import opened Basics
  import opened Text

  const NUL := 0 as char

  /** strings.ReplaceAll(s, "\r\n", "\n") */
  function FoldReturns(s: string): string {
    if s == "" then ""
    else if |s| >= 2 && s[0] == '\r' && s[1] == '\n' then "\n" + FoldReturns(s[2..])
    else [s[0]] + FoldReturns(s[1..])
  }

  function Lines(content: string): seq<string> {
    Split(FoldReturns(content), '\n')
  }

  /** envKeyPattern */
  predicate ValidKey(s: string) {
    && s != ""
    && !('0' <= s[0] <= '9')
    && forall i :: 0 <= i < |s| ==> 'A' <= s[i] <= 'Z' || 'a' <= s[i] <= 'z' || '0' <= s[i] <= '9' || s[i] == '_'
  }

  datatype Verdict = Kept(text: string) | Rejected(key: Option<string>)

  predicate Ignorable(line: string) {
    TrimSpace(line) == "" || TrimSpace(line)[0] == '#'
  }

  /** What becomes of one line. */
  function Judge(line: string): Verdict {
    if Ignorable(line) then Kept(line)
    else if NUL in line then Rejected(None)
    else
      var n := IndexOf(line, '=');
      if n == |line| then Rejected(None)
      else
        var key := TrimSpace(line[..n]);
        if !ValidKey(key) then Rejected(Some(key)) else Kept(key + "=" + line[n + 1..])
  }

  /** An entry of the invalid list: the line's number and, if it has one, its key. */
  datatype Invalid = Invalid(line: nat, key: Option<string>)

  function KeptPart(v: Verdict): seq<string> {
    if v.Kept? then [v.text] else []
  }

  function InvalidPart(v: Verdict, line: nat): seq<Invalid> {
    if v.Rejected? then [Invalid(line, v.key)] else []
  }

  /** The kept and the rejected among some verdicts, in order; the first line has number 1. */
  function KeptIn(vs: seq<Verdict>): seq<string> {
    if vs == [] then [] else KeptIn(vs[..|vs| - 1]) + KeptPart(vs[|vs| - 1])
  }

  function RejectedIn(vs: seq<Verdict>): seq<Invalid> {
    if vs == [] then [] else RejectedIn(vs[..|vs| - 1]) + InvalidPart(vs[|vs| - 1], |vs|)
  }

  function Judged(lines: seq<string>): (vs: seq<Verdict>)
    ensures |vs| == |lines| && forall i :: 0 <= i < |vs| ==> vs[i] == Judge(lines[i])
  {
    seq(|lines|, i requires 0 <= i < |lines| => Judge(lines[i]))
  }

  function KeptOf(lines: seq<string>): seq<string> {
    KeptIn(Judged(lines))
  }

  function InvalidOf(lines: seq<string>): seq<Invalid> {
    RejectedIn(Judged(lines))
  }

  function Cleaned(content: string): string {
    Join(KeptOf(Lines(content)), '\n')
  }

  lemma {:induction false} KeptAndRejectedCount(vs: seq<Verdict>)
    ensures |KeptIn(vs)| + |RejectedIn(vs)| == |vs|
  {
    if vs != [] {
      KeptAndRejectedCount(vs[..|vs| - 1]);
    }
  }

  lemma NextVerdict(vs: seq<Verdict>, i: nat)
    requires i < |vs|
    ensures KeptIn(vs[..i + 1]) == KeptIn(vs[..i]) + KeptPart(vs[i])
    ensures RejectedIn(vs[..i + 1]) == RejectedIn(vs[..i]) + InvalidPart(vs[i], i + 1)
  {
    assert vs[..i + 1][..i] == vs[..i];
  }

  /** What is listed stays listed, in its place. */
  lemma {:induction false} ListsOnlyGrow(vs: seq<Verdict>, i: nat)
    requires i <= |vs|
    ensures KeptIn(vs[..i]) <= KeptIn(vs) && RejectedIn(vs[..i]) <= RejectedIn(vs)
  {
    if i == |vs| {
      assert vs[..i] == vs;
    } else {
      var before := vs[..|vs| - 1];
      assert before[..i] == vs[..i];
      ListsOnlyGrow(before, i);
    }
  }

  /** One turn of the loop. */
  method JudgeLine(raw: string) returns (v: Verdict)
    ensures v == Judge(raw)
  {
    var trimmed := TrimSpace(raw);
    if trimmed == "" || trimmed[0] == '#' {
      return Kept(raw);
    }
    if NUL in raw {
      return Rejected(None);
    }
    var n := IndexOf(raw, '=');
    if n == |raw| {
      return Rejected(None);
    }
    var key := TrimSpace(raw[..n]);
    if !ValidKey(key) {
      return Rejected(Some(key));
    }
    return Kept(key + "=" + raw[n + 1..]);
  }

  method SanitizeEnv(content: string) returns (text: string, invalid: seq<Invalid>)
    ensures text == Cleaned(content)
    ensures invalid == InvalidOf(Lines(content))
  {
    var lines := Lines(content);
    var cleaned: seq<string> := [];
    invalid := [];
    ghost var vs := Judged(lines);
    for idx := 0 to |lines|
      invariant cleaned == KeptIn(vs[..idx]) && invalid == RejectedIn(vs[..idx])
    {
      NextVerdict(vs, idx);
      var v := JudgeLine(lines[idx]);
      match v {
        case Kept(line) => cleaned := cleaned + [line];
        case Rejected(key) => invalid := invalid + [Invalid(idx + 1, key)];
      }
    }
    assert vs[..|lines|] == vs;
    text := Join(cleaned, '\n');
  }

  /** Kept and rejected lines are together all lines, each in order: line `i` is next in one of the
      two lists after those before it. */
  lemma EveryLineIsAccountedFor(content: string, i: nat)
    requires i < |Lines(content)|
    ensures var lines := Lines(content);
            var k, r := |KeptIn(Judged(lines)[..i])|, |RejectedIn(Judged(lines)[..i])|;
            && k + r == i
            && |KeptOf(lines)| + |InvalidOf(lines)| == |lines|
            && match Judge(lines[i])
               case Kept(text) => k < |KeptOf(lines)| && KeptOf(lines)[k] == text
               case Rejected(key) => r < |InvalidOf(lines)| && InvalidOf(lines)[r] == Invalid(i + 1, key)
  {
    VerdictIsListed(Judged(Lines(content)), i);
  }

  lemma VerdictIsListed(vs: seq<Verdict>, i: nat)
    requires i < |vs|
    ensures var k, r := |KeptIn(vs[..i])|, |RejectedIn(vs[..i])|;
            && k + r == i
            && |KeptIn(vs)| + |RejectedIn(vs)| == |vs|
            && match vs[i]
               case Kept(text) => k < |KeptIn(vs)| && KeptIn(vs)[k] == text
               case Rejected(key) => r < |RejectedIn(vs)| && RejectedIn(vs)[r] == Invalid(i + 1, key)
  {
    KeptAndRejectedCount(vs[..i]);
    KeptAndRejectedCount(vs);
    NextVerdict(vs, i);
    ListsOnlyGrow(vs, i + 1);
    assert vs[i].Kept? ==> KeptIn(vs[..i + 1])[|KeptIn(vs[..i])|] == vs[i].text;
    assert vs[i].Rejected? ==> RejectedIn(vs[..i + 1])[|RejectedIn(vs[..i])|] == Invalid(i + 1, vs[i].key);
  }

  // ---- Which lines are kept ---------------------------------------------------------------

  /** A line is kept as it is if it is blank or a comment. Otherwise it is an entry `key = value`, with
      any blanks around the key, which are dropped; everything after the first equals sign is kept. */
  lemma {:induction false} EntryIsKept(before: string, key: string, after: string, value: string)
    requires AllBlank(before) && AllBlank(after) && ValidKey(key) && NUL !in before + after + value
    ensures Judge(before + key + after + "=" + value) == Kept(key + "=" + value)
  {
    var left := before + key + after;
    KeyIsTight(key);
    TrimPadded(before, key, after);
    NoEquals(before, key, after);
    FirstAfterBlanks(before, key, after + "=" + value);
    SameLine(before, key, after, value);
    JudgeEntry(left, value, key);
  }

  lemma {:induction false} SameLine(before: string, key: string, after: string, value: string)
    ensures before + key + after + "=" + value == before + key + (after + "=" + value)
  {
  }

  lemma {:induction false} JudgeEntry(left: string, value: string, key: string)
    requires '=' !in left && NUL !in left && NUL !in value && TrimSpace(left) == key && ValidKey(key)
    requires !Ignorable(left + "=" + value)
    ensures Judge(left + "=" + value) == Kept(key + "=" + value)
  {
    var line := left + "=" + value;
    assert line[..|left|] == left && line[|left|] == '=' && line[|left| + 1..] == value;
    IndexOfIs(line, '=', |left|);
  }

  lemma {:induction false} KeyIsTight(key: string)
    requires ValidKey(key)
    ensures !IsSpace(key[0]) && !IsSpace(key[|key| - 1]) && key[0] != '#' && '=' !in key && NUL !in key
  {
  }

  lemma {:induction false} NoEquals(before: string, key: string, after: string)
    requires AllBlank(before) && AllBlank(after) && '=' !in key
    ensures '=' !in before + key + after
  {
    assert !IsSpace('=');
  }

  /** What follows blanks decides whether a line is blank or a comment. */
  lemma {:induction false} FirstAfterBlanks(before: string, key: string, rest: string)
    requires AllBlank(before) && ValidKey(key)
    ensures !Ignorable(before + key + rest)
  {
    var s := before + key + rest;
    KeyIsTight(key);
    assert s == before + (key + rest) && (key + rest)[0] == key[0];
    TrimLeftPadded(before, key + rest);
    TrimRightKeepsStart(key + rest);
  }

  /** The other lines are rejected: with a NUL, without an equals sign, or with a key that is none. */
  lemma {:induction false} WhatIsRejected(line: string)
    requires !Ignorable(line)
    ensures NUL in line || '=' !in line ==> Judge(line) == Rejected(None)
    ensures NUL !in line && '=' in line ==>
              var key := TrimSpace(line[..IndexOf(line, '=')]);
              Judge(line) == if ValidKey(key) then Kept(key + line[IndexOf(line, '=')..]) else Rejected(Some(key))
  {
    var n := IndexOf(line, '=');
    if '=' !in line {
      NoSeparator(line, '=');
    } else if n < |line| {
      assert line[n..] == "=" + line[n + 1..];
      var key := TrimSpace(line[..n]);
      assert key + line[n..] == key + "=" + line[n + 1..];
    }
  }

  /** Blank lines and comments are kept as they are. */
  lemma {:induction false} BlanksAndCommentsAreKept(before: string, text: string)
    requires AllBlank(before)
    ensures Judge(before) == Kept(before) && Judge(before + "#" + text) == Kept(before + "#" + text)
  {
    TrimBlank(before);
    var s := before + "#" + text;
    assert s == before + ("#" + text) && ("#" + text)[0] == '#';
    TrimLeftPadded(before, "#" + text);
    TrimRightKeepsStart("#" + text);
  }

  // ---- Sanitising again --------------------------------------------------------------

  predicate IsEntry(t: string) {
    var n := IndexOf(t, '=');
    n < |t| && ValidKey(t[..n]) && NUL !in t
  }

  lemma {:induction false} TrimLeftIsSuffix(s: string)
    ensures TrimLeft(s) == s[|s| - |TrimLeft(s)|..]
  {
    if s != "" && IsSpace(s[0]) {
      TrimLeftIsSuffix(s[1..]);
    }
  }

  lemma TrimTakesNothingNew(s: string, c: char)
    requires c in TrimSpace(s)
    ensures c in s
  {
    TrimLeftIsSuffix(s);
    assert TrimSpace(s) <= TrimLeft(s);
  }

  lemma {:induction false} TrimRightKeepsStart(s: string)
    requires s != "" && !IsSpace(s[0])
    ensures TrimRight(s) != "" && TrimRight(s)[0] == s[0]
  {
    if IsSpace(s[|s| - 1]) {
      TrimRightKeepsStart(s[..|s| - 1]);
    }
  }

  /** A kept line is blank, a comment or an entry, and holds no newline. */
  lemma KeptIsTidy(line: string)
    requires Judge(line).Kept? && '\n' !in line
    ensures var t := Judge(line).text; '\n' !in t && (Ignorable(t) || IsEntry(t))
  {
    if !Ignorable(line) {
      var n := IndexOf(line, '=');
      var key := TrimSpace(line[..n]);
      var t := Judge(line).text;
      assert t == key + "=" + line[n + 1..];
      assert t[|key|] == '=' && t[..|key|] == key;
      IndexOfIs(t, '=', |key|);
      forall i | 0 <= i < |t|
        ensures t[i] in line
      {
        if i < |key| {
          TrimTakesNothingNew(line[..n], t[i]);
        }
      }
    }
  }

  /** Tidy lines are kept as they are. */
  lemma TidyIsKept(t: string)
    requires Ignorable(t) || IsEntry(t)
    ensures Judge(t) == Kept(t)
  {
    if !Ignorable(t) {
      var n := IndexOf(t, '=');
      assert TrimSpace(t[..n]) == t[..n];
      assert t == t[..n] + "=" + t[n + 1..];
    }
  }

  function DropReturn(t: string): string {
    if t != "" && t[|t| - 1] == '\r' then t[..|t| - 1] else t
  }

  lemma {:induction false} TrimLeftBeforeSpace(s: string, c: char)
    requires IsSpace(c)
    ensures TrimLeft(s + [c]) == if TrimLeft(s) == "" then "" else TrimLeft(s) + [c]
  {
    if s == "" {
      assert s + [c] == [c];
      assert [c][1..] == "";
    } else if IsSpace(s[0]) {
      assert (s + [c])[1..] == s[1..] + [c];
      TrimLeftBeforeSpace(s[1..], c);
    }
  }

  lemma DropReturnTrims(t: string)
    ensures TrimSpace(DropReturn(t)) == TrimSpace(t)
  {
    if DropReturn(t) != t {
      var s := DropReturn(t);
      assert t == s + "\r";
      TrimLeftBeforeSpace(s, '\r');
      if TrimLeft(s) != "" {
        assert (TrimLeft(s) + "\r")[..|TrimLeft(s)|] == TrimLeft(s);
      }
    }
  }

  lemma DropReturnIsTidy(t: string)
    requires Ignorable(t) || IsEntry(t)
    ensures Ignorable(DropReturn(t)) || IsEntry(DropReturn(t))
  {
    DropReturnTrims(t);
    if !Ignorable(t) && DropReturn(t) != t {
      var n := IndexOf(t, '=');
      var s := DropReturn(t);
      assert n < |s| && s[n] == '=' && s[..n] == t[..n];
      IndexOfIs(s, '=', n);
    }
  }

  /** What folding "\r\n" does to joined lines: each but the last loses one trailing "\r". */
  function DropReturns(parts: seq<string>): (r: seq<string>)
    ensures |r| == |parts|
    ensures forall i :: 0 <= i < |parts| ==> r[i] == if i < |parts| - 1 then DropReturn(parts[i]) else parts[i]
  {
    if |parts| <= 1 then parts else [DropReturn(parts[0])] + DropReturns(parts[1..])
  }

  lemma {:induction false} FoldPlain(a: string)
    requires '\n' !in a
    ensures FoldReturns(a) == a
  {
    if a != "" {
      FoldPlain(a[1..]);
      assert [a[0]] + a[1..] == a;
    }
  }

  lemma {:induction false} FoldOneLine(a: string, rest: string)
    requires '\n' !in a
    ensures FoldReturns(a + ("\n" + rest)) == DropReturn(a) + ("\n" + FoldReturns(rest))
  {
    var s := a + ("\n" + rest);
    if a == "" {
      assert s == "\n" + rest && s[1..] == rest;
      assert "" + ("\n" + FoldReturns(rest)) == "\n" + FoldReturns(rest);
    } else if a == "\r" {
      assert s[0] == '\r' && s[1] == '\n' && s[2..] == rest;
      assert DropReturn(a) == "";
      assert "" + ("\n" + FoldReturns(rest)) == "\n" + FoldReturns(rest);
    } else {
      var t := a[1..];
      FoldOneLine(t, rest);
      assert s[0] == a[0] && s[1..] == t + ("\n" + rest);
      assert !(s[0] == '\r' && s[1] == '\n');
      assert FoldReturns(s) == [a[0]] + FoldReturns(s[1..]);
      FirstThenRest(a);
      Regroup([a[0]], DropReturn(t), "\n" + FoldReturns(rest));
    }
  }

  lemma FirstThenRest(a: string)
    requires a != "" && a != "\r"
    ensures DropReturn(a) == [a[0]] + DropReturn(a[1..])
  {
  }

  lemma {:induction false} FoldJoined(parts: seq<string>)
    requires parts != [] && forall i :: 0 <= i < |parts| ==> '\n' !in parts[i]
    ensures FoldReturns(Join(parts, '\n')) == Join(DropReturns(parts), '\n')
  {
    if |parts| == 1 {
      FoldPlain(parts[0]);
    } else {
      var later := Join(parts[1..], '\n');
      FoldOneLine(parts[0], later);
      FoldJoined(parts[1..]);
      Regroup(parts[0], "\n", later);
      Regroup(DropReturn(parts[0]), "\n", FoldReturns(later));
      assert DropReturns(parts)[1..] == DropReturns(parts[1..]);
    }
  }

  lemma {:induction false} AllAreKept(vs: seq<Verdict>, lines: seq<string>)
    requires |vs| == |lines| && forall i :: 0 <= i < |vs| ==> vs[i] == Kept(lines[i])
    ensures KeptIn(vs) == lines && RejectedIn(vs) == []
  {
    if vs != [] {
      SplitLast(lines);
      AllAreKept(vs[..|vs| - 1], lines[..|vs| - 1]);
    }
  }

  lemma TidyLinesAreKept(lines: seq<string>)
    requires forall i :: 0 <= i < |lines| ==> Ignorable(lines[i]) || IsEntry(lines[i])
    ensures KeptOf(lines) == lines && InvalidOf(lines) == []
  {
    forall i | 0 <= i < |lines|
      ensures Judge(lines[i]) == Kept(lines[i])
    {
      TidyIsKept(lines[i]);
    }
    AllAreKept(Judged(lines), lines);
  }

  predicate TidyLine(t: string) {
    '\n' !in t && (Ignorable(t) || IsEntry(t))
  }

  ghost predicate Tidy(lines: seq<string>) {
    forall i :: 0 <= i < |lines| ==> TidyLine(lines[i])
  }

  lemma {:induction false} KeptAreTidy(vs: seq<Verdict>)
    requires forall i :: 0 <= i < |vs| && vs[i].Kept? ==> TidyLine(vs[i].text)
    ensures Tidy(KeptIn(vs))
  {
    if vs != [] {
      KeptAreTidy(vs[..|vs| - 1]);
    }
  }

  lemma KeptLinesAreTidy(lines: seq<string>)
    requires forall i :: 0 <= i < |lines| ==> '\n' !in lines[i]
    ensures Tidy(KeptOf(lines))
  {
    forall i | 0 <= i < |lines| && Judge(lines[i]).Kept?
      ensures TidyLine(Judge(lines[i]).text)
    {
      KeptIsTidy(lines[i]);
    }
    KeptAreTidy(Judged(lines));
  }

  /** The lines of a sanitised text, read back. */
  lemma LinesOfCleaned(content: string)
    ensures var kept := KeptOf(Lines(content));
            Lines(Cleaned(content)) == if kept == [] then [""] else DropReturns(kept)
    ensures Tidy(Lines(Cleaned(content))) && Tidy(KeptOf(Lines(content)))
  {
    var kept := KeptOf(Lines(content));
    KeptLinesAreTidy(Lines(content));
    if kept == [] {
      assert Lines("") == [""];
    } else {
      var dropped := DropReturns(kept);
      forall i | 0 <= i < |dropped|
        ensures TidyLine(dropped[i])
      {
        DropReturnIsTidy(kept[i]);
      }
      FoldJoined(kept);
      SplitJoined(dropped, '\n');
    }
  }

  /** Sanitising the output of any text again rejects nothing. */
  lemma SanitisedIsValid(content: string)
    ensures InvalidOf(Lines(Cleaned(content))) == []
  {
    LinesOfCleaned(content);
    TidyLinesAreKept(Lines(Cleaned(content)));
  }

  /** It also gives the same text again, exactly when no kept line but the last ends in a carriage
      return. */
  lemma SanitisingTwice(content: string)
    ensures Cleaned(Cleaned(content)) == Cleaned(content) <==>
            var kept := KeptOf(Lines(content));
            forall i :: 0 <= i < |kept| - 1 ==> DropReturn(kept[i]) == kept[i]
  {
    var kept := KeptOf(Lines(content));
    LinesOfCleaned(content);
    TidyLinesAreKept(Lines(Cleaned(content)));
    if kept != [] {
      JoinedAlike(kept);
    }
  }

  /** Joined lines stay the same without returns exactly if there were none to drop. */
  lemma JoinedAlike(kept: seq<string>)
    requires kept != [] && Tidy(kept) && Tidy(DropReturns(kept))
    ensures Join(DropReturns(kept), '\n') == Join(kept, '\n') <==>
            forall i :: 0 <= i < |kept| - 1 ==> DropReturn(kept[i]) == kept[i]
  {
    DropNothing(kept);
    if Join(DropReturns(kept), '\n') == Join(kept, '\n') {
      JoinedOnce(DropReturns(kept), kept);
    }
  }

  lemma DropNothing(kept: seq<string>)
    ensures DropReturns(kept) == kept <==> forall i :: 0 <= i < |kept| - 1 ==> DropReturn(kept[i]) == kept[i]
  {
    var dropped := DropReturns(kept);
    if dropped == kept {
      forall i | 0 <= i < |kept| - 1
        ensures DropReturn(kept[i]) == kept[i]
      {
        assert dropped[i] == kept[i];
      }
    }
  }

  lemma JoinedOnce(a: seq<string>, b: seq<string>)
    requires a != [] && Tidy(a) && b != [] && Tidy(b) && Join(a, '\n') == Join(b, '\n')
    ensures a == b
  {
    SplitJoined(a, '\n');
    SplitJoined(b, '\n');
  }
}
