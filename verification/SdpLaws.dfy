/**
 * What the SDP normaliser does to a text, law by law: which line ends it
 * knows, which lines it keeps and how, and where the output starts.
 */
module SdpLaws {
  import opened Prelude
  import opened ChannelText
  import opened SdpText
  import opened Sdp
  import opened SdpInputs

  // ---- Line ends

  lemma {:induction false} ReplaceFirst(a: string, pattern: string, b: string, fill: char)
    requires pattern != "" && Lacks(pattern[0], a)
    ensures ReplaceAll(a + (pattern + b), pattern, fill) == a + ([fill] + ReplaceAll(b, pattern, fill))
  {
    var s := a + (pattern + b);
    if a == "" {
      assert s == pattern + b;
      DropPrefix(pattern, b);
    } else {
      assert s[0] == a[0] && s[1..] == a[1..] + (pattern + b);
      ReplaceFirst(a[1..], pattern, b, fill);
    }
  }

  lemma NothingToReplace(pattern: string)
    requires pattern != ""
    ensures ReplaceAll("", pattern, LF) == ""
  {
  }

  /** Joined by the pattern, the lines come out joined by the line end. */
  lemma {:induction false} ReplaceJoined(lines: seq<string>, pattern: string)
    requires pattern != "" && forall i :: 0 <= i < |lines| ==> Lacks(pattern[0], lines[i])
    ensures ReplaceAll(Join(lines, pattern), pattern, LF) == Join(lines, [LF])
  {
    hide ReplaceAll, Lacks;
    if lines == [] {
      NothingToReplace(pattern);
    } else if |lines| == 1 {
      ReplaceLacking(lines[0], pattern, LF);
    } else {
      ReplaceJoined(lines[1..], pattern);
      ReplaceFirst(lines[0], pattern, Join(lines[1..], pattern), LF);
      assert Join(lines, pattern) == lines[0] + (pattern + Join(lines[1..], pattern));
      assert Join(lines, [LF]) == lines[0] + ([LF] + Join(lines[1..], [LF]));
    }
  }

  /** A pattern is not found where one of its pairs of neighbours is not. */
  lemma {:induction false} ReplaceWithoutPair(s: string, pattern: string, k: nat, fill: char)
    requires k + 1 < |pattern| && NoPair(pattern[k], pattern[k + 1], s)
    ensures ReplaceAll(s, pattern, fill) == s
  {
    if s == "" {
    } else {
      ReplaceWithoutPair(s[1..], pattern, k, fill);
    }
  }

  /** Neighbours in the joined text are neighbours in a line, in the separator, or where two of them meet. */
  lemma {:induction false} JoinNoPair(x: char, y: char, lines: seq<string>, separator: string)
    requires NoPair(x, y, separator) && separator != "" && separator[|separator| - 1] != x && separator[0] != y
    requires forall i :: 0 <= i < |lines| ==> Lacks(x, lines[i]) || Lacks(y, lines[i])
    requires forall i :: 0 <= i < |lines| ==> NoPair(x, y, lines[i])
    ensures NoPair(x, y, Join(lines, separator))
  {
    if |lines| > 1 {
      var rest := Join(lines[1..], separator);
      JoinNoPair(x, y, lines[1..], separator);
      ConcatNoPair(x, y, lines[0], separator);
      ConcatNoPair(x, y, lines[0] + separator, rest);
    }
  }

  /** The six ways to write a line end: three real ones and three escaped ones. */
  predicate IsLineEnd(s: string) {
    s == "\n" || s == "\r" || s == "\r\n" || s == "\\n" || s == "\\r" || s == "\\r\\n"
  }

  predicate QuietLines(lines: seq<string>) {
    forall i :: 0 <= i < |lines| ==> Only(IsQuiet, lines[i])
  }

  lemma QuietLacks(lines: seq<string>)
    requires QuietLines(lines)
    ensures forall i :: 0 <= i < |lines| ==>
      Lacks(BACKSLASH, lines[i]) && Lacks(CR, lines[i]) && Lacks(LF, lines[i])
  {
  }

  predicate NotEscape(c: char) { c != BACKSLASH && c != CR }

  /** Text without backslash and CR has nothing to unescape. */
  lemma NothingLeft(s: string)
    requires Only(NotEscape, s)
    ensures Unescape(s) == s
  {
    NothingToUnescape(s);
  }

  lemma LastStep(s: string)
    requires Only(NotEscape, s)
    ensures ReplaceAll(s, [BACKSLASH, 'n'], LF) == s && ReplaceAll(s, [BACKSLASH, 'r'], LF) == s
    ensures ReplaceAll(s, CRLF, LF) == s && ReplaceAll(s, [CR], LF) == s
  {
    ReplaceLacking(s, [BACKSLASH, 'n'], LF);
    ReplaceLacking(s, [BACKSLASH, 'r'], LF);
    ReplaceLacking(s, CRLF, LF);
    ReplaceLacking(s, [CR], LF);
  }

  lemma JoinedIsPlain(lines: seq<string>)
    requires QuietLines(lines)
    ensures Only(NotEscape, Join(lines, [LF]))
  {
    forall i | 0 <= i < |lines| ensures Only(NotEscape, lines[i]) { assert Only(IsQuiet, lines[i]); }
    JoinOnly(NotEscape, lines, [LF]);
  }

  /** Escaped line ends of either length. */
  lemma EscapedEnds(lines: seq<string>)
    requires QuietLines(lines)
    ensures Unescape(Join(lines, "\\r\\n")) == Join(lines, [LF])
    ensures Unescape(Join(lines, "\\n")) == Join(lines, [LF])
    ensures Unescape(Join(lines, "\\r")) == Join(lines, [LF])
  {
    QuietLacks(lines);
    JoinedIsPlain(lines);
    LastStep(Join(lines, [LF]));
    assert ESCAPED_CRLF == "\\r\\n" == [BACKSLASH, 'r', BACKSLASH, 'n'];
    assert "\\n" == [BACKSLASH, 'n'] && "\\r" == [BACKSLASH, 'r'];
    hide ReplaceAll, Join;
    ReplaceJoined(lines, "\\r\\n");
    ReplaceJoined(lines, "\\n");
    ReplaceJoined(lines, "\\r");
    JoinNoPair(BACKSLASH, 'r', lines, "\\n");
    ReplaceWithoutPair(Join(lines, "\\n"), ESCAPED_CRLF, 0, LF);
    JoinNoPair(BACKSLASH, 'n', lines, "\\r");
    ReplaceWithoutPair(Join(lines, "\\r"), ESCAPED_CRLF, 2, LF);
    ReplaceWithoutPair(Join(lines, "\\r"), [BACKSLASH, 'n'], 0, LF);
  }

  predicate NotBackslash(c: char) { c != BACKSLASH }
  predicate NotLf(c: char) { c != LF }

  /** Real line ends. */
  lemma RealEnds(lines: seq<string>)
    requires QuietLines(lines)
    ensures Unescape(Join(lines, "\r\n")) == Join(lines, [LF])
    ensures Unescape(Join(lines, "\r")) == Join(lines, [LF])
    ensures Unescape(Join(lines, "\n")) == Join(lines, [LF])
  {
    QuietLacks(lines);
    JoinedIsPlain(lines);
    LastStep(Join(lines, [LF]));
    NothingLeft(Join(lines, [LF]));
    assert "\n" == [LF] && "\r" == [CR];
    WithoutBackslash(lines, "\r\n");
    WithoutBackslash(lines, "\r");
    hide ReplaceAll, Join;
    ReplaceJoined(lines, "\r\n");
    ReplaceJoined(lines, "\r");
    forall i | 0 <= i < |lines| ensures Only(NotLf, lines[i]) { assert Lacks(LF, lines[i]); }
    JoinOnly(NotLf, lines, "\r");
    ReplaceWithoutPair(Join(lines, "\r"), CRLF, 0, LF);
  }

  lemma WithoutBackslash(lines: seq<string>, separator: string)
    requires (forall i :: 0 <= i < |lines| ==> Lacks(BACKSLASH, lines[i])) && Lacks(BACKSLASH, separator)
    ensures var s := Join(lines, separator);
      && ReplaceAll(s, ESCAPED_CRLF, LF) == s && ReplaceAll(s, [BACKSLASH, 'n'], LF) == s
      && ReplaceAll(s, [BACKSLASH, 'r'], LF) == s
  {
    var s := Join(lines, separator);
    forall i | 0 <= i < |lines| ensures Only(NotBackslash, lines[i]) {}
    JoinOnly(NotBackslash, lines, separator);
    assert ESCAPED_CRLF[0] == BACKSLASH;
    hide Join;
    ReplaceLacking(s, ESCAPED_CRLF, LF);
    ReplaceLacking(s, [BACKSLASH, 'n'], LF);
    ReplaceLacking(s, [BACKSLASH, 'r'], LF);
  }

  lemma AnyEnd(lines: seq<string>, separator: string)
    requires QuietLines(lines) && IsLineEnd(separator)
    ensures Unescape(Join(lines, separator)) == Join(lines, [LF])
  {
    EscapedEnds(lines);
    RealEnds(lines);
    hide Unescape, Join;
  }

  /** Lines that neither start nor end in white space. */
  predicate TightLines(lines: seq<string>) {
    forall i :: 0 <= i < |lines| ==> lines[i] != "" && !IsSpace(lines[i][0]) && Trimmed(lines[i])
  }

  lemma JoinedTight(lines: seq<string>, separator: string)
    requires lines != [] && TightLines(lines)
    ensures var s := Join(lines, separator); s != "" && TrimSpace(s) == s
  {
    hide Join, TrimSpace, IsSpace;
    JoinEnds(lines, separator);
    TrimNoSpace(Join(lines, separator));
  }

  /** However its lines end, a text of tight lines comes out as those of them that are kept, from v=0 on. */
  lemma LineEndsDoNotMatter(lines: seq<string>, separator: string)
    requires lines != [] && QuietLines(lines) && TightLines(lines) && IsLineEnd(separator)
    ensures OutLines(Join(lines, separator)) == FromVersion(CleanLines(lines))
  {
    hide Unescape, Join, Split, CleanLines, FromVersion, TrimSpace, QuietLines, IsLineEnd, TightLines, Lacks;
    AnyEnd(lines, separator);
    QuietLacks(lines);
    JoinedTight(lines, separator);
    SplitJoin(lines);
  }

  // ---- Which lines are kept

  lemma {:induction false} KeptInOrder(a: seq<string>, b: seq<string>)
    ensures CleanLines(a + b) == CleanLines(a) + CleanLines(b)
  {
    hide CleanLine;
    if a == [] {
      assert a + b == b;
    } else {
      assert (a + b)[1..] == a[1..] + b;
      KeptInOrder(a[1..], b);
    }
  }

  lemma OneLineKept(line: string)
    ensures CleanLines([line]) == if CleanLine(line) == None then [] else [CleanLine(line).value]
  {
    hide CleanLine;
    assert [line][1..] == [];
  }

  /** A tight line that is no ssrc line is kept as it is if it starts with a type letter and '=', and else dropped. */
  lemma PlainLineKept(line: string)
    requires Only(IsQuiet, line) && line != "" && !IsSpace(line[0]) && Trimmed(line) && !("a=ssrc:" <= line)
    ensures CleanLine(line)
      == if |line| >= 2 && line[1] == '=' && line[0] in "vosiuepcbtrzkam" then Some(line) else None
  {
    hide Keep, TrimSpace, MatchSsrc, Contains, Canonical;
    KeepAll(NotControl, line);
    TrimNoSpace(line);
    assert Rewrite(line) == line;
  }

  /** A control character in a line, other than tab and line ends, makes no difference. */
  lemma ControlDropped(a: string, c: char, b: string)
    requires (c < ' ' && c != '\t' && c != '\n' && c != '\r') || c == '\U{7F}'
    ensures CleanLine(a + [c] + b) == CleanLine(a + b)
  {
    assert !NotControl(c);
    hide Keep, TrimSpace, Rewrite, Typed;
    KeepSkips(NotControl, a, c, b);
  }

  /** White space around a line makes no difference. */
  lemma OuterSpaceDropped(front: string, line: string, back: string)
    requires line != "" && !IsSpace(line[0]) && Trimmed(line) && Only(NotControl, line)
    requires forall i :: 0 <= i < |front| ==> IsSpace(front[i]) && NotControl(front[i])
    requires forall i :: 0 <= i < |back| ==> IsSpace(back[i]) && NotControl(back[i])
    ensures CleanLine(front + line + back) == CleanLine(line)
  {
    hide Rewrite, Typed, Keep;
    KeepAll(NotControl, front + line + back);
    KeepAll(NotControl, line);
    TrimOuter(front, line, back);
    TrimNoSpace(line);
  }

  lemma {:induction false} TrimOuter(front: string, line: string, back: string)
    requires line != "" && !IsSpace(line[0]) && Trimmed(line)
    requires (forall i :: 0 <= i < |front| ==> IsSpace(front[i])) && (forall i :: 0 <= i < |back| ==> IsSpace(back[i]))
    ensures TrimSpace(front + line + back) == line
  {
    hide IsSpace;
    if front == "" {
      assert front + line + back == line + back;
      AllSpace(back);
      TrimStarted(line + back);
      TrimRightDrops(line, back);
    } else {
      assert (front + line + back)[1..] == front[1..] + line + back;
      TrimOuter(front[1..], line, back);
    }
  }

  lemma {:induction false} AllSpace(s: string)
    requires forall i :: 0 <= i < |s| ==> IsSpace(s[i])
    ensures TrimRight(s) == ""
  {
    hide IsSpace;
    if s == "" {
    } else {
      AllSpace(s[..|s| - 1]);
    }
  }

  // ---- The msid rewrite

  predicate ReSpaces(s: string) { Only(IsReSpace, s) }

  /** An ssrc line with any gaps between its parts, and anything after the second word, comes out with single spaces. */
  lemma RewriteCollapses(digits: string, gap1: string, gap2: string, first: string, gap3: string, second: string,
                         rest: string)
    requires digits != "" && Only(IsDigit, digits) && first != "" && Only(IsReWord, first)
    requires second != "" && Only(IsReWord, second) && (rest == "" || IsReSpace(rest[0]))
    requires ReSpaces(gap1) && gap1 != "" && gap1[|gap1| - 1] == ' ' && ReSpaces(gap2) && ReSpaces(gap3) && gap3 != ""
    ensures var tail := gap2 + (first + (gap3 + (second + rest)));
      Rewrite("a=ssrc:" + (digits + (gap1 + ("msid:" + tail))))
      == "a=ssrc:" + digits + " msid:" + first + " " + second
  {
    var tail := gap2 + (first + (gap3 + (second + rest)));
    var line := "a=ssrc:" + (digits + (gap1 + ("msid:" + tail)));
    hide MatchSsrc, MatchWords, Contains;
    GapsMatch(gap2, first, gap3, second, rest);
    MatchGapped(digits, gap1, tail);
    DropPrefix("a=ssrc:", digits + (gap1 + ("msid:" + tail)));
    GapFound("a=ssrc:" + digits, gap1, tail);
    assert line == ("a=ssrc:" + digits) + (gap1 + ("msid:" + tail));
    CanonicalText(digits, first, second);
  }

  lemma CanonicalText(digits: string, first: string, second: string)
    ensures Canonical(Groups(digits, first, second)) == "a=ssrc:" + digits + " msid:" + first + " " + second
  {
    assert " " + "msid:" == " msid:";
  }

  lemma GapFound(front: string, gap: string, tail: string)
    requires gap != "" && gap[|gap| - 1] == ' '
    ensures Contains(front + (gap + ("msid:" + tail)), " msid")
  {
    var before := gap[..|gap| - 1];
    assert gap == before + " " && "msid:" == "msid" + ":" && " " + "msid" == " msid";
    assert front + (gap + ("msid:" + tail)) == (front + before) + (" msid" + (":" + tail));
    ContainsPast(front + before, " msid", ":" + tail);
  }

  lemma GapsMatch(gap2: string, first: string, gap3: string, second: string, rest: string)
    requires first != "" && Only(IsReWord, first) && second != "" && Only(IsReWord, second)
    requires (rest == "" || IsReSpace(rest[0])) && ReSpaces(gap2) && ReSpaces(gap3) && gap3 != ""
    ensures MatchWords(gap2 + (first + (gap3 + (second + rest)))) == Some((first, second))
  {
    SpanOf(IsReSpace, gap2, first + (gap3 + (second + rest)));
    DropPrefix(gap2, first + (gap3 + (second + rest)));
    SpanOf(IsReWord, first, gap3 + (second + rest));
    DropPrefix(first, gap3 + (second + rest));
    SpanOf(IsReSpace, gap3, second + rest);
    DropPrefix(gap3, second + rest);
    SpanOf(IsReWord, second, rest);
    hide Span;
  }

  lemma MatchGapped(digits: string, gap: string, tail: string)
    requires digits != "" && Only(IsDigit, digits) && ReSpaces(gap) && gap != ""
    ensures MatchSsrc("a=ssrc:" + (digits + (gap + ("msid:" + tail)))) == WithDigits(digits, MatchWords(tail))
  {
    hide MatchWords, Span;
    assert SSRC == "a=ssrc:" && MSID == "msid:";
    DropPrefix(SSRC, digits + (gap + (MSID + tail)));
    DropPrefix(digits, gap + (MSID + tail));
    DropPrefix(gap, MSID + tail);
    DropPrefix(MSID, tail);
    SpanOf(IsDigit, digits, gap + (MSID + tail));
    SpanOf(IsReSpace, gap, MSID + tail);
  }

  /** A line that does not start like an ssrc line is not rewritten. */
  lemma OthersStay(line: string)
    requires !("a=ssrc:" <= line)
    ensures Rewrite(line) == line
  {
    hide MatchSsrc, Contains, Canonical;
  }

  // ---- Where the output starts

  /** The output starts at the first v=0 line that was kept; without one it is empty. */
  lemma {:induction false} FromVersionLaw(lines: seq<string>)
    ensures (forall i :: 0 <= i < |lines| ==> lines[i] != "v=0") ==> FromVersion(lines) == []
    ensures forall k :: 0 <= k < |lines| && lines[k] == "v=0" && (forall i :: 0 <= i < k ==> lines[i] != "v=0") ==>
      FromVersion(lines) == lines[k..]
  {
    if lines == [] || lines[0] == VERSION {
    } else {
      FromVersionLaw(lines[1..]);
      forall k | 0 <= k < |lines| && lines[k] == "v=0" && (forall i :: 0 <= i < k ==> lines[i] != "v=0")
        ensures FromVersion(lines) == lines[k..]
      {
        assert k > 0 && lines[1..][k - 1] == "v=0";
        assert forall i :: 0 <= i < k - 1 ==> lines[1..][i] == lines[i + 1];
        assert lines[1..][k - 1..] == lines[k..];
      }
    }
  }

  /** Every output line is followed by CR and LF, and no line means no text. */
  lemma RenderLaw(lines: seq<string>)
    ensures CleanText("") == ""
    ensures Render(lines) == if lines == [] then "" else Join(lines, "\r\n") + "\r\n"
  {
    TrimNoSpace("");
  }

  /** Of an object the text under "sdp" counts, and that under "value" only if the first gives nothing. */
  lemma PayloadLaw(sdp: Payload, value: Payload, text: string)
    ensures CleanPayload(Text(text)) == CleanText(text)
    ensures CleanPayload(sdp) != "" ==> CleanPayload(Object(sdp, value)) == CleanPayload(sdp)
    ensures CleanPayload(sdp) == "" ==> CleanPayload(Object(sdp, value)) == CleanPayload(value)
  {
    hide CleanText;
  }
}
