/** The SDP normaliser: what it outputs, and when a second pass leaves that alone. */
module Sdp {
  import opened Prelude
  import opened ChannelText
  import opened SdpText

  /** The type letters of section 5 of RFC 8866. */
  const TYPES := "vosiuepcbtrzkam"
  const VERSION := "v=0"
  const ESCAPED_CRLF := "\\r\\n"

  predicate IsControl(c: char) {
    c <= '\U{08}' || c == '\U{0B}' || c == '\U{0C}' || '\U{0E}' <= c <= '\U{1F}' || c == '\U{7F}'
  }

  predicate NotControl(c: char) { !IsControl(c) }

  /** A character that may stand inside an output line. */
  predicate IsLineChar(c: char) { !IsControl(c) && c != CR && c != LF }

  /** Escaped and real line ends become LF. */
  function Unescape(raw: string): string {
    var r1 := ReplaceAll(raw, ESCAPED_CRLF, LF);
    var r2 := ReplaceAll(r1, [BACKSLASH, 'n'], LF);
    var r3 := ReplaceAll(r2, [BACKSLASH, 'r'], LF);
    ReplaceAll(ReplaceAll(r3, CRLF, LF), [CR], LF)
  }

  predicate Typed(line: string) {
    |line| >= 2 && line[1] == '=' && line[0] in TYPES
  }

  function CleanLine(line: string): Option<string> {
    var text := TrimSpace(Keep(NotControl, line));
    if text != "" && Typed(Rewrite(text)) then Some(Rewrite(text)) else None
  }

  function CleanLines(lines: seq<string>): seq<string> {
    if lines == [] then []
    else (if CleanLine(lines[0]).Some? then [CleanLine(lines[0]).value] else []) + CleanLines(lines[1..])
  }

  function FromVersion(lines: seq<string>): seq<string> {
    if lines == [] || lines[0] == VERSION then lines else FromVersion(lines[1..])
  }

  function OutLines(raw: string): seq<string> {
    var text := TrimSpace(raw);
    if text == "" then [] else FromVersion(CleanLines(Split(Unescape(text))))
  }

  function Render(lines: seq<string>): string {
    if lines == [] then "" else Join(lines, CRLF) + CRLF
  }

  function CleanText(raw: string): string {
    Render(OutLines(raw))
  }

  /** The value under "sdp" or "value" is used when the payload is an object. */
  datatype Payload = Text(text: string) | Object(sdp: Payload, value: Payload)

  function CleanPayload(v: Payload): string {
    match v
    case Text(text) => CleanText(text)
    case Object(sdp, value) => if CleanPayload(sdp) != "" then CleanPayload(sdp) else CleanPayload(value)
  }

  /** A line as the normaliser leaves it: trimmed and not to be rewritten, or rewritten. */
  ghost predicate GoodLine(line: string) {
    Typed(line) && Only(IsLineChar, line) && ((TrimSpace(line) == line && Rewrite(line) == line) || IsCanonical(line))
  }

  ghost predicate IsCanonical(line: string) {
    exists g :: ProperGroups(g) && line == Canonical(g)
  }

  ghost predicate GoodLines(lines: seq<string>) {
    (lines != [] ==> lines[0] == VERSION) && forall i :: 0 <= i < |lines| ==> GoodLine(lines[i])
  }

  /** No backslash stands before 'n' or 'r'. */
  predicate EscapeFree(s: string) {
    NoPair(BACKSLASH, 'n', s) && NoPair(BACKSLASH, 'r', s)
  }

  predicate AllEscapeFree(lines: seq<string>) {
    forall i :: 0 <= i < |lines| ==> EscapeFree(lines[i])
  }

  /** The text does not end in white space. */
  predicate Trimmed(line: string) {
    line == "" || !IsSpace(line[|line| - 1])
  }

  predicate AllTrimmed(lines: seq<string>) {
    forall i :: 0 <= i < |lines| ==> Trimmed(lines[i])
  }

  function TrimAll(lines: seq<string>): seq<string> {
    seq(|lines|, i requires 0 <= i < |lines| => TrimSpace(lines[i]))
  }

  /** Not one of the white-space characters that trimming knows and the msid pattern takes for part of a word. */
  predicate IsPlain(c: char) {
    IsSpace(c) ==> IsReSpace(c) || IsControl(c)
  }

  predicate PlainSpaces(s: string) { Only(IsPlain, s) }

  predicate AllPlain(lines: seq<string>) {
    forall i :: 0 <= i < |lines| ==> PlainSpaces(lines[i])
  }

  predicate ControlFree(s: string) { Only(NotControl, s) }

  // ---- Parts of a line

  /** What holds of a string holds of its ends. */
  ghost predicate Hereditary(p: string -> bool) {
    && (forall s: string, i: nat :: i <= |s| && p(s) ==> p(s[i..]))
    && (forall s: string, i: nat :: i <= |s| && p(s) ==> p(s[..i]))
  }

  predicate LineChars(s: string) { Only(IsLineChar, s) }

  lemma LineCharsHereditary()
    ensures Hereditary(LineChars)
  {
  }

  lemma PlainHereditary()
    ensures Hereditary(PlainSpaces)
  {
  }

  lemma EscapeFreeHereditary()
    ensures Hereditary(EscapeFree)
  {
  }

  lemma TrimPart(p: string -> bool, s: string)
    requires Hereditary(p) && p(s)
    ensures p(TrimSpace(s))
  {
    assert p(TrimLeft(s));
  }

  lemma TrimTwice(s: string)
    ensures TrimSpace(TrimSpace(s)) == TrimSpace(s)
  {
    hide TrimSpace;
    TrimEnds(s);
    TrimNoSpace(TrimSpace(s));
  }

  lemma MatchParts(p: string -> bool, line: string)
    requires Hereditary(p) && p(line) && MatchSsrc(line).Some?
    ensures var g := MatchSsrc(line).value; p(g.digits) && p(g.first) && p(g.second)
  {
    hide MatchWords;
    var afterPrefix := line[|SSRC|..];
    SpanParts(p, IsDigit, afterPrefix);
    var afterDigits := afterPrefix[|Span(IsDigit, afterPrefix)|..];
    SpanParts(p, IsReSpace, afterDigits);
    var afterGap := afterDigits[|Span(IsReSpace, afterDigits)|..];
    WordParts(p, afterGap[|MSID|..]);
  }

  lemma SpanParts(p: string -> bool, q: char -> bool, s: string)
    requires Hereditary(p) && p(s)
    ensures p(Span(q, s)) && p(s[|Span(q, s)|..])
  {
    var r := Span(q, s);
    hide Span;
    assert r == s[..|r|];
  }

  lemma WordParts(p: string -> bool, s: string)
    requires Hereditary(p) && p(s) && MatchWords(s).Some?
    ensures p(MatchWords(s).value.0) && p(MatchWords(s).value.1)
  {
    hide Span;
    SpanParts(p, IsReSpace, s);
    var words := s[|Span(IsReSpace, s)|..];
    SpanParts(p, IsReWord, words);
    var afterFirst := words[|Span(IsReWord, words)|..];
    SpanParts(p, IsReSpace, afterFirst);
    SpanParts(p, IsReWord, afterFirst[|Span(IsReSpace, afterFirst)|..]);
  }

  lemma ConcatNoPair(x: char, y: char, a: string, b: string)
    requires NoPair(x, y, a) && NoPair(x, y, b)
    requires a == "" || b == "" || a[|a| - 1] != x || b[0] != y
    ensures NoPair(x, y, a + b)
  {
  }

  lemma {:induction false} KeepKeepsOnly(p: char -> bool, q: char -> bool, s: string)
    requires Only(p, s)
    ensures Only(p, Keep(q, s))
  {
    if s != "" {
      KeepKeepsOnly(p, q, s[1..]);
    }
  }

  // ---- The rewritten line

  lemma FixedParts()
    ensures LineChars(SSRC) && LineChars(MSID) && LineChars(" ")
    ensures PlainSpaces(SSRC) && PlainSpaces(MSID) && PlainSpaces(" ")
    ensures EscapeFree(SSRC) && EscapeFree(MSID) && EscapeFree(" ")
    ensures SSRC[6] == ':' && MSID[4] == ':' && |SSRC| == 7 && |MSID| == 5 && MSID[0] == 'm'
  {
  }

  lemma CanonicalOnly(p: char -> bool, g: Groups)
    requires Only(p, SSRC) && Only(p, MSID) && Only(p, " ")
    requires Only(p, g.digits) && Only(p, g.first) && Only(p, g.second)
    ensures Only(p, Canonical(g))
  {
    hide MSID, SSRC;
  }

  lemma GluePair(y: char, a: string, b: string)
    requires NoPair(BACKSLASH, y, a) && NoPair(BACKSLASH, y, b) && a != "" && b != ""
    requires a[|a| - 1] != BACKSLASH || b[0] != y
    ensures NoPair(BACKSLASH, y, a + b) && (a + b)[0] == a[0]
  {
    ConcatNoPair(BACKSLASH, y, a, b);
  }

  lemma CanonicalNoPair(g: Groups, y: char)
    requires ProperGroups(g) && y != ' '
    requires NoPair(BACKSLASH, y, SSRC) && NoPair(BACKSLASH, y, MSID) && NoPair(BACKSLASH, y, g.digits)
    requires NoPair(BACKSLASH, y, g.first) && NoPair(BACKSLASH, y, g.second)
    ensures NoPair(BACKSLASH, y, Canonical(g))
  {
    FixedParts();
    hide MSID, SSRC;
    var tail := g.first + (" " + g.second);
    GluePair(y, " ", g.second);
    GluePair(y, g.first, " " + g.second);
    GluePair(y, MSID, tail);
    GluePair(y, " ", MSID + tail);
    assert IsDigit(g.digits[|g.digits| - 1]);
    GluePair(y, g.digits, " " + (MSID + tail));
    GluePair(y, SSRC, g.digits + (" " + (MSID + tail)));
  }

  /** A rewritten line ends as its second word does. */
  lemma CanonicalEnds(g: Groups)
    requires ProperGroups(g)
    ensures var line := Canonical(g); line != "" && line[0] == 'a' && line[|line| - 1] == g.second[|g.second| - 1]
  {
    assert Canonical(g)[0] == SSRC[0];
  }

  /** Rewriting a trimmed line leaves a good line, and a trimmed one if all its white space is plain. */
  lemma RewriteKeeps(line: string)
    requires LineChars(line) && TrimSpace(line) == line && Typed(Rewrite(line))
    ensures GoodLine(Rewrite(line))
    ensures PlainSpaces(line) ==> PlainSpaces(Rewrite(line)) && Trimmed(Rewrite(line))
  {
    hide MatchSsrc, Canonical, Contains, TrimSpace, Typed;
    TrimEnds(line);
    if Rewrite(line) != line {
      var g := MatchSsrc(line).value;
      MatchIsProper(line);
      FixedParts();
      LineCharsHereditary();
      MatchParts(LineChars, line);
      CanonicalOnly(IsLineChar, g);
      if PlainSpaces(line) {
        PlainHereditary();
        MatchParts(PlainSpaces, line);
        CanonicalOnly(IsPlain, g);
        CanonicalEnds(g);
      }
    }
  }

  lemma RewriteEscapeFree(line: string)
    requires EscapeFree(line)
    ensures EscapeFree(Rewrite(line))
  {
    hide MatchSsrc, Canonical, Contains;
    if Rewrite(line) != line {
      var g := MatchSsrc(line).value;
      MatchIsProper(line);
      EscapeFreeHereditary();
      MatchParts(EscapeFree, line);
      FixedParts();
      CanonicalNoPair(g, 'n');
      CanonicalNoPair(g, 'r');
    }
  }

  /**
   * What is left of any line is a good line. Without control characters no
   * escape is created; with plain white space only it does not end in any.
   */
  lemma CleanLineGood(line: string)
    requires Lacks(CR, line) && Lacks(LF, line) && CleanLine(line).Some?
    ensures GoodLine(CleanLine(line).value)
    ensures ControlFree(line) && EscapeFree(line) ==> EscapeFree(CleanLine(line).value)
    ensures PlainSpaces(line) ==> PlainSpaces(CleanLine(line).value) && Trimmed(CleanLine(line).value)
  {
    hide Rewrite, GoodLine, Typed;
    var kept := Keep(NotControl, line);
    KeepIsClean(NotControl, line);
    KeepKeepsOnly(c => c != CR, NotControl, line);
    KeepKeepsOnly(c => c != LF, NotControl, line);
    assert LineChars(kept);
    LineCharsHereditary();
    TrimPart(LineChars, kept);
    TrimTwice(kept);
    if PlainSpaces(line) {
      KeepKeepsOnly(IsPlain, NotControl, line);
      PlainHereditary();
      TrimPart(PlainSpaces, kept);
    }
    RewriteKeeps(TrimSpace(kept));
    if ControlFree(line) && EscapeFree(line) {
      KeepAll(NotControl, line);
      EscapeFreeHereditary();
      TrimPart(EscapeFree, kept);
      RewriteEscapeFree(TrimSpace(kept));
    }
  }

  // ---- A good line seen again

  lemma GoodLineStarts(line: string)
    requires Typed(line)
    ensures line != "" && !IsSpace(line[0]) && !IsSpace(line[1])
  {
  }

  function Front(digits: string): string {
    SSRC + (digits + (" " + MSID))
  }

  lemma FrontSplits(g: Groups, first: string, second: string)
    ensures Headed(g.digits, first + (" " + second)) == ((Front(g.digits) + first) + " ") + second
    ensures Headed(g.digits, first) == Front(g.digits) + first
    ensures Front(g.digits) != "" && !IsSpace(Front(g.digits)[|Front(g.digits)| - 1])
  {
    hide SSRC;
    assert MSID[|MSID| - 1] == ':';
    assert Front(g.digits) == ((SSRC + g.digits) + " ") + MSID;
  }

  /** Trimming a rewritten line leaves nothing to rewrite, even when the whole second word is white space. */
  lemma CanonicalTrims(g: Groups)
    requires ProperGroups(g)
    ensures Rewrite(TrimRight(Canonical(g))) == TrimRight(Canonical(g))
  {
    hide MatchSsrc, Contains, MatchWords, Headed, Front;
    var second := TrimRight(g.second);
    FrontSplits(g, g.first, g.second);
    if second != "" {
      var shorter := g.(second := second);
      FrontSplits(g, g.first, second);
      TrimRightAppend((Front(g.digits) + g.first) + " ", g.second);
      assert ProperGroups(shorter);
      MatchCanonical(shorter);
    } else {
      var first := TrimRight(g.first);
      TrimRightDrops((Front(g.digits) + g.first) + " ", g.second);
      TrimRightDrops(Front(g.digits) + g.first, " ");
      WordTrims(Front(g.digits), g.first);
      FrontSplits(g, first, "");
      MatchHeaded(g.digits, first);
      OneWordDoesNotMatch(first);
    }
  }

  lemma WordTrims(front: string, word: string)
    requires front != "" && !IsSpace(front[|front| - 1])
    ensures TrimRight(front + word) == front + TrimRight(word)
  {
    if TrimRight(word) != "" {
      TrimRightAppend(front, word);
    } else {
      TrimRightDrops(front, word);
    }
  }

  /** Seen again, a good line is trimmed and otherwise left alone. */
  lemma GoodLineTrims(line: string)
    requires GoodLine(line)
    ensures CleanLine(line) == Some(TrimSpace(line)) && GoodLine(TrimSpace(line)) && Trimmed(TrimSpace(line))
    ensures Trimmed(line) <==> TrimSpace(line) == line
  {
    hide Rewrite, TrimSpace, IsCanonical;
    GoodLineStarts(line);
    RewriteTrims(line);
    assert ControlFree(line);
    KeepAll(NotControl, line);
    LineCharsHereditary();
    TrimPart(LineChars, line);
    TypedTrims(line);
    TrimTwice(line);
    TrimEnds(line);
    if Trimmed(line) { TrimNoSpace(line); }
  }

  lemma RewriteTrims(line: string)
    requires GoodLine(line)
    ensures Rewrite(TrimSpace(line)) == TrimSpace(line)
  {
    hide Rewrite, TrimSpace, Canonical;
    if IsCanonical(line) {
      var g :| ProperGroups(g) && line == Canonical(g);
      GoodLineStarts(line);
      TrimStarted(line);
      CanonicalTrims(g);
    }
  }

  lemma TypedTrims(line: string)
    requires Typed(line)
    ensures Typed(TrimSpace(line))
  {
    GoodLineStarts(line);
    TrimStarted(line);
    TrimStarted(line[1..]);
    assert line == line[..1] + line[1..];
    TrimRightAppend(line[..1], line[1..]);
    assert TrimRight(line)[1] == '=';
  }

  /** Good lines, each of them trimmed already or not yet, come back trimmed. */
  lemma {:induction false} CleanLinesTrim(lines: seq<string>, parts: seq<string>)
    requires |parts| == |lines| && forall i :: 0 <= i < |lines| ==> GoodLine(lines[i])
    requires forall i :: 0 <= i < |lines| ==> parts[i] == lines[i] || parts[i] == TrimSpace(lines[i])
    ensures CleanLines(parts) == TrimAll(lines)
  {
    hide CleanLine, GoodLine, TrimSpace;
    if lines == [] {
    } else {
      GoodLineTrims(lines[0]);
      GoodLineTrims(TrimSpace(lines[0]));
      CleanLinesTrim(lines[1..], parts[1..]);
      assert TrimAll(lines) == [TrimSpace(lines[0])] + TrimAll(lines[1..]);
    }
  }

  lemma {:induction false} CleanLinesGood(lines: seq<string>)
    requires forall i :: 0 <= i < |lines| ==> Lacks(CR, lines[i]) && Lacks(LF, lines[i])
    ensures var r := CleanLines(lines);
      && (forall i :: 0 <= i < |r| ==> GoodLine(r[i]))
      && ((forall i :: 0 <= i < |lines| ==> ControlFree(lines[i])) && AllEscapeFree(lines) ==> AllEscapeFree(r))
      && (AllPlain(lines) ==> AllPlain(r) && AllTrimmed(r))
  {
    hide CleanLine, GoodLine, EscapeFree, Lacks, ControlFree, PlainSpaces, Trimmed;
    if lines == [] {
    } else {
      CleanLinesGood(lines[1..]);
      if CleanLine(lines[0]).Some? {
        CleanLineGood(lines[0]);
      }
    }
  }

  lemma {:induction false} FromVersionSuffix(lines: seq<string>)
    ensures var r := FromVersion(lines);
      && |r| <= |lines| && r == lines[|lines| - |r|..] && (r != [] ==> r[0] == VERSION)
  {
    if lines != [] && lines[0] != VERSION {
      FromVersionSuffix(lines[1..]);
    }
  }

  lemma FromVersionFirst(lines: seq<string>)
    requires lines != [] && lines[0] == VERSION
    ensures FromVersion(lines) == lines
  {
  }

  // ---- Whole texts

  lemma UnescapeSpec(raw: string)
    ensures Lacks(CR, Unescape(raw)) && EscapeFree(Unescape(raw))
  {
    var r1 := ReplaceAll(raw, ESCAPED_CRLF, LF);
    var r2 := ReplaceAll(r1, [BACKSLASH, 'n'], LF);
    var r3 := ReplaceAll(r2, [BACKSLASH, 'r'], LF);
    var r4 := ReplaceAll(r3, CRLF, LF);
    ReplaceRemovesPair(BACKSLASH, 'n', r1, LF);
    ReplaceKeepsNoPair(BACKSLASH, 'n', r2, [BACKSLASH, 'r'], LF);
    ReplaceRemovesPair(BACKSLASH, 'r', r2, LF);
    ReplaceKeepsNoPair(BACKSLASH, 'n', r3, CRLF, LF);
    ReplaceKeepsNoPair(BACKSLASH, 'r', r3, CRLF, LF);
    ReplaceKeepsNoPair(BACKSLASH, 'n', r4, [CR], LF);
    ReplaceKeepsNoPair(BACKSLASH, 'r', r4, [CR], LF);
    ReplaceRemovesChar(CR, r4, LF);
  }

  lemma UnescapeOnly(p: char -> bool, raw: string)
    requires Only(p, raw) && p(LF)
    ensures Only(p, Unescape(raw))
  {
    var r1 := ReplaceAll(raw, ESCAPED_CRLF, LF);
    var r2 := ReplaceAll(r1, [BACKSLASH, 'n'], LF);
    var r3 := ReplaceAll(r2, [BACKSLASH, 'r'], LF);
    var r4 := ReplaceAll(r3, CRLF, LF);
    hide ReplaceAll;
    ReplaceKeepsOnly(p, raw, ESCAPED_CRLF, LF);
    ReplaceKeepsOnly(p, r1, [BACKSLASH, 'n'], LF);
    ReplaceKeepsOnly(p, r2, [BACKSLASH, 'r'], LF);
    ReplaceKeepsOnly(p, r3, CRLF, LF);
    ReplaceKeepsOnly(p, r4, [CR], LF);
  }

  lemma OutLinesGood(raw: string)
    ensures GoodLines(OutLines(raw))
    ensures ControlFree(raw) ==> AllEscapeFree(OutLines(raw))
    ensures PlainSpaces(raw) ==> AllPlain(OutLines(raw)) && AllTrimmed(OutLines(raw))
  {
    hide GoodLine, EscapeFree, Unescape, CleanLine, TrimSpace, Trimmed;
    var text := TrimSpace(raw);
    if text != "" {
      var body := Unescape(text);
      UnescapeSpec(text);
      SplitParts(c => c != CR, body);
      SplitFreeLines(body);
      if ControlFree(raw) {
        TrimPart(ControlFree, raw);
        UnescapeOnly(NotControl, text);
        SplitParts(NotControl, body);
      }
      if PlainSpaces(raw) {
        PlainHereditary();
        TrimPart(PlainSpaces, raw);
        UnescapeOnly(IsPlain, text);
        SplitParts(IsPlain, body);
      }
      CleanLinesGood(Split(body));
      FromVersionSuffix(CleanLines(Split(body)));
    }
  }

  lemma SplitFreeLines(body: string)
    requires EscapeFree(body)
    ensures AllEscapeFree(Split(body))
  {
    SplitNoPair(BACKSLASH, 'n', body);
    SplitNoPair(BACKSLASH, 'r', body);
  }

  lemma {:induction false} JoinEnds(lines: seq<string>, separator: string)
    requires lines != [] && forall i :: 0 <= i < |lines| ==> lines[i] != ""
    ensures var j := Join(lines, separator); var last := lines[|lines| - 1];
      j != "" && j[0] == lines[0][0] && j[|j| - 1] == last[|last| - 1]
  {
    if |lines| > 1 {
      var rest := Join(lines[1..], separator);
      assert Join(lines, separator) == lines[0] + separator + rest;
      hide Join;
      JoinEnds(lines[1..], separator);
    }
  }

  lemma {:induction false} JoinOnly(p: char -> bool, lines: seq<string>, separator: string)
    requires Only(p, separator) && forall i :: 0 <= i < |lines| ==> Only(p, lines[i])
    ensures Only(p, Join(lines, separator))
  {
    if |lines| > 1 {
      JoinOnly(p, lines[1..], separator);
    }
  }

  /** The joined text is free of escapes exactly when its lines are. */
  lemma {:induction false} JoinEscapeFree(lines: seq<string>)
    ensures EscapeFree(Join(lines, CRLF)) <==> AllEscapeFree(lines)
  {
    if |lines| > 1 {
      var rest := Join(lines[1..], CRLF);
      JoinEscapeFree(lines[1..]);
      assert AllEscapeFree(lines) <==> EscapeFree(lines[0]) && AllEscapeFree(lines[1..]);
      GlueCrlf('n', lines[0], rest);
      GlueCrlf('r', lines[0], rest);
    }
  }

  lemma GlueCrlf(y: char, a: string, b: string)
    requires y != CR && y != LF
    ensures NoPair(BACKSLASH, y, a + CRLF + b) <==> NoPair(BACKSLASH, y, a) && NoPair(BACKSLASH, y, b)
  {
    var s := a + CRLF + b;
    assert forall i :: 0 <= i < |a| ==> s[i] == a[i];
    assert s[|a|] == CR && s[|a| + 1] == LF;
    assert forall i :: 0 <= i < |b| ==> s[|a| + 2 + i] == b[i];
    if NoPair(BACKSLASH, y, s) {
      assert a == s[..|a|] && b == s[|a| + 2..];
    }
  }

  lemma RenderEscapeFree(lines: seq<string>)
    ensures EscapeFree(Render(lines)) <==> AllEscapeFree(lines)
  {
    if lines != [] {
      var j := Join(lines, CRLF);
      JoinEscapeFree(lines);
      assert j + CRLF + "" == j + CRLF;
      GlueCrlf('n', j, "");
      GlueCrlf('r', j, "");
    }
  }

  lemma RenderOnly(p: char -> bool, lines: seq<string>)
    requires p(CR) && p(LF) && forall i :: 0 <= i < |lines| ==> Only(p, lines[i])
    ensures Only(p, Render(lines))
  {
    JoinOnly(p, lines, CRLF);
  }

  /** Whatever came in, the output holds no control character but its line ends. */
  lemma OutputControlFree(raw: string)
    ensures ControlFree(CleanText(raw))
  {
    hide OutLines, Rewrite, TrimSpace, Typed, IsCanonical;
    OutLinesGood(raw);
    var lines := OutLines(raw);
    forall i | 0 <= i < |lines| ensures Only(NotControl, lines[i]) { assert GoodLine(lines[i]); }
    RenderOnly(NotControl, lines);
  }

  // ---- The second pass

  /** Each line followed by its line end. */
  function Ended(lines: seq<string>): string {
    if lines == [] then "" else lines[0] + CRLF + Ended(lines[1..])
  }

  lemma {:induction false} JoinEnded(init: seq<string>, last: string)
    ensures Join(init + [last], CRLF) == Ended(init) + last
  {
    if init == [] {
      assert init + [last] == [last];
    } else {
      assert (init + [last])[1..] == init[1..] + [last];
      JoinEnded(init[1..], last);
      assert init[0] + CRLF + (Ended(init[1..]) + last) == (init[0] + CRLF + Ended(init[1..])) + last;
    }
  }

  /** Trimming the output takes its last line end, and the white space that its last line ends in. */
  lemma TrimRendered(init: seq<string>, last: string)
    requires var raw := Ended(init) + last; raw != "" && !IsSpace(raw[0])
    requires last != "" && !IsSpace(last[0])
    ensures TrimSpace(Ended(init) + last + CRLF) == Ended(init) + TrimSpace(last) != ""
  {
    var raw := Ended(init) + last;
    TrimStarted(last);
    TrimStarted(raw + CRLF);
    TrimRightDrops(raw, CRLF);
    TrimRightAppend(Ended(init), last);
  }

  lemma UnescapeJoined(lines: seq<string>)
    requires AllEscapeFree(lines) && forall i :: 0 <= i < |lines| ==> Lacks(CR, lines[i])
    ensures Unescape(Join(lines, CRLF)) == Join(lines, [LF])
  {
    hide ReplaceAll, Join;
    var j := Join(lines, CRLF);
    JoinEscapeFree(lines);
    assert ESCAPED_CRLF[0] == BACKSLASH && ESCAPED_CRLF[1] == 'r';
    ReplaceNoPair(j, ESCAPED_CRLF, LF);
    ReplaceNoPair(j, [BACKSLASH, 'n'], LF);
    ReplaceNoPair(j, [BACKSLASH, 'r'], LF);
    ReplaceSeparators(lines);
    JoinOnly(c => c != CR, lines, [LF]);
    ReplaceLacking(Join(lines, [LF]), [CR], LF);
  }

  /** The second pass over lines without escapes trims each of them. */
  lemma SecondPass(lines: seq<string>)
    requires GoodLines(lines) && AllEscapeFree(lines)
    ensures OutLines(Render(lines)) == TrimAll(lines)
  {
    hide Rewrite, EscapeFree, Unescape, CleanLine, TrimSpace, Join, Split, Typed, CleanLines, Ended, GoodLine;
    if lines == [] {
      TrimNoSpace("");
    } else {
      var init, last := lines[..|lines| - 1], lines[|lines| - 1];
      var parts := init + [TrimSpace(last)];
      assert lines == init + [last];
      RenderedFirst(lines);
      GoodLineShape(last);
      JoinEnded(init, last);
      JoinEnded(init, TrimSpace(last));
      TrimRendered(init, last);
      PartsGood(lines, parts);
      UnescapeJoined(parts);
      SplitJoin(parts);
      CleanLinesTrim(lines, parts);
      VersionTrims();
    }
  }

  lemma VersionTrims()
    ensures TrimSpace(VERSION) == VERSION
  {
    TrimNoSpace(VERSION);
  }

  lemma GoodLineShape(line: string)
    requires GoodLine(line)
    ensures line != "" && !IsSpace(line[0]) && Lacks(CR, line) && Lacks(LF, line)
  {
    hide Rewrite, TrimSpace, IsCanonical;
    GoodLineStarts(line);
  }

  lemma RenderedFirst(lines: seq<string>)
    requires GoodLines(lines) && lines != []
    ensures var j := Join(lines, CRLF); j != "" && !IsSpace(j[0])
  {
    hide GoodLine;
    forall i | 0 <= i < |lines| ensures lines[i] != "" { GoodLineShape(lines[i]); }
    JoinEnds(lines, CRLF);
    assert VERSION[0] == 'v';
  }

  lemma PartsGood(lines: seq<string>, parts: seq<string>)
    requires GoodLines(lines) && AllEscapeFree(lines) && |parts| == |lines|
    requires forall i :: 0 <= i < |lines| ==> parts[i] == lines[i] || parts[i] == TrimSpace(lines[i])
    ensures AllEscapeFree(parts) && forall i :: 0 <= i < |parts| ==> Lacks(CR, parts[i]) && Lacks(LF, parts[i])
  {
    hide GoodLine, EscapeFree, TrimSpace, Lacks;
    EscapeFreeHereditary();
    forall i | 0 <= i < |lines| ensures EscapeFree(parts[i]) && Lacks(CR, parts[i]) && Lacks(LF, parts[i]) {
      TrimPart(EscapeFree, lines[i]);
      GoodLineTrims(lines[i]);
      GoodLineShape(parts[i]);
    }
  }

  /** Good lines without escapes and without white space at their ends are a fixed point. */
  lemma GoodLinesAreFixed(lines: seq<string>)
    requires GoodLines(lines) && AllEscapeFree(lines) && AllTrimmed(lines)
    ensures OutLines(Render(lines)) == lines
  {
    hide GoodLine, TrimSpace, OutLines, Render, Trimmed;
    SecondPass(lines);
    forall i | 0 <= i < |lines| ensures TrimSpace(lines[i]) == lines[i] { GoodLineTrims(lines[i]); }
  }

  lemma {:induction false} JoinLengths(a: seq<string>, b: seq<string>)
    requires |a| == |b| && forall i :: 0 <= i < |a| ==> |a[i]| <= |b[i]|
    ensures |Join(a, CRLF)| <= |Join(b, CRLF)|
    ensures (exists i :: 0 <= i < |a| && |a[i]| < |b[i]|) ==> |Join(a, CRLF)| < |Join(b, CRLF)|
  {
    if |a| > 1 {
      JoinLengths(a[1..], b[1..]);
      if i :| 0 < i < |a| && |a[i]| < |b[i]| {
        assert |a[1..][i - 1]| < |b[1..][i - 1]|;
      }
    }
  }

  /** If some line ends in white space the second pass gives a shorter text. */
  lemma TrimAllShortens(lines: seq<string>)
    requires GoodLines(lines) && !AllTrimmed(lines)
    ensures Render(TrimAll(lines)) != Render(lines)
  {
    hide GoodLine, TrimSpace, Join, Trimmed;
    forall i | 0 <= i < |lines|
      ensures |TrimSpace(lines[i])| <= |lines[i]|
      ensures Trimmed(lines[i]) || |TrimSpace(lines[i])| < |lines[i]|
    {
      GoodLineTrims(lines[i]);
      TrimNotLonger(lines[i]);
    }
    var i :| 0 <= i < |lines| && !Trimmed(lines[i]);
    assert |TrimAll(lines)[i]| < |lines[i]|;
    JoinLengths(TrimAll(lines), lines);
  }

  lemma TrimNotLonger(s: string)
    ensures |TrimSpace(s)| <= |s| && (|TrimSpace(s)| == |s| ==> TrimSpace(s) == s)
  {
  }

  // ---- What the passes do

  /** The text is these lines, v=0 first, each a type letter, '=' and no character below space but tab. */
  ghost predicate IsNormal(text: string, lines: seq<string>) {
    && lines != [] && lines[0] == "v=0" && text == Join(lines, "\r\n") + "\r\n"
    && forall i :: 0 <= i < |lines| ==> IsNormalLine(lines[i])
  }

  ghost predicate IsNormalLine(line: string) {
    && |line| >= 2 && line[1] == '=' && line[0] in "vosiuepcbtrzkam"
    && forall i :: 0 <= i < |line| ==> line[i] == '\t' || (line[i] >= ' ' && line[i] != '\U{7F}')
  }

  /**
   * Any non-empty output starts with v=0, consists of lines x=... with a type
   * letter of RFC 8866 and no inner line end or control character, and ends
   * every line with CRLF.
   */
  lemma SdpNormalForm(raw: string)
    ensures CleanText(raw) == "" || exists lines :: IsNormal(CleanText(raw), lines)
  {
    hide OutLines, GoodLine, Join, IsNormalLine;
    OutLinesGood(raw);
    var lines := OutLines(raw);
    if lines != [] {
      forall i | 0 <= i < |lines| ensures IsNormalLine(lines[i]) { GoodIsNormal(lines[i]); }
      assert VERSION == "v=0" && CRLF == "\r\n";
      assert IsNormal(CleanText(raw), lines);
    }
  }

  lemma GoodIsNormal(line: string)
    requires GoodLine(line)
    ensures IsNormalLine(line)
  {
    hide Rewrite, TrimSpace, IsCanonical;
  }

  /**
   * For every input: a second pass changes nothing exactly when the output
   * holds no escaped line end and no line of it ends in white space.
   */
  lemma SecondPassIdleIff(raw: string)
    ensures CleanText(CleanText(raw)) == CleanText(raw) <==>
      EscapeFree(CleanText(raw)) && AllTrimmed(OutLines(raw))
  {
    hide OutLines, EscapeFree, AllEscapeFree, AllTrimmed, Join, GoodLines;
    var lines := OutLines(raw);
    OutLinesGood(raw);
    RenderEscapeFree(lines);
    if !AllEscapeFree(lines) {
      var again := OutLines(Render(lines));
      OutputControlFree(raw);
      OutLinesGood(Render(lines));
      RenderEscapeFree(again);
    } else if AllTrimmed(lines) {
      GoodLinesAreFixed(lines);
    } else {
      SecondPass(lines);
      TrimAllShortens(lines);
    }
  }

  /** Without control characters but tab and line ends, and with plain white space only, normalising is idempotent. */
  lemma SdpIdempotent(raw: string)
    requires ControlFree(raw) && PlainSpaces(raw)
    ensures CleanText(CleanText(raw)) == CleanText(raw)
  {
    hide OutLines, EscapeFree, AllEscapeFree, AllTrimmed;
    OutLinesGood(raw);
    RenderEscapeFree(OutLines(raw));
    SecondPassIdleIff(raw);
  }

  lemma OutputPlain(raw: string)
    requires PlainSpaces(raw)
    ensures PlainSpaces(CleanText(raw))
  {
    hide OutLines;
    OutLinesGood(raw);
    RenderOnly(IsPlain, OutLines(raw));
  }

  /** Lines without escapes are all trimmed after one more pass. */
  lemma TrimAllSettles(lines: seq<string>)
    requires GoodLines(lines) && AllEscapeFree(lines)
    ensures OutLines(Render(TrimAll(lines))) == TrimAll(lines)
  {
    hide GoodLine, TrimSpace, Trimmed, OutLines, Render, EscapeFree;
    PartsGood(lines, TrimAll(lines));
    forall i | 0 <= i < |lines| ensures GoodLine(TrimSpace(lines[i])) && Trimmed(TrimSpace(lines[i])) {
      GoodLineTrims(lines[i]);
    }
    VersionTrims();
    GoodLinesAreFixed(TrimAll(lines));
  }

  /** Either half of that condition makes two passes enough. */
  lemma TwoPassesSettle(raw: string)
    requires ControlFree(raw) || PlainSpaces(raw)
    ensures CleanText(CleanText(CleanText(raw))) == CleanText(CleanText(raw))
  {
    hide OutLines, PlainSpaces, ControlFree, Render, TrimAll;
    if ControlFree(raw) {
      OutLinesGood(raw);
      SecondPass(OutLines(raw));
      TrimAllSettles(OutLines(raw));
    } else {
      OutputControlFree(raw);
      OutputPlain(raw);
      SdpIdempotent(CleanText(raw));
    }
  }

  /** Three passes settle every input whatsoever. */
  lemma ThreePassesSettle(raw: string)
    ensures CleanText(CleanText(CleanText(CleanText(raw)))) == CleanText(CleanText(CleanText(raw)))
  {
    hide CleanText, ControlFree;
    OutputControlFree(raw);
    TwoPassesSettle(CleanText(raw));
  }

  // ---- The normaliser step by step

  method CleanSdp(text: string) returns (out: string)
    ensures out == CleanText(text)
  {
    hide Unescape, CleanLine, TrimSpace, Split, Join;
    var raw := TrimSpace(text);
    if raw == "" {
      return "";
    }
    raw := Unescaped(raw);
    var parts, lines := Split(raw), [];
    for i := 0 to |parts|
      invariant CleanLines(parts) == lines + CleanLines(parts[i..])
    {
      var cleaned := CleanLine(parts[i]);
      if cleaned.Some? {
        lines := lines + [cleaned.value];
      }
    }
    assert lines == CleanLines(parts);
    if |lines| == 0 {
      return "";
    }
    var found := 0;
    while found < |lines| && lines[found] != VERSION
      invariant 0 <= found <= |lines|
      invariant FromVersion(lines) == FromVersion(lines[found..])
    {
      found := found + 1;
    }
    lines := lines[found..];
    if |lines| == 0 {
      return "";
    }
    out := Join(lines, CRLF) + CRLF;
  }

  method Unescaped(text: string) returns (raw: string)
    ensures raw == Unescape(text)
  {
    raw := text;
    raw := ReplaceAll(raw, ESCAPED_CRLF, LF);
    raw := ReplaceAll(raw, [BACKSLASH, 'n'], LF);
    raw := ReplaceAll(raw, [BACKSLASH, 'r'], LF);
    raw := ReplaceAll(raw, CRLF, LF);
    raw := ReplaceAll(raw, [CR], LF);
  }

  /** An object payload settles the same way, whichever of its fields is used. */
  lemma {:induction false} PayloadSettles(v: Payload)
    ensures var out := CleanPayload(v); CleanText(CleanText(CleanText(out))) == CleanText(CleanText(out))
  {
    hide CleanText;
    match v
    case Text(text) => ThreePassesSettle(text);
    case Object(sdp, value) =>
      PayloadSettles(sdp);
      PayloadSettles(value);
  }
}
