/** Inputs on which the SDP normaliser needs more than one pass, so that its conditions cannot be dropped. */
module SdpInputs {
  import opened Prelude
  import opened ChannelText
  import opened SdpText
  import opened Sdp

  lemma NothingToUnescape(raw: string)
    requires EscapeFree(raw) && Lacks(CR, raw)
    ensures Unescape(raw) == raw
  {
    hide ReplaceAll;
    assert ESCAPED_CRLF[0] == BACKSLASH && ESCAPED_CRLF[1] == 'r';
    ReplaceNoPair(raw, ESCAPED_CRLF, LF);
    ReplaceNoPair(raw, [BACKSLASH, 'n'], LF);
    ReplaceNoPair(raw, [BACKSLASH, 'r'], LF);
    ReplaceLacking(raw, CRLF, LF);
    ReplaceLacking(raw, [CR], LF);
  }

  lemma TwoLineText(line: string)
    requires EscapeFree(line) && Lacks(CR, line) && line != "" && Trimmed(line)
    ensures var raw := VERSION + [LF] + line;
      raw != "" && TrimSpace(raw) == raw && EscapeFree(raw) && Lacks(CR, raw)
  {
    var head := VERSION + [LF];
    HeadShape();
    hide VERSION, TrimSpace;
    ConcatNoPair(BACKSLASH, 'n', head, line);
    ConcatNoPair(BACKSLASH, 'r', head, line);
    TrimNoSpace(head + line);
  }

  lemma HeadShape()
    ensures var head := VERSION + [LF];
      EscapeFree(head) && Lacks(CR, head) && Lacks(LF, VERSION) && |head| == 4 && head[0] == 'v' && head[3] == LF
  {
  }

  /** One line after the version, with nothing to unescape. */
  lemma OneLineMore(line: string, out: string)
    requires EscapeFree(line) && Lacks(CR, line) && Lacks(LF, line)
    requires line != "" && Trimmed(line) && CleanLine(line) == Some(out)
    ensures OutLines(VERSION + [LF] + line) == [VERSION, out]
  {
    hide VERSION, Unescape, Split, CleanLine, CleanLines, FromVersion, TrimSpace, EscapeFree, Trimmed, Lacks;
    HeadShape();
    TwoLineText(line);
    NothingToUnescape(VERSION + [LF] + line);
    SplitFirst(VERSION, line);
    SplitOne(line);
    VersionStays();
    CleanTwoLines(VERSION, line);
    FromVersionFirst([VERSION, out]);
  }

  lemma CleanTwoLines(a: string, b: string)
    requires CleanLine(a).Some? && CleanLine(b).Some?
    ensures CleanLines([a, b]) == [CleanLine(a).value, CleanLine(b).value]
    ensures CleanLines([a] + [b]) == [CleanLine(a).value, CleanLine(b).value]
  {
    hide CleanLine;
    assert [a, b][1..] == [b] && [b][1..] == [] && [a] + [b] == [a, b];
    assert CleanLines([b]) == [CleanLine(b).value];
  }

  const BEL: char := '\U{07}'
  const NBSP: char := '\U{A0}'
  const BARE: string := ['a', '=']
  const BROKEN: string := BARE + [BACKSLASH]
  const HIDDEN: string := BROKEN + [BEL] + ['n']
  const BARED: string := BROKEN + ['n']

  lemma KeepDrops(p: char -> bool, a: string, c: char, b: string)
    requires Only(p, a) && !p(c) && Only(p, b)
    ensures Keep(p, a + [c] + b) == a + b
  {
    KeepAppend(p, a + [c], b);
    KeepAppend(p, a, [c]);
    KeepAll(p, a);
    KeepAll(p, b);
  }

  lemma PlainLineStays(line: string, kept: string)
    requires Keep(NotControl, line) == kept && |kept| >= 3 && Typed(kept)
    requires Trimmed(kept) && kept[2] != SSRC[2]
    ensures CleanLine(line) == Some(kept)
  {
    GoodLineStarts(kept);
    hide MatchSsrc, Contains, Canonical, Keep, IsSpace, TrimSpace, Typed;
    TrimNoSpace(kept);
    assert |SSRC| == 7;
    assert Rewrite(kept) == kept;
  }

  lemma VersionStays()
    ensures CleanLine(VERSION) == Some(VERSION)
  {
    hide Keep, TrimSpace, Rewrite, CleanLine;
    KeepAll(NotControl, VERSION);
    assert TYPES[0] == 'v' && SSRC[2] == 's';
    PlainLineStays(VERSION, VERSION);
  }

  /** A control character between a backslash and an n hides the escape from the first pass. */
  lemma HiddenIsBared(line: string)
    requires Only(NotControl, line) && Trimmed(BARED + line)
    ensures CleanLine(HIDDEN + line) == Some(BARED + line) && !EscapeFree(BARED + line)
  {
    hide Keep, TrimSpace, Rewrite, CleanLine;
    assert HIDDEN + line == BROKEN + [BEL] + (['n'] + line);
    assert BARED + line == BROKEN + (['n'] + line);
    KeepDrops(NotControl, BROKEN, BEL, ['n'] + line);
    assert TYPES[13] == 'a' && SSRC[2] == 's';
    PlainLineStays(HIDDEN + line, BARED + line);
    assert (BARED + line)[2] == BACKSLASH && (BARED + line)[3] == 'n';
  }

  lemma HiddenShape(line: string)
    requires EscapeFree(line) && Lacks(CR, line) && Lacks(LF, line)
    ensures EscapeFree(HIDDEN + line) && Lacks(CR, HIDDEN + line) && Lacks(LF, HIDDEN + line)
  {
    assert HIDDEN == ['a', '=', BACKSLASH, BEL, 'n'];
    forall k | 0 <= k < |HIDDEN + line| - 1
      ensures (HIDDEN + line)[k] == BACKSLASH ==> (HIDDEN + line)[k + 1] != 'n' && (HIDDEN + line)[k + 1] != 'r'
    {
      if k >= 5 { assert (HIDDEN + line)[k] == line[k - 5] && (HIDDEN + line)[k + 1] == line[k - 4]; }
    }
  }

  /** Dropping a control character can create an escape: then the second pass changes the output. */
  lemma ControlCharacterHidesAnEscape()
    ensures var raw := VERSION + [LF] + HIDDEN;
      PlainSpaces(raw) && CleanText(CleanText(raw)) != CleanText(raw)
  {
    hide EscapeFree, CleanText, CleanLine, OutLines;
    var raw := VERSION + [LF] + HIDDEN;
    assert HIDDEN + "" == HIDDEN && BARED + "" == BARED;
    assert EscapeFree("") by { EmptyIsEscapeFree(); }
    HiddenShape("");
    HiddenIsBared("");
    OneLineMore(HIDDEN, BARED);
    SecondPassIdleIff(raw);
    LineShows(raw, 1);
  }

  lemma EmptyIsEscapeFree()
    ensures EscapeFree("")
  {
  }

  lemma LineShows(raw: string, i: nat)
    requires i < |OutLines(raw)| && !EscapeFree(OutLines(raw)[i])
    ensures !EscapeFree(CleanText(raw))
  {
    hide EscapeFree, OutLines;
    RenderEscapeFree(OutLines(raw));
  }

  lemma {:induction false} ContainsPast(a: string, part: string, b: string)
    ensures Contains(a + (part + b), part)
  {
    var s := a + (part + b);
    if a == "" {
      assert s == part + b;
    } else if !(part <= s) {
      assert s[1..] == a[1..] + (part + b);
      ContainsPast(a[1..], part, b);
    }
  }

  /** The rewrite cuts off whatever follows the second word. */
  lemma RewriteCuts(g: Groups, rest: string)
    requires ProperGroups(g) && (rest == "" || IsReSpace(rest[0]))
    ensures Rewrite(Headed(g.digits, g.first + (" " + (g.second + rest)))) == Canonical(g)
  {
    var tail := g.first + (" " + (g.second + rest));
    hide MatchSsrc, MatchWords, Canonical, Headed;
    MatchHeaded(g.digits, tail);
    MatchWordsBack(g.first, g.second, rest);
    HeadFound(g.digits, tail);
  }

  lemma HeadFound(digits: string, tail: string)
    ensures SSRC <= Headed(digits, tail) && Contains(Headed(digits, tail), " msid")
  {
    hide Contains;
    DropPrefix(SSRC, digits + (" " + (MSID + tail)));
    assert MSID == "msid" + ":" && " msid" == " " + "msid";
    assert " " + (MSID + tail) == " msid" + (":" + tail);
    hide SSRC, MSID;
    assert Headed(digits, tail) == (SSRC + digits) + (" msid" + (":" + tail));
    ContainsPast(SSRC + digits, " msid", ":" + tail);
  }

  /** The words a and b; a no-break space ends the second one. */
  const TAILED := Groups("1", "a", ['b', NBSP])
  const TAIL: string := "a" + (" " + (['b', NBSP] + " c"))
  const SSRC_LINE: string := Headed("1", TAIL)

  /** Neither a control character nor a line end nor a backslash. */
  predicate IsQuiet(c: char) {
    IsLineChar(c) && c != BACKSLASH
  }

  lemma SsrcLineText()
    ensures Only(IsQuiet, SSRC_LINE) && SSRC_LINE != "" && SSRC_LINE[0] == 'a' && SSRC_LINE[|SSRC_LINE| - 1] == 'c'
  {
    assert TAIL == ['a', ' ', 'b', NBSP, ' ', 'c'];
    assert Only(IsQuiet, SSRC) && Only(IsQuiet, MSID) && SSRC[0] == 'a';
    hide TAIL, SSRC, MSID;
    assert SSRC_LINE == SSRC + ("1" + (" " + (MSID + TAIL)));
  }

  lemma SsrcLineShape()
    ensures Only(IsQuiet, SSRC_LINE) && SSRC_LINE != "" && Trimmed(SSRC_LINE)
    ensures CleanLine(SSRC_LINE) == Some(Canonical(TAILED)) && !Trimmed(Canonical(TAILED))
  {
    hide SSRC_LINE, Rewrite, Canonical, Typed, Keep, TrimSpace;
    SsrcLineText();
    KeepAll(NotControl, SSRC_LINE);
    TrimNoSpace(SSRC_LINE);
    TailedLine();
  }

  lemma TailedLine()
    ensures Rewrite(SSRC_LINE) == Canonical(TAILED) && Typed(Canonical(TAILED)) && !Trimmed(Canonical(TAILED))
  {
    hide Rewrite, Canonical, Typed;
    RewriteCuts(TAILED, " c");
    CanonicalEnds(TAILED);
    CanonicalIsTyped(TAILED);
  }

  lemma CanonicalIsTyped(g: Groups)
    ensures Typed(Canonical(g))
  {
    hide Typed;
    assert Canonical(g)[0] == SSRC[0] == 'a' && Canonical(g)[1] == SSRC[1] == '=';
    AttributeIsTyped(Canonical(g));
  }

  lemma QuietIsFree(line: string)
    requires Only(IsQuiet, line)
    ensures EscapeFree(line) && Lacks(CR, line) && Lacks(LF, line) && Lacks(BACKSLASH, line) && ControlFree(line)
  {
  }

  /** A no-break space that the rewrite leaves at the end of a line is trimmed only by the second pass. */
  lemma NoBreakSpaceStays()
    ensures var raw := VERSION + [LF] + SSRC_LINE;
      ControlFree(raw) && CleanText(CleanText(raw)) != CleanText(raw)
  {
    hide SSRC_LINE, CleanLine, EscapeFree, CleanText, OutLines, Trimmed;
    var raw := VERSION + [LF] + SSRC_LINE;
    SsrcLineShape();
    QuietIsFree(SSRC_LINE);
    OneLineMore(SSRC_LINE, Canonical(TAILED));
    SecondPassIdleIff(raw);
    assert OutLines(raw)[1] == Canonical(TAILED);
  }

  lemma {:induction false} ReplaceOnce(a: string, pattern: string, b: string, fill: char)
    requires pattern != "" && Lacks(pattern[0], a) && Lacks(pattern[0], b)
    ensures ReplaceAll(a + (pattern + b), pattern, fill) == a + ([fill] + b)
  {
    var s := a + (pattern + b);
    if a == "" {
      assert s == pattern + b;
      DropPrefix(pattern, b);
      ReplaceLacking(b, pattern, fill);
    } else {
      assert s[0] == a[0] && s[1..] == a[1..] + (pattern + b);
      ReplaceOnce(a[1..], pattern, b, fill);
    }
  }

  /** The second pass splits the line at the escape that the first one bared. */
  lemma BaredSplits(line: string)
    requires Only(IsQuiet, line)
    ensures var text := VERSION + CRLF + (BARED + line);
      Unescape(text) == VERSION + [LF] + (BARE + [LF] + line)
  {
    hide ReplaceAll;
    var before, escape := VERSION + CRLF + BARE, [BACKSLASH, 'n'];
    var text := VERSION + CRLF + (BARED + line);
    QuietIsFree(line);
    BaredText(line);
    assert ESCAPED_CRLF[0] == BACKSLASH && ESCAPED_CRLF[1] == 'r';
    ReplaceNoPair(text, ESCAPED_CRLF, LF);
    ReplaceOnce(before, escape, line, LF);
    var split := before + ([LF] + line);
    assert Lacks(BACKSLASH, split);
    ReplaceLacking(split, [BACKSLASH, 'r'], LF);
    assert split == VERSION + CRLF + (BARE + [LF] + line);
    ReplaceInJoin(VERSION, BARE + [LF] + line);
    ReplaceLacking(BARE + [LF] + line, CRLF, LF);
    ReplaceLacking(VERSION + [LF] + (BARE + [LF] + line), [CR], LF);
  }

  lemma BaredText(line: string)
    requires Lacks(BACKSLASH, line)
    ensures var before := VERSION + CRLF + BARE; var text := VERSION + CRLF + (BARED + line);
      text == before + ([BACKSLASH, 'n'] + line) && NoPair(BACKSLASH, 'r', text) && Lacks(BACKSLASH, before)
  {
    var before := VERSION + CRLF + BARE;
    var text := VERSION + CRLF + (BARED + line);
    assert |VERSION| == 3 && Lacks(BACKSLASH, VERSION) && |before| == 7;
    assert text == before + ([BACKSLASH, 'n'] + line);
    assert text[8] == 'n';
    assert forall k :: 9 <= k < |text| ==> text[k] == line[k - 9];
  }

  lemma AttributeIsTyped(line: string)
    requires |line| >= 2 && line[0] == 'a' && line[1] == '='
    ensures Typed(line)
  {
    assert TYPES[13] == 'a';
  }

  lemma ShortIsNotRewritten(line: string)
    requires |line| < |SSRC|
    ensures Rewrite(line) == line
  {
    hide SSRC, MatchSsrc, Contains, Canonical;
  }

  lemma BareStays()
    ensures CleanLine(BARE) == Some(BARE)
  {
    hide Keep, TrimSpace, Rewrite, Typed;
    KeepAll(NotControl, BARE);
    TrimNoSpace(BARE);
    assert |SSRC| == 7;
    ShortIsNotRewritten(BARE);
    AttributeIsTyped(BARE);
  }

  lemma BaredOutput()
    ensures OutLines(Render([VERSION, BARED + SSRC_LINE])) == [VERSION, BARE, Canonical(TAILED)]
  {
    hide SSRC_LINE, CleanLine, Unescape, Split, IsSpace, Trimmed, TrimSpace;
    var text := VERSION + CRLF + (BARED + SSRC_LINE);
    SsrcLineShape();
    QuietIsFree(SSRC_LINE);
    RenderTwo(VERSION, BARED + SSRC_LINE);
    TextTrims(text, SSRC_LINE);
    BaredSplits(SSRC_LINE);
    SplitFirst(VERSION, BARE + [LF] + SSRC_LINE);
    SplitFirst(BARE, SSRC_LINE);
    SplitOne(SSRC_LINE);
    VersionStays();
    BareStays();
    CleanTwoLines(BARE, SSRC_LINE);
    var lines := [VERSION] + ([BARE] + [SSRC_LINE]);
    assert lines[0] == VERSION && lines[1..] == [BARE] + [SSRC_LINE];
    assert CleanLines(lines) == [VERSION] + [BARE, Canonical(TAILED)];
  }

  lemma RenderTwo(a: string, b: string)
    ensures Render([a, b]) == a + CRLF + b + CRLF
  {
    assert [a, b][1..] == [b];
    assert Join([b], CRLF) == b;
  }

  lemma TextTrims(text: string, line: string)
    requires line != "" && Trimmed(line) && text == VERSION + CRLF + (BARED + line)
    ensures TrimSpace(text + CRLF) == text
  {
    assert text[0] == VERSION[0] == 'v' && text[|text| - 1] == line[|line| - 1];
    TrimStarted(text + CRLF);
    TrimRightDrops(text, CRLF);
  }

  /** Both at once: the third pass still changes the output. */
  lemma TwoPassesAreNotEnough()
    ensures var raw := VERSION + [LF] + (HIDDEN + SSRC_LINE);
      CleanText(CleanText(CleanText(raw))) != CleanText(CleanText(raw))
  {
    hide SSRC_LINE, CleanLine, EscapeFree, CleanText, OutLines, Trimmed;
    var raw := VERSION + [LF] + (HIDDEN + SSRC_LINE);
    SsrcLineShape();
    QuietIsFree(SSRC_LINE);
    HiddenShape(SSRC_LINE);
    assert Trimmed(BARED + SSRC_LINE) && Trimmed(HIDDEN + SSRC_LINE) by { EndsAlike(SSRC_LINE); }
    HiddenIsBared(SSRC_LINE);
    OneLineMore(HIDDEN + SSRC_LINE, BARED + SSRC_LINE);
    BaredOutput();
    var once := Render([VERSION, BARED + SSRC_LINE]);
    assert CleanText(raw) == once by { TextOfLines(raw); }
    SecondPassIdleIff(once);
    assert OutLines(once)[2] == Canonical(TAILED);
  }

  lemma EndsAlike(line: string)
    requires line != "" && Trimmed(line)
    ensures Trimmed(BARED + line) && Trimmed(HIDDEN + line)
  {
  }

  lemma TextOfLines(raw: string)
    ensures CleanText(raw) == Render(OutLines(raw))
  {
  }
}
