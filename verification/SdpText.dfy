/** String operations of the SDP normaliser: replacing, splitting, joining, and the ssrc/msid rewrite. */
module SdpText {
  import opened Prelude
  import opened ChannelText

  const CR := '\r'
  const LF := '\n'
  const BACKSLASH := '\\'
  const CRLF := "\r\n"

  /** Leftmost non-overlapping occurrences of a non-empty pattern become one character. */
  function ReplaceAll(s: string, pattern: string, fill: char): string
    requires pattern != ""
  {
    if s == "" then ""
    else if pattern <= s then [fill] + ReplaceAll(s[|pattern|..], pattern, fill)
    else [s[0]] + ReplaceAll(s[1..], pattern, fill)
  }

  function Split(s: string): (lines: seq<string>)
    ensures lines != []
  {
    if s == "" then [""]
    else
      var rest := Split(s[1..]);
      if s[0] == LF then [""] + rest else [[s[0]] + rest[0]] + rest[1..]
  }

  function Join(lines: seq<string>, separator: string): string {
    if lines == [] then "" else if |lines| == 1 then lines[0] else lines[0] + separator + Join(lines[1..], separator)
  }

  predicate Only(p: char -> bool, s: string) {
    forall i :: 0 <= i < |s| ==> p(s[i])
  }

  predicate Lacks(c: char, s: string) {
    forall i :: 0 <= i < |s| ==> s[i] != c
  }

  /** The two characters never stand next to each other in this order. */
  predicate NoPair(x: char, y: char, s: string) {
    forall i :: 0 <= i < |s| - 1 ==> s[i] != x || s[i + 1] != y
  }

  // ---- Replacing

  lemma ReplaceHead(s: string, pattern: string, fill: char)
    requires pattern != "" && s != ""
    ensures var r := ReplaceAll(s, pattern, fill); r != "" && (r[0] == fill || r[0] == s[0])
  {
  }

  lemma {:induction false} ReplaceKeepsOnly(p: char -> bool, s: string, pattern: string, fill: char)
    requires pattern != "" && Only(p, s) && p(fill)
    ensures Only(p, ReplaceAll(s, pattern, fill))
  {
    if s != "" {
      ReplaceKeepsOnly(p, if pattern <= s then s[|pattern|..] else s[1..], pattern, fill);
    }
  }

  lemma {:induction false} ReplaceKeepsNoPair(x: char, y: char, s: string, pattern: string, fill: char)
    requires pattern != "" && NoPair(x, y, s) && fill != x && fill != y
    ensures NoPair(x, y, ReplaceAll(s, pattern, fill))
  {
    if s != "" {
      if pattern <= s {
        ReplaceKeepsNoPair(x, y, s[|pattern|..], pattern, fill);
      } else {
        ReplaceKeepsNoPair(x, y, s[1..], pattern, fill);
        if s[1..] != "" { ReplaceHead(s[1..], pattern, fill); }
      }
    }
  }

  lemma {:induction false} ReplaceRemovesPair(x: char, y: char, s: string, fill: char)
    requires fill != x && fill != y
    ensures NoPair(x, y, ReplaceAll(s, [x, y], fill))
  {
    if s != "" {
      if [x, y] <= s {
        ReplaceRemovesPair(x, y, s[2..], fill);
      } else {
        ReplaceRemovesPair(x, y, s[1..], fill);
        if s[1..] != "" {
          ReplaceHead(s[1..], [x, y], fill);
          assert s[0] == x && s[1] == y ==> [x, y] <= s;
        }
      }
    }
  }

  lemma {:induction false} ReplaceRemovesChar(c: char, s: string, fill: char)
    requires fill != c
    ensures Lacks(c, ReplaceAll(s, [c], fill))
  {
    if s != "" {
      ReplaceRemovesChar(c, s[1..], fill);
      assert s[0] == c ==> [c] <= s;
    }
  }

  /** A pattern that starts with a pair the text does not have is not found. */
  lemma {:induction false} ReplaceNoPair(s: string, pattern: string, fill: char)
    requires |pattern| >= 2 && NoPair(pattern[0], pattern[1], s)
    ensures ReplaceAll(s, pattern, fill) == s
  {
    if s != "" {
      ReplaceNoPair(s[1..], pattern, fill);
    }
  }

  lemma {:induction false} ReplaceLacking(s: string, pattern: string, fill: char)
    requires pattern != "" && Lacks(pattern[0], s)
    ensures ReplaceAll(s, pattern, fill) == s
  {
    if s != "" {
      ReplaceLacking(s[1..], pattern, fill);
    }
  }

  /** CRLF separators become LF separators. */
  lemma {:induction false} ReplaceInJoin(line: string, rest: string)
    requires Lacks(CR, line)
    ensures ReplaceAll(line + CRLF + rest, CRLF, LF) == line + [LF] + ReplaceAll(rest, CRLF, LF)
  {
    var s := line + CRLF + rest;
    if line == "" {
      assert s[2..] == rest && CRLF <= s;
    } else {
      assert s[0] == line[0] != CR;
      assert !(CRLF <= s);
      assert s[1..] == line[1..] + CRLF + rest;
      ReplaceInJoin(line[1..], rest);
    }
  }

  lemma {:induction false} ReplaceSeparators(lines: seq<string>)
    requires forall i :: 0 <= i < |lines| ==> Lacks(CR, lines[i])
    ensures ReplaceAll(Join(lines, CRLF), CRLF, LF) == Join(lines, [LF])
  {
    if lines == [] {
    } else if |lines| == 1 {
      ReplaceLacking(lines[0], CRLF, LF);
    } else {
      ReplaceInJoin(lines[0], Join(lines[1..], CRLF));
      ReplaceSeparators(lines[1..]);
    }
  }

  // ---- Splitting

  lemma {:induction false} SplitParts(p: char -> bool, s: string)
    requires Only(p, s)
    ensures forall i :: 0 <= i < |Split(s)| ==> Only(p, Split(s)[i]) && Lacks(LF, Split(s)[i])
  {
    if s != "" {
      SplitParts(p, s[1..]);
    }
  }

  lemma {:induction false} SplitNoPair(x: char, y: char, s: string)
    requires NoPair(x, y, s)
    ensures forall i :: 0 <= i < |Split(s)| ==> NoPair(x, y, Split(s)[i])
    ensures Split(s)[0] != "" ==> s != "" && Split(s)[0][0] == s[0]
  {
    if s != "" {
      SplitNoPair(x, y, s[1..]);
    }
  }

  lemma {:induction false} SplitOne(line: string)
    requires Lacks(LF, line)
    ensures Split(line) == [line]
  {
    if line != "" {
      SplitOne(line[1..]);
      assert line == [line[0]] + line[1..];
    }
  }

  lemma {:induction false} SplitFirst(line: string, rest: string)
    requires Lacks(LF, line)
    ensures Split(line + [LF] + rest) == [line] + Split(rest)
  {
    var s := line + [LF] + rest;
    if line == "" {
      assert s[1..] == rest;
    } else {
      assert s[1..] == line[1..] + [LF] + rest;
      SplitFirst(line[1..], rest);
      assert line == [line[0]] + line[1..];
    }
  }

  lemma {:induction false} SplitJoin(lines: seq<string>)
    requires lines != [] && forall i :: 0 <= i < |lines| ==> Lacks(LF, lines[i])
    ensures Split(Join(lines, [LF])) == lines
  {
    if |lines| == 1 {
      SplitOne(lines[0]);
    } else {
      SplitFirst(lines[0], Join(lines[1..], [LF]));
      SplitJoin(lines[1..]);
    }
  }

  // ---- The rewrite of ssrc lines

  /** The longest prefix whose characters all satisfy p. */
  function Span(p: char -> bool, s: string): (r: string)
    ensures r <= s && Only(p, r) && (|r| < |s| ==> !p(s[|r|]))
  {
    if s != "" && p(s[0]) then
      var rest := Span(p, s[1..]);
      assert s == [s[0]] + s[1..];
      [s[0]] + rest
    else ""
  }

  lemma {:induction false} SpanOf(p: char -> bool, a: string, b: string)
    requires Only(p, a) && (b == "" || !p(b[0]))
    ensures Span(p, a + b) == a
  {
    if a == "" {
      assert a + b == b;
    } else {
      assert (a + b)[1..] == a[1..] + b;
      SpanOf(p, a[1..], b);
      assert a == [a[0]] + a[1..];
    }
  }

  /** White space of the regular expression. */
  predicate IsReSpace(c: char) {
    c == ' ' || c == '\t' || c == LF || c == CR || c == '\U{0C}'
  }

  predicate IsReWord(c: char) { !IsReSpace(c) }

  const SSRC := "a=ssrc:"
  const MSID := "msid:"

  datatype Groups = Groups(digits: string, first: string, second: string)

  /** Optional space, a word, space, a word, anything. */
  function MatchWords(s: string): Option<(string, string)> {
    var words := s[|Span(IsReSpace, s)|..];
    var first := Span(IsReWord, words);
    var afterFirst := words[|first|..];
    var gap := Span(IsReSpace, afterFirst);
    var second := Span(IsReWord, afterFirst[|gap|..]);
    if first == "" || gap == "" || second == "" then None else Some((first, second))
  }

  function WithDigits(digits: string, words: Option<(string, string)>): Option<Groups> {
    if words == None then None else Some(Groups(digits, words.value.0, words.value.1))
  }

  /** "a=ssrc:", digits, space, "msid:", then the two words. */
  function MatchSsrc(line: string): Option<Groups> {
    if !(SSRC <= line) then None
    else
      var afterPrefix := line[|SSRC|..];
      var digits := Span(IsDigit, afterPrefix);
      var afterDigits := afterPrefix[|digits|..];
      var gap := Span(IsReSpace, afterDigits);
      var afterGap := afterDigits[|gap|..];
      if digits == "" || gap == "" || !(MSID <= afterGap) then None
      else
        WithDigits(digits, MatchWords(afterGap[|MSID|..]))
  }

  /** A line that starts with "a=ssrc:", the digits and " msid:". */
  function Headed(digits: string, tail: string): string {
    SSRC + (digits + (" " + (MSID + tail)))
  }

  function Canonical(g: Groups): string {
    Headed(g.digits, g.first + (" " + g.second))
  }

  predicate Contains(s: string, part: string) {
    part <= s || (s != "" && Contains(s[1..], part))
  }

  function Rewrite(line: string): string {
    if SSRC <= line && Contains(line, " msid") && MatchSsrc(line).Some? then Canonical(MatchSsrc(line).value) else line
  }

  ghost predicate ProperGroups(g: Groups) {
    && g.digits != "" && Only(IsDigit, g.digits)
    && g.first != "" && Only(IsReWord, g.first) && g.second != "" && Only(IsReWord, g.second)
  }

  lemma MatchIsProper(line: string)
    requires MatchSsrc(line).Some?
    ensures ProperGroups(MatchSsrc(line).value)
  {
  }

  lemma MatchWordsBack(first: string, second: string, rest: string)
    requires first != "" && Only(IsReWord, first) && second != "" && Only(IsReWord, second)
    requires rest == "" || IsReSpace(rest[0])
    ensures MatchWords(first + (" " + (second + rest))) == Some((first, second))
  {
    var tail := first + (" " + (second + rest));
    SpanOf(IsReSpace, "", tail);
    assert "" + tail == tail && tail[0..] == tail;
    SpanOf(IsReWord, first, " " + (second + rest));
    DropPrefix(first, " " + (second + rest));
    SpanOf(IsReSpace, " ", second + rest);
    DropPrefix(" ", second + rest);
    SpanOf(IsReWord, second, rest);
  }

  lemma OneWordDoesNotMatch(word: string)
    requires Only(IsReWord, word)
    ensures MatchWords(word) == None
  {
    SpanOf(IsReSpace, "", word);
    assert "" + word == word && word[0..] == word;
    SpanOf(IsReWord, word, "");
    assert word + "" == word;
  }

  lemma DropPrefix(a: string, b: string)
    ensures a <= a + b && (a + b)[|a|..] == b
  {
  }

  /** Past the head only the words decide. */
  lemma MatchHeaded(digits: string, tail: string)
    requires digits != "" && Only(IsDigit, digits)
    ensures MatchSsrc(Headed(digits, tail)) == WithDigits(digits, MatchWords(tail))
  {
    hide MatchWords;
    var afterDigits := " " + (MSID + tail);
    DropPrefix(SSRC, digits + afterDigits);
    DropPrefix(digits, afterDigits);
    DropPrefix(" ", MSID + tail);
    DropPrefix(MSID, tail);
    SpanOf(IsDigit, digits, afterDigits);
    SpanOf(IsReSpace, " ", MSID + tail);
  }

  /** Matching a canonical line gives back its groups. */
  lemma MatchCanonical(g: Groups)
    requires ProperGroups(g)
    ensures MatchSsrc(Canonical(g)) == Some(g)
  {
    hide MatchWords, MatchSsrc, Headed;
    MatchHeaded(g.digits, g.first + (" " + g.second));
    MatchWordsBack(g.first, g.second, "");
    assert g.second + "" == g.second;
  }

  lemma RewriteTwice(line: string)
    ensures Rewrite(Rewrite(line)) == Rewrite(line)
  {
    if Rewrite(line) != line {
      MatchIsProper(line);
      MatchCanonical(MatchSsrc(line).value);
    }
  }
}
