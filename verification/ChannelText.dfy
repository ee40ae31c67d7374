/**
 * Text cleaners behind the private-channel gate: the invite code, the PIN and
 * the visibility word of a join request. Text is a sequence of code points.
 */
module ChannelText {

  const MAX_SECRET := 64
  const MAX_PIN := 12

  /** The white space of Unicode. */
  predicate IsSpace(c: char) {
    || c == ' ' || '\t' <= c <= '\r' || c == '\U{85}' || c == '\U{A0}' || c == '\U{1680}'
    || '\U{2000}' <= c <= '\U{200A}' || c == '\U{2028}' || c == '\U{2029}'
    || c == '\U{202F}' || c == '\U{205F}' || c == '\U{3000}'
  }

  function TrimLeft(s: string): (r: string)
    ensures r == "" || !IsSpace(r[0])
    ensures |r| <= |s| && r == s[|s| - |r|..]
  {
    if s != "" && IsSpace(s[0]) then TrimLeft(s[1..]) else s
  }

  function TrimRight(s: string): (r: string)
    ensures r == "" || !IsSpace(r[|r| - 1])
    ensures |r| <= |s| && r == s[..|r|]
  {
    if s != "" && IsSpace(s[|s| - 1]) then TrimRight(s[..|s| - 1]) else s
  }

  function TrimSpace(s: string): string {
    TrimRight(TrimLeft(s))
  }

  predicate IsDigit(c: char) { '0' <= c <= '9' }

  predicate IsSecretChar(c: char) {
    'A' <= c <= 'Z' || IsDigit(c) || c == '-' || c == '_'
  }

  const DOTLESS_I := '\U{0131}'
  const DOTTED_I := '\U{0130}'
  const LONG_S := '\U{017F}'
  const KELVIN := '\U{212A}'

  /** Upper case as far as it reaches ASCII; the other letters beyond ASCII are never kept or compared. */
  function UpperChar(c: char): char {
    if 'a' <= c <= 'z' then (c as int - 32) as char
    else if c == DOTLESS_I then 'I' else if c == LONG_S then 'S' else c
  }

  /** Lower case as far as it reaches ASCII. */
  function LowerChar(c: char): char {
    if 'A' <= c <= 'Z' then (c as int + 32) as char
    else if c == DOTTED_I then 'i' else if c == KELVIN then 'k' else c
  }

  /** One letter for each class of case variants that holds an ASCII letter. */
  function FoldChar(c: char): char {
    if 'a' <= c <= 'z' then (c as int - 32) as char
    else if c == LONG_S then 'S' else if c == KELVIN then 'K' else c
  }

  function Upper(s: string): (r: string) {
    seq(|s|, i requires 0 <= i < |s| => UpperChar(s[i]))
  }

  function Lower(s: string): (r: string) {
    seq(|s|, i requires 0 <= i < |s| => LowerChar(s[i]))
  }

  /** Case-insensitive equality. */
  predicate EqualFold(a: string, b: string) {
    |a| == |b| && forall i :: 0 <= i < |a| ==> FoldChar(a[i]) == FoldChar(b[i])
  }

  function Keep(p: char -> bool, s: string): string {
    if s == "" then "" else (if p(s[0]) then [s[0]] else "") + Keep(p, s[1..])
  }

  function Prefix(s: string, max: nat): string {
    if |s| > max then s[..max] else s
  }

  function CleanSecret(value: string): string {
    Prefix(Keep(IsSecretChar, Upper(TrimSpace(value))), MAX_SECRET)
  }

  function CleanPin(value: string): string {
    Prefix(Keep(IsDigit, TrimSpace(value)), MAX_PIN)
  }

  predicate IsPin(pin: string) {
    |pin| <= MAX_PIN && forall i :: 0 <= i < |pin| ==> IsDigit(pin[i])
  }

  datatype Visibility = Unset | Public | Private

  function CleanVisibility(value: string): Visibility {
    var word := Lower(TrimSpace(value));
    if word == "private" || word == "locked" || word == "secret" then Private
    else if word == "public" || word == "open" then Public
    else Unset
  }

  function FirstNonEmpty(values: seq<string>): string {
    if values == [] then "" else if TrimSpace(values[0]) != "" then values[0] else FirstNonEmpty(values[1..])
  }

  /** The shape of a generated code: "AIKOM-" and eight digits or capitals (FALLBACK when no random bytes come). */
  predicate IsInviteCode(code: string) {
    |code| == 14 && code[..6] == "AIKOM-" && forall i :: 6 <= i < 14 ==> IsDigit(code[i]) || 'A' <= code[i] <= 'Z'
  }

  lemma KeepFirst(p: char -> bool, c: char, s: string)
    ensures Keep(p, [c] + s) == (if p(c) then [c] else []) + Keep(p, s)
  {
    assert ([c] + s)[1..] == s;
  }

  lemma {:induction false} KeepAppend(p: char -> bool, s: string, t: string)
    ensures Keep(p, s + t) == Keep(p, s) + Keep(p, t)
  {
    if s == "" {
      assert s + t == t;
    } else {
      hide Keep;
      KeepAppend(p, s[1..], t);
      KeepFirst(p, s[0], s[1..]);
      KeepFirst(p, s[0], s[1..] + t);
      assert [s[0]] + s[1..] == s && [s[0]] + (s[1..] + t) == s + t;
    }
  }

  lemma KeepSkips(p: char -> bool, a: string, c: char, b: string)
    requires !p(c)
    ensures Keep(p, a + [c] + b) == Keep(p, a + b)
  {
    KeepFirst(p, c, b);
    assert [] + Keep(p, b) == Keep(p, b);
    hide Keep;
    KeepAppend(p, a, [c] + b);
    KeepAppend(p, a, b);
    assert a + [c] + b == a + ([c] + b);
  }

  lemma {:induction false} KeepAll(p: char -> bool, s: string)
    requires forall i :: 0 <= i < |s| ==> p(s[i])
    ensures Keep(p, s) == s
  {
    if s != "" {
      KeepAll(p, s[1..]);
    }
  }

  lemma {:induction false} KeepIsClean(p: char -> bool, s: string)
    ensures forall i :: 0 <= i < |Keep(p, s)| ==> p(Keep(p, s)[i])
  {
    if s != "" {
      KeepIsClean(p, s[1..]);
    }
  }

  lemma {:induction false} TrimRightAppend(s: string, t: string)
    requires TrimRight(t) != ""
    ensures TrimRight(s + t) == s + TrimRight(t)
  {
    if IsSpace(t[|t| - 1]) {
      assert (s + t)[..|s + t| - 1] == s + t[..|t| - 1];
      TrimRightAppend(s, t[..|t| - 1]);
    }
  }

  lemma {:induction false} TrimRightDrops(s: string, spaces: string)
    requires TrimRight(spaces) == ""
    ensures TrimRight(s + spaces) == TrimRight(s)
  {
    if spaces == "" {
      assert s + spaces == s;
    } else {
      assert (s + spaces)[..|s + spaces| - 1] == s + spaces[..|spaces| - 1];
      TrimRightDrops(s, spaces[..|spaces| - 1]);
    }
  }

  /** Text that does not start with white space is trimmed at its end only, and not to nothing. */
  lemma TrimStarted(s: string)
    requires s != "" && !IsSpace(s[0])
    ensures TrimSpace(s) == TrimRight(s) && TrimRight(s) != "" && TrimRight(s)[0] == s[0]
  {
    if TrimRight(s[1..]) == "" {
      assert s == s[..1] + s[1..];
      TrimRightDrops(s[..1], s[1..]);
    } else {
      assert s == s[..1] + s[1..];
      TrimRightAppend(s[..1], s[1..]);
    }
  }

  lemma TrimNoSpace(s: string)
    requires s == "" || (!IsSpace(s[0]) && !IsSpace(s[|s| - 1]))
    ensures TrimSpace(s) == s
  {
  }

  lemma TrimEnds(s: string)
    ensures var t := TrimSpace(s); t == "" || (!IsSpace(t[0]) && !IsSpace(t[|t| - 1]))
  {
    var l := TrimLeft(s);
    var t := TrimRight(l);
    hide TrimLeft, TrimRight;
    assert t == l[..|t|];
    assert t != "" ==> t[0] == l[0];
  }

  /** Whatever spelling of a code is typed back, in any letter case and with any space around it, cleans to it. */
  lemma InviteCodeRoundTrip(code: string, typed: string)
    requires IsInviteCode(code) && Upper(TrimSpace(typed)) == code
    ensures CleanSecret(typed) == code
  {
    InviteCodeIsClean(code);
    KeepAll(IsSecretChar, code);
  }

  lemma InviteCodeIsClean(code: string)
    requires IsInviteCode(code)
    ensures forall i :: 0 <= i < |code| ==> IsSecretChar(code[i])
  {
    forall i | 0 <= i < |code| ensures IsSecretChar(code[i]) {
      if i < 6 { assert code[i] == code[..6][i]; }
    }
  }

  /** Cleaned secrets are equal up to letter case only when they are equal. */
  lemma FoldSecrets(a: string, b: string)
    requires forall i :: 0 <= i < |a| ==> IsSecretChar(a[i])
    requires forall i :: 0 <= i < |b| ==> IsSecretChar(b[i])
    ensures EqualFold(a, b) <==> a == b
  {
  }

  /** A cleaned PIN is up to twelve digits, and cleaning it again changes nothing. */
  lemma CleanPinIsStable(value: string)
    ensures IsPin(CleanPin(value))
    ensures CleanPin(CleanPin(value)) == CleanPin(value)
  {
    hide TrimSpace, Keep;
    KeepIsClean(IsDigit, TrimSpace(value));
    var pin := CleanPin(value);
    TrimNoSpace(pin);
    KeepAll(IsDigit, pin);
  }

  /** Cleaned secrets hold only capital letters, digits, '-' and '_'. */
  lemma CleanSecretAlphabet(value: string)
    ensures |CleanSecret(value)| <= MAX_SECRET
    ensures forall i :: 0 <= i < |CleanSecret(value)| ==> IsSecretChar(CleanSecret(value)[i])
  {
    hide TrimSpace, Upper, Keep, IsSecretChar;
    KeepIsClean(IsSecretChar, Upper(TrimSpace(value)));
  }

  // ---- What the cleaners do to a text, character by character

  /** Trimming takes white space off both ends and nothing else. */
  lemma TrimLaw(s: string) returns (front: string, back: string)
    ensures s == front + TrimSpace(s) + back
    ensures (forall i :: 0 <= i < |front| ==> IsSpace(front[i])) && (forall i :: 0 <= i < |back| ==> IsSpace(back[i]))
    ensures var t := TrimSpace(s); t == "" || (!IsSpace(t[0]) && !IsSpace(t[|t| - 1]))
  {
    hide TrimLeft, TrimRight;
    var left := TrimLeft(s);
    front := s[..|s| - |left|];
    back := left[|TrimRight(left)|..];
    TrimEnds(s);
    assert s == front + left && left == TrimSpace(s) + back;
    LeftIsSpace(s);
    RightIsSpace(left);
    hide IsSpace;
  }

  lemma {:induction false} LeftIsSpace(s: string)
    ensures forall i :: 0 <= i < |s| - |TrimLeft(s)| ==> IsSpace(s[i])
  {
    if s != "" && IsSpace(s[0]) {
      LeftIsSpace(s[1..]);
      assert forall i :: 1 <= i < |s| ==> s[i] == s[1..][i - 1];
    }
  }

  lemma {:induction false} RightIsSpace(s: string)
    ensures forall i :: |TrimRight(s)| <= i < |s| ==> IsSpace(s[i])
  {
    if s != "" && IsSpace(s[|s| - 1]) {
      RightIsSpace(s[..|s| - 1]);
    }
  }

  /** The text is the word in some mix of letter cases, as lower-casing sees it. */
  predicate Reads(text: string, word: string) {
    && |text| == |word|
    && forall i :: 0 <= i < |word| ==>
         || text[i] == word[i]
         || ('A' <= text[i] <= 'Z' && text[i] as int + 32 == word[i] as int)
         || (text[i] == '\U{0130}' && word[i] == 'i') || (text[i] == '\U{212A}' && word[i] == 'k')
  }

  lemma LowerReads(text: string, word: string)
    requires forall i :: 0 <= i < |word| ==> 'a' <= word[i] <= 'z'
    ensures Lower(text) == word <==> Reads(text, word)
  {
    if Reads(text, word) {
      assert forall i :: 0 <= i < |word| ==> Lower(text)[i] == word[i];
    }
    if Lower(text) == word {
      assert forall i :: 0 <= i < |word| ==> LowerChar(text[i]) == Lower(text)[i] == word[i];
    }
  }

  /** The words for a private and for a public channel; any other text says nothing. */
  lemma VisibilityLaw(value: string)
    ensures var t := TrimSpace(value);
      CleanVisibility(value)
      == if Reads(t, "private") || Reads(t, "locked") || Reads(t, "secret") then Private
         else if Reads(t, "public") || Reads(t, "open") then Public else Unset
  {
    var t := TrimSpace(value);
    hide TrimSpace;
    LowerReads(t, "private");
    LowerReads(t, "locked");
    LowerReads(t, "secret");
    LowerReads(t, "public");
    LowerReads(t, "open");
    hide Reads, Lower;
  }

  /** The text is the code in some mix of letter cases, as upper-casing sees it. */
  predicate Spells(text: string, code: string) {
    && |text| == |code|
    && forall i :: 0 <= i < |code| ==>
         || (text[i] == code[i] && !('a' <= text[i] <= 'z') && text[i] != '\U{0131}' && text[i] != '\U{017F}')
         || ('a' <= text[i] <= 'z' && text[i] as int == code[i] as int + 32)
         || (text[i] == '\U{0131}' && code[i] == 'I') || (text[i] == '\U{017F}' && code[i] == 'S')
  }

  lemma UpperSpells(text: string, code: string)
    ensures Upper(text) == code <==> Spells(text, code)
  {
    if Spells(text, code) {
      assert forall i :: 0 <= i < |code| ==> Upper(text)[i] == code[i];
    }
    if Upper(text) == code {
      assert forall i :: 0 <= i < |code| ==> UpperChar(text[i]) == Upper(text)[i] == code[i];
    }
  }

  /** A capital, a digit, '-' or '_'. */
  predicate IsCodeChar(c: char) {
    'A' <= c <= 'Z' || '0' <= c <= '9' || c == '-' || c == '_'
  }

  /** The secret cleaner leaves its own characters alone, up to 64 of them. */
  lemma SecretKeeps(text: string)
    requires forall i :: 0 <= i < |text| ==> IsCodeChar(text[i])
    ensures CleanSecret(text) == if |text| <= 64 then text else text[..64]
  {
    TrimNoSpace(text);
    assert Upper(text) == text;
    KeepAll(IsSecretChar, text);
  }

  /** What it yields has only those, at most 64. */
  lemma SecretYields(value: string)
    ensures var out := CleanSecret(value); |out| <= 64 && forall i :: 0 <= i < |out| ==> IsCodeChar(out[i])
  {
    CleanSecretAlphabet(value);
    hide CleanSecret;
  }

  lemma UpperAppend(a: string, b: string)
    ensures Upper(a + b) == Upper(a) + Upper(b)
  {
  }

  /** It drops what is neither such a character nor a small letter. */
  lemma SecretDrops(a: string, c: char, b: string)
    requires a != "" && !IsSpace(a[0]) && b != "" && !IsSpace(b[|b| - 1])
    requires !IsCodeChar(c) && !('a' <= c <= 'z') && c != '\U{0131}' && c != '\U{017F}'
    ensures CleanSecret(a + [c] + b) == CleanSecret(a + b)
  {
    assert Upper([c]) == [c];
    hide TrimSpace, Upper, Keep, IsSpace, IsCodeChar;
    TrimNoSpace(a + [c] + b);
    TrimNoSpace(a + b);
    UpperAppend(a + [c], b);
    UpperAppend(a, [c]);
    UpperAppend(a, b);
    KeepSkips(IsSecretChar, Upper(a), c, Upper(b));
  }

  /** The PIN cleaner leaves digits alone, up to twelve of them. */
  lemma PinKeeps(text: string)
    requires forall i :: 0 <= i < |text| ==> '0' <= text[i] <= '9'
    ensures CleanPin(text) == if |text| <= 12 then text else text[..12]
  {
    TrimNoSpace(text);
    KeepAll(IsDigit, text);
  }

  /** What it yields is at most twelve digits. */
  lemma PinYields(value: string)
    ensures |CleanPin(value)| <= 12 && forall i :: 0 <= i < |CleanPin(value)| ==> '0' <= CleanPin(value)[i] <= '9'
  {
    CleanPinIsStable(value);
    hide CleanPin;
  }

  /** It drops whatever is not a digit. */
  lemma PinDrops(a: string, c: char, b: string)
    requires a != "" && !IsSpace(a[0]) && b != "" && !IsSpace(b[|b| - 1]) && !('0' <= c <= '9')
    ensures CleanPin(a + [c] + b) == CleanPin(a + b)
  {
    hide TrimSpace, Keep, IsSpace;
    TrimNoSpace(a + [c] + b);
    TrimNoSpace(a + b);
    KeepSkips(IsDigit, a, c, b);
  }

  method CleanChannelSecret(value: string) returns (out: string)
    ensures out == CleanSecret(value)
  {
    var text := Upper(TrimSpace(value));
    out := "";
    for i := 0 to |text|
      invariant out == Keep(IsSecretChar, text[..i])
    {
      assert text[..i + 1] == text[..i] + [text[i]];
      KeepAppend(IsSecretChar, text[..i], [text[i]]);
      if IsSecretChar(text[i]) {
        out := out + [text[i]];
      }
    }
    assert text[..|text|] == text;
    if |out| > MAX_SECRET {
      out := out[..MAX_SECRET];
    }
  }

  method CleanChannelPin(value: string) returns (out: string)
    ensures out == CleanPin(value)
  {
    var text := TrimSpace(value);
    out := "";
    for i := 0 to |text|
      invariant out == Keep(IsDigit, text[..i])
    {
      assert text[..i + 1] == text[..i] + [text[i]];
      KeepAppend(IsDigit, text[..i], [text[i]]);
      if IsDigit(text[i]) {
        out := out + [text[i]];
      }
    }
    assert text[..|text|] == text;
    if |out| > MAX_PIN {
      out := out[..MAX_PIN];
    }
  }

  ghost predicate IsFirstNonBlank(values: seq<string>, k: int) {
    0 <= k < |values| && TrimSpace(values[k]) != "" && forall i :: 0 <= i < k ==> TrimSpace(values[i]) == ""
  }

  method FirstNonEmptyString(values: seq<string>) returns (value: string)
    ensures value == FirstNonEmpty(values)
    ensures (value == "" && forall k :: 0 <= k < |values| ==> TrimSpace(values[k]) == "")
      || exists k :: IsFirstNonBlank(values, k) && value == values[k]
  {
    hide TrimSpace;
    for i := 0 to |values|
      invariant FirstNonEmpty(values) == FirstNonEmpty(values[i..])
      invariant forall k :: 0 <= k < i ==> TrimSpace(values[k]) == ""
    {
      if TrimSpace(values[i]) != "" {
        assert IsFirstNonBlank(values, i);
        return values[i];
      }
    }
    value := "";
  }
}
