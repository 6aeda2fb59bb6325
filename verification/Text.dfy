/** The string operations the sources use, on sequences of characters (runes). */
module Text {

  /** unicode.IsSpace */
  predicate IsSpace(c: char) {
    var n := c as int;
    (9 <= n <= 13) || n == 0x20 || n == 0x85 || n == 0xA0 || n == 0x1680 || (0x2000 <= n <= 0x200A)
    || n == 0x2028 || n == 0x2029 || n == 0x202F || n == 0x205F || n == 0x3000
  }

  function TrimLeft(s: string): (r: string)
    ensures |r| <= |s|
  {
    if s != [] && IsSpace(s[0]) then TrimLeft(s[1..]) else s
  }

  function TrimRight(s: string): (r: string)
    ensures |r| <= |s|
  {
    if s != [] && IsSpace(s[|s| - 1]) then TrimRight(s[..|s| - 1]) else s
  }

  /** strings.TrimSpace */
  function TrimSpace(s: string): (r: string)
    ensures |r| <= |s|
  {
    TrimRight(TrimLeft(s))
  }

  predicate Blank(s: string) {
    forall i | 0 <= i < |s| :: IsSpace(s[i])
  }

  lemma {:induction false} TrimLeftShape(s: string) returns (before: string)
    ensures s == before + TrimLeft(s) && Blank(before)
    ensures TrimLeft(s) != [] ==> !IsSpace(TrimLeft(s)[0])
  {
    before := [];
    if s != [] && IsSpace(s[0]) {
      var rest := TrimLeftShape(s[1..]);
      before := [s[0]] + rest;
    }
  }

  lemma {:induction false} TrimRightShape(s: string) returns (after: string)
    ensures s == TrimRight(s) + after && Blank(after)
    ensures TrimRight(s) != [] ==> !IsSpace(TrimRight(s)[|TrimRight(s)| - 1])
  {
    after := [];
    if s != [] && IsSpace(s[|s| - 1]) {
      var rest := TrimRightShape(s[..|s| - 1]);
      after := rest + [s[|s| - 1]];
    }
  }

  /** A string is a blank prefix, its trimmed form, and a blank suffix. */
  lemma TrimShape(s: string) returns (before: string, after: string)
    ensures s == before + TrimSpace(s) + after && Blank(before) && Blank(after)
    ensures TrimSpace(s) != [] ==> !IsSpace(TrimSpace(s)[0]) && !IsSpace(TrimSpace(s)[|TrimSpace(s)| - 1])
  {
    before := TrimLeftShape(s);
    after := TrimRightShape(TrimLeft(s));
    assert s == before + (TrimSpace(s) + after);
    assert TrimSpace(s) != [] ==> TrimSpace(s)[0] == TrimLeft(s)[0];
  }

  /** How many spaces trimming takes from the front. */
  function Lead(s: string): nat {
    |s| - |TrimLeft(s)|
  }

  lemma TrimMargins(s: string) returns (before: string, after: string)
    ensures s == before + TrimSpace(s) + after && Blank(before) && Blank(after) && |before| == Lead(s)
  {
    before := TrimLeftShape(s);
    after := TrimRightShape(TrimLeft(s));
    assert s == before + (TrimSpace(s) + after);
  }

  lemma {:induction false} BlankTrims(s: string)
    requires Blank(s)
    ensures TrimLeft(s) == []
  {
    if s != [] {
      BlankTrims(s[1..]);
    }
  }

  lemma TrimEmptyIffBlank(s: string)
    ensures TrimSpace(s) == [] <==> Blank(s)
  {
    if Blank(s) {
      BlankTrims(s);
    } else {
      var i :| 0 <= i < |s| && !IsSpace(s[i]);
      var q := TrimKeeps(s, i);
    }
  }

  lemma InTheMiddle(before: string, middle: string, after: string, i: nat)
    requires Blank(before) && Blank(after)
    requires i < |before + middle + after| && !IsSpace((before + middle + after)[i])
    ensures |before| <= i < |before| + |middle| && middle[i - |before|] == (before + middle + after)[i]
  {
  }

  /** Trimming keeps every character that is not a space. */
  lemma TrimKeeps(s: string, i: nat) returns (q: nat)
    requires i < |s| && !IsSpace(s[i])
    ensures q < |TrimSpace(s)| && TrimSpace(s)[q] == s[i]
  {
    var before, after := TrimShape(s);
    InTheMiddle(before, TrimSpace(s), after, i);
    q := i - |before|;
  }

  function Join(parts: seq<string>, sep: string): string {
    if parts == [] then ""
    else if |parts| == 1 then parts[0]
    else parts[0] + sep + Join(parts[1..], sep)
  }

  lemma JoinFirst(first: string, parts: seq<string>, sep: string)
    requires parts != []
    ensures Join([first] + parts, sep) == first + sep + Join(parts, sep)
  {
    assert ([first] + parts)[1..] == parts;
  }

  lemma FirstLonger(c: char, parts: seq<string>, sep: string)
    requires parts != []
    ensures Join([[c] + parts[0]] + parts[1..], sep) == [c] + Join(parts, sep)
  {
    var longer := [[c] + parts[0]] + parts[1..];
    assert longer[1..] == parts[1..];
    if |parts| > 1 {
      assert [c] + parts[0] + sep + Join(parts[1..], sep) == [c] + (parts[0] + sep + Join(parts[1..], sep));
    }
  }

  /** Joining puts a separator in front of every part but the first. */
  lemma {:induction false} JoinMore(parts: seq<string>, last: string, sep: string)
    ensures Join(parts + [last], sep) == if parts == [] then last else Join(parts, sep) + sep + last
  {
    if parts == [] {
      assert parts + [last] == [last];
    } else {
      assert (parts + [last])[1..] == parts[1..] + [last];
      JoinMore(parts[1..], last, sep);
      if |parts| == 1 {
        assert parts[1..] == [] && [last] == [] + [last];
        assert Join([last], sep) == last;
      }
    }
  }

  /** strings.Split(text, "\n") */
  function SplitLines(text: string): (lines: seq<string>)
    ensures lines != []
  {
    if text == [] then [""]
    else
      var rest := SplitLines(text[1..]);
      if text[0] == '\n' then [""] + rest else [[text[0]] + rest[0]] + rest[1..]
  }

  /** Splitting into lines loses nothing, and no line contains a newline. */
  lemma {:induction false} SplitJoins(text: string)
    ensures Join(SplitLines(text), "\n") == text
    ensures forall line | line in SplitLines(text) :: '\n' !in line
  {
    if text != [] {
      var rest := SplitLines(text[1..]);
      SplitJoins(text[1..]);
      if text[0] == '\n' {
        JoinFirst("", rest, "\n");
      } else {
        FirstLonger(text[0], rest, "\n");
        assert rest[0] in rest;
      }
      assert text == [text[0]] + text[1..];
    }
  }

  /** strings.ReplaceAll(text, "\r\n", "\n") */
  function ReplaceCrLf(text: string): (r: string)
    ensures |r| <= |text|
  {
    if |text| < 2 then text
    else if text[0] == '\r' && text[1] == '\n' then ['\n'] + ReplaceCrLf(text[2..])
    else [text[0]] + ReplaceCrLf(text[1..])
  }

  /** A text whose lines end in LF, written with CR LF. */
  function WithCrLf(text: string): string {
    if text == [] then [] else (if text[0] == '\n' then "\r\n" else [text[0]]) + WithCrLf(text[1..])
  }

  /** Line ends do not matter: the CR LF form of a text is read as the text. */
  lemma {:induction false} CrLfIsReadAsLf(text: string)
    requires '\r' !in text
    ensures ReplaceCrLf(WithCrLf(text)) == text
  {
    if text != [] {
      var rest := WithCrLf(text[1..]);
      CrLfIsReadAsLf(text[1..]);
      if text[0] == '\n' {
        assert ("\r\n" + rest)[2..] == rest;
      } else {
        assert ([text[0]] + rest)[1..] == rest;
        assert text[0] in text;
      }
      assert text == [text[0]] + text[1..];
    }
  }

  predicate HasCrLf(s: string) {
    exists i :: 0 <= i < |s| - 1 && s[i] == '\r' && s[i + 1] == '\n'
  }

  lemma OneCharMore(c: char, s: string)
    requires !HasCrLf(s) && !(c == '\r' && s != "" && s[0] == '\n')
    ensures !HasCrLf([c] + s)
  {
    var t := [c] + s;
    forall i | 0 <= i < |t| - 1 ensures !(t[i] == '\r' && t[i + 1] == '\n') {
      if i > 0 {
        assert t[i] == s[i - 1] && t[i + 1] == s[i];
      }
    }
  }

  /** The pieces of a text between its CR LF pairs are what the new text has between its new LFs. */
  lemma {:induction false} ReplaceCrLfMeans(text: string) returns (parts: seq<string>)
    ensures parts != [] && forall part | part in parts :: !HasCrLf(part)
    ensures text == Join(parts, "\r\n") && ReplaceCrLf(text) == Join(parts, "\n")
  {
    if |text| < 2 {
      parts := [text];
    } else if text[0] == '\r' && text[1] == '\n' {
      var rest := ReplaceCrLfMeans(text[2..]);
      parts := [""] + rest;
      assert parts[1..] == rest;
      assert text == "\r\n" + text[2..];
    } else {
      var rest := ReplaceCrLfMeans(text[1..]);
      parts := [[text[0]] + rest[0]] + rest[1..];
      FirstLonger(text[0], rest, "\r\n");
      FirstLonger(text[0], rest, "\n");
      FirstOfJoin(rest, "\r\n");
      OneCharMore(text[0], rest[0]);
      assert forall part | part in rest[1..] :: part in rest;
    }
  }

  lemma FirstOfJoin(parts: seq<string>, sep: string)
    requires parts != []
    ensures parts[0] != "" ==> Join(parts, sep) != "" && Join(parts, sep)[0] == parts[0][0]
  {
  }

  predicate HasPrefix(s: string, prefix: string): (r: bool)
    ensures r <==> prefix <= s
  {
    |prefix| <= |s| && s[..|prefix|] == prefix
  }

  lemma {:induction false} TrimLeftHead(s: string)
    ensures TrimLeft(s) != [] ==> !IsSpace(TrimLeft(s)[0])
  {
    if s != [] && IsSpace(s[0]) {
      TrimLeftHead(s[1..]);
    }
  }

  /** strings.Fields: the maximal runs of characters that are not spaces. */
  function Fields(s: string): seq<string>
    decreases |s|
  {
    var rest := TrimLeft(s);
    if rest == [] then []
    else
      TrimLeftHead(s);
      var n := FieldLength(rest);
      [rest[..n]] + Fields(rest[n..])
  }

  function FieldLength(s: string): (n: nat)
    ensures n <= |s|
    ensures s != [] && !IsSpace(s[0]) ==> n > 0
  {
    if s == [] || IsSpace(s[0]) then 0 else 1 + FieldLength(s[1..])
  }

  lemma {:induction false} TrimLeftBehind(blank: string, s: string)
    requires Blank(blank)
    ensures TrimLeft(blank + s) == TrimLeft(s)
  {
    if blank == [] {
      assert blank + s == s;
    } else {
      assert (blank + s)[1..] == blank[1..] + s;
      TrimLeftBehind(blank[1..], s);
    }
  }

  lemma {:induction false} TrimLeftBefore(s: string, tail: string)
    requires TrimLeft(s) != []
    ensures TrimLeft(s + tail) == TrimLeft(s) + tail
  {
    if IsSpace(s[0]) {
      assert (s + tail)[1..] == s[1..] + tail;
      TrimLeftBefore(s[1..], tail);
    }
  }

  lemma {:induction false} FieldEnds(s: string, tail: string)
    requires tail == [] || IsSpace(tail[0])
    ensures FieldLength(s + tail) == FieldLength(s)
  {
    if s == [] {
      assert s + tail == tail;
    } else if !IsSpace(s[0]) {
      assert (s + tail)[1..] == s[1..] + tail;
      FieldEnds(s[1..], tail);
    }
  }

  lemma BlankHasNoFields(s: string)
    requires TrimLeft(s) == []
    ensures Blank(s)
  {
    var before := TrimLeftShape(s);
  }

  /** White space of any kind and length separates fields, and nothing else does. */
  lemma {:induction false} FieldsAcrossSpace(a: string, blank: string, b: string)
    requires Blank(blank) && blank != ""
    ensures Fields(a + blank + b) == Fields(a) + Fields(b)
    decreases |a|
  {
    var tail, rest := blank + b, TrimLeft(a);
    assert a + blank + b == a + tail;
    if rest == [] {
      BlankHasNoFields(a);
      TrimLeftBehind(a, tail);
      TrimLeftBehind(blank, b);
    } else {
      TrimLeftBefore(a, tail);
      TrimLeftHead(a);
      FieldEnds(rest, tail);
      var n := FieldLength(rest);
      assert (rest + tail)[..n] == rest[..n] && (rest + tail)[n..] == rest[n..] + blank + b;
      FieldsAcrossSpace(rest[n..], blank, b);
    }
  }

  predicate IsWord(s: string) {
    s != "" && forall i | 0 <= i < |s| :: !IsSpace(s[i])
  }

  lemma {:induction false} FieldIsWord(s: string)
    ensures forall i | 0 <= i < FieldLength(s) :: !IsSpace(s[i])
    ensures FieldLength(s) < |s| ==> IsSpace(s[FieldLength(s)])
  {
    if s != "" && !IsSpace(s[0]) {
      FieldIsWord(s[1..]);
      assert forall i | 1 <= i < |s| :: s[i] == s[1..][i - 1];
    }
  }

  lemma FieldsStep(s: string, rest: string, n: nat)
    requires TrimLeft(s) == rest != [] && FieldLength(rest) == n
    ensures Fields(s) == [rest[..n]] + Fields(rest[n..])
  {
  }

  lemma {:induction false} FieldsAreWords(s: string)
    ensures forall word | word in Fields(s) :: IsWord(word)
    decreases |s|
  {
    var rest := TrimLeft(s);
    if rest != [] {
      TrimLeftHead(s);
      FieldIsWord(rest);
      FieldsStep(s, rest, FieldLength(rest));
      FieldsAreWords(rest[FieldLength(rest)..]);
    }
  }

  lemma OneField(word: string)
    requires IsWord(word)
    ensures Fields(word) == [word]
  {
    FieldIsWord(word);
    FieldsStep(word, word, |word|);
    assert word[..|word|] == word && word[|word|..] == [];
  }

  /** Words joined by single spaces are found again. */
  lemma {:induction false} FieldsOfJoined(words: seq<string>)
    requires forall word | word in words :: IsWord(word)
    ensures Fields(Join(words, " ")) == words
  {
    if words != [] {
      OneField(words[0]);
      if |words| > 1 {
        FieldsOfJoined(words[1..]);
        FieldsAcrossSpace(words[0], " ", Join(words[1..], " "));
      }
    }
  }

  function Mapped(f: char -> char, s: string): (r: string)
    ensures |r| == |s| && forall i | 0 <= i < |s| :: r[i] == f(s[i])
  {
    seq(|s|, i requires 0 <= i < |s| => f(s[i]))
  }

  /** The characters below this fit into n bytes: 7 bits into one, 5 * n + 1 bits into more. */
  function Utf8Capacity(n: nat): int {
    if n == 0 then 0 else if n == 1 then 0x80 else 64 * PowerOf32(n - 1)
  }

  function PowerOf32(n: nat): int {
    if n == 0 then 1 else 32 * PowerOf32(n - 1)
  }

  /** The number of bytes of the UTF-8 encoding: the smallest that the character fits into. */
  function CharBytes(c: char): (n: nat)
    ensures 1 <= n <= 4 && Utf8Capacity(n - 1) <= c as int < Utf8Capacity(n)
  {
    var n := c as int;
    if n < 0x80 then 1 else if n < 0x800 then 2 else if n < 0x10000 then 3 else 4
  }

  function Utf8Len(s: string): nat {
    if s == [] then 0 else Utf8Len(s[..|s| - 1]) + CharBytes(s[|s| - 1])
  }

  lemma {:induction false} Utf8Concat(a: string, b: string)
    ensures Utf8Len(a + b) == Utf8Len(a) + Utf8Len(b)
  {
    if b == [] {
      assert a + b == a;
    } else {
      assert (a + b)[..|a + b| - 1] == a + b[..|b| - 1];
      Utf8Concat(a, b[..|b| - 1]);
    }
  }

  ghost function BytesOf(s: string): set<(int, int)> {
    set i, b | 0 <= i < |s| && 0 <= b < CharBytes(s[i]) :: (i, b)
  }

  lemma {:induction false} FirstNumbers(i: int, n: nat)
    ensures |set b | 0 <= b < n :: (i, b)| == n
  {
    if n > 0 {
      FirstNumbers(i, n - 1);
      assert (set b | 0 <= b < n :: (i, b)) == (set b | 0 <= b < n - 1 :: (i, b)) + {(i, n - 1)};
    }
  }

  /** The length counts the bytes of every character. */
  lemma {:induction false} Utf8LenMeans(s: string)
    ensures Utf8Len(s) == |BytesOf(s)|
  {
    if s != [] {
      var n := |s| - 1;
      Utf8LenMeans(s[..n]);
      var last := set b | 0 <= b < CharBytes(s[n]) :: (n, b);
      FirstNumbers(n, CharBytes(s[n]));
      assert BytesOf(s) == BytesOf(s[..n]) + last;
    }
  }

  function Digit(n: nat): char
    requires n < 10
  {
    "0123456789"[n]
  }

  function Decimal(n: nat): string {
    if n < 10 then [Digit(n)] else Decimal(n / 10) + [Digit(n % 10)]
  }

  /** The number written with these digits. */
  function NumberOf(digits: string): int {
    if digits == "" then 0
    else 10 * NumberOf(digits[..|digits| - 1]) + (digits[|digits| - 1] as int - '0' as int)
  }

  predicate IsNumeral(s: string, n: nat) {
    s != "" && (forall i | 0 <= i < |s| :: '0' <= s[i] <= '9') && (|s| > 1 ==> s[0] != '0') && NumberOf(s) == n
  }

  /** %d: digits that read back as the number, without a leading zero. */
  lemma {:induction false} DecimalReadsBack(n: nat)
    ensures IsNumeral(Decimal(n), n) && (n > 0 ==> Decimal(n)[0] != '0')
  {
    var digit := Digit(n % 10);
    assert '0' <= digit <= '9' && digit as int - '0' as int == n % 10;
    if n >= 10 {
      DecimalReadsBack(n / 10);
      assert Decimal(n)[..|Decimal(n)| - 1] == Decimal(n / 10);
    } else {
      assert NumberOf("") == 0 && [digit][..0] == "";
    }
  }
}
