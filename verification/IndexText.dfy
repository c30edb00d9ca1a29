/**
  The text layer of the CA's index (raven/cert_revocation.py): serial numbers in hex, fields
  separated by tabs, one line per certificate.
*/
module IndexText {
  import opened Wrappers
  import opened Text

  // --- characters ---

  predicate Blank(s: string) {
    forall c | c in s :: IsSpace(c)
  }

  function Without(s: string, c: char): string {
    if s == "" then "" else if s[0] == c then Without(s[1..], c) else [s[0]] + Without(s[1..], c)
  }

  // --- serial numbers ---

  /** What ssl, openssl or the API may give as a serial. */
  datatype SerialValue = Missing | Flag(b: bool) | Number(n: int) | Text(s: string)

  function HexDigit(n: nat): char
    requires n < 16
  {
    if n < 10 then '0' + n as char else 'A' + (n - 10) as char
  }

  /** format(n, "X") */
  function Hex(n: nat): string {
    if n < 16 then [HexDigit(n)] else Hex(n / 16) + [HexDigit(n % 16)]
  }

  function HexValue(c: char): Option<nat> {
    if '0' <= c <= '9' then Some((c - '0') as nat)
    else if 'a' <= c <= 'f' then Some((c - 'a') as nat + 10)
    else if 'A' <= c <= 'F' then Some((c - 'A') as nat + 10)
    else None
  }

  function Shifted(head: Option<nat>, last: nat): Option<nat> {
    if head.None? then None else Some(16 * head.value + last)
  }

  /** Hex digits, single underscores allowed between two of them. */
  function ParseDigits(s: string): Option<nat> {
    if s == "" || HexValue(s[|s| - 1]).None? then None
    else
      var last, front := HexValue(s[|s| - 1]).value, s[..|s| - 1];
      if front == "" then Some(last)
      else if front[|front| - 1] == '_' then Shifted(ParseDigits(front[..|front| - 1]), last)
      else Shifted(ParseDigits(front), last)
  }

  /** int(s, 16): spaces around, a sign and another 0x are fine with Python. */
  function ParseInt16(s: string): Option<int> {
    var t := Strip(s);
    var signed := t != "" && (t[0] == '+' || t[0] == '-');
    var u := if signed then t[1..] else t;
    var prefixed := |u| >= 2 && u[..2] == "0x";
    var v := if prefixed then u[2..] else u;
    var digits := ParseDigits(if prefixed && v != "" && v[0] == '_' then v[1..] else v);
    if digits.None? then None
    else
      var n: int := digits.value;
      Some(if signed && t[0] == '-' then -n else n)
  }

  /** normalize_serial */
  function Normalize(v: SerialValue): Option<string> {
    match v
    case Missing => None
    case Flag(_) => None
    case Number(n) => if n < 0 then None else Some(Hex(n))
    case Text(s) =>
      var t := Lower(Without(Strip(s), ':'));
      var body := if |t| >= 2 && t[..2] == "0x" then t[2..] else t;
      if body == "" then None
      else
        var number := ParseInt16(body);
        if number.None? || number.value < 0 then None else Some(Hex(number.value))
  }

  /** _index_serial: openssl writes an even number of digits. */
  function IndexSerial(serial: string): string {
    if |serial| % 2 == 0 then serial else "0" + serial
  }

  ghost predicate Canonical(serial: string) {
    exists n: nat :: serial == Hex(n)
  }

  predicate UpperHex(s: string) {
    forall c | c in s :: ('0' <= c <= '9') || ('A' <= c <= 'F')
  }

  lemma HexDigitValue(n: nat)
    requires n < 16
    ensures HexValue(HexDigit(n)) == Some(n) && UpperHex([HexDigit(n)])
  {
  }

  lemma {:induction false} HexIsUpper(n: nat)
    ensures UpperHex(Hex(n)) && Hex(n) != ""
    ensures n > 0 ==> Hex(n)[0] != '0'
  {
    HexDigitValue(n % 16);
    if n >= 16 {
      HexIsUpper(n / 16);
    }
  }

  lemma ParseAppend(front: string, c: char, k: nat, v: nat)
    requires front != "" && front[|front| - 1] != '_'
    requires ParseDigits(front) == Some(k) && HexValue(c) == Some(v)
    ensures ParseDigits(front + [c]) == Some(16 * k + v)
  {
    var s := front + [c];
    assert s[|s| - 1] == c && s[..|s| - 1] == front;
    assert ParseDigits(s) == Shifted(ParseDigits(front), v);
  }

  lemma LowerConcat(a: string, b: string)
    ensures Lower(a + b) == Lower(a) + Lower(b)
  {
  }

  lemma {:induction false} ParseLowerHex(n: nat)
    ensures ParseDigits(Lower(Hex(n))) == Some(n)
  {
    var c := HexDigit(n % 16);
    HexDigitValue(n % 16);
    LowerHexValue(c);
    if n < 16 {
      assert Lower(Hex(n))[..0] == "";
    } else {
      ParseLowerHex(n / 16);
      HexIsUpper(n / 16);
      var front := Lower(Hex(n / 16));
      LowerUpperHex(Hex(n / 16));
      assert front[|front| - 1] in front;
      LowerConcat(Hex(n / 16), [c]);
      ParseAppend(front, Lower([c])[0], n / 16, n % 16);
      assert Lower([c]) == [Lower([c])[0]];
    }
  }

  lemma LowerHexValue(c: char)
    requires UpperHex([c])
    ensures HexValue(Lower([c])[0]) == HexValue(c)
  {
  }

  lemma LowerUpperHex(s: string)
    requires UpperHex(s)
    ensures forall c | c in Lower(s) :: ('0' <= c <= '9') || ('a' <= c <= 'f')
  {
    forall i | 0 <= i < |s|
      ensures ('0' <= Lower(s)[i] <= '9') || ('a' <= Lower(s)[i] <= 'f')
    {
      assert s[i] in s;
    }
  }

  /** A leading zero changes nothing. */
  lemma {:induction false} ParseLeadingZero(s: string)
    requires s != "" && forall c | c in s :: HexValue(c).Some?
    ensures ParseDigits("0" + s) == ParseDigits(s) && ParseDigits(s).Some?
  {
    var t := "0" + s;
    assert t[..|t| - 1] == "0" + s[..|s| - 1];
    assert s[|s| - 1] in s;
    if |s| == 1 {
      assert t[..1] == "0" && "0"[..0] == "";
      assert ParseDigits("0") == Some(0);
    } else {
      var front := s[..|s| - 1];
      assert forall c | c in front :: c in s;
      assert front[|front| - 1] in s;
      ParseLeadingZero(front);
      assert (("0" + front))[|front|] == front[|front| - 1];
    }
  }

  lemma {:induction false} WithoutAbsent(s: string, c: char)
    requires c !in s
    ensures Without(s, c) == s
  {
    if s != "" {
      assert s[0] in s;
      WithoutAbsent(s[1..], c);
    }
  }

  predicate LowerHexText(t: string) {
    t != "" && forall c | c in t :: ('0' <= c <= '9') || ('a' <= c <= 'f')
  }

  lemma StripPlain(s: string)
    requires s != "" && !IsSpace(s[0]) && !IsSpace(s[|s| - 1])
    ensures Strip(s) == s
  {
  }

  lemma ParsePlain(t: string)
    requires LowerHexText(t) && ParseDigits(t).Some?
    ensures ParseInt16(t) == Some(ParseDigits(t).value)
    ensures |t| >= 2 ==> t[..2] != "0x"
  {
    assert t[0] in t && t[|t| - 1] in t;
    StripPlain(t);
    if |t| >= 2 {
      assert t[1] in t;
      assert t[..2][1] == t[1];
    }
  }

  /** Plain hex text, as it stands in the index, is read as the number it spells. */
  lemma NormalizePlain(s: string, n: nat)
    requires s != "" && UpperHex(s) && ParseDigits(Lower(s)) == Some(n)
    ensures Normalize(Text(s)) == Some(Hex(n))
  {
    assert s[0] in s && s[|s| - 1] in s;
    StripPlain(s);
    WithoutAbsent(s, ':');
    LowerUpperHex(s);
    ParsePlain(Lower(s));
  }

  lemma PadLower(s: string)
    ensures Lower("0" + s) == "0" + Lower(s)
  {
  }

  lemma NormalizePadded(n: nat)
    ensures Normalize(Text("0" + Hex(n))) == Some(Hex(n))
  {
    var serial := Hex(n);
    HexIsUpper(n);
    ParseLowerHex(n);
    LowerUpperHex(serial);
    PadLower(serial);
    ParseLeadingZero(Lower(serial));
    NormalizePlain("0" + serial, n);
  }

  lemma NormalizeHex(n: nat)
    ensures Normalize(Text(Hex(n))) == Some(Hex(n))
  {
    HexIsUpper(n);
    ParseLowerHex(n);
    NormalizePlain(Hex(n), n);
  }

  lemma IndexSerialCases(serial: string)
    ensures IndexSerial(serial) == serial || IndexSerial(serial) == "0" + serial
    ensures |IndexSerial(serial)| % 2 == 0
  {
  }

  /** normalize_serial undoes _index_serial: the padded serial of the index is the serial. */
  lemma NormalizeIndexSerial(serial: string)
    requires Canonical(serial)
    ensures Normalize(Text(IndexSerial(serial))) == Some(serial)
  {
    var n: nat :| serial == Hex(n);
    IndexSerialCases(serial);
    if IndexSerial(serial) == serial {
      NormalizeHex(n);
    } else {
      NormalizePadded(n);
    }
  }

  /** What normalize_serial returns is uppercase hex without leading zeros, and normal already. */
  lemma NormalizeIsIdempotent(v: SerialValue)
    requires Normalize(v).Some?
    ensures var r := Normalize(v).value;
            && Canonical(r) && UpperHex(r) && r != "" && (r[0] == '0' ==> r == "0")
            && Normalize(Text(r)) == Some(r)
  {
    var r := Normalize(v).value;
    var n: nat := match v
      case Number(k) => k as nat
      case Text(s) =>
        var t := Lower(Without(Strip(s), ':'));
        ParseInt16(if |t| >= 2 && t[..2] == "0x" then t[2..] else t).value as nat;
    assert r == Hex(n);
    HexIsUpper(n);
    NormalizeHex(n);
  }

  // --- fields ---

  function Split(s: string): (fields: seq<string>)
    ensures |fields| > 0
    ensures forall f | f in fields :: '\t' !in f
  {
    if s == "" then [""]
    else
      var rest := Split(s[1..]);
      if s[0] == '\t' then [""] + rest
      else [[s[0]] + rest[0]] + rest[1..]
  }

  function Join(fields: seq<string>): string {
    if fields == [] then ""
    else if |fields| == 1 then fields[0]
    else fields[0] + "\t" + Join(fields[1..])
  }

  lemma {:induction false} JoinSplit(s: string)
    ensures Join(Split(s)) == s
  {
    if s != "" {
      JoinSplit(s[1..]);
      var rest := Split(s[1..]);
      if s[0] == '\t' {
        assert ([""] + rest)[1..] == rest;
      } else if |rest| > 1 {
        assert ([[s[0]] + rest[0]] + rest[1..])[1..] == rest[1..];
        assert Join(rest) == rest[0] + "\t" + Join(rest[1..]);
        assert [s[0]] + (rest[0] + "\t" + Join(rest[1..])) == ([s[0]] + rest[0]) + "\t" + Join(rest[1..]);
      }
    }
  }

  lemma JoinFirstChar(f: string, rest: seq<string>)
    requires f != ""
    ensures Join([f] + rest) != "" && Join([f] + rest)[0] == f[0]
    ensures Join([f] + rest)[1..] == Join([f[1..]] + rest)
  {
  }

  lemma {:induction false} SplitJoin(fields: seq<string>)
    requires |fields| > 0 && forall f | f in fields :: '\t' !in f
    ensures Split(Join(fields)) == fields
    decreases |fields|, |fields[0]|
  {
    var s, f := Join(fields), fields[0];
    assert f in fields && fields == [f] + fields[1..];
    if f != "" {
      var shorter := [f[1..]] + fields[1..];
      assert forall c | c in f[1..] :: c in f;
      assert forall g | g in fields[1..] :: g in fields;
      SplitJoin(shorter);
      JoinFirstChar(f, fields[1..]);
      assert f[0] in f;
      assert [f[0]] + f[1..] == f;
    } else if |fields| > 1 {
      assert s == "\t" + Join(fields[1..]);
      assert s[1..] == Join(fields[1..]);
      SplitJoin(fields[1..]);
    }
  }

  // --- lines ---

  predicate CleanLine(line: string) {
    '\n' !in line && '\r' !in line && !Blank(line)
  }

  /** Reading in text mode: "\r\n" and "\r" are line ends too. */
  function Translate(text: string): string {
    if text == "" then ""
    else if text[0] == '\r' then
      if |text| > 1 && text[1] == '\n' then "\n" + Translate(text[2..]) else "\n" + Translate(text[1..])
    else [text[0]] + Translate(text[1..])
  }

  /** The lines of a translated text that are not blank; line is the one being read. */
  function Lines(text: string, line: string): seq<string> {
    if text == "" then (if Blank(line) then [] else [line])
    else if text[0] == '\n' then (if Blank(line) then [] else [line]) + Lines(text[1..], "")
    else Lines(text[1..], line + [text[0]])
  }

  /** _read_index */
  function ReadIndex(text: string): seq<string> {
    Lines(Translate(text), "")
  }

  /** "".join(line + "\n" for line in lines) */
  function PrintIndex(lines: seq<string>): string {
    if lines == [] then "" else lines[0] + "\n" + PrintIndex(lines[1..])
  }

  lemma {:induction false} TranslateClean(line: string, rest: string)
    requires '\r' !in line
    ensures Translate(line + rest) == line + Translate(rest)
  {
    if line == "" {
      assert line + rest == rest;
    } else {
      assert line[0] in line;
      assert (line + rest)[1..] == line[1..] + rest;
      TranslateClean(line[1..], rest);
    }
  }

  lemma {:induction false} LinesOfLine(before: string, line: string, rest: string)
    requires '\n' !in line
    ensures Lines(line + "\n" + rest, before)
         == (if Blank(before + line) then [] else [before + line]) + Lines(rest, "")
    decreases |line|
  {
    var text := line + "\n" + rest;
    if line == "" {
      assert text == "\n" + rest;
      assert text[1..] == rest && before + line == before;
    } else {
      assert line[0] in line;
      assert text[1..] == line[1..] + "\n" + rest;
      LinesOfLine(before + [line[0]], line[1..], rest);
      assert before + [line[0]] + line[1..] == before + line;
    }
  }

  /** Printing then reading the index is the identity on clean lines. */
  lemma {:induction false} ReadPrint(lines: seq<string>)
    requires forall l | l in lines :: CleanLine(l)
    ensures ReadIndex(PrintIndex(lines)) == lines
  {
    if lines != [] {
      assert lines[0] in lines;
      var rest := PrintIndex(lines[1..]);
      ReadPrint(lines[1..]);
      TranslateClean(lines[0] + "\n", rest);
      assert lines[0] + "\n" + rest == (lines[0] + "\n") + rest;
      LinesOfLine("", lines[0], Translate(rest));
      assert "" + lines[0] == lines[0];
      assert (lines[0] + "\n") + Translate(rest) == lines[0] + "\n" + Translate(rest);
    }
  }

  lemma {:induction false} TranslateHasNoReturns(text: string)
    ensures '\r' !in Translate(text)
    decreases |text|
  {
    if text != "" {
      if text[0] == '\r' && |text| > 1 && text[1] == '\n' {
        TranslateHasNoReturns(text[2..]);
      } else {
        TranslateHasNoReturns(text[1..]);
      }
    }
  }

  lemma {:induction false} LinesAreClean(text: string, line: string)
    requires '\r' !in text && '\r' !in line && '\n' !in line
    ensures forall l | l in Lines(text, line) :: CleanLine(l)
    decreases |text|
  {
    if text != "" {
      assert text[0] in text;
      assert forall c | c in text[1..] :: c in text;
      if text[0] == '\n' {
        LinesAreClean(text[1..], "");
      } else {
        LinesAreClean(text[1..], line + [text[0]]);
      }
    }
  }

  /** Whatever the file holds, the lines read from it are clean. */
  lemma ReadIsClean(text: string)
    ensures forall l | l in ReadIndex(text) :: CleanLine(l)
  {
    TranslateHasNoReturns(text);
    LinesAreClean(Translate(text), "");
  }

  // --- subjects ---

  /** str.split(): the words of a text; word is the one being read. */
  function Words(s: string, word: string): seq<string> {
    if s == "" then (if word == "" then [] else [word])
    else if IsSpace(s[0]) then (if word == "" then [] else [word]) + Words(s[1..], "")
    else Words(s[1..], word + [s[0]])
  }

  function JoinWords(words: seq<string>): string {
    if words == [] then ""
    else if |words| == 1 then words[0]
    else words[0] + " " + JoinWords(words[1..])
  }

  predicate OneLiner(s: string) {
    forall c | c in s :: c == ' ' || !IsSpace(c)
  }

  lemma {:induction false} WordsHaveNoSpaces(s: string, word: string)
    requires forall c | c in word :: !IsSpace(c)
    ensures forall w | w in Words(s, word) :: forall c | c in w :: !IsSpace(c)
    decreases |s|
  {
    if s != "" {
      if IsSpace(s[0]) {
        WordsHaveNoSpaces(s[1..], "");
      } else {
        WordsHaveNoSpaces(s[1..], word + [s[0]]);
      }
    }
  }

  lemma {:induction false} JoinWordsIsOneLiner(words: seq<string>)
    requires forall w | w in words :: forall c | c in w :: !IsSpace(c)
    ensures OneLiner(JoinWords(words))
  {
    if words != [] {
      assert words[0] in words;
      assert forall w | w in words[1..] :: w in words;
      JoinWordsIsOneLiner(words[1..]);
    }
  }

  /** " ".join(subject.split()): tabs and newlines would break the index. */
  function Subject(subject: string): (r: string)
    ensures OneLiner(r)
  {
    var words := Words(if subject == "" then "/CN=unknown" else subject, "");
    WordsHaveNoSpaces(if subject == "" then "/CN=unknown" else subject, "");
    JoinWordsIsOneLiner(words);
    JoinWords(words)
  }
}
