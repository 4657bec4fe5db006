/** String operations the screens perform: JavaScript white space and `trim`, lower-casing,
    substring search (`includes`), `Array.prototype.join`, and the CSV text the export buttons
    build (a plain header line, then one line per row with every cell wrapped in double quotes,
    cells joined by `,` and lines by a newline, with no escaping). */
module Text {
  import opened Seqs

  /** The characters matched by the `\s` class of JavaScript regular expressions, which are
      also the ones `String.prototype.trim` removes. */
  predicate IsWhite(c: char) {
    c in {'\t', '\n', '\U{000B}', '\U{000C}', '\r', ' ', '\U{00A0}', '\U{1680}',
          '\U{2028}', '\U{2029}', '\U{202F}', '\U{205F}', '\U{3000}', '\U{FEFF}'}
    || '\U{2000}' <= c <= '\U{200A}'
  }

  /** Every character is white space (the empty string included). */
  predicate IsBlank(s: string) {
    forall i :: 0 <= i < |s| ==> IsWhite(s[i])
  }

  function TrimStart(s: string): (r: string)
    ensures r == "" || !IsWhite(r[0])
  {
    if |s| > 0 && IsWhite(s[0]) then TrimStart(s[1..]) else s
  }

  function TrimEnd(s: string): string {
    if |s| > 0 && IsWhite(s[|s| - 1]) then TrimEnd(s[..|s| - 1]) else s
  }

  /** `String.prototype.trim`. */
  function Trim(s: string): string {
    TrimEnd(TrimStart(s))
  }

  lemma {:induction false} TrimStartEmpty(s: string)
    ensures TrimStart(s) == "" <==> IsBlank(s)
  {
    if |s| > 0 && IsWhite(s[0]) {
      TrimStartEmpty(s[1..]);
      assert forall i :: 1 <= i < |s| ==> s[i] == s[1..][i - 1];
    }
  }

  lemma {:induction false} TrimEndEmpty(s: string)
    ensures TrimEnd(s) == "" <==> IsBlank(s)
  {
    if |s| > 0 && IsWhite(s[|s| - 1]) {
      TrimEndEmpty(s[..|s| - 1]);
      assert forall i :: 0 <= i < |s| - 1 ==> s[i] == s[..|s| - 1][i];
    }
  }

  /** A string trims to nothing exactly when it is all white space: `!s.trim()` is the
      "missing" test of the enrolment form. */
  lemma TrimEmptyIffBlank(s: string)
    ensures Trim(s) == "" <==> IsBlank(s)
  {
    TrimStartEmpty(s);
    TrimEndEmpty(TrimStart(s));
  }

  /** Lower-casing of one character, for the capitals `toLowerCase` maps to a single small
      letter in these ranges only: A–Z (U+0041–005A), U+00C0–00DE without ×, Latin Extended-A
      (U+0100–017F, all its capitals but U+0130 İ, whose small form is two characters), the
      basic Greek capitals U+0386–03AB and the Cyrillic capitals U+0400–042F. Every other
      character is left as it is. Among the capitals this leaves unchanged: Ͱ, Ͳ, Ͷ, Ϳ, Ϗ,
      Ϙ–Ϯ (such as Ϙ U+03D8), ϴ, Ϸ, Ϲ, Ϻ and Ͻ–Ͽ of the Greek block; the Cyrillic U+0460–04FF
      (such as Ѡ, Ґ U+0490, Ҷ, Ӂ, Ӑ); Latin Extended-B (such as Ș U+0218), Latin Extended
      Additional (such as Ạ U+1EA0), the Cyrillic supplement and every other script. Greek
      final sigma is not produced. */
  function LowerChar(c: char): char {
    var n := c as int;
    if 0x41 <= n <= 0x5A || (0xC0 <= n <= 0xDE && n != 0xD7) then (n + 32) as char
    else if (0x100 <= n <= 0x12F || 0x132 <= n <= 0x137 || 0x14A <= n <= 0x177) && n % 2 == 0 then (n + 1) as char
    else if (0x139 <= n <= 0x148 || 0x179 <= n <= 0x17E) && n % 2 == 1 then (n + 1) as char
    else if n == 0x178 then '\U{00FF}'
    else if n == 0x386 then '\U{03AC}'
    else if 0x388 <= n <= 0x38A then (n + 37) as char
    else if n == 0x38C then '\U{03CC}'
    else if n == 0x38E || n == 0x38F then (n + 63) as char
    else if 0x391 <= n <= 0x3AB && n != 0x3A2 then (n + 32) as char
    else if 0x400 <= n <= 0x40F then (n + 80) as char
    else if 0x410 <= n <= 0x42F then (n + 32) as char
    else c
  }

  /** Capitals outside the lowered ranges are kept as they are: the Ukrainian Ґ, the Greek
      Ϙ, the Romanian Ș and the Vietnamese Ạ. */
  lemma LowerCharGaps()
    ensures LowerChar('\U{0490}') == '\U{0490}' && LowerChar('\U{03D8}') == '\U{03D8}'
    ensures LowerChar('\U{0218}') == '\U{0218}' && LowerChar('\U{1EA0}') == '\U{1EA0}'
  {
  }

  /** A lowered character lowers to itself: no mapping lands on a capital. */
  lemma LowerCharIdempotent(c: char)
    ensures LowerChar(LowerChar(c)) == LowerChar(c)
  {
  }

  /** The French ligature and the diaeresis Y, absent from Latin-1's capitals, are lowered. */
  lemma LowerCharLigatures()
    ensures LowerChar('\U{0152}') == '\U{0153}' && LowerChar('\U{0178}') == '\U{00FF}'
    ensures LowerChar('\U{00C9}') == '\U{00E9}' && LowerChar('\U{00E9}') == '\U{00E9}'
  {
  }

  /** `String.prototype.toLowerCase`, character by character, for the capitals `LowerChar`
      covers. */
  function ToLower(s: string): (r: string)
    ensures |r| == |s|
    ensures forall i :: 0 <= i < |s| ==> r[i] == LowerChar(s[i])
  {
    seq(|s|, i requires 0 <= i < |s| => LowerChar(s[i]))
  }

  lemma ToLowerIdempotent(s: string)
    ensures ToLower(ToLower(s)) == ToLower(s)
  {
    forall i | 0 <= i < |s|
      ensures ToLower(ToLower(s))[i] == ToLower(s)[i]
    {
      LowerCharIdempotent(s[i]);
    }
  }

  predicate StartsWith(s: string, p: string) {
    |p| <= |s| && s[..|p|] == p
  }

  /** `String.prototype.includes`: `p` occurs somewhere in `s`. */
  predicate Contains(s: string, p: string)
    decreases |s|
  {
    StartsWith(s, p) || (|s| > 0 && Contains(s[1..], p))
  }

  /** `includes` finds `p` exactly when some slice of `s` equals it. */
  lemma {:induction false} ContainsAt(s: string, p: string, k: nat)
    requires k + |p| <= |s| && s[k..k + |p|] == p
    ensures Contains(s, p)
  {
    if k > 0 {
      assert s[1..][k - 1..k - 1 + |p|] == s[k..k + |p|];
      ContainsAt(s[1..], p, k - 1);
    }
  }

  lemma {:induction false} ContainsWitness(s: string, p: string) returns (k: nat)
    requires Contains(s, p)
    ensures k + |p| <= |s| && s[k..k + |p|] == p
  {
    if StartsWith(s, p) {
      k := 0;
    } else {
      var k' := ContainsWitness(s[1..], p);
      k := k' + 1;
      assert s[1..][k'..k' + |p|] == s[k..k + |p|];
    }
  }

  /** The empty needle occurs in every string: an empty search box filters nothing out. */
  lemma ContainsEmpty(s: string)
    ensures Contains(s, "")
  {
  }

  /** A search for the small ligature finds a name written with the capital one. */
  lemma LigatureSearch()
    ensures Contains(ToLower("\U{0152}uvre"), ToLower("\U{0153}"))
  {
    assert ToLower("\U{0152}uvre")[0..1] == ToLower("\U{0153}");
    ContainsAt(ToLower("\U{0152}uvre"), ToLower("\U{0153}"), 0);
  }

  /** Only the empty needle occurs in the empty string. */
  lemma ContainsInEmpty(p: string)
    ensures Contains("", p) <==> p == ""
  {
  }

  /** `Array.prototype.join(sep)`. */
  function Join(parts: seq<string>, sep: string): string {
    if |parts| == 0 then ""
    else if |parts| == 1 then parts[0]
    else Join(parts[..|parts| - 1], sep) + sep + parts[|parts| - 1]
  }

  function CountChar(s: string, c: char): nat {
    if |s| == 0 then 0 else CountChar(s[..|s| - 1], c) + (if s[|s| - 1] == c then 1 else 0)
  }

  lemma {:induction false} CountCharConcat(a: string, b: string, c: char)
    ensures CountChar(a + b, c) == CountChar(a, c) + CountChar(b, c)
  {
    if |b| > 0 {
      assert (a + b)[..|a + b| - 1] == a + b[..|b| - 1];
      CountCharConcat(a, b[..|b| - 1], c);
    } else {
      assert a + b == a;
    }
  }

  /** The occurrences of `c` in all the parts together. */
  function CountInParts(parts: seq<string>, c: char): nat {
    if |parts| == 0 then 0 else CountInParts(parts[..|parts| - 1], c) + CountChar(parts[|parts| - 1], c)
  }

  lemma MulSucc(n: int, k: int)
    ensures (n + 1) * k == n * k + k
  {
  }

  /** Joining n parts adds n - 1 separators. */
  lemma {:induction false} JoinCount(parts: seq<string>, sep: string, c: char)
    requires |parts| > 0
    ensures CountChar(Join(parts, sep), c) == CountInParts(parts, c) + (|parts| - 1) * CountChar(sep, c)
  {
    if |parts| > 1 {
      var p, last := parts[..|parts| - 1], parts[|parts| - 1];
      var k := CountChar(sep, c);
      JoinCount(p, sep, c);
      assert Join(parts, sep) == Join(p, sep) + sep + last;
      CountCharConcat(Join(p, sep), sep, c);
      CountCharConcat(Join(p, sep) + sep, last, c);
      assert CountChar(Join(parts, sep), c) == CountChar(Join(p, sep), c) + k + CountChar(last, c);
      assert CountInParts(parts, c) == CountInParts(p, c) + CountChar(last, c);
      MulSucc(|p| - 1, k);
    } else {
      assert parts[..0] == [];
      assert CountInParts(parts, c) == CountChar(parts[0], c);
      assert (|parts| - 1) * CountChar(sep, c) == 0;
    }
  }

  /** A CSV cell as the exports write it: wrapped in double quotes, nothing escaped. */
  function Quote(cell: string): string {
    "\"" + cell + "\""
  }

  /** A data line of an export: `row.map(cell => '"' + cell + '"').join(',')`. */
  function QuotedLine(row: seq<string>): string {
    Join(MapSeq(row, Quote), ",")
  }

  /** The whole export: the header line (not quoted), then one quoted line per row, joined
      by newlines. */
  function CsvText(headers: seq<string>, rows: seq<seq<string>>): string {
    Join([Join(headers, ",")] + MapSeq(rows, QuotedLine), "\n")
  }

  /** No cell of any row contains the character `c`. */
  predicate CellsFree(rows: seq<seq<string>>, c: char) {
    forall i, j :: 0 <= i < |rows| && 0 <= j < |rows[i]| ==> c !in rows[i][j]
  }

  lemma {:induction false} NotInCount(s: string, c: char)
    requires c !in s
    ensures CountChar(s, c) == 0
  {
    if |s| > 0 {
      assert s[..|s| - 1] + [s[|s| - 1]] == s;
      NotInCount(s[..|s| - 1], c);
    }
  }

  lemma {:induction false} QuoteCount(cell: string, c: char)
    ensures CountChar(Quote(cell), c) == CountChar(cell, c) + (if c == '"' then 2 else 0)
  {
    CountCharConcat("\"" + cell, "\"", c);
    CountCharConcat("\"", cell, c);
  }

  lemma {:induction false} QuotedCountInParts(row: seq<string>, c: char)
    requires forall j :: 0 <= j < |row| ==> c !in row[j]
    ensures CountInParts(MapSeq(row, Quote), c) == (if c == '"' then 2 * |row| else 0)
  {
    if |row| > 0 {
      var p := row[..|row| - 1];
      QuotedCountInParts(p, c);
      assert MapSeq(row, Quote)[..|row| - 1] == MapSeq(p, Quote);
      QuoteCount(row[|row| - 1], c);
      NotInCount(row[|row| - 1], c);
    }
  }

  /** Every cell of a data line gets exactly two quote characters when the cells hold none
      themselves: each cell is wrapped, none is escaped. */
  lemma QuotedLineQuotes(row: seq<string>)
    requires forall j :: 0 <= j < |row| ==> '"' !in row[j]
    ensures CountChar(QuotedLine(row), '"') == 2 * |row|
  {
    QuotedCountInParts(row, '"');
    if |row| > 0 {
      assert CountChar(",", '"') == 0;
      JoinCount(MapSeq(row, Quote), ",", '"');
    }
  }

  /** The cells are joined with one comma between neighbours. */
  lemma QuotedLineCommas(row: seq<string>)
    requires |row| > 0
    requires forall j :: 0 <= j < |row| ==> ',' !in row[j]
    ensures CountChar(QuotedLine(row), ',') == |row| - 1
  {
    QuotedCountInParts(row, ',');
    assert CountChar(",", ',') == 1;
    JoinCount(MapSeq(row, Quote), ",", ',');
  }

  /** A data line of cells without a line break has none. */
  lemma LineFree(row: seq<string>)
    requires forall j :: 0 <= j < |row| ==> '\n' !in row[j]
    ensures CountChar(QuotedLine(row), '\n') == 0
  {
    QuotedCountInParts(row, '\n');
    if |row| > 0 {
      assert CountChar(",", '\n') == 0;
      JoinCount(MapSeq(row, Quote), ",", '\n');
    }
  }

  lemma {:induction false} QuotedLinesNewlines(rows: seq<seq<string>>)
    requires CellsFree(rows, '\n')
    ensures CountInParts(MapSeq(rows, QuotedLine), '\n') == 0
  {
    if |rows| > 0 {
      var p, last := rows[..|rows| - 1], rows[|rows| - 1];
      assert CellsFree(p, '\n') by {
        forall i, j | 0 <= i < |p| && 0 <= j < |p[i]|
          ensures '\n' !in p[i][j]
        {
          assert p[i] == rows[i];
        }
      }
      QuotedLinesNewlines(p);
      var lines := MapSeq(rows, QuotedLine);
      assert lines[..|rows| - 1] == MapSeq(p, QuotedLine);
      assert lines[|rows| - 1] == QuotedLine(last);
      LineFree(last);
    }
  }

  lemma {:induction false} CountInPartsConcat(a: seq<string>, b: seq<string>, c: char)
    ensures CountInParts(a + b, c) == CountInParts(a, c) + CountInParts(b, c)
  {
    if |b| > 0 {
      assert (a + b)[..|a + b| - 1] == a + b[..|b| - 1];
      CountInPartsConcat(a, b[..|b| - 1], c);
    } else {
      assert a + b == a;
    }
  }

  lemma {:induction false} PartsFree(parts: seq<string>, c: char)
    requires forall j :: 0 <= j < |parts| ==> c !in parts[j]
    ensures CountInParts(parts, c) == 0
  {
    if |parts| > 0 {
      PartsFree(parts[..|parts| - 1], c);
      NotInCount(parts[|parts| - 1], c);
    }
  }

  lemma HeaderLineFree(headers: seq<string>)
    requires forall j :: 0 <= j < |headers| ==> '\n' !in headers[j]
    ensures CountChar(Join(headers, ","), '\n') == 0
  {
    PartsFree(headers, '\n');
    if |headers| > 0 {
      assert CountInParts(headers, '\n') == 0;
      var k := CountChar(",", '\n');
      assert k == 0 by {
        assert ","[..0] == "";
      }
      JoinCount(headers, ",", '\n');
      assert CountChar(Join(headers, ","), '\n') == 0 + (|headers| - 1) * k;
    } else {
      assert Join(headers, ",") == "";
    }
  }

  /** Joining lines free of newlines with a newline separator gives one newline fewer
      than there are lines. */
  lemma JoinLinesCount(lines: seq<string>)
    requires |lines| > 0
    requires CountInParts(lines, '\n') == 0
    ensures CountChar(Join(lines, "\n"), '\n') == |lines| - 1
  {
    assert CountChar("\n", '\n') == 1 by {
      assert "\n"[..0] == "";
    }
    JoinCount(lines, "\n", '\n');
  }

  /** When no header and no cell holds a newline, the export has exactly one newline per data
      row: one header line followed by one line per row. */
  lemma CsvLineCount(headers: seq<string>, rows: seq<seq<string>>)
    requires forall j :: 0 <= j < |headers| ==> '\n' !in headers[j]
    requires CellsFree(rows, '\n')
    ensures CountChar(CsvText(headers, rows), '\n') == |rows|
  {
    var head := [Join(headers, ",")];
    var body := MapSeq(rows, QuotedLine);
    HeaderLineFree(headers);
    assert head[..0] == [];
    assert CountInParts(head, '\n') == 0;
    QuotedLinesNewlines(rows);
    CountInPartsConcat(head, body, '\n');
    JoinLinesCount(head + body);
  }

  /** Quotes inside a cell are not escaped: the cell `a"b` is written `"a"b"`, three quote
      characters where a spreadsheet expects the doubled `""`. */
  lemma QuoteDoesNotEscape()
    ensures Quote("a\"b") == "\"a\"b\""
  {
  }

  predicate IsDigit(c: char) {
    '0' <= c <= '9'
  }

  /** The decimal digits of a natural number, most significant first, as `String(n)` writes
      them. */
  function NatToString(n: nat): (r: string)
    ensures |r| > 0
    ensures forall i :: 0 <= i < |r| ==> IsDigit(r[i])
    ensures n < 10 <==> |r| == 1
  {
    if n < 10 then [(48 + n) as char] else NatToString(n / 10) + [(48 + n % 10) as char]
  }

  /** The value the digits denote. */
  function DigitsValue(s: string): int {
    if |s| == 0 then 0 else 10 * DigitsValue(s[..|s| - 1]) + (s[|s| - 1] as int - 48)
  }

  /** Reading the digits back gives the number: the formatting loses nothing. */
  lemma {:induction false} NatToStringValue(n: nat)
    ensures DigitsValue(NatToString(n)) == n
  {
    if n >= 10 {
      NatToStringValue(n / 10);
      var r := NatToString(n);
      assert r[..|r| - 1] == NatToString(n / 10);
    } else {
      assert NatToString(n)[..0] == "";
    }
  }

  /** `String(n)` for an integer: a minus sign before the digits of a negative number. */
  function IntToString(n: int): (r: string)
    ensures |r| > 0
    ensures forall i :: 0 <= i < |r| ==> IsDigit(r[i]) || (i == 0 && r[i] == '-')
    ensures n < 0 <==> r[0] == '-'
  {
    if n < 0 then "-" + NatToString(-n) else NatToString(n)
  }
}
