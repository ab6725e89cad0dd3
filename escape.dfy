/** The two string transforms of the batch export (src/components/Buttons.tsx):
    `escapeString`, which makes a label safe to embed in a double-quoted
    OpenSCAD string literal, and `makeFilenameSafe`, which spells out the
    characters a file name may not contain. Both are chains of global
    single-character `replace` calls; each is modelled as that chain and then
    proved equal to a per-character map, from which its properties follow. */
module Escape {
  import opened Base
  import opened Strings

  /** `s.replace(/c/g, w)` for a one-character pattern and a replacement
      without `$`: every occurrence of `c` becomes `w`. */
  function ReplaceChar(s: string, c: char, w: string): string {
    if |s| == 0 then "" else (if s[0] == c then w else [s[0]]) + ReplaceChar(s[1..], c, w)
  }

  /** `s.replace(/k0/g, w0).replace(/k1/g, w1)...`: the replacements applied
      one after the other, in table order. */
  function Chain(s: string, table: seq<(char, string)>): string
    decreases |table|
  {
    if |table| == 0 then s else Chain(ReplaceChar(s, table[0].0, table[0].1), table[1..])
  }

  /** What the first entry for `c` turns `c` into (`c` itself when none). */
  function Lookup(c: char, table: seq<(char, string)>): string {
    if |table| == 0 then [c] else if table[0].0 == c then table[0].1 else Lookup(c, table[1..])
  }

  /** Every character replaced by what the table says for it. */
  function MapEach(s: string, table: seq<(char, string)>): string {
    if |s| == 0 then "" else Lookup(s[0], table) + MapEach(s[1..], table)
  }

  /** No replacement word contains a character a later replacement looks for. */
  predicate Independent(table: seq<(char, string)>) {
    forall i, j :: 0 <= i < j < |table| ==> table[j].0 !in table[i].1
  }

  lemma {:induction false} MapEachAppend(a: string, b: string, table: seq<(char, string)>)
    ensures MapEach(a + b, table) == MapEach(a, table) + MapEach(b, table)
  {
    if |a| > 0 {
      assert (a + b)[1..] == a[1..] + b;
      MapEachAppend(a[1..], b, table);
    } else {
      assert a + b == b;
    }
  }

  lemma {:induction false} MapEachFixes(w: string, table: seq<(char, string)>)
    requires forall i :: 0 <= i < |table| ==> table[i].0 !in w
    ensures MapEach(w, table) == w
  {
    if |w| > 0 {
      LookupAbsent(w[0], table);
      MapEachFixes(w[1..], table);
      assert w == [w[0]] + w[1..];
    }
  }

  lemma {:induction false} LookupAbsent(c: char, table: seq<(char, string)>)
    requires forall i :: 0 <= i < |table| ==> table[i].0 != c
    ensures Lookup(c, table) == [c]
  {
    if |table| > 0 {
      LookupAbsent(c, table[1..]);
    }
  }

  /** Applying the first replacement and then mapping with the rest of the
      table is mapping with the whole table. */
  lemma {:induction false} FirstStage(s: string, table: seq<(char, string)>)
    requires |table| > 0 && Independent(table)
    ensures MapEach(ReplaceChar(s, table[0].0, table[0].1), table[1..]) == MapEach(s, table)
  {
    if |s| > 0 {
      var k, w, rest := table[0].0, table[0].1, table[1..];
      var head := if s[0] == k then w else [s[0]];
      FirstStage(s[1..], table);
      MapEachAppend(head, ReplaceChar(s[1..], k, w), rest);
      if s[0] == k {
        forall i | 0 <= i < |rest| ensures rest[i].0 !in w {
          assert rest[i] == table[i + 1];
        }
        MapEachFixes(w, rest);
      } else {
        assert [s[0]][1..] == [];
      }
    }
  }

  /** For an independent table the chain of replacements acts on each
      character on its own. */
  lemma {:induction false} ChainPerChar(s: string, table: seq<(char, string)>)
    requires Independent(table)
    ensures Chain(s, table) == MapEach(s, table)
    decreases |table|
  {
    if |table| == 0 {
      MapEachFixes(s, table);
    } else {
      var rest := table[1..];
      assert Independent(rest) by {
        forall i, j | 0 <= i < j < |rest| ensures rest[j].0 !in rest[i].1 {
          assert rest[i] == table[i + 1] && rest[j] == table[j + 1];
        }
      }
      ChainPerChar(ReplaceChar(s, table[0].0, table[0].1), rest);
      FirstStage(s, table);
    }
  }

  // ---------------------------------------------------------------------------
  // escapeString

  /** The replacements of `escapeString`, in the source's order: backslash
      first, then the two quotes, then newline, carriage return and tab. */
  const EscapeTable: seq<(char, string)> :=
    [('\\', "\\\\"), ('"', "\\\""), ('\'', "\\'"), ('\n', "\\n"), ('\r', "\\r"), ('\t', "\\t")]

  /** The source's `escapeString`. */
  function EscapeString(s: string): string {
    Chain(s, EscapeTable)
  }

  /** Each replacement word is a backslash and one character, and only the
      first entry looks for a backslash. */
  lemma EscapeTableIndependent()
    ensures Independent(EscapeTable)
  {
    var t := EscapeTable;
    assert forall i :: 0 <= i < |t| ==> |t[i].1| == 2 && t[i].1[0] == '\\';
    assert forall i :: 0 <= i < |t| ==> (t[i].1[1] == '\\' ==> i == 0);
  }

  /** What `escapeString` does to one character. */
  function EscapeChar(c: char): string {
    match c
    case '\\' => "\\\\"
    case '"' => "\\\""
    case '\'' => "\\'"
    case '\n' => "\\n"
    case '\r' => "\\r"
    case '\t' => "\\t"
    case _ => [c]
  }

  function EscapeEach(s: string): string {
    if |s| == 0 then "" else EscapeChar(s[0]) + EscapeEach(s[1..])
  }

  lemma {:induction false} EscapeEachIsMapEach(s: string)
    ensures EscapeEach(s) == MapEach(s, EscapeTable)
  {
    if |s| > 0 {
      EscapeEachIsMapEach(s[1..]);
      EscapeCharLookup(s[0]);
    }
  }

  lemma EscapeCharLookup(c: char)
    ensures EscapeChar(c) == Lookup(c, EscapeTable)
  {
    if c !in "\\\"'\n\r\t" {
      LookupAbsent(c, EscapeTable);
    }
  }

  /** Because the backslash is replaced first and no later replacement
      produces a character an earlier one looks for, the chain acts on each
      character independently. */
  lemma EscapeStringPerChar(s: string)
    ensures EscapeString(s) == EscapeEach(s)
  {
    EscapeTableIndependent();
    ChainPerChar(s, EscapeTable);
    EscapeEachIsMapEach(s);
  }

  /** Escaping introduces no `$`: a label without one escapes to a text
      without one. */
  lemma EscapeStringNoDollar(s: string)
    requires '$' !in s
    ensures '$' !in EscapeString(s)
  {
    EscapeStringPerChar(s);
    EscapeEachNoDollar(s);
  }

  lemma {:induction false} EscapeEachNoDollar(s: string)
    requires '$' !in s
    ensures '$' !in EscapeEach(s)
  {
    if |s| > 0 {
      assert s[0] in s;
      assert forall k :: 0 <= k < |s[1..]| ==> s[1..][k] == s[k + 1];
      EscapeEachNoDollar(s[1..]);
    }
  }

  /** A label without backslash, quote or control character is left as it is. */
  lemma EscapeStringKeeps(s: string)
    requires forall k :: 0 <= k < |s| ==> s[k] !in "\\\"'\n\r\t"
    ensures EscapeString(s) == s
  {
    EscapeStringPerChar(s);
    EscapeEachKeeps(s);
  }

  lemma {:induction false} EscapeEachKeeps(s: string)
    requires forall k :: 0 <= k < |s| ==> s[k] !in "\\\"'\n\r\t"
    ensures EscapeEach(s) == s
  {
    if |s| > 0 {
      assert forall k :: 0 <= k < |s[1..]| ==> s[1..][k] == s[k + 1];
      EscapeEachKeeps(s[1..]);
      assert s == [s[0]] + s[1..];
    }
  }

  /** Reads back one escape sequence `\x`: the character that `\x` stands for,
      as OpenSCAD reads it inside a string literal. */
  function UnescapeCode(x: char): Option<char> {
    match x
    case '\\' => Some('\\')
    case '"' => Some('"')
    case '\'' => Some('\'')
    case 'n' => Some('\n')
    case 'r' => Some('\r')
    case 't' => Some('\t')
    case _ => None
  }

  function Prepend(c: char, r: Option<string>): Option<string> {
    match r
    case None => None
    case Some(t) => Some([c] + t)
  }

  /** The inverse of `escapeString`: a backslash and the next character
      stand for one character; a dangling backslash or an unknown escape
      makes the text malformed. */
  function Unescape(s: string): Option<string>
    decreases |s|
  {
    if |s| == 0 then Some("")
    else if s[0] != '\\' then Prepend(s[0], Unescape(s[1..]))
    else if |s| == 1 then None
    else
      match UnescapeCode(s[1])
      case None => None
      case Some(c) => Prepend(c, Unescape(s[2..]))
  }

  lemma {:induction false} UnescapeEscapeEach(s: string)
    ensures Unescape(EscapeEach(s)) == Some(s)
  {
    if |s| > 0 {
      UnescapeEscapeEach(s[1..]);
      UnescapeEscapeChar(s[0], EscapeEach(s[1..]), s[1..]);
      assert s == [s[0]] + s[1..];
    }
  }

  /** Unescaping reads one escaped character back and goes on with the rest. */
  lemma UnescapeEscapeChar(c: char, rest: string, t: string)
    requires Unescape(rest) == Some(t)
    ensures Unescape(EscapeChar(c) + rest) == Some([c] + t)
  {
    var e := EscapeChar(c) + rest;
    if c in "\\\"'\n\r\t" {
      assert e[0] == '\\' && e[2..] == rest;
    } else {
      assert e[0] == c && e[1..] == rest;
    }
  }

  /** Escape round trip: unescaping the escaped label recovers it, so the
      escaping is unambiguous. */
  lemma EscapeRoundTrip(s: string)
    ensures Unescape(EscapeString(s)) == Some(s)
  {
    EscapeStringPerChar(s);
    UnescapeEscapeEach(s);
  }

  /** Every double or single quote in `r` is preceded by a backslash. */
  predicate QuotesEscaped(r: string) {
    forall i :: 0 <= i < |r| && (r[i] == '"' || r[i] == '\'') ==> 0 < i && r[i - 1] == '\\'
  }

  /** `r` holds no raw newline, carriage return or tab. */
  predicate NoRawControls(r: string) {
    forall i :: 0 <= i < |r| ==> r[i] != '\n' && r[i] != '\r' && r[i] != '\t'
  }

  lemma {:induction false} EscapeEachIsSafe(s: string)
    ensures QuotesEscaped(EscapeEach(s)) && NoRawControls(EscapeEach(s))
  {
    if |s| > 0 {
      EscapeEachIsSafe(s[1..]);
      var head, rest := EscapeChar(s[0]), EscapeEach(s[1..]);
      var r := head + rest;
      assert EscapeEach(s) == r;
      forall i | 0 <= i < |r| && (r[i] == '"' || r[i] == '\'')
        ensures 0 < i && r[i - 1] == '\\'
      {
        if i >= |head| {
          assert r[i] == rest[i - |head|];
          if i > |head| {
            assert r[i - 1] == rest[i - 1 - |head|];
          }
        }
      }
      forall i | 0 <= i < |r|
        ensures r[i] != '\n' && r[i] != '\r' && r[i] != '\t'
      {
        if i >= |head| {
          assert r[i] == rest[i - |head|];
        }
      }
    }
  }

  /** The escaped text contains no raw control character and every quote in
      it is escaped, so it can be placed between double quotes. */
  lemma EscapeStringIsSafe(s: string)
    ensures QuotesEscaped(EscapeString(s))
    ensures NoRawControls(EscapeString(s))
  {
    EscapeStringPerChar(s);
    EscapeEachIsSafe(s);
  }

  // ---------------------------------------------------------------------------
  // makeFilenameSafe

  /** The characters a file name may not contain: `/ \ : * ? " < > |`. */
  predicate IsUnsafe(c: char) {
    c == '/' || c == '\\' || c == ':' || c == '*' || c == '?' || c == '"' || c == '<' || c == '>' || c == '|'
  }

  predicate FilenameSafe(s: string) {
    forall i :: 0 <= i < |s| ==> !IsUnsafe(s[i])
  }

  /** The replacements of `makeFilenameSafe`, in the source's order. */
  const FilenameTable: seq<(char, string)> :=
    [('/', "slash"), ('\\', "backslash"), (':', "colon"), ('*', "asterisk"), ('?', "question"),
     ('"', "quote"), ('<', "less"), ('>', "greater"), ('|', "pipe")]

  /** The source's `makeFilenameSafe`. */
  function MakeFilenameSafe(name: string): string {
    Chain(name, FilenameTable)
  }

  /** What `makeFilenameSafe` does to one character. */
  function SafeChar(c: char): string {
    match c
    case '/' => "slash"
    case '\\' => "backslash"
    case ':' => "colon"
    case '*' => "asterisk"
    case '?' => "question"
    case '"' => "quote"
    case '<' => "less"
    case '>' => "greater"
    case '|' => "pipe"
    case _ => [c]
  }

  function SafeEach(s: string): string {
    if |s| == 0 then "" else SafeChar(s[0]) + SafeEach(s[1..])
  }

  lemma {:induction false} SafeEachIsMapEach(s: string)
    ensures SafeEach(s) == MapEach(s, FilenameTable)
  {
    if |s| > 0 {
      SafeEachIsMapEach(s[1..]);
      SafeCharLookup(s[0]);
    }
  }

  lemma SafeCharLookup(c: char)
    ensures SafeChar(c) == Lookup(c, FilenameTable)
  {
    if !IsUnsafe(c) {
      LookupAbsent(c, FilenameTable);
    }
  }

  predicate LowerCaseWord(w: string) {
    forall k :: 0 <= k < |w| ==> 'a' <= w[k] <= 'z'
  }

  /** Every replacement word is spelled in lower-case letters, and no
      character a replacement looks for is one. */
  lemma FilenameTableIndependent()
    ensures Independent(FilenameTable)
  {
    var t := FilenameTable;
    assert forall i :: 0 <= i < |t| ==> LowerCaseWord(t[i].1);
    assert forall j :: 0 <= j < |t| ==> !('a' <= t[j].0 <= 'z');
  }

  /** The replacement words contain no unsafe character, so the chain acts
      on each character independently. */
  lemma MakeFilenameSafePerChar(s: string)
    ensures MakeFilenameSafe(s) == SafeEach(s)
  {
    FilenameTableIndependent();
    ChainPerChar(s, FilenameTable);
    SafeEachIsMapEach(s);
  }

  /** The word for a character is safe, and a safe character is kept. */
  lemma SafeCharProperties(c: char)
    ensures FilenameSafe(SafeChar(c))
    ensures !IsUnsafe(c) ==> SafeChar(c) == [c]
  {
    if IsUnsafe(c) {
      assert LowerCaseWord(SafeChar(c));
    }
  }

  lemma SafeConcat(a: string, b: string)
    requires FilenameSafe(a) && FilenameSafe(b)
    ensures FilenameSafe(a + b)
  {
    forall i | 0 <= i < |a + b| ensures !IsUnsafe((a + b)[i]) {
      if i >= |a| {
        assert (a + b)[i] == b[i - |a|];
      }
    }
  }

  lemma {:induction false} SafeEachSafe(s: string)
    ensures FilenameSafe(SafeEach(s))
  {
    if |s| > 0 {
      SafeEachSafe(s[1..]);
      SafeCharProperties(s[0]);
      SafeConcat(SafeChar(s[0]), SafeEach(s[1..]));
    }
  }

  lemma {:induction false} SafeEachFixes(s: string)
    requires FilenameSafe(s)
    ensures SafeEach(s) == s
  {
    if |s| > 0 {
      assert FilenameSafe(s[1..]) by {
        forall i | 0 <= i < |s[1..]| ensures !IsUnsafe(s[1..][i]) {
          assert s[1..][i] == s[i + 1];
        }
      }
      SafeEachFixes(s[1..]);
      SafeCharProperties(s[0]);
      assert s == [s[0]] + s[1..];
    }
  }

  lemma MakeFilenameSafeIsSafe(s: string)
    ensures FilenameSafe(MakeFilenameSafe(s))
  {
    MakeFilenameSafePerChar(s);
    SafeEachSafe(s);
  }

  /** `makeFilenameSafe` output contains none of the unsafe characters, and
      the function leaves a name unchanged exactly when the name contains
      none of them. */
  lemma MakeFilenameSafeProperties(s: string)
    ensures FilenameSafe(MakeFilenameSafe(s))
    ensures MakeFilenameSafe(s) == s <==> FilenameSafe(s)
  {
    MakeFilenameSafeIsSafe(s);
    if FilenameSafe(s) {
      MakeFilenameSafePerChar(s);
      SafeEachFixes(s);
    }
  }
}
