/** Engine reject and block text, with engine asset ids rewritten to quoted codes (engine/mapping.go). */
module EngineText {
  import opened Domain
  import opened TextScan
  import opened Resolver
  import opened ResolverBook

  // strconv.Quote. Which characters are printable is the Unicode table's business.

  const HEX := "0123456789abcdef"

  function Hex(n: nat, width: nat): string {
    if width == 0 then "" else Hex(n / 16, width - 1) + [HEX[n % 16]]
  }

  function Escaped(c: char, isPrint: char -> bool): string {
    var n := c as int;
    if c == '\"' || c == '\\' then ['\\', c]
    else if isPrint(c) then [c]
    else if n == 7 then "\\a" else if n == 8 then "\\b" else if n == 12 then "\\f"
    else if n == 10 then "\\n" else if n == 13 then "\\r" else if n == 9 then "\\t"
    else if n == 11 then "\\v"
    else if n < 32 || n == 127 then "\\x" + Hex(n, 2)
    else if n < 0x10000 then "\\u" + Hex(n, 4)
    else "\\U" + Hex(n, 8)
  }

  function EscapedAll(s: string, isPrint: char -> bool): string {
    if s == "" then "" else Escaped(s[0], isPrint) + EscapedAll(s[1..], isPrint)
  }

  function Quote(code: string, isPrint: char -> bool): string {
    "\"" + EscapedAll(code, isPrint) + "\""
  }

  // Reading a quoted text back: the inverse of the escapes above, stated on its own.

  function DigitValue(c: char): nat {
    if '0' <= c <= '9' then c as int - '0' as int
    else if 'a' <= c <= 'f' then c as int - 'a' as int + 10
    else 0
  }

  function HexValue(s: string): nat {
    if s == "" then 0 else HexValue(s[..|s| - 1]) * 16 + DigitValue(s[|s| - 1])
  }

  function CharOf(n: nat): char {
    if n < 0xD800 || 0xE000 <= n < 0x11_0000 then n as char else '?'
  }

  function Control(letter: char): char {
    match letter
    case 'a' => 7 as char
    case 'b' => 8 as char
    case 't' => 9 as char
    case 'n' => 10 as char
    case 'v' => 11 as char
    case 'f' => 12 as char
    case 'r' => 13 as char
    case _ => letter
  }

  // How many hexadecimal digits follow the letter of an escape.
  function HexWidth(letter: char): nat {
    match letter case 'x' => 2 case 'u' => 4 case 'U' => 8 case _ => 0
  }

  function Unescaped(s: string): string {
    if s == "" then ""
    else if s[0] != '\\' || |s| == 1 then [s[0]] + Unescaped(s[1..])
    else
      var width := HexWidth(s[1]);
      if width == 0 || |s| < 2 + width then [Control(s[1])] + Unescaped(s[2..])
      else [CharOf(HexValue(s[2..2 + width]))] + Unescaped(s[2 + width..])
  }

  function Power(width: nat): nat {
    if width == 0 then 1 else 16 * Power(width - 1)
  }

  lemma HexDigitReads(d: nat)
    requires d < 16
    ensures DigitValue(HEX[d]) == d
  {
  }

  lemma {:induction false} HexReads(n: nat, width: nat)
    requires n < Power(width)
    ensures |Hex(n, width)| == width && HexValue(Hex(n, width)) == n
  {
    if width > 0 {
      HexReads(n / 16, width - 1);
      HexDigitReads(n % 16);
      assert Hex(n, width)[..width - 1] == Hex(n / 16, width - 1);
    }
  }

  lemma HexEscapeReadsBack(c: char, letter: char, width: nat, rest: string)
    requires HexWidth(letter) == width > 0 && c as int < Power(width)
    ensures Unescaped(['\\', letter] + Hex(c as int, width) + rest) == [c] + Unescaped(rest)
  {
    HexReads(c as int, width);
    var s := ['\\', letter] + Hex(c as int, width) + rest;
    assert s[2..2 + width] == Hex(c as int, width) && s[2 + width..] == rest;
  }

  lemma LetterEscapeReadsBack(letter: char, rest: string)
    requires HexWidth(letter) == 0
    ensures Unescaped(['\\', letter] + rest) == [Control(letter)] + Unescaped(rest)
  {
    assert (['\\', letter] + rest)[2..] == rest;
  }

  lemma EscapeReadsBack(c: char, isPrint: char -> bool, rest: string)
    ensures Unescaped(Escaped(c, isPrint) + rest) == [c] + Unescaped(rest)
  {
    var e := Escaped(c, isPrint);
    if |e| == 1 {
      assert (e + rest)[1..] == rest;
    } else if |e| == 2 {
      LetterEscapeReadsBack(e[1], rest);
      assert e == ['\\', e[1]];
    } else {
      var width := HexWidth(e[1]);
      assert Power(2) == 256 && Power(4) == 0x10000 && Power(8) == 0x1_0000_0000;
      HexEscapeReadsBack(c, e[1], width, rest);
      assert e == ['\\', e[1]] + Hex(c as int, width);
    }
  }

  /** A quoted code reads back as itself, so distinct codes have distinct forms. */
  lemma {:induction false} QuotedReadsBack(code: string, isPrint: char -> bool)
    ensures Unescaped(EscapedAll(code, isPrint)) == code
  {
    if code != "" {
      QuotedReadsBack(code[1..], isPrint);
      EscapeReadsBack(code[0], isPrint, EscapedAll(code[1..], isPrint));
    }
  }

  // What each published id is rewritten to. A resolver without state publishes nothing.
  function Forms(aliases: map<string, string>, isPrint: char -> bool): map<string, string> {
    map id | id in aliases :: Quote(aliases[id], isPrint)
  }

  ghost function Published(resolver: IdResolver): map<string, string>
    reads resolver.shared
  {
    if resolver.shared == null then map[] else resolver.shared.assetAliases
  }

  // The forms of a dictionary: every published id's text, and no other, stands for its code, quoted.
  ghost predicate IsFormsOf(forms: map<string, string>, assets: Book, isPrint: char -> bool) {
    && (forall c | c in assets ::
          DecimalText(assets[c]) in forms && forms[DecimalText(assets[c])] == "\"" + EscapedAll(c, isPrint) + "\"")
    && forall id | id in forms :: exists c :: c in assets && DecimalText(assets[c]) == id
  }

  /** What a resolver publishes are the forms of its asset dictionary. */
  lemma PublishedAreTheDictionary(resolver: IdResolver, isPrint: char -> bool)
    requires resolver.Valid()
    ensures IsFormsOf(Forms(Published(resolver), isPrint), resolver.Dictionary(Assets), isPrint)
  {
    if resolver.shared != null {
      var state := resolver.shared;
      forall c | c in state.assetBook
        ensures DecimalText(state.assetBook[c]) in state.assetAliases
        ensures state.assetAliases[DecimalText(state.assetBook[c])] == c
      {
        assert state.assets[c] == state.assetIDs[state.assetBook[c]];
      }
      forall text | text in state.assetAliases
        ensures exists c :: c in state.assetBook && DecimalText(state.assetBook[c]) == text
      {
        var c := state.assetAliases[text];
        assert state.assets[c] == text && state.assetIDs[state.assetBook[c]] == text;
      }
    }
  }

  /** A dictionary has only one such map. */
  lemma FormsAreUnique(f: map<string, string>, g: map<string, string>, assets: Book, isPrint: char -> bool)
    requires IsFormsOf(f, assets, isPrint) && IsFormsOf(g, assets, isPrint)
    ensures f == g
  {
    forall id | id in f || id in g
      ensures id in f && id in g && f[id] == g[id]
    {
      var c :| c in assets && DecimalText(assets[c]) == id;
    }
  }

  // How far the loop has come: what is written so far, then the rewrite of the rest.
  predicate Written(find: Matcher, text: string, out: string, end: nat, forms: map<string, string>) {
    end <= |text| && Rewrite(find, None, text, forms) == Prepend(out, RewriteFrom(find, text, end, forms))
  }

  lemma NothingWritten(find: Matcher, text: string, forms: map<string, string>)
    ensures Written(find, text, "", 0, forms)
  {
    assert text[0..] == text;
    var whole := Rewrite(find, None, text, forms);
    if whole.Ok? {
      assert "" + whole.value == whole.value;
    }
  }

  lemma WriteNext(find: Matcher, text: string, out: string, end: nat, forms: map<string, string>, m: Span)
    requires Written(find, text, out, end, forms)
    requires FindAll(find, text, end) != [] && m == FindAll(find, text, end)[0]
    ensures end <= m.start < m.end <= |text| && FindAll(find, text, m.end) == FindAll(find, text, end)[1..]
    ensures
      var id := text[m.start..m.end];
      if id !in forms then Rewrite(find, None, text, forms) == Err(Internal)
      else Written(find, text, out + text[end..m.start] + forms[id], m.end, forms)
  {
    NextMatch(find, text, end, forms);
    var id := text[m.start..m.end];
    if id in forms {
      PrependTwice(out, text[end..m.start], forms[id], RewriteFrom(find, text, m.end, forms));
    }
  }

  /** The loop over the matches builds exactly the rewrite of the whole text. */
  method WriteCodes(aliases: map<string, string>, find: Matcher, text: string, matches: seq<Span>, isPrint: char -> bool)
    returns (r: Result<string>)
    requires matches == FindAll(find, text, 0)
    ensures r == Rewrite(find, None, text, Forms(aliases, isPrint))
  {
    ghost var forms := Forms(aliases, isPrint);
    NothingWritten(find, text, forms);
    var out: string, end: nat := "", 0;
    for k := 0 to |matches|
      invariant Written(find, text, out, end, forms)
      invariant matches[k..] == FindAll(find, text, end)
    {
      var m := matches[k];
      WriteNext(find, text, out, end, forms, m);
      assert matches[k..][1..] == matches[k + 1..];
      var id := text[m.start..m.end];
      if id !in aliases {
        return Err(Internal);
      }
      out := out + text[end..m.start];
      out := out + Quote(aliases[id], isPrint);
      end := m.end;
    }
    NextMatch(find, text, end, forms);
    out := out + text[end..];
    return Ok(out);
  }

  lemma NothingToWrite(find: Matcher, text: string, forms: map<string, string>)
    requires FindAll(find, text, 0) == []
    ensures Rewrite(find, None, text, forms) == Ok(text)
  {
    NothingWritten(find, text, forms);
    NextMatch(find, text, 0, forms);
    assert text[0..] == text;
  }

  lemma NothingPublished(find: Matcher, text: string, isPrint: char -> bool)
    requires FindAll(find, text, 0) != []
    ensures Rewrite(find, None, text, Forms(map[], isPrint)) == Err(Internal)
  {
    NothingWritten(find, text, Forms(map[], isPrint));
    WriteNext(find, text, "", 0, Forms(map[], isPrint), FindAll(find, text, 0)[0]);
  }

  /**
   * assetCodesIn: the whole text rewritten with the codes that the resolver's dictionary has for
   * the ids, or refused.
   */
  method AssetCodesIn(resolver: IdResolver, find: Matcher, text: string, isPrint: char -> bool)
    returns (r: Result<string>)
    requires resolver.Valid()
    ensures exists forms ::
              IsFormsOf(forms, resolver.Dictionary(Assets), isPrint) && r == Rewrite(find, None, text, forms)
  {
    PublishedAreTheDictionary(resolver, isPrint);
    var matches := FindAll(find, text, 0);
    if |matches| == 0 {
      NothingToWrite(find, text, Forms(Published(resolver), isPrint));
      return Ok(text);
    }
    if resolver.shared == null {
      NothingPublished(find, text, isPrint);
      return Err(Internal);
    }
    r := WriteCodes(resolver.shared.assetAliases, find, text, matches, isPrint);
  }

  lemma FormsAreQuoted(aliases: map<string, string>, isPrint: char -> bool)
    ensures QuotedForms(Forms(aliases, isPrint))
  {
    forall id | id in aliases
      ensures Quoted(Forms(aliases, isPrint)[id])
    {
      var escaped := EscapedAll(aliases[id], isPrint);
      assert ("\"" + escaped + "\"")[|escaped| + 1] == '\"';
    }
  }

  lemma {:induction false} HexHasNoSpace(n: nat, width: nat)
    ensures ' ' !in Hex(n, width)
  {
    if width != 0 {
      HexHasNoSpace(n / 16, width - 1);
    }
  }

  lemma EscapeAddsNoSpace(c: char, isPrint: char -> bool)
    requires c != ' '
    ensures ' ' !in Escaped(c, isPrint)
  {
    HexHasNoSpace(c as int, 2);
    HexHasNoSpace(c as int, 4);
    HexHasNoSpace(c as int, 8);
  }

  lemma {:induction false} QuoteAddsNoSpace(s: string, isPrint: char -> bool)
    requires ' ' !in s
    ensures ' ' !in EscapedAll(s, isPrint)
  {
    if s != "" {
      EscapeAddsNoSpace(s[0], isPrint);
      QuoteAddsNoSpace(s[1..], isPrint);
    }
  }

  lemma {:induction false} SpacelessIsMatchless(find: Matcher, before: Option<char>, s: string)
    requires Finds(find) && ' ' !in s
    ensures Matchless(find, before, s)
    decreases |s|
  {
    if s != "" {
      SpacelessIsMatchless(find, Some(s[0]), s[1..]);
      if m :| find(before, s) == Some(m) {
        Found(find, before, s, m);
        KeywordLetters(s[..m.start], 0);
      }
    }
  }

  /**
   * domain.ValidateAsset admits no whitespace in a code. For a dictionary of such codes the
   * rewritten text is a fixed point, so a restored block is never rewritten a second time.
   */
  lemma ValidatedCodesGiveFixedPoint(find: Matcher, text: string, aliases: map<string, string>, isPrint: char -> bool)
    requires Finds(find)
    requires forall id | id in aliases :: ' ' !in aliases[id]
    requires Rewrite(find, None, text, Forms(aliases, isPrint)).Ok?
    ensures
      var forms := Forms(aliases, isPrint);
      var out := Rewrite(find, None, text, forms).value;
      Rewrite(find, None, out, forms) == Ok(out)
  {
    var forms := Forms(aliases, isPrint);
    FormsAreQuoted(aliases, isPrint);
    forall m | m in FindAll(find, text, 0) && IdAt(text, m) in forms
      ensures Matchless(find, None, forms[IdAt(text, m)])
    {
      QuoteAddsNoSpace(aliases[IdAt(text, m)], isPrint);
      SpacelessIsMatchless(find, None, forms[IdAt(text, m)]);
    }
    OutputIsFixedPointExactly(find, text, forms);
  }

  lemma {:induction false} PlainTextEscapesToItself(s: string, isPrint: char -> bool)
    requires forall i | 0 <= i < |s| :: isPrint(s[i]) && s[i] != '\"' && s[i] != '\\'
    ensures EscapedAll(s, isPrint) == s
  {
    if s != "" {
      PlainTextEscapesToItself(s[1..], isPrint);
    }
  }

  lemma AssetTwo(find: Matcher, forms: map<string, string>)
    requires Finds(find) && "2" in forms
    ensures FindAll(find, "asset 2", 0) == [Span(6, 7)]
    ensures Rewrite(find, None, "asset 2", forms) == Ok("asset " + forms["2"])
  {
    var text := "asset 2";
    assert text[0..] == text && text[6..7] == "2" && text[0..6] == "asset ";
    assert MatchSpan(None, text, Span(6, 7));
    assert find(Before(text, 0), text[0..]) == Some(Span(6, 7));
    TakeMatch(find, text, 0, Span(6, 7), forms);
    FindAllHere(find, text, 0, Span(6, 7));
    assert RewriteFrom(find, text, 7, forms) == Ok("");
    assert "asset " + forms["2"] + "" == "asset " + forms["2"];
  }

  lemma QuotedAssetTwoMatches(find: Matcher, form: string)
    requires Finds(find) && form == "\"asset 2\""
    ensures !Matchless(find, None, form)
  {
    assert form[1..] == "asset 2\"";
    assert MatchSpan(Some('\"'), form[1..], Span(6, 7));
  }

  lemma AssetTwoIsUnclean(find: Matcher, forms: map<string, string>)
    requires Finds(find) && "2" in forms && forms["2"] == "\"asset 2\""
    ensures !CleanForms(find, "asset 2", 0, forms)
  {
    AssetTwo(find, forms);
    QuotedAssetTwoMatches(find, forms["2"]);
    assert Span(6, 7) in FindAll(find, "asset 2", 0);
    assert IdAt("asset 2", Span(6, 7)) == "2";
  }

  lemma AssetTwoForm(isPrint: char -> bool)
    requires forall c: char :: isPrint(c)
    ensures Quote("asset 2", isPrint) == "\"asset 2\""
  {
    PlainTextEscapesToItself("asset 2", isPrint);
  }

  /** Without that rule the quotes alone do not protect the text: a code may spell a match. */
  lemma QuotesAloneDoNotProtect(find: Matcher, isPrint: char -> bool)
    requires Finds(find) && forall c: char :: isPrint(c)
    ensures
      var text, forms := "asset 2", Forms(map["2" := "asset 2"], isPrint);
      var out := Rewrite(find, None, text, forms);
      out.Ok? && Rewrite(find, None, out.value, forms) != out
  {
    var forms := Forms(map["2" := "asset 2"], isPrint);
    AssetTwoForm(isPrint);
    FormsAreQuoted(map["2" := "asset 2"], isPrint);
    AssetTwo(find, forms);
    AssetTwoIsUnclean(find, forms);
    OutputIsFixedPointExactly(find, "asset 2", forms);
  }

  /** A control character that has a letter of its own is written with it. */
  lemma ControlsAreShort(letter: char, isPrint: char -> bool)
    requires letter in "abtnvfr" && !isPrint(Control(letter))
    ensures Escaped(Control(letter), isPrint) == ['\\', letter]
  {
  }
}
