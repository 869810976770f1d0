/**
 * Replacing every match of \b(?:asset|currency) ([0-9]+)\b in a text (engine/mapping.go,
 * engineAssetText and the scan in assetCodesIn), and what a second pass over the result finds.
 */
module TextScan {
  import opened Domain

  // The pattern, over ASCII word characters.

  predicate IsWord(c: char) {
    'a' <= c <= 'z' || 'A' <= c <= 'Z' || IsDigit(c) || c == '_'
  }

  /** The word characters of \b are the ASCII letters, digits and the underscore, by their codes. */
  lemma WordCharacters(c: char)
    ensures IsWord(c) <==>
              var n := c as int;
              48 <= n <= 57 || 65 <= n <= 90 || n == 95 || 97 <= n <= 122
  {
  }

  predicate WordBefore(before: Option<char>) {
    before.Some? && IsWord(before.value)
  }

  const ASSET := "asset "
  const CURRENCY := "currency "

  datatype Span = Span(start: nat, end: nat)

  /** s, with before to its left, starts with a match whose id is at m. */
  predicate MatchSpan(before: Option<char>, s: string, m: Span) {
    && !WordBefore(before)
    && m.start < m.end <= |s|
    && (s[..m.start] == ASSET || s[..m.start] == CURRENCY)
    && (forall i | m.start <= i < m.end :: IsDigit(s[i]))
    && (m.end < |s| ==> !IsWord(s[m.end]))
  }

  // A matcher reports the match at the head of a text, if there is one.

  type Find = (Option<char>, string) -> Option<Span>

  predicate InRange(s: string, r: Option<Span>) {
    r.Some? ==> 0 < r.value.start < r.value.end <= |s|
  }

  ghost predicate Ranged(find: Find) {
    forall before, s :: InRange(s, find(before, s))
  }

  type Matcher = find: Find | Ranged(find) witness ((before, s) => None)

  /** find is a matcher of the pattern: it reports exactly the pattern's matches. */
  ghost predicate Finds(find: Matcher) {
    forall before, s, m {:trigger MatchSpan(before, s, m)} ::
      find(before, s) == Some(m) <==> MatchSpan(before, s, m)
  }

  lemma Found(find: Matcher, before: Option<char>, s: string, m: Span)
    requires Finds(find)
    ensures find(before, s) == Some(m) <==> MatchSpan(before, s, m)
  {
  }

  // FindAllStringSubmatchIndex: each search resumes where the last match ended.

  function Before(text: string, i: nat): Option<char>
    requires i <= |text|
  {
    if i == 0 then None else Some(text[i - 1])
  }

  function FindAll(find: Matcher, text: string, from: nat): seq<Span>
    requires from <= |text|
    decreases |text| - from
  {
    if from == |text| then [] else
    var head := find(Before(text, from), text[from..]);
    assert InRange(text[from..], head);
    match head
    case None => FindAll(find, text, from + 1)
    case Some(m) => [Span(from + m.start, from + m.end)] + FindAll(find, text, from + m.end)
  }

  // The id a match names.
  function IdAt(text: string, m: Span): string {
    if m.start <= m.end <= |text| then text[m.start..m.end] else ""
  }

  /** The match that starts at position at has its id at span. */
  predicate MatchesAt(text: string, at: nat, span: Span) {
    && at <= span.start < span.end <= |text|
    && MatchSpan(Before(text, at), text[at..], Span(span.start - at, span.end - at))
  }

  lemma KeywordLetters(s: string, i: nat)
    requires (s == ASSET || s == CURRENCY) && i < |s|
    ensures s[0] == 'a' || s[0] == 'c'
    ensures 0 < i && (s[i] == 'a' || s[i] == 'c') ==> IsWord(s[i - 1])
    ensures !IsDigit(s[i]) && s[i] != '\"'
    ensures s[|s| - 1] == ' '
  {
  }

  /** A match starts with the keyword's letter, outside any word. */
  lemma MatchHead(text: string, at: nat, span: Span)
    requires MatchesAt(text, at, span)
    ensures text[at] == 'a' || text[at] == 'c'
    ensures !WordBefore(Before(text, at))
  {
    KeywordLetters(text[at..][..span.start - at], 0);
    assert text[at..][..span.start - at][0] == text[at];
  }

  lemma MatchCharacter(text: string, at: nat, span: Span, i: nat)
    requires MatchesAt(text, at, span) && at < i < span.end
    ensures !(text[i] == 'a' || text[i] == 'c') || WordBefore(Before(text, i))
  {
    var s := text[at..];
    assert s[i - at] == text[i];
    if i < span.start {
      var keyword := s[..span.start - at];
      KeywordLetters(keyword, i - at);
      assert keyword[i - at] == text[i] && keyword[i - at - 1] == text[i - 1];
    }
  }

  /** No match starts inside another, so resuming after a match misses none. */
  lemma MatchesDoNotOverlap(text: string, at: nat, span: Span, other: nat, otherSpan: Span)
    requires MatchesAt(text, at, span) && MatchesAt(text, other, otherSpan)
    requires at < other
    ensures span.end <= other
  {
    MatchHead(text, other, otherSpan);
    if other < span.end {
      MatchCharacter(text, at, span, other);
    }
  }

  ghost predicate MatchesFrom(text: string, from: nat, span: Span) {
    exists at :: from <= at && MatchesAt(text, at, span)
  }

  lemma NoMatchHere(find: Matcher, text: string, from: nat, span: Span)
    requires Finds(find) && from < |text|
    requires find(Before(text, from), text[from..]) == None
    ensures MatchesFrom(text, from, span) <==> MatchesFrom(text, from + 1, span)
  {
    assert !MatchesAt(text, from, span);
  }

  lemma MatchHere(find: Matcher, text: string, from: nat, m: Span, span: Span)
    requires Finds(find) && from < |text|
    requires find(Before(text, from), text[from..]) == Some(m)
    ensures from + m.end <= |text|
    ensures MatchesFrom(text, from, span)
            <==> span == Span(from + m.start, from + m.end) || MatchesFrom(text, from + m.end, span)
  {
    var s, head := text[from..], Span(from + m.start, from + m.end);
    Found(find, Before(text, from), s, m);
    assert MatchesAt(text, from, head);
    if at :| from <= at && MatchesAt(text, at, span) {
      if at == from {
        Found(find, Before(text, from), s, Span(span.start - at, span.end - at));
      } else {
        MatchesDoNotOverlap(text, from, head, at, span);
      }
    }
  }

  lemma FindAllHere(find: Matcher, text: string, from: nat, m: Span)
    requires from < |text| && find(Before(text, from), text[from..]) == Some(m)
    ensures 0 < m.start < m.end && from + m.end <= |text|
    ensures FindAll(find, text, from) == [Span(from + m.start, from + m.end)] + FindAll(find, text, from + m.end)
  {
    assert InRange(text[from..], find(Before(text, from), text[from..]));
  }

  lemma FoundHereOrLater(find: Matcher, text: string, from: nat, m: Span, other: Span)
    requires from < |text| && find(Before(text, from), text[from..]) == Some(m)
    ensures 0 < m.start < m.end && from + m.end <= |text|
    ensures other in FindAll(find, text, from)
            <==> other == Span(from + m.start, from + m.end) || other in FindAll(find, text, from + m.end)
  {
    FindAllHere(find, text, from, m);
  }

  lemma NoneFoundHere(find: Matcher, text: string, from: nat)
    requires from < |text| && find(Before(text, from), text[from..]) == None
    ensures FindAll(find, text, from) == FindAll(find, text, from + 1)
  {
  }

  lemma NoMatchPastTheEnd(text: string, span: Span)
    ensures !MatchesFrom(text, |text|, span)
  {
  }

  // The scan from a position on reports span exactly when the pattern matches there or later.
  ghost predicate ExactFrom(find: Matcher, text: string, from: nat, span: Span)
    requires from <= |text|
  {
    span in FindAll(find, text, from) <==> MatchesFrom(text, from, span)
  }

  lemma ExactOnceMore(find: Matcher, text: string, from: nat, span: Span)
    requires Finds(find) && from < |text| && find(Before(text, from), text[from..]) == None
    requires ExactFrom(find, text, from + 1, span)
    ensures ExactFrom(find, text, from, span)
  {
    NoneFoundHere(find, text, from);
    NoMatchHere(find, text, from, span);
  }

  lemma ExactAfterMatch(find: Matcher, text: string, from: nat, m: Span, span: Span)
    requires Finds(find) && from < |text| && find(Before(text, from), text[from..]) == Some(m)
    requires from + m.end <= |text| && ExactFrom(find, text, from + m.end, span)
    ensures ExactFrom(find, text, from, span)
  {
    FoundHereOrLater(find, text, from, m, span);
    MatchHere(find, text, from, m, span);
  }

  /** The scan reports exactly the matches of the pattern from a position on, wherever they start. */
  lemma {:induction false} FindAllExact(find: Matcher, text: string, from: nat, span: Span)
    requires Finds(find) && from <= |text|
    ensures span in FindAll(find, text, from) <==> MatchesFrom(text, from, span)
    decreases |text| - from
  {
    if from == |text| {
      NoMatchPastTheEnd(text, span);
    } else {
      match find(Before(text, from), text[from..])
      case None =>
        FindAllExact(find, text, from + 1, span);
        ExactOnceMore(find, text, from, span);
      case Some(m) =>
        FindAllHere(find, text, from, m);
        FindAllExact(find, text, from + m.end, span);
        ExactAfterMatch(find, text, from, m, span);
    }
  }

  // The rewrite, character by character: each id becomes its form, or the text is refused.

  function Prepend(prefix: string, rest: Result<string>): Result<string> {
    match rest
    case Ok(s) => Ok(prefix + s)
    case Err(e) => Err(e)
  }

  function Rewrite(find: Matcher, before: Option<char>, s: string, forms: map<string, string>): Result<string>
    decreases |s|
  {
    if s == "" then Ok("") else
    var head := find(before, s);
    assert InRange(s, head);
    match head
    case None => Prepend([s[0]], Rewrite(find, Some(s[0]), s[1..], forms))
    case Some(m) =>
      var id := s[m.start..m.end];
      if id !in forms then Err(Internal)
      else Prepend(s[..m.start] + forms[id], Rewrite(find, Some(s[m.end - 1]), s[m.end..], forms))
  }

  function RewriteFrom(find: Matcher, text: string, i: nat, forms: map<string, string>): Result<string>
    requires i <= |text|
  {
    Rewrite(find, Before(text, i), text[i..], forms)
  }

  lemma SkipCharacter(find: Matcher, text: string, from: nat, forms: map<string, string>)
    requires from < |text| && find(Before(text, from), text[from..]) == None
    ensures RewriteFrom(find, text, from, forms) == Prepend([text[from]], RewriteFrom(find, text, from + 1, forms))
  {
    assert text[from..][1..] == text[from + 1..];
  }

  lemma TakeMatch(find: Matcher, text: string, from: nat, m: Span, forms: map<string, string>)
    requires from < |text| && find(Before(text, from), text[from..]) == Some(m)
    ensures 0 < m.start < m.end && from + m.end <= |text|
    ensures
      var id := text[from + m.start..from + m.end];
      RewriteFrom(find, text, from, forms) ==
        if id !in forms then Err(Internal)
        else Prepend(text[from..from + m.start] + forms[id], RewriteFrom(find, text, from + m.end, forms))
  {
    var s := text[from..];
    assert InRange(s, find(Before(text, from), s));
    assert s[m.start..m.end] == text[from + m.start..from + m.end];
    assert s[m.end..] == text[from + m.end..];
    assert s[..m.start] == text[from..from + m.start];
  }

  lemma PrependTwice(p: string, q: string, form: string, rest: Result<string>)
    ensures Prepend(p, Prepend(q + form, rest)) == Prepend(p + q + form, rest)
  {
    if rest.Ok? {
      assert p + ((q + form) + rest.value) == (p + q + form) + rest.value;
    }
  }

  /** The rewrite and the list of matches take the same steps. */
  lemma {:induction false} NextMatch(find: Matcher, text: string, from: nat, forms: map<string, string>)
    requires from <= |text|
    ensures FindAll(find, text, from) == [] ==> RewriteFrom(find, text, from, forms) == Ok(text[from..])
    ensures FindAll(find, text, from) != [] ==>
              var m := FindAll(find, text, from)[0];
              var id := IdAt(text, m);
              && from <= m.start < m.end <= |text|
              && FindAll(find, text, from)[1..] == FindAll(find, text, m.end)
              && RewriteFrom(find, text, from, forms) ==
                   if id !in forms then Err(Internal)
                   else Prepend(text[from..m.start] + forms[id], RewriteFrom(find, text, m.end, forms))
    decreases |text| - from
  {
    if from < |text| {
      match find(Before(text, from), text[from..])
      case None =>
        SkipCharacter(find, text, from, forms);
        NextMatch(find, text, from + 1, forms);
        var spans := FindAll(find, text, from + 1);
        if spans == [] {
          assert [text[from]] + text[from + 1..] == text[from..];
        } else {
          var m := spans[0];
          var id := IdAt(text, m);
          assert [text[from]] + text[from + 1..m.start] == text[from..m.start];
          if id in forms {
            PrependTwice([text[from]], text[from + 1..m.start], forms[id], RewriteFrom(find, text, m.end, forms));
          }
        }
      case Some(m) =>
        TakeMatch(find, text, from, m, forms);
    }
  }

  // Whether every id the text names from a position on has a form.
  predicate AllKnown(find: Matcher, text: string, from: nat, forms: map<string, string>)
    requires from <= |text|
  {
    forall m | m in FindAll(find, text, from) :: IdAt(text, m) in forms
  }

  /** The text is refused exactly when some id it names has no form. */
  lemma {:induction false} RefusedExactlyOnUnknownId(find: Matcher, text: string, from: nat, forms: map<string, string>)
    requires from <= |text|
    ensures RewriteFrom(find, text, from, forms).Ok? <==> AllKnown(find, text, from, forms)
    decreases |text| - from
  {
    NextMatch(find, text, from, forms);
    var spans := FindAll(find, text, from);
    if spans != [] {
      assert spans == [spans[0]] + spans[1..];
      RefusedExactlyOnUnknownId(find, text, spans[0].end, forms);
    }
  }

  // Gaps with a word between each two of them.
  function Woven(gaps: seq<string>, words: seq<string>): string
    requires |gaps| == |words| + 1
  {
    if words == [] then gaps[0] else gaps[0] + words[0] + Woven(gaps[1..], words[1..])
  }

  function IdsAt(text: string, spans: seq<Span>): seq<string> {
    if spans == [] then [] else [IdAt(text, spans[0])] + IdsAt(text, spans[1..])
  }

  function InForms(ids: seq<string>, forms: map<string, string>): (r: seq<string>)
    requires forall id | id in ids :: id in forms
    ensures |r| == |ids| && forall i | 0 <= i < |r| :: r[i] == forms[ids[i]]
  {
    if ids == [] then [] else [forms[ids[0]]] + InForms(ids[1..], forms)
  }

  lemma WovenOnce(gap: string, word: string, gaps: seq<string>, words: seq<string>)
    requires |gaps| == |words| + 1
    ensures Woven([gap] + gaps, [word] + words) == gap + word + Woven(gaps, words)
  {
    assert ([gap] + gaps)[1..] == gaps && ([word] + words)[1..] == words;
  }

  lemma InFormsOnce(id: string, ids: seq<string>, forms: map<string, string>)
    requires id in forms && forall i | i in ids :: i in forms
    ensures InForms([id] + ids, forms) == [forms[id]] + InForms(ids, forms)
  {
    assert ([id] + ids)[1..] == ids;
  }

  // A rewrite of the text from a position, taken apart.
  ghost predicate Replaces(find: Matcher, text: string, from: nat, forms: map<string, string>, gaps: seq<string>)
    requires from <= |text|
  {
    var ids := IdsAt(text, FindAll(find, text, from));
    && |gaps| == |ids| + 1 && (forall id | id in ids :: id in forms)
    && text[from..] == Woven(gaps, ids)
    && RewriteFrom(find, text, from, forms) == Ok(Woven(gaps, InForms(ids, forms)))
  }

  lemma ReplacesOneMore(
    find: Matcher, text: string, from: nat, forms: map<string, string>, m: Span, rest: seq<string>)
    requires from <= |text| && FindAll(find, text, from) != [] && m == FindAll(find, text, from)[0]
    requires RewriteFrom(find, text, from, forms).Ok?
    requires from <= m.start < m.end <= |text| && Replaces(find, text, m.end, forms, rest)
    ensures Replaces(find, text, from, forms, [text[from..m.start]] + rest)
  {
    NextMatch(find, text, from, forms);
    var id, ids, gap := IdAt(text, m), IdsAt(text, FindAll(find, text, m.end)), text[from..m.start];
    assert IdsAt(text, FindAll(find, text, from)) == [id] + ids;
    assert text[from..] == gap + id + text[m.end..];
    WovenOnce(gap, id, rest, ids);
    InFormsOnce(id, ids, forms);
    WovenOnce(gap, forms[id], rest, InForms(ids, forms));
  }

  /**
   * A rewrite changes nothing but the ids it finds: the text is some gaps with those ids between
   * them, and the result is the same gaps with the ids' forms between them.
   */
  lemma {:induction false} RewriteReplacesOnlyIds(find: Matcher, text: string, from: nat, forms: map<string, string>)
    returns (gaps: seq<string>)
    requires from <= |text| && RewriteFrom(find, text, from, forms).Ok?
    ensures Replaces(find, text, from, forms, gaps)
    decreases |text| - from
  {
    NextMatch(find, text, from, forms);
    var spans := FindAll(find, text, from);
    if spans == [] {
      gaps := [text[from..]];
    } else {
      var rest := RewriteReplacesOnlyIds(find, text, spans[0].end, forms);
      ReplacesOneMore(find, text, from, forms, spans[0], rest);
      gaps := [text[from..spans[0].start]] + rest;
    }
  }

  // A second pass.

  predicate Matchless(find: Matcher, before: Option<char>, s: string)
    decreases |s|
  {
    s == "" || (find(before, s) == None && Matchless(find, Some(s[0]), s[1..]))
  }

  predicate Quoted(s: string) {
    |s| >= 2 && s[0] == '\"' && s[|s| - 1] == '\"'
  }

  predicate QuotedForms(forms: map<string, string>) {
    forall id | id in forms :: Quoted(forms[id])
  }

  // Where the rewrite first departs from its input: an id's first digit became a quotation mark.
  predicate DepartsAt(s: string, out: string, q: nat) {
    && 0 < q < |s| && q < |out| && s[..q] == out[..q]
    && s[q - 1] == ' ' && IsDigit(s[q]) && out[q] == '\"'
  }

  lemma DepartsLater(c: char, s: string, out: string, q: nat)
    requires DepartsAt(s, out, q)
    ensures DepartsAt([c] + s, [c] + out, q + 1)
  {
    assert ([c] + s)[..q + 1] == [c] + s[..q];
    assert ([c] + out)[..q + 1] == [c] + out[..q];
  }

  lemma DepartsHere(find: Matcher, before: Option<char>, s: string, m: Span, form: string, rest: string)
    requires Finds(find) && find(before, s) == Some(m) && Quoted(form)
    ensures DepartsAt(s, s[..m.start] + form + rest, m.start)
  {
    Found(find, before, s, m);
    KeywordLetters(s[..m.start], 0);
    assert s[..m.start][m.start - 1] == s[m.start - 1];
  }

  lemma {:induction false} RewriteDeparts(find: Matcher, before: Option<char>, s: string, forms: map<string, string>)
    returns (q: nat)
    requires Finds(find) && QuotedForms(forms) && Rewrite(find, before, s, forms).Ok?
    ensures Matchless(find, before, s) ==> Rewrite(find, before, s, forms) == Ok(s)
    ensures !Matchless(find, before, s) ==> DepartsAt(s, Rewrite(find, before, s, forms).value, q)
    decreases |s|
  {
    q := 0;
    if s != "" {
      assert InRange(s, find(before, s));
      match find(before, s)
      case None =>
        var t := RewriteDeparts(find, Some(s[0]), s[1..], forms);
        var rest := Rewrite(find, Some(s[0]), s[1..], forms).value;
        assert [s[0]] + s[1..] == s;
        q := t + 1;
        if !Matchless(find, Some(s[0]), s[1..]) {
          DepartsLater(s[0], s[1..], rest, t);
        }
      case Some(m) =>
        q := m.start;
        var rest := Rewrite(find, Some(s[m.end - 1]), s[m.end..], forms).value;
        DepartsHere(find, before, s, m, forms[s[m.start..m.end]], rest);
    }
  }

  lemma {:induction false} MatchlessSucceeds(find: Matcher, before: Option<char>, s: string, forms: map<string, string>)
    requires Matchless(find, before, s)
    ensures Rewrite(find, before, s, forms).Ok?
    decreases |s|
  {
    if s != "" {
      MatchlessSucceeds(find, Some(s[0]), s[1..], forms);
    }
  }

  /** A rewrite gives back its input exactly when the input has no match. */
  lemma FixedExactlyWhenMatchless(find: Matcher, before: Option<char>, s: string, forms: map<string, string>)
    requires Finds(find) && QuotedForms(forms)
    ensures Rewrite(find, before, s, forms) == Ok(s) <==> Matchless(find, before, s)
  {
    if Matchless(find, before, s) {
      MatchlessSucceeds(find, before, s, forms);
    }
    if Rewrite(find, before, s, forms).Ok? {
      var q := RewriteDeparts(find, before, s, forms);
    }
  }

  // before and other are interchangeable to the left of s.
  predicate SameContext(before: Option<char>, other: Option<char>, s: string) {
    s == "" || !IsWord(s[0]) || WordBefore(before) == WordBefore(other)
  }

  lemma SpanInContext(before: Option<char>, other: Option<char>, s: string, m: Span)
    requires SameContext(before, other, s) && MatchSpan(before, s, m)
    ensures MatchSpan(other, s, m)
  {
    KeywordLetters(s[..m.start], 0);
    assert s[..m.start][0] == s[0];
  }

  lemma SameHead(find: Matcher, before: Option<char>, other: Option<char>, s: string)
    requires Finds(find) && SameContext(before, other, s)
    ensures find(before, s) == find(other, s)
  {
    if m :| find(before, s) == Some(m) {
      Found(find, before, s, m);
      SpanInContext(before, other, s, m);
      Found(find, other, s, m);
    }
    if m :| find(other, s) == Some(m) {
      Found(find, other, s, m);
      SpanInContext(other, before, s, m);
      Found(find, before, s, m);
    }
  }

  lemma NoQuoteInMatch(before: Option<char>, s: string, m: Span, i: nat)
    requires MatchSpan(before, s, m) && i < m.end
    ensures s[i] != '\"'
  {
    if i < m.start {
      KeywordLetters(s[..m.start], i);
      assert s[..m.start][i] == s[i];
    }
  }

  // s and t agree up to and including position q.
  lemma SpanTransfers(before: Option<char>, s: string, t: string, m: Span, q: nat)
    requires q < |s| && q < |t| && s[..q] == t[..q]
    requires MatchSpan(before, s, m) && m.end <= q
    requires m.end == q ==> !IsWord(t[q])
    ensures MatchSpan(before, t, m)
  {
    assert s[..m.start] == s[..q][..m.start] == t[..m.start];
    forall i | m.start <= i < q
      ensures s[i] == t[i]
    {
      assert s[..q][i] == t[..q][i];
    }
  }

  lemma DepartureKeepsHead(before: Option<char>, s: string, out: string, m: Span, q: nat)
    requires DepartsAt(s, out, q) && MatchSpan(before, out, m)
    ensures MatchSpan(before, s, m)
  {
    if q < m.end {
      NoQuoteInMatch(before, out, m, q);
    }
    assert out[..q][q - 1] == s[..q][q - 1];
    SpanTransfers(before, out, s, m, q);
  }

  /** Rewriting what follows cannot complete a match at a head that had none. */
  lemma HeadStaysMatchless(find: Matcher, before: Option<char>, s: string, forms: map<string, string>)
    requires Finds(find) && QuotedForms(forms)
    requires s != "" && find(before, s) == None && Rewrite(find, Some(s[0]), s[1..], forms).Ok?
    ensures find(before, [s[0]] + Rewrite(find, Some(s[0]), s[1..], forms).value) == None
  {
    var t := Rewrite(find, Some(s[0]), s[1..], forms).value;
    var q := RewriteDeparts(find, Some(s[0]), s[1..], forms);
    assert [s[0]] + s[1..] == s;
    if !Matchless(find, Some(s[0]), s[1..]) {
      DepartsLater(s[0], s[1..], t, q);
      if m :| find(before, [s[0]] + t) == Some(m) {
        Found(find, before, [s[0]] + t, m);
        DepartureKeepsHead(before, s, [s[0]] + t, m, q + 1);
        Found(find, before, s, m);
      }
    }
  }

  predicate EndsWithQuote(s: string) {
    s != "" && s[|s| - 1] == '\"'
  }

  lemma SpanBeforeQuote(before: Option<char>, x: string, y: string, m: Span)
    requires EndsWithQuote(x)
    ensures MatchSpan(before, x + y, m) <==> MatchSpan(before, x, m)
  {
    var q := |x| - 1;
    assert (x + y)[..q] == x[..q] && (x + y)[q] == x[q];
    if MatchSpan(before, x + y, m) {
      if q < m.end {
        NoQuoteInMatch(before, x + y, m, q);
      }
      SpanTransfers(before, x + y, x, m, q);
    }
    if MatchSpan(before, x, m) {
      if q < m.end {
        NoQuoteInMatch(before, x, m, q);
      }
      SpanTransfers(before, x, x + y, m, q);
    }
  }

  lemma HeadBeforeQuote(find: Matcher, before: Option<char>, x: string, y: string)
    requires Finds(find) && EndsWithQuote(x)
    ensures find(before, x + y) == find(before, x)
  {
    if m :| find(before, x + y) == Some(m) {
      Found(find, before, x + y, m);
      SpanBeforeQuote(before, x, y, m);
      Found(find, before, x, m);
    }
    if m :| find(before, x) == Some(m) {
      Found(find, before, x, m);
      SpanBeforeQuote(before, x, y, m);
      Found(find, before, x + y, m);
    }
  }

  /** A match cannot straddle a quotation mark. */
  lemma {:induction false} QuoteSeparates(find: Matcher, before: Option<char>, x: string, y: string)
    requires Finds(find) && EndsWithQuote(x)
    ensures Matchless(find, before, x + y) <==> Matchless(find, before, x) && Matchless(find, Some('\"'), y)
    decreases |x|
  {
    HeadBeforeQuote(find, before, x, y);
    assert (x + y)[1..] == x[1..] + y;
    if |x| > 1 {
      QuoteSeparates(find, Some(x[0]), x[1..], y);
    } else {
      assert x[1..] + y == y;
    }
  }

  lemma NoSpanBeforeQuote(before: Option<char>, keyword: string, k: nat, form: string, m: Span)
    requires (keyword == ASSET || keyword == CURRENCY) && k < |keyword| && Quoted(form)
    ensures !MatchSpan(before, keyword[k..] + form, m)
  {
    var s := keyword[k..] + form;
    if MatchSpan(before, s, m) {
      assert s[|keyword| - k] == '\"';
      if |keyword| - k < m.end {
        NoQuoteInMatch(before, s, m, |keyword| - k);
      }
      assert IsDigit(s[m.start]) && s[m.start] == keyword[k..][m.start];
      KeywordLetters(keyword, k + m.start);
    }
  }

  lemma NoHeadBeforeForm(find: Matcher, before: Option<char>, keyword: string, k: nat, form: string)
    requires Finds(find) && (keyword == ASSET || keyword == CURRENCY) && k < |keyword| && Quoted(form)
    ensures find(before, keyword[k..] + form) == None
  {
    if m :| find(before, keyword[k..] + form) == Some(m) {
      Found(find, before, keyword[k..] + form, m);
      NoSpanBeforeQuote(before, keyword, k, form, m);
    }
  }

  lemma SameContextSameMatchless(find: Matcher, before: Option<char>, other: Option<char>, s: string)
    requires Finds(find) && SameContext(before, other, s)
    ensures Matchless(find, before, s) <==> Matchless(find, other, s)
  {
    SameHead(find, before, other, s);
  }

  lemma MatchlessStep(find: Matcher, before: Option<char>, c: char, s: string)
    requires find(before, [c] + s) == None
    ensures Matchless(find, before, [c] + s) <==> Matchless(find, Some(c), s)
  {
    assert ([c] + s)[1..] == s;
  }

  /** A keyword left in front of a quoted form is no longer part of any match. */
  lemma {:induction false} KeywordThenForm(find: Matcher, before: Option<char>, keyword: string, k: nat, form: string)
    requires Finds(find) && (keyword == ASSET || keyword == CURRENCY) && k <= |keyword| && Quoted(form)
    ensures Matchless(find, before, keyword[k..] + form) <==> Matchless(find, None, form)
    decreases |keyword| - k
  {
    var s := keyword[k..] + form;
    if k == |keyword| {
      assert s == form;
      SameContextSameMatchless(find, before, None, form);
    } else {
      assert s == [keyword[k]] + (keyword[k + 1..] + form);
      NoHeadBeforeForm(find, before, keyword, k, form);
      MatchlessStep(find, before, keyword[k], keyword[k + 1..] + form);
      KeywordThenForm(find, Some(keyword[k]), keyword, k + 1, form);
    }
  }

  // No form that replaces an id in the text contains a match of its own.
  predicate CleanForms(find: Matcher, text: string, from: nat, forms: map<string, string>)
    requires from <= |text|
  {
    forall m | m in FindAll(find, text, from) ::
      IdAt(text, m) in forms ==> Matchless(find, None, forms[IdAt(text, m)])
  }

  lemma OutputMatchlessAtMatch(
    find: Matcher, text: string, from: nat, other: Option<char>, m: Span, form: string, t: string)
    requires Finds(find) && from < |text| && find(Before(text, from), text[from..]) == Some(m) && Quoted(form)
    ensures from + m.start <= |text|
    ensures Matchless(find, other, text[from..from + m.start] + form + t)
            <==> Matchless(find, None, form) && Matchless(find, Some('\"'), t)
  {
    var s := text[from..];
    Found(find, Before(text, from), s, m);
    var keyword := s[..m.start];
    assert text[from..from + m.start] == keyword == keyword[0..];
    QuoteSeparates(find, other, keyword + form, t);
    KeywordThenForm(find, other, keyword, 0, form);
  }

  lemma MatchEndsWord(find: Matcher, text: string, from: nat, m: Span)
    requires Finds(find) && from < |text| && find(Before(text, from), text[from..]) == Some(m)
    ensures from + m.end <= |text|
    ensures SameContext(Before(text, from + m.end), Some('\"'), text[from + m.end..])
  {
    Found(find, Before(text, from), text[from..], m);
    assert from + m.end < |text| ==> text[from..][m.end] == text[from + m.end..][0];
  }

  lemma {:induction false} OutputMatchless(
    find: Matcher, text: string, from: nat, other: Option<char>, forms: map<string, string>)
    requires Finds(find) && QuotedForms(forms) && from <= |text| && RewriteFrom(find, text, from, forms).Ok?
    requires SameContext(Before(text, from), other, text[from..])
    ensures Matchless(find, other, RewriteFrom(find, text, from, forms).value) <==> CleanForms(find, text, from, forms)
    decreases |text| - from
  {
    if from < |text| {
      match find(Before(text, from), text[from..])
      case None =>
        SkipCharacter(find, text, from, forms);
        OutputMatchlessAtCharacter(find, text, from, other, forms);
        OutputMatchless(find, text, from + 1, Some(text[from]), forms);
      case Some(m) =>
        TakeMatch(find, text, from, m, forms);
        var id, t := text[from + m.start..from + m.end], RewriteFrom(find, text, from + m.end, forms).value;
        OutputMatchlessAtMatch(find, text, from, other, m, forms[id], t);
        MatchEndsWord(find, text, from, m);
        OutputMatchless(find, text, from + m.end, Some('\"'), forms);
        CleanFormsAtMatch(find, text, from, m, forms);
    }
  }

  lemma CleanFormsAtMatch(find: Matcher, text: string, from: nat, m: Span, forms: map<string, string>)
    requires from < |text| && find(Before(text, from), text[from..]) == Some(m)
    ensures 0 < m.start < m.end && from + m.end <= |text|
    ensures text[from + m.start..from + m.end] in forms ==>
              (CleanForms(find, text, from, forms) <==>
                Matchless(find, None, forms[text[from + m.start..from + m.end]])
                && CleanForms(find, text, from + m.end, forms))
  {
    var head := Span(from + m.start, from + m.end);
    FoundHereOrLater(find, text, from, m, head);
    assert IdAt(text, head) == text[head.start..head.end];
    forall other
      ensures other in FindAll(find, text, from) <==> other == head || other in FindAll(find, text, head.end)
    {
      FoundHereOrLater(find, text, from, m, other);
    }
  }

  lemma OutputMatchlessAtCharacter(
    find: Matcher, text: string, from: nat, other: Option<char>, forms: map<string, string>)
    requires Finds(find) && QuotedForms(forms)
    requires from < |text| && find(Before(text, from), text[from..]) == None
    requires RewriteFrom(find, text, from + 1, forms).Ok?
    requires SameContext(Before(text, from), other, text[from..])
    ensures
      var t := RewriteFrom(find, text, from + 1, forms).value;
      Matchless(find, other, [text[from]] + t) <==> Matchless(find, Some(text[from]), t)
  {
    var s, t := text[from..], RewriteFrom(find, text, from + 1, forms).value;
    assert s[1..] == text[from + 1..];
    HeadStaysMatchless(find, Before(text, from), s, forms);
    SameHead(find, Before(text, from), other, [s[0]] + t);
    assert ([s[0]] + t)[1..] == t;
  }

  /**
   * Rewriting the output changes nothing exactly when no form that was written into it
   * contains a match itself.
   */
  lemma OutputIsFixedPointExactly(find: Matcher, text: string, forms: map<string, string>)
    requires Finds(find) && QuotedForms(forms) && Rewrite(find, None, text, forms).Ok?
    ensures
      var out := Rewrite(find, None, text, forms).value;
      Rewrite(find, None, out, forms) == Ok(out) <==> CleanForms(find, text, 0, forms)
  {
    assert text[0..] == text;
    OutputMatchless(find, text, 0, None, forms);
    FixedExactlyWhenMatchless(find, None, Rewrite(find, None, text, forms).value, forms);
  }

  // A matcher that meets the specification: keyword, then the maximal run of digits.

  function DigitRun(s: string): (n: nat)
    ensures n <= |s|
  {
    if s == "" || !IsDigit(s[0]) then 0 else 1 + DigitRun(s[1..])
  }

  function KeywordLength(s: string): (d: nat)
    ensures d <= |s|
  {
    if ASSET <= s then |ASSET| else if CURRENCY <= s then |CURRENCY| else 0
  }

  function FindHead(before: Option<char>, s: string): (r: Option<Span>)
    ensures InRange(s, r)
  {
    var d := KeywordLength(s);
    var e := d + DigitRun(s[d..]);
    if WordBefore(before) || d == 0 || e == d || (e < |s| && IsWord(s[e])) then None else Some(Span(d, e))
  }

  lemma {:induction false} DigitRunIsMaximal(s: string)
    ensures forall i | 0 <= i < DigitRun(s) :: IsDigit(s[i])
    ensures DigitRun(s) < |s| ==> !IsDigit(s[DigitRun(s)])
  {
    if s != "" && IsDigit(s[0]) {
      DigitRunIsMaximal(s[1..]);
    }
  }

  lemma KeywordEndsAtSpace(before: Option<char>, s: string, m: Span)
    requires MatchSpan(before, s, m)
    ensures KeywordLength(s) == m.start
  {
    assert ASSET[0] == 'a' && CURRENCY[0] == 'c';
    assert s[..m.start][0] == s[0];
  }

  lemma MatchTakesTheRun(before: Option<char>, s: string, m: Span)
    requires MatchSpan(before, s, m)
    ensures FindHead(before, s) == Some(m)
  {
    KeywordEndsAtSpace(before, s, m);
    DigitRunIsMaximal(s[m.start..]);
    assert forall i | m.start <= i < |s| :: s[i] == s[m.start..][i - m.start];
  }

  lemma TheRunMatches(before: Option<char>, s: string)
    requires FindHead(before, s).Some?
    ensures MatchSpan(before, s, FindHead(before, s).value)
  {
    var k := KeywordLength(s);
    DigitRunIsMaximal(s[k..]);
    assert forall i | k <= i < |s| :: s[i] == s[k..][i - k];
  }

  /** Taking the maximal run finds exactly the pattern's matches, so a match's id is always a maximal run. */
  lemma MaximalRunIsTheMatch(before: Option<char>, s: string, m: Span)
    ensures FindHead(before, s) == Some(m) <==> MatchSpan(before, s, m)
  {
    if MatchSpan(before, s, m) {
      MatchTakesTheRun(before, s, m);
    } else if FindHead(before, s) == Some(m) {
      TheRunMatches(before, s);
    }
  }

  /** So a matcher of the pattern exists, and what is proved of every matcher holds of this one. */
  lemma FindHeadFinds()
    ensures Ranged(FindHead) && Finds(FindHead)
  {
    forall before, s, m: Span
      ensures FindHead(before, s) == Some(m) <==> MatchSpan(before, s, m)
    {
      MaximalRunIsTheMatch(before, s, m);
    }
  }
}
