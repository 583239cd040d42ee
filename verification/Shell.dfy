/**
  Words as the shell reads them: quoting by sections 2.2.1 to 2.2.3 and token recognition by section 2.3 of
  the POSIX.1-2017 Shell Command Language.  Text that needs a nested parse (command substitution, braces
  after a dollar, an expansion in double quotes) or that ends inside a quotation gives no tokens.
 */
module Shell {
  import opened Options

  /** A character of a word, and whether it was quoted. */
  datatype Mark = Mark(letter: char, quoted: bool)

  datatype Token = Word(marks: seq<Mark>) | Operator(text: string)

  datatype Mode = Plain | Single | Double

  /**
    The punctuation that the shell may act on: the characters of section 2.2, and those of pathname and brace
    patterns and of history.  Whether `=` or `%` means something depends on the command they are part of.
   */
  const Special := {
    '!', '"', '#', '$', '&', '\'', '(', ')', '*', ';', '<', '>', '?', '[', '\\', ']', '^', '`', '{', '|', '}', '~'
  }

  /** A visible character that the shell leaves alone. */
  predicate Ordinary(c: char) {
    c as int >= 128 || ('!' <= c <= '~' && c !in Special)
  }

  // ----- Token recognition -----

  const OperatorStart := {'&', '|', ';', '<', '>', '(', ')', '\n'}

  /** The length of the longest operator at the start of `s`. */
  function OperatorLength(s: string): (n: nat)
    requires s != "" && s[0] in OperatorStart
    ensures 1 <= n <= |s|
  {
    if |s| == 1 then 1
    else if s[0] == '<' && s[1] == '<' then if |s| > 2 && s[2] == '-' then 3 else 2
    else if (s[0] in {'&', '|', ';', '>'} && s[1] == s[0])
         || (s[0] in {'<', '>'} && s[1] == '&') || (s[0] == '<' && s[1] == '>') || (s[0] == '>' && s[1] == '|')
    then 2 else 1
  }

  function Marks(word: Option<seq<Mark>>): seq<Mark> {
    if word.Some? then word.value else []
  }

  function Add(word: Option<seq<Mark>>, c: char, quoted: bool): Option<seq<Mark>> {
    Some(Marks(word) + [Mark(c, quoted)])
  }

  function Before(tokens: seq<Token>, r: Option<seq<Token>>): Option<seq<Token>> {
    match r case None => None case Some(rest) => Some(tokens + rest)
  }

  /** The word so far, as a token. */
  function Ended(word: Option<seq<Mark>>): seq<Token> {
    if word.Some? then [Word(word.value)] else []
  }

  function SkipLine(s: string): (r: string)
    ensures |r| <= |s|
  {
    if s == "" || s[0] == '\n' then s else SkipLine(s[1..])
  }

  /** The tokens of `s`, inside `mode` and after the characters of `word`. */
  function Tokens(s: string, mode: Mode, word: Option<seq<Mark>>): Option<seq<Token>>
    decreases |s|
  {
    if s == "" then if mode == Plain then Some(Ended(word)) else None
    else
      match mode
      case Single =>
        if s[0] == '\'' then Tokens(s[1..], Plain, word) else Tokens(s[1..], Single, Add(word, s[0], true))
      case Double =>
        if s[0] == '"' then Tokens(s[1..], Plain, word)
        else if s[0] in {'$', '`'} then None
        else if s[0] == '\\' && |s| > 1 && s[1] in {'$', '`', '"', '\\'} then Tokens(s[2..], Double, Add(word, s[1], true))
        else if s[0] == '\\' && |s| > 1 && s[1] == '\n' then Tokens(s[2..], Double, word)
        else Tokens(s[1..], Double, Add(word, s[0], true))
      case Plain =>
        if s[0] == '\'' then Tokens(s[1..], Single, Some(Marks(word)))
        else if s[0] == '"' then Tokens(s[1..], Double, Some(Marks(word)))
        else if s[0] == '\\' then
          if |s| == 1 then None
          else if s[1] == '\n' then Tokens(s[2..], Plain, word)
          else Tokens(s[2..], Plain, Add(word, s[1], true))
        else if s[0] == '`' || (s[0] == '$' && |s| > 1 && s[1] in {'(', '{', '\'', '"'}) then None
        else if s[0] in OperatorStart then
          var n := OperatorLength(s);
          Before(Ended(word) + [Operator(s[..n])], Tokens(s[n..], Plain, None))
        else if s[0] in {' ', '\t'} then Before(Ended(word), Tokens(s[1..], Plain, None))
        else if s[0] == '#' && word.None? then Tokens(SkipLine(s[1..]), Plain, None)
        else Tokens(s[1..], Plain, Add(word, s[0], false))
  }

  function Tokenize(s: string): Option<seq<Token>> {
    Tokens(s, Plain, None)
  }

  /** Quote removal. */
  function Text(marks: seq<Mark>): string {
    seq(|marks|, i requires 0 <= i < |marks| => marks[i].letter)
  }

  // ----- Lists joined by an operator -----

  const And := Operator("&&")

  /** The parts between `&&` operators. */
  function SplitAnd(tokens: seq<Token>): (r: seq<seq<Token>>)
    ensures |r| > 0
  {
    if tokens == [] then [[]]
    else
      var rest := SplitAnd(tokens[1..]);
      if tokens[0] == And then [[]] + rest else [[tokens[0]] + rest[0]] + rest[1..]
  }
}

/** The quoting printer of the container script, and the command line that it builds. */
module ShellQuoting {
  import opened Options
  import opened Shell

  // ----- Quoting -----

  /** `isalnum`: letters and digits; which characters beyond ASCII are such is up to `beyond`. */
  predicate IsAlnum(c: char, beyond: char -> bool) {
    || 'a' <= c <= 'z' || 'A' <= c <= 'Z' || '0' <= c <= '9'
    || (c as int >= 128 && beyond(c))
  }

  predicate Safe(c: char, beyond: char -> bool) {
    IsAlnum(c, beyond) || c in {'@', '%', '_', '+', '=', ':', ',', '.', '/', '-'}
  }

  ghost predicate AllSafe(s: string, beyond: char -> bool) {
    forall k :: 0 <= k < |s| ==> Safe(s[k], beyond)
  }

  /** Each quote is replaced by one that ends the quotation, a quoted quote, and one that starts it again. */
  function Escape(s: string): string {
    if s == "" then "" else (if s[0] == '\'' then "'\"'\"'" else [s[0]]) + Escape(s[1..])
  }

  function ShellQuote(value: string, beyond: char -> bool): string {
    if forall k :: 0 <= k < |value| ==> Safe(value[k], beyond) then value else "'" + Escape(value) + "'"
  }

  function ShellJoin(parts: seq<string>, beyond: char -> bool): string {
    if parts == [] then ""
    else if |parts| == 1 then ShellQuote(parts[0], beyond)
    else ShellQuote(parts[0], beyond) + " " + ShellJoin(parts[1..], beyond)
  }

  // ----- What is quoted -----

  /** A letter or digit, or one of the ordinary characters. */
  ghost predicate Clean(c: char, beyond: char -> bool) {
    Ordinary(c) && (c as int >= 128 ==> beyond(c))
  }

  lemma SafeIff(s: string, beyond: char -> bool)
    ensures AllSafe(s, beyond) <==> forall k :: 0 <= k < |s| ==> Clean(s[k], beyond)
  {
    hide Safe, Clean;
    forall k | 0 <= k < |s| ensures Safe(s[k], beyond) == Clean(s[k], beyond) {
      SafeIsClean(s[k], beyond);
    }
  }

  lemma SafeIsClean(c: char, beyond: char -> bool)
    ensures Safe(c, beyond) == Clean(c, beyond)
  {
  }

  lemma {:induction false} EscapeLonger(s: string)
    ensures |Escape(s)| >= |s|
  {
    if s != "" {
      EscapeLonger(s[1..]);
    }
  }

  /** A word is printed as it is exactly if there is nothing in it for the shell to act on. */
  lemma QuotedIff(w: string, beyond: char -> bool)
    ensures ShellQuote(w, beyond) == w <==> forall k :: 0 <= k < |w| ==> Clean(w[k], beyond)
  {
    hide Safe, Clean, Escape;
    SafeIff(w, beyond);
    EscapeLonger(w);
  }

  // ----- What the shell reads -----

  function Marked(s: string, quoted: bool): seq<Mark> {
    seq(|s|, i requires 0 <= i < |s| => Mark(s[i], quoted))
  }

  /** The word as the shell sees it: quoted throughout, or safe characters only. */
  function QuotedMarks(w: string, beyond: char -> bool): seq<Mark> {
    Marked(w, !(forall k :: 0 <= k < |w| ==> Safe(w[k], beyond)))
  }

  function WordTokens(parts: seq<string>, beyond: char -> bool): seq<Token> {
    if parts == [] then []
    else (if parts[0] == "" then [] else [Word(QuotedMarks(parts[0], beyond))]) + WordTokens(parts[1..], beyond)
  }

  lemma {:induction false} SafeRun(s: string, rest: string, word: Option<seq<Mark>>, beyond: char -> bool)
    requires AllSafe(s, beyond) && s != ""
    ensures Tokens(s + rest, Plain, word) == Tokens(rest, Plain, Some(Marks(word) + Marked(s, false)))
    decreases |s|
  {
    var c, tail := s[0], s[1..];
    assert (s + rest)[1..] == tail + rest;
    SafeStep(c, tail + rest, word, beyond);
    assert s + rest == [c] + (tail + rest);
    hide Tokens;
    if tail == "" {
      assert tail + rest == rest;
      assert Marked(s, false) == [Mark(c, false)];
    } else {
      SafeRun(tail, rest, Add(word, c, false), beyond);
      assert Marked(s, false) == [Mark(c, false)] + Marked(tail, false);
      assert Marks(word) + [Mark(c, false)] + Marked(tail, false) == Marks(word) + Marked(s, false);
    }
  }

  lemma SafeStep(c: char, rest: string, word: Option<seq<Mark>>, beyond: char -> bool)
    requires Safe(c, beyond)
    ensures Tokens([c] + rest, Plain, word) == Tokens(rest, Plain, Add(word, c, false))
  {
    assert ([c] + rest)[1..] == rest;
  }

  /** Inside single quotes nothing but a quote is special; an escaped one comes out as itself. */
  lemma {:induction false} EscapedRun(s: string, rest: string, marks: seq<Mark>)
    ensures Tokens(Escape(s) + "'" + rest, Single, Some(marks)) == Tokens(rest, Plain, Some(marks + Marked(s, true)))
    decreases |s|
  {
    var after := "'" + rest;
    assert Escape(s) + "'" + rest == Escape(s) + after;
    if s == "" {
      assert Escape(s) + after == after && after[1..] == rest && after[0] == '\'';
      assert marks + Marked(s, true) == marks;
    } else {
      var c, tail := s[0], Escape(s[1..]) + after;
      if c == '\'' {
        assert Escape(s) + after == "'\"'\"'" + tail;
        QuoteStep(tail, marks);
      } else {
        assert Escape(s) + after == [c] + tail;
        CharStep(c, tail, marks);
      }
      assert tail == Escape(s[1..]) + "'" + rest;
      hide Tokens;
      EscapedRun(s[1..], rest, marks + [Mark(c, true)]);
      assert Marked(s, true) == [Mark(c, true)] + Marked(s[1..], true);
      assert marks + [Mark(c, true)] + Marked(s[1..], true) == marks + Marked(s, true);
    }
  }

  lemma CharStep(c: char, tail: string, marks: seq<Mark>)
    requires c != '\''
    ensures Tokens([c] + tail, Single, Some(marks)) == Tokens(tail, Single, Some(marks + [Mark(c, true)]))
  {
    assert ([c] + tail)[1..] == tail;
  }

  lemma QuoteStep(tail: string, marks: seq<Mark>)
    ensures Tokens("'\"'\"'" + tail, Single, Some(marks)) == Tokens(tail, Single, Some(marks + [Mark('\'', true)]))
  {
    var s := "'\"'\"'" + tail;
    var s1, s2, s3, s4 := s[1..], s[2..], s[3..], s[4..];
    assert s1[1..] == s2 && s2[1..] == s3 && s3[1..] == s4 && s4[1..] == tail;
    assert Tokens(s, Single, Some(marks)) == Tokens(s1, Plain, Some(marks));
    assert Tokens(s1, Plain, Some(marks)) == Tokens(s2, Double, Some(marks));
    assert Tokens(s2, Double, Some(marks)) == Tokens(s3, Double, Some(marks + [Mark('\'', true)]));
    assert Tokens(s3, Double, Some(marks + [Mark('\'', true)])) == Tokens(s4, Plain, Some(marks + [Mark('\'', true)]));
  }

  /** A quoted word is read as that word, and the quoted empty word as nothing at all. */
  lemma {:induction false} QuoteRun(w: string, rest: string, beyond: char -> bool)
    ensures Tokens(ShellQuote(w, beyond) + rest, Plain, None) ==
            Tokens(rest, Plain, if w == "" then None else Some(QuotedMarks(w, beyond)))
  {
    hide Tokens, Escape, Safe;
    if w == "" {
      assert ShellQuote(w, beyond) + rest == rest;
    } else if AllSafe(w, beyond) {
      SafeRun(w, rest, None, beyond);
      assert [] + Marked(w, false) == Marked(w, false);
    } else {
      var inner := Escape(w) + "'" + rest;
      assert ShellQuote(w, beyond) + rest == ['\''] + inner;
      OpenQuote(inner);
      EscapedRun(w, rest, []);
      assert [] + Marked(w, true) == Marked(w, true);
    }
  }

  lemma OpenQuote(inner: string)
    ensures Tokens(['\''] + inner, Plain, None) == Tokens(inner, Single, Some([]))
  {
    assert (['\''] + inner)[1..] == inner;
  }

  /** The end of the text, or a blank, ends a word. */
  predicate EndsWord(rest: string) {
    rest == "" || rest[0] == ' '
  }

  lemma WordEnds(rest: string, word: Option<seq<Mark>>)
    requires EndsWord(rest)
    ensures Tokens(rest, Plain, word) == Before(Ended(word), Tokens(rest, Plain, None))
  {
    if rest == "" {
      assert Ended(word) + [] == Ended(word);
    } else {
      var r := Tokens(rest[1..], Plain, None);
      assert Before([], r) == r by {
        BeforeNone(r);
      }
    }
  }

  lemma BeforeNone(r: Option<seq<Token>>)
    ensures Before([], r) == r
  {
    if r.Some? {
      assert [] + r.value == r.value;
    }
  }

  lemma BeforeTwice(a: seq<Token>, b: seq<Token>, r: Option<seq<Token>>)
    ensures Before(a, Before(b, r)) == Before(a + b, r)
  {
    if r.Some? {
      assert a + (b + r.value) == a + b + r.value;
    }
  }

  /** `piece` is read as `tokens`, whatever comes after it in a word of its own. */
  ghost predicate Reads(piece: string, tokens: seq<Token>) {
    forall rest :: EndsWord(rest) ==> Tokens(piece + rest, Plain, None) == Before(tokens, Tokens(rest, Plain, None))
  }

  lemma {:induction false} JoinReads(parts: seq<string>, beyond: char -> bool)
    ensures Reads(ShellJoin(parts, beyond), WordTokens(parts, beyond))
    decreases |parts|
  {
    hide Tokens, ShellQuote;
    forall rest | EndsWord(rest)
      ensures Tokens(ShellJoin(parts, beyond) + rest, Plain, None) ==
              Before(WordTokens(parts, beyond), Tokens(rest, Plain, None))
    {
      JoinRun(parts, rest, beyond);
    }
  }

  lemma {:induction false} JoinRun(parts: seq<string>, rest: string, beyond: char -> bool)
    requires EndsWord(rest)
    ensures Tokens(ShellJoin(parts, beyond) + rest, Plain, None) == Before(WordTokens(parts, beyond), Tokens(rest, Plain, None))
    decreases |parts|
  {
    hide Tokens, ShellQuote, QuotedMarks;
    var after := Tokens(rest, Plain, None);
    if parts == [] {
      assert "" + rest == rest;
      BeforeNone(after);
    } else {
      var first, others := parts[0], WordTokens(parts[1..], beyond);
      var word := if first == "" then None else Some(QuotedMarks(first, beyond));
      assert WordTokens(parts, beyond) == Ended(word) + others;
      if |parts| == 1 {
        QuoteRun(first, rest, beyond);
        WordEnds(rest, word);
        assert others == [] && Ended(word) + [] == Ended(word);
      } else {
        var tail := ShellJoin(parts[1..], beyond) + rest;
        assert ShellJoin(parts, beyond) + rest == ShellQuote(first, beyond) + ([' '] + tail);
        QuoteRun(first, [' '] + tail, beyond);
        WordEnds([' '] + tail, word);
        Blank(tail);
        JoinRun(parts[1..], rest, beyond);
        BeforeTwice(Ended(word), others, after);
      }
    }
  }

  lemma Blank(rest: string)
    ensures Tokens([' '] + rest, Plain, None) == Tokens(rest, Plain, None)
  {
    assert ([' '] + rest)[1..] == rest;
    BeforeNone(Tokens(rest, Plain, None));
  }

  // ----- Words come back -----

  function NonEmpty(parts: seq<string>): seq<string> {
    if parts == [] then [] else (if parts[0] == "" then [] else [parts[0]]) + NonEmpty(parts[1..])
  }

  /** The words after quote removal, if there are only words. */
  function Texts(tokens: seq<Token>): Option<seq<string>> {
    if tokens == [] then Some([])
    else if tokens[0].Operator? then None
    else match Texts(tokens[1..]) case None => None case Some(rest) => Some([Text(tokens[0].marks)] + rest)
  }

  /** Nothing that an expansion could act on: every character is quoted or an ordinary one. */
  ghost predicate NothingExpands(tokens: seq<Token>) {
    forall i :: 0 <= i < |tokens| ==>
                  tokens[i].Word? && forall j :: 0 <= j < |tokens[i].marks| ==>
                                                   tokens[i].marks[j].quoted || Ordinary(tokens[i].marks[j].letter)
  }

  lemma QuotedMarksAre(w: string, beyond: char -> bool)
    ensures Text(QuotedMarks(w, beyond)) == w
    ensures NothingExpands([Word(QuotedMarks(w, beyond))])
  {
    SafeIff(w, beyond);
  }

  lemma {:induction false} WordTokensTexts(parts: seq<string>, beyond: char -> bool)
    ensures Texts(WordTokens(parts, beyond)) == Some(NonEmpty(parts))
    ensures NothingExpands(WordTokens(parts, beyond))
    decreases |parts|
  {
    hide QuotedMarks, NothingExpands;
    ExpandsNone();
    if parts != [] {
      WordTokensTexts(parts[1..], beyond);
      var w, rest := parts[0], WordTokens(parts[1..], beyond);
      if w == "" {
        assert [] + rest == rest && [] + NonEmpty(parts[1..]) == NonEmpty(parts[1..]);
      } else {
        QuotedMarksAre(w, beyond);
        var all := [Word(QuotedMarks(w, beyond))] + rest;
        assert all[1..] == rest;
        ExpandsCons([Word(QuotedMarks(w, beyond))], rest);
      }
    }
  }

  lemma ExpandsNone()
    ensures NothingExpands([])
  {
  }

  lemma ExpandsCons(a: seq<Token>, b: seq<Token>)
    requires NothingExpands(a) && NothingExpands(b)
    ensures NothingExpands(a + b)
  {
    hide Ordinary;
  }

  lemma {:induction false} NonEmptyIff(parts: seq<string>)
    ensures |NonEmpty(parts)| <= |parts|
    ensures NonEmpty(parts) == parts <==> forall k :: 0 <= k < |parts| ==> parts[k] != ""
  {
    if parts != [] {
      var rest := parts[1..];
      NonEmptyIff(rest);
      assert parts == [parts[0]] + rest;
      if forall k :: 0 <= k < |parts| ==> parts[k] != "" {
        forall k | 0 <= k < |rest| ensures rest[k] != "" {
          assert rest[k] == parts[k + 1];
        }
      } else if parts[0] != "" {
        var k :| 0 <= k < |parts| && parts[k] == "";
        assert rest[k - 1] == "";
        assert NonEmpty(parts)[1..] == NonEmpty(rest);
        assert parts[1..] == rest;
      }
    }
  }

  /**
    Tokenizing what was joined and removing the quotes gives back the words that are not empty, and nothing
    in them is left to expand.  So all words come back exactly if none is empty.
   */
  lemma JoinedWords(parts: seq<string>, beyond: char -> bool)
    ensures var r := Tokenize(ShellJoin(parts, beyond));
            && r.Some? && NothingExpands(r.value)
            && Texts(r.value) == Some(NonEmpty(parts))
            && (Texts(r.value) == Some(parts) <==> forall k :: 0 <= k < |parts| ==> parts[k] != "")
  {
    hide Tokens, ShellJoin, WordTokens, Texts, NothingExpands;
    JoinRun(parts, "", beyond);
    assert ShellJoin(parts, beyond) + "" == ShellJoin(parts, beyond);
    NoTokens();
    assert WordTokens(parts, beyond) + [] == WordTokens(parts, beyond);
    WordTokensTexts(parts, beyond);
    NonEmptyIff(parts);
  }

  /** An empty word disappears, and the one after it takes its place. */
  lemma EmptyWordIsLost(beyond: char -> bool)
    ensures var r := Tokenize(ShellJoin(["--crate", "", "--locked"], beyond));
            r.Some? && Texts(r.value) == Some(["--crate", "--locked"])
  {
    var parts := ["--crate", "", "--locked"];
    hide Tokens, ShellJoin, Texts, NothingExpands;
    JoinedWords(parts, beyond);
    assert parts[1..] == ["", "--locked"] && ["", "--locked"][1..] == ["--locked"];
    assert NonEmpty(["--locked"]) == ["--locked"] + NonEmpty(["--locked"][1..]) == ["--locked"];
    assert NonEmpty(["", "--locked"]) == [] + ["--locked"] == ["--locked"];
    assert NonEmpty(parts) == ["--crate"] + ["--locked"] == ["--crate", "--locked"];
  }

  lemma NoTokens()
    ensures Tokens("", Plain, None) == Some([])
  {
  }
}
