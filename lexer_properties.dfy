/** What `tokenize` promises about every token stream it returns, proved of `Lex`. */
module LexerProperties {
  import opened Wrappers
  import opened Lexer

  predicate AllIn(text: string, k: RunClass) {
    forall i :: 0 <= i < |text| ==> InRun(text[i], k)
  }

  /** The shape each token type can have. */
  predicate ValidToken(t: Token) {
    match t.kind
    case OpenParen => t.value == "("
    case CloseParen => t.value == ")"
    case BinaryOperator => |t.value| == 1 && IsBinaryOp(t.value[0])
    case Equals => t.value == "="
    case RelationalOperator => t.value != [] && t.value != "=" && AllIn(t.value, Relational)
    case Number => t.value != [] && AllIn(t.value, Digits)
    case Identifier => t.value != [] && AllIn(t.value, Letters) && t.value !in KEYWORDS
    case Var => t.value == "beta"
    case Const => t.value == "sigma"
    case Null => t.value == "null"
    case EOF => false
  }

  /** The values of the tokens, concatenated in order. */
  function Concat(ts: seq<Token>): string {
    if ts == [] then [] else ts[0].value + Concat(ts[1..])
  }

  /** The source with every skippable character removed. */
  function Strip(s: string): string {
    if s == [] then [] else (if IsSkippable(s[0]) then [] else [s[0]]) + Strip(s[1..])
  }

  /** The index of the first character no rule accepts, or |s| if there is none. */
  function FirstUnrecognized(s: string): (n: nat)
    ensures n <= |s|
  {
    if s == [] || !Recognized(s[0]) then 0 else 1 + FirstUnrecognized(s[1..])
  }

  /** A run is maximal: every character in it belongs to the class, and the next one does not. */
  lemma {:induction false} RunLengthMaximal(s: string, k: RunClass)
    ensures AllIn(s[..RunLength(s, k)], k)
    ensures RunLength(s, k) < |s| ==> !InRun(s[RunLength(s, k)], k)
    ensures s != [] && InRun(s[0], k) ==> RunLength(s, k) >= 1
  {
    if s != [] && InRun(s[0], k) {
      RunLengthMaximal(s[1..], k);
      var n := RunLength(s, k);
      assert s[..n] == [s[0]] + s[1..][..n - 1];
    }
  }

  /** Every token a scan produces has the shape its type demands; in particular none is EOF. */
  lemma {:induction false} ScanTokensValid(s: string)
    requires Scan(s).Ok?
    ensures forall i :: 0 <= i < |Scan(s).value| ==> ValidToken(Scan(s).value[i])
    decreases |s|
  {
    if s != [] {
      var c := s[0];
      if c == '(' || c == ')' || IsBinaryOp(c) || (IsSkippable(c) && !IsRelationalOp(c) && !IsNumber(c) && !IsAlpha(c)) {
        ScanTokensValid(s[1..]);
      } else if IsRelationalOp(c) || IsNumber(c) || IsAlpha(c) {
        var k := ClassOf(c);
        RunLengthMaximal(s, k);
        ScanTokensValid(s[RunLength(s, k)..]);
        var text := s[..RunLength(s, k)];
        assert ValidToken(RunToken(k, text)) by {
          if k == Letters && text in KEYWORDS {
            assert text == "beta" || text == "sigma" || text == "null";
          }
        }
      }
    }
  }

  /** The stream `tokenize` returns ends with one EOF token, "EndOfFile", and has no other. */
  lemma LexEndsWithSingleEOF(s: string)
    requires Lex(s).Ok?
    ensures var ts := Lex(s).value;
      |ts| >= 1 && ts[|ts| - 1] == Token("EndOfFile", EOF) &&
      forall i :: 0 <= i < |ts| - 1 ==> ts[i].kind != EOF
  {
    ScanTokensValid(s);
  }

  /** Removing skippable characters from a prefix of other characters keeps the prefix. */
  lemma {:induction false} StripKeepsPrefix(s: string, n: nat)
    requires n <= |s|
    requires forall i :: 0 <= i < n ==> !IsSkippable(s[i])
    ensures Strip(s) == s[..n] + Strip(s[n..])
  {
    if n > 0 {
      StripKeepsPrefix(s[1..], n - 1);
      assert s[1..][n - 1..] == s[n..];
      assert s[..n] == [s[0]] + s[1..][..n - 1];
    }
  }

  /** One run step of the covering proof: the run's token holds the run, which has no
      skippable character. */
  lemma RunCovers(s: string, k: RunClass, n: nat)
    requires s != [] && InRun(s[0], k) && n == RunLength(s, k)
    requires Scan(s[n..]).Ok? && Concat(Scan(s[n..]).value) == Strip(s[n..])
    ensures Scan(s) == Cons(RunToken(k, s[..n]), Scan(s[n..]))
    ensures Scan(s).Ok? && Concat(Scan(s).value) == Strip(s)
  {
    assert s == s[..n] + s[n..];
    ScanRunStep(s, k, s[..n], s[n..]);
    RunLengthMaximal(s, k);
    assert forall i :: 0 <= i < n ==> InRun(s[..n][i], k);
    StripKeepsPrefix(s, n);
    var t := RunToken(k, s[..n]);
    var rest := Scan(s[n..]).value;
    assert t.value == s[..n];
    var ts := [t] + rest;
    assert ts[0] == t && ts[1..] == rest;
    assert Concat(ts) == t.value + Concat(rest);
  }

  /** Every character but the skippable ones lands, in order, in exactly one token. */
  lemma {:induction false} ScanCoversSource(s: string)
    requires Scan(s).Ok?
    ensures Concat(Scan(s).value) == Strip(s)
    decreases |s|
  {
    if s != [] {
      var c := s[0];
      if c == '(' || c == ')' || IsBinaryOp(c) {
        ScanCoversSource(s[1..]);
        StripKeepsPrefix(s, 1);
        assert s[..1] == [c];
      } else if IsRelationalOp(c) || IsNumber(c) || IsAlpha(c) {
        var k := ClassOf(c);
        var n := RunLength(s, k);
        assert Scan(s) == Cons(RunToken(k, s[..n]), Scan(s[n..]));
        ScanCoversSource(s[n..]);
        RunCovers(s, k, n);
      } else {
        ScanCoversSource(s[1..]);
      }
    }
  }

  /** The values of the non-EOF tokens, concatenated, are the source without skippable characters. */
  lemma LexCoversSource(s: string)
    requires Lex(s).Ok?
    ensures var ts := Lex(s).value; Concat(ts[..|ts| - 1]) == Strip(s)
  {
    ScanCoversSource(s);
    var ts := Lex(s).value;
    assert ts[..|ts| - 1] == Scan(s).value;
  }

  /** Skipping a prefix of recognised characters moves the first unrecognised one by as much. */
  lemma {:induction false} FirstUnrecognizedAfter(s: string, n: nat)
    requires n <= |s|
    requires forall i :: 0 <= i < n ==> Recognized(s[i])
    ensures FirstUnrecognized(s) == n + FirstUnrecognized(s[n..])
  {
    if n > 0 {
      FirstUnrecognizedAfter(s[1..], n - 1);
      assert s[1..][n - 1..] == s[n..];
    }
  }

  lemma {:induction false} FirstUnrecognizedIsFirst(s: string)
    ensures forall j :: 0 <= j < FirstUnrecognized(s) ==> Recognized(s[j])
    ensures FirstUnrecognized(s) < |s| ==> !Recognized(s[FirstUnrecognized(s)])
  {
    if s != [] && Recognized(s[0]) {
      FirstUnrecognizedIsFirst(s[1..]);
    }
  }

  /** A scan fails exactly when the source holds an unrecognised character, and then it names
      the first one. */
  lemma {:induction false} ScanFailsAtFirstUnrecognized(s: string)
    ensures Scan(s).Err? <==> FirstUnrecognized(s) < |s|
    ensures Scan(s).Err? ==> Scan(s).error == UnrecognizedCharacter(s[FirstUnrecognized(s)])
    decreases |s|
  {
    if s != [] {
      var c := s[0];
      if c == '(' || c == ')' || IsBinaryOp(c) || (IsSkippable(c) && !IsRelationalOp(c) && !IsNumber(c) && !IsAlpha(c)) {
        ScanFailsAtFirstUnrecognized(s[1..]);
      } else if IsRelationalOp(c) || IsNumber(c) || IsAlpha(c) {
        var k := ClassOf(c);
        var n := RunLength(s, k);
        RunLengthMaximal(s, k);
        assert forall i :: 0 <= i < n ==> InRun(s[..n][i], k);
        FirstUnrecognizedAfter(s, n);
        ScanFailsAtFirstUnrecognized(s[n..]);
      }
    }
  }

  /** `tokenize` fails if and only if some character is unrecognised; it reports the first. */
  lemma LexFailsOnUnrecognized(s: string)
    ensures Lex(s).Err? <==> exists i :: 0 <= i < |s| && !Recognized(s[i])
    ensures Lex(s).Err? ==>
      var i := FirstUnrecognized(s);
      i < |s| && Lex(s).error == UnrecognizedCharacter(s[i]) && !Recognized(s[i]) &&
      forall j :: 0 <= j < i ==> Recognized(s[j])
  {
    ScanFailsAtFirstUnrecognized(s);
    FirstUnrecognizedIsFirst(s);
  }

  /** Input made only of skippable characters gives the EOF token alone. */
  lemma {:induction false} SkippableOnlyGivesEOF(s: string)
    requires forall i :: 0 <= i < |s| ==> IsSkippable(s[i])
    ensures Scan(s) == Ok([])
    ensures Lex(s) == Ok([EOF_TOKEN])
  {
    if s != [] {
      assert IsSkippable(s[0]) && forall i :: 0 <= i < |s[1..]| ==> s[1..][i] == s[i + 1];
      SkippableOnlyGivesEOF(s[1..]);
      assert !(s[0] == '(' || s[0] == ')' || IsBinaryOp(s[0]) || IsRelationalOp(s[0]) || IsNumber(s[0]) || IsAlpha(s[0]));
      assert Scan(s) == Scan(s[1..]);
    }
    assert [] + [] + [EOF_TOKEN] == [EOF_TOKEN];
  }

  /** `--` is two one-character binary operators: doubled operators are not merged. */
  lemma DoubleMinusIsTwoTokens()
    ensures Lex("--") == Ok([Token("-", BinaryOperator), Token("-", BinaryOperator), EOF_TOKEN])
  {
    var t := Token("-", BinaryOperator);
    var s := "--";
    assert s[1..] == "-" && s[1..][1..] == [];
    assert Scan(s[1..]) == Ok([t] + []);
    assert Scan(s) == Ok([t] + ([t] + []));
    assert [] + ([t] + ([t] + [])) + [EOF_TOKEN] == [t, t, EOF_TOKEN];
  }

  /** The character classes `tokenize` tests are pairwise disjoint, so the order of its tests
      decides nothing: a character starts at most one kind of token or is skipped. */
  lemma CharacterClasses(c: char)
    ensures IsNumber(c) ==> !IsAlpha(c) && !IsRelationalOp(c) && !IsBinaryOp(c) && !IsSkippable(c) && c != '(' && c != ')'
    ensures IsAlpha(c) ==> !IsRelationalOp(c) && !IsBinaryOp(c) && !IsSkippable(c) && c != '(' && c != ')'
    ensures IsRelationalOp(c) ==> !IsBinaryOp(c) && !IsSkippable(c) && c != '(' && c != ')'
    ensures IsBinaryOp(c) ==> !IsSkippable(c) && c != '(' && c != ')'
    ensures IsSkippable(c) ==> c != '(' && c != ')'
    ensures IsNumber(c) <==> '0' as int <= c as int <= '9' as int
  {
  }

  /** ASCII case mapping, as `toUpperCase` and `toLowerCase` act on ASCII characters. */
  function UpperAscii(c: char): char {
    if 'a' <= c <= 'z' then (c as int - 32) as char else c
  }

  function LowerAscii(c: char): char {
    if 'A' <= c <= 'Z' then (c as int + 32) as char else c
  }

  /** On ASCII, `isAlpha` is the source's test: a letter is a character whose upper- and
      lower-case forms differ. */
  lemma AlphaIsCaseSensitive(c: char)
    requires c as int < 128
    ensures IsAlpha(c) <==> UpperAscii(c) != LowerAscii(c)
  {
  }

  /** The keyword table: `beta`, `sigma` and `null` are reserved, and every other word is an
      identifier. */
  lemma KeywordTable(w: string)
    ensures KindOfWord("beta") == Var && KindOfWord("sigma") == Const && KindOfWord("null") == Null
    ensures KindOfWord(w) != Identifier <==> w == "beta" || w == "sigma" || w == "null"
    ensures KindOfWord(w) in {Identifier, Var, Const, Null}
  {
  }
}
