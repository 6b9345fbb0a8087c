/**
 Option ids of the form `SYM $strike Call YYYY-MM-DD`: how YahooOptions.py builds them, how it
 splits them back with `str.split()`, and the regular expression
 `(\w+)\s+\$(\d+\.\d+)\s+(\w+)\s+(\d{4}-\d{2}-\d{2})` that both jobs apply with `re.match` before
 refreshing a percentage. Strikes stay text: the `float` conversion is outside the model.
 */
module OptionId {
  import opened Results

  /** Python's whitespace (`str.isspace`), used alike by `str.split()` and by `\s`. */
  predicate IsSpace(c: char) {
    var k := c as int;
    k == 0x20 || (0x09 <= k <= 0x0D) || (0x1C <= k <= 0x1F) || k == 0x85 || k == 0xA0 ||
    k == 0x1680 || (0x2000 <= k <= 0x200A) || k == 0x2028 || k == 0x2029 ||
    k == 0x202F || k == 0x205F || k == 0x3000
  }

  /** `\w`, restricted to ASCII: a letter, a digit or an underscore. */
  predicate IsWordChar(c: char) {
    ('a' <= c <= 'z') || ('A' <= c <= 'Z') || ('0' <= c <= '9') || c == '_'
  }

  /** `\d`, restricted to ASCII. */
  predicate IsDigit(c: char) {
    '0' <= c <= '9'
  }

  /** The character classes the id rules scan runs of. */
  datatype CharClass = Word | Space | Digit | NonSpace

  predicate InClass(c: char, k: CharClass) {
    match k
    case Word => IsWordChar(c)
    case Space => IsSpace(c)
    case Digit => IsDigit(c)
    case NonSpace => !IsSpace(c)
  }

  /** The end of the longest run of class `k` starting at `i`. */
  function RunEnd(s: string, i: nat, k: CharClass): (j: nat)
    requires i <= |s|
    ensures i <= j <= |s|
    ensures forall m :: i <= m < j ==> InClass(s[m], k)
    ensures j == |s| || !InClass(s[j], k)
    decreases |s| - i
  {
    if i == |s| || !InClass(s[i], k) then i else RunEnd(s, i + 1, k)
  }

  /** A run's end is determined by the run: it is the first position outside the class. */
  lemma RunEndIs(s: string, i: nat, k: CharClass, j: nat)
    requires i <= j <= |s|
    requires forall m :: i <= m < j ==> InClass(s[m], k)
    requires j == |s| || !InClass(s[j], k)
    ensures RunEnd(s, i, k) == j
  {
  }

  /** A word of `str.split()`: non-empty, without whitespace. */
  predicate IsToken(w: string) {
    |w| > 0 && forall m :: 0 <= m < |w| ==> !IsSpace(w[m])
  }

  /** `s.split()`: the maximal runs of non-whitespace, in order; leading, trailing and repeated whitespace yield nothing. */
  function Split(s: string): (tokens: seq<string>)
    ensures forall t :: 0 <= t < |tokens| ==> IsToken(tokens[t])
    decreases |s|
  {
    if |s| == 0 then []
    else if IsSpace(s[0]) then Split(s[1..])
    else
      var j := RunEnd(s, 0, NonSpace);
      [s[..j]] + Split(s[j..])
  }

  /** `s.replace(c, '')`. */
  function RemoveAll(s: string, c: char): (r: string)
    ensures c !in r
    ensures |r| <= |s|
    ensures c !in s ==> r == s
    ensures forall x :: x != c ==> multiset(r)[x] == multiset(s)[x]
  {
    if |s| == 0 then []
    else
      assert s == [s[0]] + s[1..];
      (if s[0] == c then [] else [s[0]]) + RemoveAll(s[1..], c)
  }

  /** `" ".join(words)`. */
  function JoinWords(words: seq<string>): string {
    if |words| == 0 then ""
    else if |words| == 1 then words[0]
    else words[0] + " " + JoinWords(words[1..])
  }

  /** A leading whitespace character yields no word. */
  lemma SplitSkipsSpace(s: string)
    requires |s| > 0 && IsSpace(s[0])
    ensures Split(s) == Split(s[1..])
  {
  }

  /** A leading run of `j` non-whitespace characters, ended by whitespace or the end, is the first word. */
  lemma SplitTakesWord(s: string, j: nat)
    requires 0 < j <= |s| && (j == |s| || IsSpace(s[j]))
    requires forall m :: 0 <= m < j ==> !IsSpace(s[m])
    ensures Split(s) == [s[..j]] + Split(s[j..])
  {
    RunEndIs(s, 0, NonSpace, j);
  }

  /** A word followed by whitespace is the first word. */
  lemma SplitWordThenSpace(a: string, c: char, b: string)
    requires IsSpace(c) && |a| > 0
    requires forall m :: 0 <= m < |a| ==> !IsSpace(a[m])
    ensures Split(a + [c] + b) == [a] + Split([c] + b)
  {
    var s := a + [c] + b;
    assert s[..|a|] == a && s[|a|..] == [c] + b;
    assert forall m :: 0 <= m < |a| ==> s[m] == a[m];
    SplitTakesWord(s, |a|);
  }

  /** The step of `SplitSeparated` when `a` is one word. */
  lemma SplitSeparatedLastWord(a: string, c: char, b: string)
    requires IsSpace(c) && |a| > 0
    requires forall m :: 0 <= m < |a| ==> !IsSpace(a[m])
    ensures Split(a + [c] + b) == Split(a) + Split(b)
  {
    SplitWordThenSpace(a, c, b);
    assert ([c] + b)[1..] == b;
    SplitSkipsSpace([c] + b);
    SplitSingleToken(a);
  }

  /** A word at the front of `a` stays the first word when more text follows `a`. */
  lemma SplitWordBefore(a: string, c: char, b: string, j: nat)
    requires 0 < j < |a| && IsSpace(a[j])
    requires forall m :: 0 <= m < j ==> !IsSpace(a[m])
    ensures Split(a + [c] + b) == [a[..j]] + Split(a[j..] + [c] + b)
  {
    var s := a + [c] + b;
    assert s[..j] == a[..j] && s[j..] == a[j..] + [c] + b;
    assert forall m :: 0 <= m < j ==> s[m] == a[m];
    SplitTakesWord(s, j);
  }

  /** The step of `SplitSeparated` when `a` starts with a word followed by whitespace. */
  lemma SplitSeparatedWord(a: string, c: char, b: string, j: nat)
    requires IsSpace(c) && 0 < j < |a| && IsSpace(a[j])
    requires forall m :: 0 <= m < j ==> !IsSpace(a[m])
    requires Split(a[j..] + [c] + b) == Split(a[j..]) + Split(b)
    ensures Split(a + [c] + b) == Split(a) + Split(b)
  {
    SplitWordBefore(a, c, b, j);
    SplitTakesWord(a, j);
    assert [a[..j]] + (Split(a[j..]) + Split(b)) == ([a[..j]] + Split(a[j..])) + Split(b);
  }

  /** Whitespace separates: the words on either side of a whitespace character split apart. */
  lemma {:induction false} SplitSeparated(a: string, c: char, b: string)
    requires IsSpace(c)
    ensures Split(a + [c] + b) == Split(a) + Split(b)
    decreases |a|
  {
    var s := a + [c] + b;
    if |a| == 0 {
      assert s == [c] + b;
      SplitSkipsSpace(s);
      assert s[1..] == b;
    } else if IsSpace(a[0]) {
      SplitSkipsSpace(s);
      SplitSkipsSpace(a);
      assert s[1..] == a[1..] + [c] + b;
      SplitSeparated(a[1..], c, b);
    } else {
      var j := RunEnd(a, 0, NonSpace);
      if j < |a| {
        SplitSeparated(a[j..], c, b);
        SplitSeparatedWord(a, c, b, j);
      } else {
        SplitSeparatedLastWord(a, c, b);
      }
    }
  }

  /** Text yields no words exactly when it is all whitespace, the empty text included. */
  lemma {:induction false} SplitEmptyExactlyOnWhitespace(s: string)
    ensures Split(s) == [] <==> AllIn(s, Space)
    decreases |s|
  {
    if |s| > 0 && IsSpace(s[0]) {
      SplitEmptyExactlyOnWhitespace(s[1..]);
      assert AllIn(s, Space) <==> AllIn(s[1..], Space) by {
        forall m | 0 <= m < |s[1..]|
          ensures s[1..][m] == s[m + 1]
        {
        }
      }
    }
  }

  /** Round trip: words joined by single spaces split back into the same words. */
  lemma {:induction false} SplitJoinWords(words: seq<string>)
    requires forall t :: 0 <= t < |words| ==> IsToken(words[t])
    ensures Split(JoinWords(words)) == words
    decreases |words|
  {
    if |words| == 1 {
      SplitSingleToken(words[0]);
    } else if |words| > 1 {
      SplitJoinWords(words[1..]);
      SplitSingleToken(words[0]);
      SplitSeparated(words[0], ' ', JoinWords(words[1..]));
      assert words[0] + " " + JoinWords(words[1..]) == words[0] + [' '] + JoinWords(words[1..]);
      assert words == [words[0]] + words[1..];
    }
  }

  /** `replace` works character by character: removing from a concatenation removes from each part. */
  lemma {:induction false} RemoveAllConcat(a: string, b: string, c: char)
    ensures RemoveAll(a + b, c) == RemoveAll(a, c) + RemoveAll(b, c)
    decreases |a|
  {
    if |a| > 0 {
      assert (a + b)[0] == a[0] && (a + b)[1..] == a[1..] + b;
      RemoveAllConcat(a[1..], b, c);
    } else {
      assert a + b == b;
    }
  }

  /** A single character is dropped exactly when it is `c`, and kept otherwise. */
  lemma RemoveAllChar(x: char, c: char)
    ensures RemoveAll([x], c) == if x == c then [] else [x]
  {
    assert [x][1..] == [];
  }

  /** YahooOptions.py, line 239: symbol, space, `$` and strike, ` Call `, expiration. */
  function BuildId(symbol: string, strike: string, expiration: string): (id: string)
    ensures |id| == |symbol| + |strike| + |expiration| + 8
  {
    symbol + " $" + strike + " Call " + expiration
  }

  /** Where each part of a built id sits: nothing of one part runs into the next. */
  lemma BuildIdLayout(symbol: string, strike: string, expiration: string)
    ensures var id := BuildId(symbol, strike, expiration);
      id[..|symbol|] == symbol && id[|symbol|..|symbol| + 2] == " $" &&
      id[|symbol| + 2..|symbol| + 2 + |strike|] == strike &&
      id[|symbol| + 2 + |strike|..|id| - |expiration|] == " Call " &&
      id[|id| - |expiration|..] == expiration
  {
  }

  /** The three parts read back at lines 259-261. */
  datatype ParsedId = ParsedId(symbol: string, strike: string, expiration: string)

  /** Indexing a token that `split()` did not produce. */
  datatype ParseError = IndexError

  /**
   YahooOptions.py, lines 259-261: the symbol is token 0, the expiration token 3, the strike token 1 with every
   `$` removed; fewer than four tokens raise `IndexError`.
   */
  function ParseId(id: string): (r: Result<ParsedId, ParseError>)
    ensures r.Err? <==> |Split(id)| < 4
    ensures r.Ok? ==> r.value.symbol == Split(id)[0] && r.value.expiration == Split(id)[3]
    ensures r.Ok? ==> '$' !in r.value.strike
    ensures r.Ok? ==> r.value.strike == RemoveAll(Split(id)[1], '$')
  {
    var tokens := Split(id);
    if |tokens| < 4 then Err(IndexError)
    else Ok(ParsedId(tokens[0], RemoveAll(tokens[1], '$'), tokens[3]))
  }

  /** Splitting a word followed by a space and more text yields the word, then the rest's words. */
  lemma SplitLeadingToken(w: string, rest: string)
    requires IsToken(w)
    ensures Split(w + " " + rest) == [w] + Split(rest)
  {
    var s := w + " " + rest;
    RunEndIs(s, 0, NonSpace, |w|);
    assert s[..|w|] == w;
    assert s[|w|..] == " " + rest;
    assert (" " + rest)[1..] == rest;
  }

  /** A single word splits to itself. */
  lemma SplitSingleToken(w: string)
    requires IsToken(w)
    ensures Split(w) == [w]
  {
    RunEndIs(w, 0, NonSpace, |w|);
    assert w[..|w|] == w;
  }

  /** Removing `$` from `"$" + strike` leaves the strike when it has no `$` of its own. */
  lemma RemoveDollarPrefix(strike: string)
    requires '$' !in strike
    ensures RemoveAll("$" + strike, '$') == strike
  {
    assert ("$" + strike)[1..] == strike;
  }

  /** A strike without whitespace, behind a `$`, is still one word. */
  lemma DollarToken(strike: string)
    requires forall m :: 0 <= m < |strike| ==> !IsSpace(strike[m])
    ensures IsToken("$" + strike)
  {
    var dollar := "$" + strike;
    forall m | 0 <= m < |dollar|
      ensures !IsSpace(dollar[m])
    {
      if m > 0 { assert dollar[m] == strike[m - 1]; }
    }
  }

  /** A built id is its symbol, a space, and the rest, word by word. */
  lemma BuildIdNested(symbol: string, strike: string, expiration: string)
    ensures BuildId(symbol, strike, expiration) == symbol + " " + (("$" + strike) + " " + ("Call" + " " + expiration))
  {
  }

  /** `"Call " + expiration` splits into its two words. */
  lemma SplitTypeAndDate(expiration: string)
    requires IsToken(expiration)
    ensures Split("Call" + " " + expiration) == ["Call", expiration]
  {
    assert IsToken("Call");
    SplitSingleToken(expiration);
    SplitLeadingToken("Call", expiration);
  }

  /** Everything after the symbol splits into the `$`-strike, `Call` and the expiration. */
  lemma SplitAfterSymbol(strike: string, expiration: string)
    requires IsToken(expiration)
    requires forall m :: 0 <= m < |strike| ==> !IsSpace(strike[m])
    ensures Split(("$" + strike) + " " + ("Call" + " " + expiration)) == ["$" + strike, "Call", expiration]
  {
    DollarToken(strike);
    SplitTypeAndDate(expiration);
    SplitLeadingToken("$" + strike, "Call" + " " + expiration);
  }

  /** An id built from whitespace-free parts splits into exactly its four words. */
  lemma SplitBuiltId(symbol: string, strike: string, expiration: string)
    requires IsToken(symbol) && IsToken(expiration)
    requires forall m :: 0 <= m < |strike| ==> !IsSpace(strike[m])
    ensures Split(BuildId(symbol, strike, expiration)) == [symbol, "$" + strike, "Call", expiration]
  {
    BuildIdNested(symbol, strike, expiration);
    SplitAfterSymbol(strike, expiration);
    SplitLeadingToken(symbol, ("$" + strike) + " " + ("Call" + " " + expiration));
  }

  /**
   Round trip: an id built from a symbol, a strike and an expiration without whitespace (and a
   strike without `$`) parses back to all three parts.
   */
  lemma ParseBuiltId(symbol: string, strike: string, expiration: string)
    requires IsToken(symbol) && IsToken(expiration)
    requires forall m :: 0 <= m < |strike| ==> !IsSpace(strike[m])
    requires '$' !in strike
    ensures ParseId(BuildId(symbol, strike, expiration)) == Ok(ParsedId(symbol, strike, expiration))
  {
    SplitBuiltId(symbol, strike, expiration);
    RemoveDollarPrefix(strike);
  }

  /** `\d{4}-\d{2}-\d{2}` starting at position `i`. */
  predicate DateAt(s: string, i: nat) {
    i + 10 <= |s| &&
    IsDigit(s[i]) && IsDigit(s[i + 1]) && IsDigit(s[i + 2]) && IsDigit(s[i + 3]) && s[i + 4] == '-' &&
    IsDigit(s[i + 5]) && IsDigit(s[i + 6]) && s[i + 7] == '-' &&
    IsDigit(s[i + 8]) && IsDigit(s[i + 9])
  }

  /**
   Where a left-to-right reading of the pattern `(\w+)\s+\$(\d+\.\d+)\s+(\w+)\s+(\d{4}-\d{2}-\d{2})`
   stands: before or inside each run. Each repeated class is followed in the pattern by a
   character outside it, so a greedy reading that takes every run whole is the only way to match.
   */
  datatype Reading =
    | SymbolStart | InSymbol | AfterSymbol
    | StrikeStart | InWhole | FractionStart | InFraction
    | AfterStrike | InType | AfterType

  /** The pattern, from reading state `st` on, matches at the front of `s`; anything may follow the date. */
  predicate Reads(s: string, st: Reading)
    decreases |s|
  {
    |s| > 0 &&
    var c := s[0];
    var t := s[1..];
    match st
    case SymbolStart => IsWordChar(c) && Reads(t, InSymbol)
    case InSymbol => if IsWordChar(c) then Reads(t, InSymbol) else IsSpace(c) && Reads(t, AfterSymbol)
    case AfterSymbol => if IsSpace(c) then Reads(t, AfterSymbol) else c == '$' && Reads(t, StrikeStart)
    case StrikeStart => IsDigit(c) && Reads(t, InWhole)
    case InWhole => if IsDigit(c) then Reads(t, InWhole) else c == '.' && Reads(t, FractionStart)
    case FractionStart => IsDigit(c) && Reads(t, InFraction)
    case InFraction => if IsDigit(c) then Reads(t, InFraction) else IsSpace(c) && Reads(t, AfterStrike)
    case AfterStrike => if IsSpace(c) then Reads(t, AfterStrike) else IsWordChar(c) && Reads(t, InType)
    case InType => if IsWordChar(c) then Reads(t, InType) else IsSpace(c) && Reads(t, AfterType)
    case AfterType => if IsSpace(c) then Reads(t, AfterType) else DateAt(s, 0)
  }

  /** `re.match(r"(\w+)\s+\$(\d+\.\d+)\s+(\w+)\s+(\d{4}-\d{2}-\d{2})", s)` succeeds (ASCII `\w` and `\d`). */
  predicate MatchesIdPattern(s: string) {
    Reads(s, SymbolStart)
  }

  /** Every character of `w` is in class `k`. */
  predicate AllIn(w: string, k: CharClass) {
    forall m :: 0 <= m < |w| ==> InClass(w[m], k)
  }

  /** The reading state stays put on characters of class `k`: it is inside a run of that class. */
  predicate Loops(st: Reading, k: CharClass) {
    match st
    case InSymbol => k == Word
    case AfterSymbol => k == Space
    case InWhole => k == Digit
    case InFraction => k == Digit
    case AfterStrike => k == Space
    case InType => k == Word
    case AfterType => k == Space
    case _ => false
  }

  /** A run of the class a state loops on is read without leaving the state. */
  lemma {:induction false} ReadsRun(w: string, rest: string, st: Reading, k: CharClass)
    requires Loops(st, k) && AllIn(w, k)
    ensures Reads(w + rest, st) == Reads(rest, st)
    decreases |w|
  {
    if |w| == 0 {
      assert w + rest == rest;
    } else {
      var s := w + rest;
      assert s[0] == w[0] && InClass(w[0], k);
      assert s[1..] == w[1..] + rest;
      assert AllIn(w[1..], k) by {
        forall m | 0 <= m < |w[1..]|
          ensures InClass(w[1..][m], k)
        {
          assert w[1..][m] == w[m + 1];
        }
      }
      ReadsRun(w[1..], rest, st, k);
    }
  }

  /** The date at the end, after the separator. */
  lemma DateRead(expiration: string)
    requires DateAt(expiration, 0)
    ensures Reads(" " + expiration, InType)
  {
    var s := " " + expiration;
    assert s[0] == ' ' && s[1..] == expiration;
    assert !IsSpace(expiration[0]);
  }

  /** The option type `Call` between two separators. */
  lemma TypeRead(t: string)
    requires Reads(t, InType)
    ensures Reads(" " + ("Call" + t), InFraction)
  {
    assert AllIn("all", Word);
    ReadsRun("all", t, InType, Word);
    var u := "Call" + t;
    assert u[0] == 'C' && u[1..] == "all" + t;
    var s := " " + u;
    assert s[0] == ' ' && s[1..] == u;
  }

  /** The digits after the strike's point. */
  lemma FractionRead(fraction: string, t: string)
    requires |fraction| > 0 && AllIn(fraction, Digit)
    requires Reads(t, InFraction)
    ensures Reads(fraction + t, FractionStart)
  {
    ReadsRun(fraction[1..], t, InFraction, Digit);
    var f := fraction + t;
    assert f[0] == fraction[0] && f[1..] == fraction[1..] + t;
  }

  /** The strike's digits before its point, and the point. */
  lemma WholeRead(whole: string, t: string)
    requires |whole| > 0 && AllIn(whole, Digit)
    requires Reads(t, FractionStart)
    ensures Reads(whole + ("." + t), StrikeStart)
  {
    var p := "." + t;
    assert p[0] == '.' && p[1..] == t;
    assert Reads(p, InWhole);
    ReadsRun(whole[1..], p, InWhole, Digit);
    var s := whole + p;
    assert s[0] == whole[0] && s[1..] == whole[1..] + p;
  }

  /** The symbol, the separator and the dollar sign before the strike. */
  lemma SymbolRead(symbol: string, t: string)
    requires |symbol| > 0 && AllIn(symbol, Word)
    requires Reads(t, StrikeStart)
    ensures MatchesIdPattern(symbol + (" " + ("$" + t)))
  {
    var d := "$" + t;
    assert d[0] == '$' && d[1..] == t;
    assert Reads(d, AfterSymbol);
    var p := " " + d;
    assert p[0] == ' ' && p[1..] == d;
    assert Reads(p, InSymbol);
    EnterRun(symbol, p, SymbolStart, InSymbol, Word);
  }

  /** `BuildId` regrouped as the pattern reads it, run by run. */
  lemma BuildIdGrouped(symbol: string, whole: string, fraction: string, expiration: string)
    ensures BuildId(symbol, whole + "." + fraction, expiration)
         == symbol + (" " + ("$" + (whole + ("." + (fraction + (" " + ("Call" + (" " + expiration))))))))
  {
    assert " $" == " " + "$";
    assert " Call " == " " + "Call" + " ";
  }

  /**
   An id built from a word symbol, a `digits.digits` strike and a `YYYY-MM-DD` expiration is one
   the refresh loop recognises, so the records the screener writes are not skipped by it.
   */
  lemma BuiltIdMatchesPattern(symbol: string, whole: string, fraction: string, expiration: string)
    requires |symbol| > 0 && AllIn(symbol, Word)
    requires |whole| > 0 && AllIn(whole, Digit)
    requires |fraction| > 0 && AllIn(fraction, Digit)
    requires DateAt(expiration, 0)
    ensures MatchesIdPattern(BuildId(symbol, whole + "." + fraction, expiration))
  {
    var t1 := " " + expiration;
    DateRead(expiration);
    var t2 := " " + ("Call" + t1);
    TypeRead(t1);
    FractionRead(fraction, t2);
    WholeRead(whole, fraction + t2);
    SymbolRead(symbol, whole + ("." + (fraction + t2)));
    BuildIdGrouped(symbol, whole, fraction, expiration);
  }

  /**
   The pattern read as a regular expression: the text is a word run, whitespace, `$`, digits,
   `.`, digits, whitespace, a word run, whitespace and a `YYYY-MM-DD` date, in that order, and
   `re.match` lets anything follow. These are the pieces of one such reading.
   */
  datatype IdPieces = IdPieces(
    symbol: string, space1: string, whole: string, fraction: string, space2: string,
    optionType: string, space3: string, date: string, rest: string)

  /** The text from the strike's fraction on. */
  function FractionOn(p: IdPieces): string {
    p.fraction + (p.space2 + (p.optionType + (p.space3 + (p.date + p.rest))))
  }

  /** The pieces from the strike's fraction on are each in their class. */
  predicate TailSpelled(p: IdPieces) {
    |p.fraction| > 0 && AllIn(p.fraction, Digit) &&
    |p.space2| > 0 && AllIn(p.space2, Space) &&
    |p.optionType| > 0 && AllIn(p.optionType, Word) &&
    |p.space3| > 0 && AllIn(p.space3, Space) &&
    |p.date| == 10 && DateAt(p.date, 0)
  }

  /** `s` is spelled by `p`: the pieces, in order, are `s`, and each piece is in its class. */
  predicate Spells(s: string, p: IdPieces) {
    s == p.symbol + (p.space1 + ("$" + (p.whole + ("." + FractionOn(p))))) &&
    |p.symbol| > 0 && AllIn(p.symbol, Word) &&
    |p.space1| > 0 && AllIn(p.space1, Space) &&
    |p.whole| > 0 && AllIn(p.whole, Digit) &&
    TailSpelled(p)
  }

  /** Reading state `from` moves to `loop` on a character of class `k`, which `from` does not itself loop on. */
  predicate Enters(from: Reading, loop: Reading, k: CharClass) {
    (from == SymbolStart && loop == InSymbol && k == Word) ||
    (from == InSymbol && loop == AfterSymbol && k == Space) ||
    (from == StrikeStart && loop == InWhole && k == Digit) ||
    (from == FractionStart && loop == InFraction && k == Digit) ||
    (from == InFraction && loop == AfterStrike && k == Space) ||
    (from == AfterStrike && loop == InType && k == Word) ||
    (from == InType && loop == AfterType && k == Space)
  }

  /** A whole run of class `k`, entered from `from`, leaves the reading in state `loop`. */
  lemma EnterRun(w: string, v: string, from: Reading, loop: Reading, k: CharClass)
    requires Enters(from, loop, k) && |w| > 0 && AllIn(w, k)
    requires Reads(v, loop)
    ensures Reads(w + v, from)
  {
    assert AllIn(w[1..], k) by {
      forall m | 0 <= m < |w[1..]|
        ensures InClass(w[1..][m], k)
      {
        assert w[1..][m] == w[m + 1];
      }
    }
    ReadsRun(w[1..], v, loop, k);
    var s := w + v;
    assert s[0] == w[0] && InClass(w[0], k);
    assert s[1..] == w[1..] + v;
  }

  /** The option type, whitespace and the date are read from inside the whitespace after the strike. */
  lemma TypeAndDateReads(p: IdPieces)
    requires TailSpelled(p)
    ensures Reads(p.optionType + (p.space3 + (p.date + p.rest)), AfterStrike)
  {
    var v9 := p.date + p.rest;
    assert v9[0] == p.date[0];
    assert DateAt(v9, 0) by {
      assert forall m :: 0 <= m < 10 ==> v9[m] == p.date[m];
    }
    assert Reads(v9, AfterType);
    EnterRun(p.space3, v9, InType, AfterType, Space);
    EnterRun(p.optionType, p.space3 + v9, AfterStrike, InType, Word);
  }

  /** The pieces from the fraction on are read from the state before the fraction. */
  lemma TailReads(p: IdPieces)
    requires TailSpelled(p)
    ensures Reads(FractionOn(p), FractionStart)
  {
    TypeAndDateReads(p);
    var v7 := p.optionType + (p.space3 + (p.date + p.rest));
    EnterRun(p.space2, v7, InFraction, AfterStrike, Space);
    var v6 := p.space2 + v7;
    EnterRun(p.fraction, v6, FractionStart, InFraction, Digit);
  }

  /** Every reading of the pattern as a regular expression is one the automaton accepts. */
  lemma SpelledMatches(s: string, p: IdPieces)
    requires Spells(s, p)
    ensures MatchesIdPattern(s)
  {
    TailReads(p);
    var v5 := "." + FractionOn(p);
    assert Reads(v5, InWhole) by {
      assert v5[0] == '.' && v5[1..] == FractionOn(p);
    }
    EnterRun(p.whole, v5, StrikeStart, InWhole, Digit);
    var v3 := "$" + (p.whole + v5);
    assert Reads(v3, AfterSymbol) by {
      assert v3[0] == '$' && v3[1..] == p.whole + v5;
    }
    EnterRun(p.space1, v3, InSymbol, AfterSymbol, Space);
    EnterRun(p.symbol, p.space1 + v3, SymbolStart, InSymbol, Word);
  }

  /** A run of class `k` begun at the front of `s`, read on in state `loop`, ends before the text does. */
  lemma TakeRun(s: string, loop: Reading, k: CharClass) returns (w: string, t: string)
    requires Loops(loop, k) && |s| > 0 && InClass(s[0], k) && Reads(s[1..], loop)
    ensures s == w + t && |w| > 0 && AllIn(w, k)
    ensures |t| > 0 && !InClass(t[0], k) && Reads(t, loop)
  {
    var j := RunEnd(s, 1, k);
    w, t := s[..j], s[j..];
    assert s == w + t;
    assert AllIn(w, k) by {
      forall m | 0 <= m < |w|
        ensures InClass(w[m], k)
      {
        assert w[m] == s[m];
      }
    }
    var u := s[1..j];
    assert AllIn(u, k) by {
      forall m | 0 <= m < |u|
        ensures InClass(u[m], k)
      {
        assert u[m] == s[m + 1];
      }
    }
    assert w == [w[0]] + u;
    assert s == [s[0]] + (u + t);
    ReadsRun(u, t, loop, k);
  }

  /** Text read from the state before the fraction splits into the pieces from the fraction on. */
  lemma TailPieces(t: string) returns (p: IdPieces)
    requires Reads(t, FractionStart)
    ensures FractionOn(p) == t && TailSpelled(p)
  {
    var fraction, t6 := TakeRun(t, InFraction, Digit);
    var space2, t7 := TakeRun(t6, AfterStrike, Space);
    var optionType, t8 := TakeRun(t7, InType, Word);
    var space3, t9 := TakeRun(t8, AfterType, Space);
    var date, rest := t9[..10], t9[10..];
    assert t9 == date + rest;
    assert DateAt(date, 0) by {
      assert forall m :: 0 <= m < 10 ==> date[m] == t9[m];
    }
    p := IdPieces("", "", "", fraction, space2, optionType, space3, date, rest);
  }

  /** An accepted text starts with the symbol and whitespace, then `$` and what the strike state reads. */
  lemma HeadPieces(s: string) returns (symbol: string, space1: string, t: string)
    requires MatchesIdPattern(s)
    ensures s == symbol + (space1 + ("$" + t))
    ensures |symbol| > 0 && AllIn(symbol, Word) && |space1| > 0 && AllIn(space1, Space)
    ensures Reads(t, StrikeStart)
  {
    var t1, t2;
    symbol, t1 := TakeRun(s, InSymbol, Word);
    space1, t2 := TakeRun(t1, AfterSymbol, Space);
    t := t2[1..];
    assert t2 == "$" + t;
  }

  /** Every text the automaton accepts is spelled by some reading of the pattern as a regular expression. */
  lemma PatternPieces(s: string) returns (p: IdPieces)
    requires MatchesIdPattern(s)
    ensures Spells(s, p)
  {
    var symbol, space1, t3 := HeadPieces(s);
    var whole, t4 := TakeRun(t3, InWhole, Digit);
    var t5 := t4[1..];
    assert t4 == "." + t5;
    var tail := TailPieces(t5);
    p := tail.(symbol := symbol, space1 := space1, whole := whole);
    assert FractionOn(p) == FractionOn(tail) && TailSpelled(p);
  }

  /**
   The automaton is the regular expression: a text is accepted exactly when it is spelled by a
   word run, whitespace, `$`, digits, `.`, digits, whitespace, a word run, whitespace and a
   date, followed by anything.
   */
  lemma MatchesIdPatternExactly(s: string)
    ensures MatchesIdPattern(s) <==> exists p :: Spells(s, p)
  {
    if MatchesIdPattern(s) {
      var p := PatternPieces(s);
    }
    if exists p :: Spells(s, p) {
      var p :| Spells(s, p);
      SpelledMatches(s, p);
    }
  }
}
