/** The string computations of lib/routeBuilder.js: lower-casing the
    method, the base path with its trailing slashes removed, collapsing runs
    of slashes and turning Express `:name` parameters into OpenAPI `{name}`. */
module PathText {

  // ---------------------------------------------------------------------
  // Characters

  /** The character class `[A-Za-z0-9_]` of the parameter regular expression. */
  predicate IsWordChar(c: char) {
    ('A' <= c <= 'Z') || ('a' <= c <= 'z') || ('0' <= c <= '9') || c == '_'
  }

  function LowerChar(c: char): char {
    if 'A' <= c <= 'Z' then (c as int + 32) as char else c
  }

  /** `String.prototype.toLowerCase` on ASCII letters. */
  function ToLower(s: string): (r: string)
    ensures |r| == |s|
    ensures forall i :: 0 <= i < |s| ==> r[i] == LowerChar(s[i])
  {
    seq(|s|, i requires 0 <= i < |s| => LowerChar(s[i]))
  }

  function DigitChar(d: nat): char
    requires d < 10
  {
    ('0' as int + d) as char
  }

  /** Every character of `s` is a decimal digit. */
  predicate IsDigits(s: string) {
    forall i :: 0 <= i < |s| ==> '0' <= s[i] <= '9'
  }

  function DigitValue(c: char): nat {
    if '0' <= c <= '9' then c as int - '0' as int else 0
  }

  /** The number a string of decimal digits denotes, read left to right. */
  function DigitsValue(s: string): nat
    decreases |s|
  {
    if s == [] then 0 else DigitsValue(s[..|s| - 1]) * 10 + DigitValue(s[|s| - 1])
  }

  /** A decimal writing as a template literal prints one: digits, at least
      one, and no leading zero unless the number is `0`. */
  predicate Canonical(d: string) {
    |d| > 0 && IsDigits(d) && (|d| > 1 ==> d[0] != '0')
  }

  /** `s` is the decimal writing of `n`: its canonical digits, after a `-`
      when `n` is negative. */
  predicate Spells(s: string, n: int) {
    if n >= 0 then Canonical(s) && DigitsValue(s) == n
    else |s| > 1 && s[0] == '-' && Canonical(s[1..]) && DigitsValue(s[1..]) == -n
  }

  /** The decimal text of a natural number, as a template literal prints it:
      digits that denote `n`, without a leading zero. */
  function NatToDecimal(n: nat): (r: string)
    ensures |r| > 0 && IsDigits(r)
    ensures DigitsValue(r) == n
    ensures |r| > 1 ==> r[0] != '0'
    decreases n
  {
    if n < 10 then [DigitChar(n)]
    else
      var front := NatToDecimal(n / 10);
      assert (front + [DigitChar(n % 10)])[..|front|] == front;
      front + [DigitChar(n % 10)]
  }

  /** A string of digits that starts with a non-zero digit denotes a positive number. */
  lemma {:induction false} LeadingDigitPositive(s: string)
    requires |s| > 0 && IsDigits(s) && s[0] != '0'
    ensures DigitsValue(s) > 0
    decreases |s|
  {
    if |s| > 1 {
      LeadingDigitPositive(s[..|s| - 1]);
    }
  }

  /** The decimal writing of a number without a leading zero is unique: it is
      the one NatToDecimal prints. */
  lemma {:induction false} DecimalUnique(s: string, n: nat)
    requires |s| > 0 && IsDigits(s) && (|s| > 1 ==> s[0] != '0')
    requires DigitsValue(s) == n
    ensures s == NatToDecimal(n)
    decreases |s|
  {
    var last := s[|s| - 1];
    assert DigitChar(DigitValue(last)) == last;
    if |s| == 1 {
      assert s == [last];
    } else {
      var front := s[..|s| - 1];
      LeadingDigitPositive(front);
      assert n / 10 == DigitsValue(front) && n % 10 == DigitValue(last);
      DecimalUnique(front, n / 10);
      assert s == front + [last];
    }
  }

  /** The decimal text of an integer, as a template literal prints it. */
  function IntToDecimal(n: int): (r: string)
    ensures Spells(r, n)
  {
    if n < 0 then
      var digits := NatToDecimal(-n);
      assert ("-" + digits)[1..] == digits;
      "-" + digits
    else NatToDecimal(n)
  }

  /** The decimal writing of an integer is unique: it is the one IntToDecimal prints. */
  lemma SpellsUnique(s: string, n: int)
    requires Spells(s, n)
    ensures s == IntToDecimal(n)
  {
    if n >= 0 {
      DecimalUnique(s, n);
    } else {
      DecimalUnique(s[1..], -n);
      assert s == "-" + s[1..];
    }
  }

  // ---------------------------------------------------------------------
  // `.replace(/\/+$/, '')`

  /** Removes the run of slashes at the end of `s`. The result is what is
      left of `s` after cutting off slashes only, and as many as there are. */
  function TrimTrailingSlashes(s: string): (r: string)
    ensures r <= s
    ensures forall i :: |r| <= i < |s| ==> s[i] == '/'
    ensures r == [] || r[|r| - 1] != '/'
    decreases |s|
  {
    if |s| > 0 && s[|s| - 1] == '/' then TrimTrailingSlashes(s[..|s| - 1]) else s
  }

  /** A start that does not end in a slash survives the trimming whole. */
  lemma TrimKeepsStart(a: string, b: string)
    requires |a| > 0 && a[|a| - 1] != '/'
    ensures a <= TrimTrailingSlashes(a + b)
  {
    var joined := a + b;
    var r := TrimTrailingSlashes(joined);
    assert joined[|a| - 1] != '/';
    assert |r| >= |a|;
    assert r == joined[..|r|];
    assert joined[..|a|] == a;
  }

  // ---------------------------------------------------------------------
  // `.replace(/\/+/g, '/')`

  predicate NoDoubleSlash(s: string) {
    forall i :: 0 <= i < |s| - 1 ==> !(s[i] == '/' && s[i + 1] == '/')
  }

  /** `s` with every slash removed. */
  function Unslashed(s: string): string
    decreases |s|
  {
    if s == [] then [] else (if s[0] == '/' then [] else [s[0]]) + Unslashed(s[1..])
  }

  /** Replaces every run of slashes by one slash. The result has no two
      adjacent slashes, starts like `s`, and differs from `s` only in slashes. */
  function CollapseSlashes(s: string): (r: string)
    ensures NoDoubleSlash(r)
    ensures |r| <= |s|
    ensures |s| > 0 ==> |r| > 0 && r[0] == s[0]
    ensures Unslashed(r) == Unslashed(s)
    decreases |s|
  {
    if |s| == 0 then s
    else if |s| >= 2 && s[0] == '/' && s[1] == '/' then CollapseSlashes(s[1..])
    else [s[0]] + CollapseSlashes(s[1..])
  }

  /** A string without a run of slashes is left as it is. */
  lemma {:induction false} CollapseFixpoint(s: string)
    requires NoDoubleSlash(s)
    ensures CollapseSlashes(s) == s
    decreases |s|
  {
    if |s| > 0 {
      CollapseFixpoint(s[1..]);
      assert [s[0]] + s[1..] == s;
    }
  }

  /** One more slash next to a slash makes no difference: every run of
      slashes, however long, comes out as a single one. */
  lemma {:induction false} CollapseIgnoresExtraSlash(s: string, i: nat)
    requires i < |s| && s[i] == '/'
    ensures CollapseSlashes(s[..i] + "/" + s[i..]) == CollapseSlashes(s)
    decreases i
  {
    var t := s[..i] + "/" + s[i..];
    if i == 0 {
      assert t == "/" + s;
      assert t[1..] == s;
    } else {
      var tail := s[1..];
      var longer := t[1..];
      assert longer == tail[..i - 1] + "/" + tail[i - 1..];
      CollapseIgnoresExtraSlash(tail, i - 1);
      assert t[0] == s[0] && t[1] == s[1];
      if s[0] == '/' && s[1] == '/' {
        assert CollapseSlashes(t) == CollapseSlashes(longer);
        assert CollapseSlashes(s) == CollapseSlashes(tail);
      } else {
        assert CollapseSlashes(t) == [s[0]] + CollapseSlashes(longer);
        assert CollapseSlashes(s) == [s[0]] + CollapseSlashes(tail);
      }
    }
  }

  /** Collapsing twice is collapsing once. */
  lemma CollapseIdempotent(s: string)
    ensures CollapseSlashes(CollapseSlashes(s)) == CollapseSlashes(s)
  {
    CollapseFixpoint(CollapseSlashes(s));
  }

  // ---------------------------------------------------------------------
  // `.replace(/:([A-Za-z0-9_]+)/g, '{$1}')`

  /** The length of the longest run of word characters that starts `s`. */
  function WordPrefixLen(s: string): (n: nat)
    ensures n <= |s|
    ensures forall i :: 0 <= i < n ==> IsWordChar(s[i])
    ensures n < |s| ==> !IsWordChar(s[n])
    decreases |s|
  {
    if |s| > 0 && IsWordChar(s[0]) then 1 + WordPrefixLen(s[1..]) else 0
  }

  /** No `:` directly followed by a word character: no Express parameter is left. */
  predicate NoColonParam(s: string) {
    forall i :: 0 <= i < |s| - 1 ==> !(s[i] == ':' && IsWordChar(s[i + 1]))
  }

  /** Scans `s` left to right; a `:` followed by word characters, taken as
      many as there are, becomes `{` those characters `}`; every other
      character is copied. */
  function ParamsToBraces(s: string): (r: string)
    ensures NoColonParam(r)
    ensures |s| > 0 ==> |r| > 0 && (r[0] == s[0] || (s[0] == ':' && r[0] == '{'))
    decreases |s|
  {
    if |s| == 0 then ""
    else if s[0] == ':' && WordPrefixLen(s[1..]) > 0 then
      var n := WordPrefixLen(s[1..]);
      "{" + s[1..1 + n] + "}" + ParamsToBraces(s[1 + n..])
    else
      [s[0]] + ParamsToBraces(s[1..])
  }

  /** The rewrite adds and removes no slash next to another: a path without
      runs of slashes keeps having none. */
  lemma {:induction false} BracesKeepSingleSlashes(s: string)
    requires NoDoubleSlash(s)
    ensures NoDoubleSlash(ParamsToBraces(s))
    decreases |s|
  {
    if |s| > 0 {
      var r := ParamsToBraces(s);
      if s[0] == ':' && WordPrefixLen(s[1..]) > 0 {
        var n := WordPrefixLen(s[1..]);
        var tail := s[1 + n..];
        assert forall i :: 0 <= i < |tail| ==> tail[i] == s[1 + n + i];
        BracesKeepSingleSlashes(tail);
        var name := s[1..1 + n];
        assert forall i :: 0 <= i < n ==> name[i] == s[1..][i];
        var head := "{" + name + "}";
        assert r == head + ParamsToBraces(tail);
        assert forall i :: 0 <= i < |head| ==> head[i] != '/';
      } else {
        var tail := s[1..];
        BracesKeepSingleSlashes(tail);
        assert r == [s[0]] + ParamsToBraces(tail);
      }
    }
  }

  /** A string with no Express parameter in it is left as it is. */
  lemma {:induction false} BracesFixpoint(s: string)
    requires NoColonParam(s)
    ensures ParamsToBraces(s) == s
    decreases |s|
  {
    if |s| > 0 {
      if s[0] == ':' && |s| > 1 {
        assert !IsWordChar(s[1]);
        assert WordPrefixLen(s[1..]) == 0;
      }
      BracesFixpoint(s[1..]);
      assert [s[0]] + s[1..] == s;
    }
  }

  // ---------------------------------------------------------------------
  // The same path seen as a sequence of pieces

  /** A path is a sequence of literal characters and named parameters. */
  datatype Piece = Lit(c: char) | Param(name: string)

  /** A parameter name: one or more word characters. */
  predicate IsName(n: string) {
    |n| > 0 && forall i :: 0 <= i < |n| ==> IsWordChar(n[i])
  }

  /** The piece starts with a word character when written out. */
  predicate StartsWord(p: Piece) {
    p.Lit? && IsWordChar(p.c)
  }

  /** A decomposition the scanner could have produced: names are word
      characters taken as far as they go, and no literal `:` is followed by
      a word character. */
  predicate WellFormed(ps: seq<Piece>) {
    forall i :: 0 <= i < |ps| ==>
      (ps[i].Param? ==> IsName(ps[i].name)) &&
      ((ps[i].Param? || ps[i] == Lit(':')) && i + 1 < |ps| ==> !StartsWord(ps[i + 1]))
  }

  /** The pieces written in Express syntax, `:name`. */
  function ExpressStyle(ps: seq<Piece>): string
    decreases |ps|
  {
    if ps == [] then ""
    else (match ps[0] case Lit(c) => [c] case Param(n) => ":" + n) + ExpressStyle(ps[1..])
  }

  /** The pieces written in OpenAPI syntax, `{name}`. */
  function OpenApiStyle(ps: seq<Piece>): string
    decreases |ps|
  {
    if ps == [] then ""
    else (match ps[0] case Lit(c) => [c] case Param(n) => "{" + n + "}") + OpenApiStyle(ps[1..])
  }

  /** Splits an Express path into pieces, with the same scan as ParamsToBraces. */
  function Tokenize(s: string): (ps: seq<Piece>)
    ensures |s| > 0 ==> |ps| > 0 && (ps[0] == Lit(s[0]) || (s[0] == ':' && ps[0].Param?))
    decreases |s|
  {
    if |s| == 0 then []
    else if s[0] == ':' && WordPrefixLen(s[1..]) > 0 then
      var n := WordPrefixLen(s[1..]);
      [Param(s[1..1 + n])] + Tokenize(s[1 + n..])
    else
      [Lit(s[0])] + Tokenize(s[1..])
  }

  /** Writing a leading piece and then the rest. */
  lemma ExpressCons(p: Piece, rest: seq<Piece>)
    ensures ExpressStyle([p] + rest)
         == (match p case Lit(c) => [c] case Param(n) => ":" + n) + ExpressStyle(rest)
  {
    assert ([p] + rest)[1..] == rest;
  }

  /** A path that starts with a parameter is written as that parameter and then the rest. */
  lemma ExpressParamStep(s: string, n: nat)
    requires |s| > 0 && s[0] == ':' && n == WordPrefixLen(s[1..]) && n > 0
    ensures ExpressStyle(Tokenize(s)) == ":" + s[1..1 + n] + ExpressStyle(Tokenize(s[1 + n..]))
  {
    TokenizeParamUnfold(s, n);
    ExpressCons(Param(s[1..1 + n]), Tokenize(s[1 + n..]));
  }

  /** A `:`, the `n` characters after it, and what follows make up the whole string. */
  lemma ColonSplit(s: string, n: nat)
    requires |s| > 0 && s[0] == ':' && 1 + n <= |s|
    ensures s == ":" + s[1..1 + n] + s[1 + n..]
  {
  }

  /** One step of Tokenize on a path that starts with any other character. */
  lemma TokenizeLitUnfold(s: string)
    requires |s| > 0 && !(s[0] == ':' && WordPrefixLen(s[1..]) > 0)
    ensures Tokenize(s) == [Lit(s[0])] + Tokenize(s[1..])
  {
  }

  /** A path that starts with any other character is written as that character and then the rest. */
  lemma ExpressLitStep(s: string)
    requires |s| > 0 && !(s[0] == ':' && WordPrefixLen(s[1..]) > 0)
    ensures ExpressStyle(Tokenize(s)) == [s[0]] + ExpressStyle(Tokenize(s[1..]))
  {
    TokenizeLitUnfold(s);
    ExpressCons(Lit(s[0]), Tokenize(s[1..]));
  }

  /** Text placement only: a non-empty string is its first character and the rest. */
  lemma HeadSplit(s: string)
    requires |s| > 0
    ensures s == [s[0]] + s[1..]
  {
  }

  /** The pieces give back the Express path they came from. */
  lemma {:induction false} TokenizeExpress(s: string)
    ensures ExpressStyle(Tokenize(s)) == s
    decreases |s|
  {
    if |s| > 0 {
      if s[0] == ':' && WordPrefixLen(s[1..]) > 0 {
        var n := WordPrefixLen(s[1..]);
        ExpressParamStep(s, n);
        ColonSplit(s, n);
        TokenizeExpress(s[1 + n..]);
      } else {
        ExpressLitStep(s);
        HeadSplit(s);
        TokenizeExpress(s[1..]);
      }
    }
  }

  /** Written in OpenAPI syntax, the pieces are exactly what ParamsToBraces produces:
      every parameter keeps its name, and every other character stays as it was. */
  lemma {:induction false} TokenizeOpenApi(s: string)
    ensures OpenApiStyle(Tokenize(s)) == ParamsToBraces(s)
    decreases |s|
  {
    if |s| > 0 {
      var ps := Tokenize(s);
      if s[0] == ':' && WordPrefixLen(s[1..]) > 0 {
        var n := WordPrefixLen(s[1..]);
        TokenizeOpenApi(s[1 + n..]);
        assert ps[1..] == Tokenize(s[1 + n..]);
      } else {
        TokenizeOpenApi(s[1..]);
        assert ps[1..] == Tokenize(s[1..]);
      }
    }
  }

  /** The scanner only produces well-formed decompositions. */
  lemma {:induction false} TokenizeWellFormed(s: string)
    ensures WellFormed(Tokenize(s))
    decreases |s|
  {
    if |s| > 0 {
      var ps := Tokenize(s);
      var rest: string;
      if s[0] == ':' && WordPrefixLen(s[1..]) > 0 {
        var n := WordPrefixLen(s[1..]);
        rest := s[1 + n..];
        assert IsName(ps[0].name) by {
          assert forall i :: 0 <= i < n ==> ps[0].name[i] == s[1..][i];
        }
      } else {
        rest := s[1..];
      }
      TokenizeWellFormed(rest);
      assert ps[1..] == Tokenize(rest);
      forall i | 0 <= i < |ps|
        ensures (ps[i].Param? ==> IsName(ps[i].name)) &&
                ((ps[i].Param? || ps[i] == Lit(':')) && i + 1 < |ps| ==> !StartsWord(ps[i + 1]))
      {
        if i > 0 {
          assert ps[i] == ps[1..][i - 1];
          if i + 1 < |ps| {
            assert ps[i + 1] == ps[1..][i];
          }
        }
      }
    }
  }

  /** Written out in Express syntax, the first character of the pieces is not
      a word character unless the first piece is a literal word character. */
  lemma ExpressHead(ps: seq<Piece>)
    requires |ps| > 0 && !StartsWord(ps[0])
    ensures |ExpressStyle(ps)| > 0 && !IsWordChar(ExpressStyle(ps)[0])
  {
  }

  /** A name followed by something that does not start with a word character
      is a run of word characters taken as far as it goes. */
  lemma {:induction false} WordPrefixOfName(n: string, t: string)
    requires IsName(n) || n == []
    requires t == [] || !IsWordChar(t[0])
    ensures WordPrefixLen(n + t) == |n|
    decreases |n|
  {
    if |n| > 0 {
      assert (n + t)[1..] == n[1..] + t;
      WordPrefixOfName(n[1..], t);
    } else {
      assert n + t == t;
    }
  }

  /** Text placement only: the parts of `:` followed by `n` and then `t`. */
  lemma ColonNameParts(n: string, t: string)
    ensures var s := ":" + n + t;
      && |s| == 1 + |n| + |t| && s[0] == ':' && s[1..] == n + t
      && s[1..1 + |n|] == n && s[1 + |n|..] == t
  {
  }

  /** One step of Tokenize on a path that starts with a parameter. */
  lemma TokenizeParamUnfold(s: string, k: nat)
    requires |s| > 0 && s[0] == ':' && k == WordPrefixLen(s[1..]) && k > 0
    ensures Tokenize(s) == [Param(s[1..1 + k])] + Tokenize(s[1 + k..])
  {
  }

  /** A parameter followed by text that does not continue its name is read back as that parameter. */
  lemma TokenizeParamHead(n: string, t: string)
    requires IsName(n)
    requires t == [] || !IsWordChar(t[0])
    ensures Tokenize(":" + n + t) == [Param(n)] + Tokenize(t)
  {
    var s := ":" + n + t;
    ColonNameParts(n, t);
    WordPrefixOfName(n, t);
    TokenizeParamUnfold(s, |n|);
  }

  /** A literal character is read back as that literal, unless it is a `:` that a name follows. */
  lemma TokenizeLitHead(c: char, t: string)
    requires c == ':' ==> t == [] || !IsWordChar(t[0])
    ensures Tokenize([c] + t) == [Lit(c)] + Tokenize(t)
  {
    var s := [c] + t;
    assert s[1..] == t;
    if c == ':' {
      WordPrefixOfName([], t);
    }
  }

  /** Dropping the first piece keeps a decomposition well-formed. */
  lemma WellFormedTail(ps: seq<Piece>)
    requires |ps| > 0 && WellFormed(ps)
    ensures WellFormed(ps[1..])
  {
    var rest := ps[1..];
    forall i | 0 <= i < |rest|
      ensures (rest[i].Param? ==> IsName(rest[i].name)) &&
              ((rest[i].Param? || rest[i] == Lit(':')) && i + 1 < |rest| ==> !StartsWord(rest[i + 1]))
    {
      assert rest[i] == ps[i + 1];
      if i + 1 < |rest| {
        assert rest[i + 1] == ps[i + 2];
      }
    }
  }

  /** Well-formed decompositions are the only ones the scanner produces:
      splitting their Express text again gives them back. */
  lemma {:induction false} TokenizeUnique(ps: seq<Piece>)
    requires WellFormed(ps)
    ensures Tokenize(ExpressStyle(ps)) == ps
    decreases |ps|
  {
    if |ps| > 0 {
      var rest := ps[1..];
      WellFormedTail(ps);
      TokenizeUnique(rest);
      var t := ExpressStyle(rest);
      if |rest| > 0 && (ps[0].Param? || ps[0] == Lit(':')) {
        ExpressHead(rest);
      }
      match ps[0]
      case Param(n) =>
        TokenizeParamHead(n, t);
        assert ps == [Param(n)] + rest;
      case Lit(c) =>
        TokenizeLitHead(c, t);
        assert ps == [Lit(c)] + rest;
    }
  }
}
