/** The string handling a circuit description goes through: `split_whitespace`,
    `split(',')`, `contains`, and `parse` into an unsigned integer, with the
    joins and the decimal rendering that invert them. */
module Text {
  import opened Wrappers
  import opened Bits

  /** The Unicode White_Space characters, on which `split_whitespace`
      splits. */
  predicate IsWhitespace(c: char) {
    || c == ' '
    || ('\t' <= c <= '\r')
    || c == '\U{85}' || c == '\U{A0}' || c == '\U{1680}'
    || ('\U{2000}' <= c <= '\U{200A}')
    || c == '\U{2028}' || c == '\U{2029}' || c == '\U{202F}' || c == '\U{205F}' || c == '\U{3000}'
  }

  /** No character of s is whitespace. */
  predicate NoWhitespace(s: string) {
    forall i :: 0 <= i < |s| ==> !IsWhitespace(s[i])
  }

  /** A non-empty run of characters none of which is whitespace. */
  predicate IsToken(t: string) {
    |t| > 0 && NoWhitespace(t)
  }

  /** The parts, with `sep` between consecutive ones. */
  function Join(parts: seq<string>, sep: string): string {
    if |parts| == 0 then ""
    else if |parts| == 1 then parts[0]
    else parts[0] + sep + Join(parts[1..], sep)
  }

  /** A character in none of the parts nor in the separator is not in the
      join. */
  lemma {:induction false} NotInJoin(parts: seq<string>, sep: string, c: char)
    requires forall i :: 0 <= i < |parts| ==> c !in parts[i]
    requires c !in sep
    ensures c !in Join(parts, sep)
  {
    if |parts| > 1 {
      NotInJoin(parts[1..], sep, c);
    }
  }

  /** The first part starts the join. */
  lemma JoinStartsWith(parts: seq<string>, sep: string)
    requires |parts| >= 1
    ensures |parts[0]| <= |Join(parts, sep)|
    ensures Join(parts, sep)[..|parts[0]|] == parts[0]
  {
  }

  lemma NoWhitespaceAppend(a: string, b: string)
    requires NoWhitespace(a) && NoWhitespace(b)
    ensures NoWhitespace(a + b)
  {
    assert forall i :: |a| <= i < |a + b| ==> (a + b)[i] == b[i - |a|];
  }

  /** Tokens joined by a whitespace-free separator form one token. */
  lemma {:induction false} JoinIsToken(parts: seq<string>, sep: string)
    requires |parts| >= 1
    requires forall i :: 0 <= i < |parts| ==> IsToken(parts[i])
    requires NoWhitespace(sep)
    ensures IsToken(Join(parts, sep))
  {
    if |parts| > 1 {
      JoinIsToken(parts[1..], sep);
      assert IsToken(parts[0]);
      NoWhitespaceAppend(parts[0], sep);
      NoWhitespaceAppend(parts[0] + sep, Join(parts[1..], sep));
    }
  }

  // -------------------------------------------------------- split_whitespace

  /** s without its leading whitespace. */
  function TrimStart(s: string): (r: string)
    ensures |r| <= |s|
    ensures |r| > 0 ==> !IsWhitespace(r[0])
  {
    if |s| > 0 && IsWhitespace(s[0]) then TrimStart(s[1..]) else s
  }

  /** The length of the leading run of non-whitespace characters of s. */
  function TokenEnd(s: string): (n: nat)
    ensures n <= |s|
    ensures forall i :: 0 <= i < n ==> !IsWhitespace(s[i])
    ensures n < |s| ==> IsWhitespace(s[n])
  {
    if |s| > 0 && !IsWhitespace(s[0]) then
      var n := TokenEnd(s[1..]);
      assert forall i :: 1 <= i < n + 1 ==> s[i] == s[1..][i - 1];
      1 + n
    else 0
  }

  /** `split_whitespace`: the maximal runs of non-whitespace characters of s,
      in order. */
  function SplitWhitespace(s: string): (r: seq<string>)
    ensures forall i :: 0 <= i < |r| ==> IsToken(r[i])
    decreases |s|
  {
    var t := TrimStart(s);
    if |t| == 0 then []
    else
      var n := TokenEnd(t);
      var tok := t[..n];
      assert IsToken(tok);
      var rest := SplitWhitespace(t[n..]);
      var r := [tok] + rest;
      assert forall i :: 1 <= i < |r| ==> r[i] == rest[i - 1];
      r
  }

  /** The non-whitespace characters of s, in order. */
  function NonWhitespace(s: string): string {
    if |s| == 0 then ""
    else if IsWhitespace(s[0]) then NonWhitespace(s[1..])
    else [s[0]] + NonWhitespace(s[1..])
  }

  /** All parts laid end to end. */
  function Concat(parts: seq<string>): string {
    if |parts| == 0 then "" else parts[0] + Concat(parts[1..])
  }

  lemma {:induction false} NonWhitespaceAppend(a: string, b: string)
    ensures NonWhitespace(a + b) == NonWhitespace(a) + NonWhitespace(b)
  {
    if |a| > 0 {
      assert (a + b)[1..] == a[1..] + b;
      NonWhitespaceAppend(a[1..], b);
    } else {
      assert a + b == b;
    }
  }

  lemma {:induction false} NonWhitespaceOfToken(t: string)
    requires forall i :: 0 <= i < |t| ==> !IsWhitespace(t[i])
    ensures NonWhitespace(t) == t
  {
    if |t| > 0 {
      NonWhitespaceOfToken(t[1..]);
      assert t == [t[0]] + t[1..];
    }
  }

  lemma {:induction false} TrimStartKeepsText(s: string)
    ensures NonWhitespace(TrimStart(s)) == NonWhitespace(s)
  {
    if |s| > 0 && IsWhitespace(s[0]) {
      TrimStartKeepsText(s[1..]);
    }
  }

  /** A token followed by nothing or by whitespace is split off first. */
  lemma SplitWhitespaceTokenFirst(t: string, rest: string)
    requires IsToken(t)
    requires |rest| == 0 || IsWhitespace(rest[0])
    ensures SplitWhitespace(t + rest) == [t] + SplitWhitespace(rest)
  {
    var s := t + rest;
    assert TrimStart(s) == s;
    TokenEndOfToken(t, rest);
    assert s[..|t|] == t && s[|t|..] == rest;
  }

  lemma SplitWhitespaceSkipSpace(x: string)
    ensures SplitWhitespace(" " + x) == SplitWhitespace(x)
  {
    assert (" " + x)[1..] == x;
    assert TrimStart(" " + x) == TrimStart(x);
  }

  lemma ConcatCons(x: string, r: seq<string>)
    ensures Concat([x] + r) == x + Concat(r)
  {
    assert ([x] + r)[1..] == r;
  }

  lemma NonWhitespaceOfTokenThen(t: string, n: nat)
    requires n <= |t|
    requires forall i :: 0 <= i < n ==> !IsWhitespace(t[i])
    ensures NonWhitespace(t) == t[..n] + NonWhitespace(t[n..])
  {
    assert t == t[..n] + t[n..];
    NonWhitespaceAppend(t[..n], t[n..]);
    NonWhitespaceOfToken(t[..n]);
  }

  lemma SplitWhitespaceKeepsTextStep(s: string)
    requires |TrimStart(s)| > 0
    requires var t := TrimStart(s);
             Concat(SplitWhitespace(t[TokenEnd(t)..])) == NonWhitespace(t[TokenEnd(t)..])
    ensures Concat(SplitWhitespace(s)) == NonWhitespace(s)
  {
    var t := TrimStart(s);
    TrimStartKeepsText(s);
    var n := TokenEnd(t);
    NonWhitespaceOfTokenThen(t, n);
    ConcatCons(t[..n], SplitWhitespace(t[n..]));
  }

  /** `split_whitespace` loses only whitespace: its tokens laid end to end are
      the non-whitespace characters of s. */
  lemma {:induction false} SplitWhitespaceKeepsText(s: string)
    ensures Concat(SplitWhitespace(s)) == NonWhitespace(s)
    decreases |s|
  {
    var t := TrimStart(s);
    if |t| > 0 {
      SplitWhitespaceKeepsText(t[TokenEnd(t)..]);
      SplitWhitespaceKeepsTextStep(s);
    } else {
      TrimStartKeepsText(s);
    }
  }

  lemma {:induction false} TokenEndOfToken(t: string, rest: string)
    requires IsToken(t)
    requires |rest| == 0 || IsWhitespace(rest[0])
    ensures TokenEnd(t + rest) == |t|
  {
    if |t| > 1 {
      assert (t + rest)[1..] == t[1..] + rest;
      TokenEndOfToken(t[1..], rest);
    } else {
      assert (t + rest)[1..] == rest;
    }
  }

  lemma JoinCons(parts: seq<string>, sep: string)
    requires |parts| > 1
    ensures Join(parts, sep) == parts[0] + (sep + Join(parts[1..], sep))
  {
    var j := Join(parts[1..], sep);
    assert parts[0] + sep + j == parts[0] + (sep + j);
  }

  lemma SplitWhitespaceSingle(t: string)
    requires IsToken(t)
    ensures SplitWhitespace(Join([t], " ")) == [t]
  {
    assert t + "" == t;
    SplitWhitespaceTokenFirst(t, "");
  }

  lemma SplitWhitespaceTokenSpace(t: string, x: string)
    requires IsToken(t)
    ensures SplitWhitespace(t + (" " + x)) == [t] + SplitWhitespace(x)
  {
    SplitWhitespaceTokenFirst(t, " " + x);
    SplitWhitespaceSkipSpace(x);
  }

  lemma SplitWhitespaceJoinStep(tokens: seq<string>)
    requires |tokens| > 1 && IsToken(tokens[0])
    requires SplitWhitespace(Join(tokens[1..], " ")) == tokens[1..]
    ensures SplitWhitespace(Join(tokens, " ")) == tokens
  {
    var t0, rest := tokens[0], tokens[1..];
    var j := Join(rest, " ");
    JoinCons(tokens, " ");
    SplitWhitespaceTokenSpace(t0, j);
    assert tokens == [t0] + rest;
  }

  /** Tokens joined by single spaces split back into the same tokens. */
  lemma {:induction false} SplitWhitespaceJoin(tokens: seq<string>)
    requires forall i :: 0 <= i < |tokens| ==> IsToken(tokens[i])
    ensures SplitWhitespace(Join(tokens, " ")) == tokens
  {
    if |tokens| == 1 {
      SplitWhitespaceSingle(tokens[0]);
      assert tokens == [tokens[0]];
    } else if |tokens| > 1 {
      var rest := tokens[1..];
      assert forall i :: 0 <= i < |rest| ==> IsToken(rest[i]) by {
        assert forall i :: 0 <= i < |rest| ==> rest[i] == tokens[i + 1];
      }
      SplitWhitespaceJoin(rest);
      SplitWhitespaceJoinStep(tokens);
    }
  }

  /** No character of w is whitespace-free: w is a (possibly empty) run of
      whitespace. */
  predicate IsBlank(w: string) {
    forall i :: 0 <= i < |w| ==> IsWhitespace(w[i])
  }

  /** gaps[0] + tokens[0] + gaps[1] + ... + tokens[k-1] + gaps[k]. */
  function Interleave(gaps: seq<string>, tokens: seq<string>): string
    requires |gaps| == |tokens| + 1
  {
    if |tokens| == 0 then gaps[0]
    else gaps[0] + tokens[0] + Interleave(gaps[1..], tokens[1..])
  }

  lemma {:induction false} TrimStartBlank(w: string, x: string)
    requires IsBlank(w)
    ensures TrimStart(w + x) == TrimStart(x)
  {
    if |w| > 0 {
      assert (w + x)[1..] == w[1..] + x;
      TrimStartBlank(w[1..], x);
    } else {
      assert w + x == x;
    }
  }

  /** Leading whitespace does not change the split. */
  lemma SplitWhitespaceSkipBlank(w: string, x: string)
    requires IsBlank(w)
    ensures SplitWhitespace(w + x) == SplitWhitespace(x)
  {
    TrimStartBlank(w, x);
  }

  /** Text laid out as tokens separated by non-empty runs of whitespace, with
      optional whitespace before and after, splits into exactly those tokens:
      the pieces are the maximal whitespace-free runs, nothing more and
      nothing less. */
  lemma {:induction false} SplitWhitespaceUnique(gaps: seq<string>, tokens: seq<string>)
    requires |gaps| == |tokens| + 1
    requires forall i :: 0 <= i < |gaps| ==> IsBlank(gaps[i])
    requires forall i :: 0 < i < |tokens| ==> |gaps[i]| > 0
    requires forall i :: 0 <= i < |tokens| ==> IsToken(tokens[i])
    ensures SplitWhitespace(Interleave(gaps, tokens)) == tokens
  {
    if |tokens| == 0 {
      SplitWhitespaceSkipBlank(gaps[0], "");
      assert gaps[0] + "" == gaps[0];
    } else {
      var g, t := gaps[1..], tokens[1..];
      var rest := Interleave(g, t);
      assert |rest| == 0 || IsWhitespace(rest[0]) by {
        if |g[0]| > 0 {
          assert IsBlank(g[0]);
          if |t| > 0 {
            assert rest[0] == g[0][0];
          }
        } else {
          assert |t| == 0;
        }
      }
      assert Interleave(gaps, tokens) == gaps[0] + (tokens[0] + rest);
      SplitWhitespaceSkipBlank(gaps[0], tokens[0] + rest);
      SplitWhitespaceTokenFirst(tokens[0], rest);
      assert forall i :: 0 <= i < |g| ==> g[i] == gaps[i + 1];
      assert forall i :: 0 <= i < |t| ==> t[i] == tokens[i + 1];
      SplitWhitespaceUnique(g, t);
      assert tokens == [tokens[0]] + t;
    }
  }

  // ------------------------------------------------------------ split(c)

  /** `split(c)`: the pieces of s between occurrences of c, including the
      empty ones; there is always at least one piece, and the pieces joined
      by c give back s. */
  function SplitOn(s: string, c: char): (r: seq<string>)
    ensures |r| >= 1
    ensures forall i :: 0 <= i < |r| ==> c !in r[i]
    ensures Join(r, [c]) == s
  {
    if |s| == 0 then [""]
    else
      var rest := SplitOn(s[1..], c);
      if s[0] == c then
        assert ([""] + rest)[1..] == rest;
        [""] + rest
      else
        var r := [[s[0]] + rest[0]] + rest[1..];
        assert r[1..] == rest[1..];
        assert s == [s[0]] + s[1..];
        r
  }

  /** The pieces of `split(c)` are the ONLY c-free pieces that join to s. */
  lemma {:induction false} SplitOnUnique(s: string, c: char, r: seq<string>)
    requires |r| >= 1
    requires forall i :: 0 <= i < |r| ==> c !in r[i]
    requires Join(r, [c]) == s
    ensures r == SplitOn(s, c)
    decreases |s|
  {
    if |s| > 0 && |r[0]| == 0 {
      assert s == [c] + Join(r[1..], [c]);
      assert s[1..] == Join(r[1..], [c]);
      SplitOnUnique(s[1..], c, r[1..]);
      assert r == [""] + r[1..];
    } else if |s| > 0 {
      assert s[0] == r[0][0];
      assert r[0][0] in r[0];
      var r' := [r[0][1..]] + r[1..];
      assert r'[1..] == r[1..];
      assert forall i :: 1 <= i < |r'| ==> r'[i] == r[i];
      assert forall i :: 0 <= i < |r'| ==> c !in r'[i] by {
        assert forall x :: x in r[0][1..] ==> x in r[0];
      }
      if |r| == 1 {
        assert Join(r', [c]) == s[1..];
      } else {
        assert Join(r', [c]) == s[1..];
      }
      SplitOnUnique(s[1..], c, r');
      assert r[0] == [s[0]] + r'[0];
      assert r == [[s[0]] + r'[0]] + r'[1..];
    }
  }

  /** c-free pieces joined by c split back into the same pieces. */
  lemma SplitOnJoin(parts: seq<string>, c: char)
    requires |parts| >= 1
    requires forall i :: 0 <= i < |parts| ==> c !in parts[i]
    ensures SplitOn(Join(parts, [c]), c) == parts
  {
    SplitOnUnique(Join(parts, [c]), c, parts);
  }

  // --------------------------------------------------------------- decimal

  predicate IsDigit(c: char) {
    '0' <= c <= '9'
  }

  predicate AllDigits(s: string) {
    forall i :: 0 <= i < |s| ==> IsDigit(s[i])
  }

  function DigitValue(c: char): nat
    requires IsDigit(c)
  {
    (c as int) - ('0' as int)
  }

  function DigitChar(d: nat): (c: char)
    requires d < 10
    ensures IsDigit(c) && DigitValue(c) == d
  {
    ('0' as int + d) as char
  }

  /** The number a string of decimal digits spells, most significant first. */
  function DigitsValue(s: string): nat
    requires AllDigits(s)
  {
    if |s| == 0 then 0 else 10 * DigitsValue(s[..|s| - 1]) + DigitValue(s[|s| - 1])
  }

  /** The decimal rendering of n: digits only, with a leading '0' exactly
      when n is 0 (so no leading zeros). */
  function NatToString(n: nat): (s: string)
    ensures |s| >= 1 && AllDigits(s)
    ensures s[0] == '0' <==> n == 0
  {
    if n < 10 then [DigitChar(n)] else NatToString(n / 10) + [DigitChar(n % 10)]
  }

  /** Digits are neither whitespace nor ',': a rendered number is one token
      that a split on ',' leaves whole. */
  lemma DigitsAreToken(s: string)
    requires |s| >= 1 && AllDigits(s)
    ensures IsToken(s) && ',' !in s
  {
  }

  /** Decimal without leading zeros, the form NatToString produces. */
  predicate Canonical(s: string) {
    |s| >= 1 && AllDigits(s) && (|s| > 1 ==> s[0] != '0')
  }

  /** Reading the rendering of n gives back n. */
  lemma {:induction false} DigitsValueOfNat(n: nat)
    ensures DigitsValue(NatToString(n)) == n
  {
    if n >= 10 {
      var s := NatToString(n);
      assert s[..|s| - 1] == NatToString(n / 10);
      DigitsValueOfNat(n / 10);
    }
  }

  lemma {:induction false} DigitsValuePositive(s: string)
    requires |s| >= 1 && AllDigits(s) && s[0] != '0'
    ensures DigitsValue(s) >= 1
  {
    if |s| > 1 {
      assert s[..|s| - 1][0] == s[0];
      DigitsValuePositive(s[..|s| - 1]);
    }
  }

  /** Rendering the value of a canonical digit string gives back the string. */
  lemma {:induction false} NatToStringOfDigits(s: string)
    requires Canonical(s)
    ensures NatToString(DigitsValue(s)) == s
  {
    var d := DigitValue(s[|s| - 1]);
    assert DigitChar(d) == s[|s| - 1];
    if |s| > 1 {
      var p := s[..|s| - 1];
      assert p[0] == s[0];
      assert Canonical(p);
      DigitsValuePositive(p);
      NatToStringOfDigits(p);
      var v := DigitsValue(s);
      DivUnique(v, 10, DigitsValue(p), d);
      assert s == p + [s[|s| - 1]];
    }
  }

  /** `parse` into an unsigned integer type whose values lie below `bound`:
      an optional '+', then one or more decimal digits (leading zeros
      allowed) spelling a value below `bound`; anything else fails. */
  function ParseUnsigned(s: string, bound: nat): (r: Option<nat>)
    ensures r.Some? ==> r.value < bound
    ensures |s| == 0 ==> r.None?
    ensures |s| > 0 && !IsDigit(s[0]) && s[0] != '+' ==> r.None?
    ensures r.Some? <==> || (|s| > 0 && AllDigits(s) && DigitsValue(s) < bound)
                         || (|s| > 1 && s[0] == '+' && AllDigits(s[1..]) && DigitsValue(s[1..]) < bound)
    ensures r.Some? && s[0] != '+' ==> r.value == DigitsValue(s)
    ensures r.Some? && s[0] == '+' ==> r.value == DigitsValue(s[1..])
  {
    var digits := if |s| > 0 && s[0] == '+' then s[1..] else s;
    if |digits| == 0 || !AllDigits(digits) || DigitsValue(digits) >= bound then None
    else Some(DigitsValue(digits))
  }

  /** Leading zeros and one leading '+' are accepted; a stray character, a
      sign other than '+', a lone '+' and a value out of range are not. */
  lemma ParseUnsignedExamples()
    ensures ParseUnsigned("007", 10) == Some(7)
    ensures ParseUnsigned("+12", 100) == Some(12)
    ensures ParseUnsigned("1a", 100) == None
    ensures ParseUnsigned("-1", 100) == None
    ensures ParseUnsigned("+", 100) == None
    ensures ParseUnsigned("10", 10) == None
  {
    assert "007"[..2] == "00" && "00"[..1] == "0" && "0"[..0] == "";
    assert "12"[..1] == "1" && "1"[..0] == "";
    assert "+12"[1..] == "12";
  }

  /** Parsing the rendering of any value in range gives back the value, with
      or without a leading '+'. */
  lemma ParseNatToString(n: nat, bound: nat)
    requires n < bound
    ensures ParseUnsigned(NatToString(n), bound) == Some(n)
    ensures ParseUnsigned("+" + NatToString(n), bound) == Some(n)
  {
    DigitsValueOfNat(n);
    assert ("+" + NatToString(n))[1..] == NatToString(n);
  }

  /** A canonical string parses exactly when its value is in range, and its
      value renders back to it: parsing and rendering are inverse on
      canonical decimals. */
  lemma ParseCanonical(s: string, bound: nat)
    requires Canonical(s)
    ensures ParseUnsigned(s, bound).Some? <==> DigitsValue(s) < bound
    ensures ParseUnsigned(s, bound).Some? ==> NatToString(ParseUnsigned(s, bound).value) == s
  {
    NatToStringOfDigits(s);
  }
}
