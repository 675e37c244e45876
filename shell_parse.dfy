/*
 * Tokenising and classification of one command line of the safe shell
 * (03_safe_shell/src/main.rs, lines 30-61): `input.trim().split_whitespace()`,
 * the first token as the command name, the rest as its arguments, and the
 * `match` that tells the built-ins `exit` and `cd` from external programs.
 */
module ShellParse {
  import opened Sequences

  datatype Option<T> = None | Some(value: T)

  /** Unicode White_Space, the class that Rust's `trim` and `split_whitespace` use. */
  predicate IsWhitespace(c: char) {
    || ('\t' <= c <= '\r')
    || c == ' '
    || c == '\U{85}'
    || c == '\U{A0}'
    || c == '\U{1680}'
    || ('\U{2000}' <= c <= '\U{200A}')
    || c == '\U{2028}'
    || c == '\U{2029}'
    || c == '\U{202F}'
    || c == '\U{205F}'
    || c == '\U{3000}'
  }

  /** A line with nothing but whitespace in it (the empty line included). */
  predicate IsBlank(s: string) {
    forall i | 0 <= i < |s| :: IsWhitespace(s[i])
  }

  /** What `split_whitespace` can yield: a non-empty run of non-whitespace characters. */
  predicate IsToken(w: string) {
    |w| > 0 && forall i | 0 <= i < |w| :: !IsWhitespace(w[i])
  }

  /** Rust's `str::trim_start`: `s` without its leading whitespace. */
  function TrimStart(s: string): string
    decreases |s|
  {
    if s != [] && IsWhitespace(s[0]) then TrimStart(s[1..]) else s
  }

  /** Rust's `str::trim_end`: `s` without its trailing whitespace. */
  function TrimEnd(s: string): string
    decreases |s|
  {
    if s != [] && IsWhitespace(s[|s| - 1]) then TrimEnd(s[..|s| - 1]) else s
  }

  /** Rust's `str::trim`: `s` without its leading and trailing whitespace. */
  function Trim(s: string): string {
    TrimEnd(TrimStart(s))
  }

  /** The length of the run of non-whitespace characters that `s` starts with. */
  function WordLength(s: string): (n: nat)
    ensures n <= |s|
    ensures forall i | 0 <= i < n :: !IsWhitespace(s[i])
    ensures n < |s| ==> IsWhitespace(s[n])
  {
    if s == [] || IsWhitespace(s[0]) then 0 else 1 + WordLength(s[1..])
  }

  /** Rust's `split_whitespace`: the maximal runs of non-whitespace characters, in order. */
  function Tokens(s: string): (ts: seq<string>)
    ensures forall k | 0 <= k < |ts| :: IsToken(ts[k])
    decreases |s|
  {
    if s == [] then []
    else if IsWhitespace(s[0]) then Tokens(s[1..])
    else
      var n := WordLength(s);
      [s[..n]] + Tokens(s[n..])
  }

  /** A parsed invocation: the command name and its ordered arguments. */
  datatype Invocation = Invocation(name: string, args: seq<string>)

  /**
   * Lines 30-39: trim, split on whitespace runs, take the first token as the
   * name (`None` is the empty-input `continue`) and collect the rest as arguments.
   */
  function Parse(line: string): (p: Option<Invocation>)
    ensures p.None? <==> IsBlank(line)
    ensures p.Some? ==> [p.value.name] + p.value.args == Tokens(line)
    ensures p.Some? ==> IsToken(p.value.name) && forall k | 0 <= k < |p.value.args| :: IsToken(p.value.args[k])
  {
    TrimKeepsTokens(line);
    BlankIffNoTokens(line);
    var parts := Tokens(Trim(line));
    if parts == [] then None else Some(Invocation(parts[0], parts[1..]))
  }

  /** The built-in/external decision of lines 43-61, as a tagged variant. */
  datatype Command = Exit | Cd(target: string) | External(program: string, args: seq<string>)

  /** Root directory that a bare `cd` changes to (line 53). */
  const DEFAULT_CD_TARGET: string := "/"

  /**
   * Lines 43-61: `exit` and `cd` are matched exactly and case-sensitively; `cd`
   * takes its first argument or "/" and ignores the rest; any other name is an
   * external program run with exactly the parsed arguments.
   */
  function Classify(inv: Invocation): (c: Command)
    ensures c.Exit? <==> inv.name == "exit"
    ensures c.Cd? <==> inv.name == "cd"
    ensures c.Cd? ==> c.target == (if |inv.args| > 0 then inv.args[0] else DEFAULT_CD_TARGET)
    ensures c.External? ==> c.program == inv.name && c.args == inv.args
  {
    match inv.name
    case "exit" => Exit
    case "cd" => Cd(if |inv.args| > 0 then inv.args[0] else DEFAULT_CD_TARGET)
    case _ => External(inv.name, inv.args)
  }

  // ---------------------------------------------------------------------------
  // Properties of the tokeniser
  // ---------------------------------------------------------------------------

  /** A line yields no token exactly when it is blank. */
  lemma {:induction false} BlankIffNoTokens(s: string)
    ensures Tokens(s) == [] <==> IsBlank(s)
    decreases |s|
  {
    if s != [] {
      if IsWhitespace(s[0]) {
        BlankIffNoTokens(s[1..]);
        assert IsBlank(s) <==> IsBlank(s[1..]) by {
          if IsBlank(s[1..]) {
            forall i | 0 <= i < |s| ensures IsWhitespace(s[i]) {
              if i > 0 { assert s[i] == s[1..][i - 1]; }
            }
          }
        }
      } else {
        assert !IsBlank(s);
      }
    }
  }

  /** Whitespace in front of a line changes none of its tokens. */
  lemma {:induction false} BlankPrefixKeepsTokens(pad: string, s: string)
    requires IsBlank(pad)
    ensures Tokens(pad + s) == Tokens(s)
    decreases |pad|
  {
    if pad != [] {
      assert (pad + s)[0] == pad[0];
      assert (pad + s)[1..] == pad[1..] + s;
      assert IsBlank(pad[1..]) by {
        forall i | 0 <= i < |pad[1..]| ensures IsWhitespace(pad[1..][i]) {
          assert pad[1..][i] == pad[i + 1];
        }
      }
      BlankPrefixKeepsTokens(pad[1..], s);
      assert Tokens(pad + s) == Tokens((pad + s)[1..]);
    } else {
      assert pad + s == s;
    }
  }

  /** Whitespace after a line changes none of its tokens. */
  lemma {:induction false} BlankSuffixKeepsTokens(s: string, pad: string)
    requires IsBlank(pad)
    ensures Tokens(s + pad) == Tokens(s)
    decreases |s|
  {
    if s == [] {
      assert s + pad == pad;
      BlankIffNoTokens(pad);
    } else if IsWhitespace(s[0]) {
      assert (s + pad)[0] == s[0];
      assert (s + pad)[1..] == s[1..] + pad;
      BlankSuffixKeepsTokens(s[1..], pad);
    } else {
      var n := WordLength(s);
      assert (s + pad)[0] == s[0];
      WordLengthOfConcat(s, pad);
      assert (s + pad)[..n] == s[..n];
      assert (s + pad)[n..] == s[n..] + pad;
      BlankSuffixKeepsTokens(s[n..], pad);
    }
  }

  /** Appending something that starts with whitespace does not lengthen the first word. */
  lemma {:induction false} WordLengthOfConcat(s: string, pad: string)
    requires pad == [] || IsWhitespace(pad[0])
    ensures WordLength(s + pad) == WordLength(s)
    decreases |s|
  {
    if s == [] {
      assert s + pad == pad;
    } else {
      assert (s + pad)[0] == s[0];
      if !IsWhitespace(s[0]) {
        assert (s + pad)[1..] == s[1..] + pad;
        WordLengthOfConcat(s[1..], pad);
      }
    }
  }

  lemma {:induction false} TrimStartKeepsTokens(s: string)
    ensures Tokens(TrimStart(s)) == Tokens(s)
    decreases |s|
  {
    if s != [] && IsWhitespace(s[0]) {
      TrimStartKeepsTokens(s[1..]);
    }
  }

  lemma {:induction false} TrimEndKeepsTokens(s: string)
    ensures Tokens(TrimEnd(s)) == Tokens(s)
    decreases |s|
  {
    if s != [] && IsWhitespace(s[|s| - 1]) {
      var init := s[..|s| - 1];
      TrimEndKeepsTokens(init);
      assert s == init + [s[|s| - 1]];
      BlankSuffixKeepsTokens(init, [s[|s| - 1]]);
    }
  }

  /** `trim` before `split_whitespace` changes nothing: the tokens are those of the raw line. */
  lemma TrimKeepsTokens(s: string)
    ensures Tokens(Trim(s)) == Tokens(s)
  {
    TrimStartKeepsTokens(s);
    TrimEndKeepsTokens(TrimStart(s));
  }

  lemma {:induction false} TrimStartShape(s: string)
    ensures |TrimStart(s)| <= |s| && TrimStart(s) == s[|s| - |TrimStart(s)|..]
    ensures IsBlank(s[..|s| - |TrimStart(s)|])
    ensures TrimStart(s) != [] ==> !IsWhitespace(TrimStart(s)[0])
    decreases |s|
  {
    if s != [] && IsWhitespace(s[0]) {
      TrimStartShape(s[1..]);
      var t := TrimStart(s);
      assert s[..|s| - |t|] == [s[0]] + s[1..][..|s| - 1 - |t|];
    }
  }

  lemma {:induction false} TrimEndShape(s: string)
    ensures |TrimEnd(s)| <= |s| && TrimEnd(s) == s[..|TrimEnd(s)|]
    ensures IsBlank(s[|TrimEnd(s)|..])
    ensures TrimEnd(s) != [] ==> !IsWhitespace(TrimEnd(s)[|TrimEnd(s)| - 1])
    decreases |s|
  {
    if s != [] && IsWhitespace(s[|s| - 1]) {
      var init := s[..|s| - 1];
      TrimEndShape(init);
      var t := TrimEnd(s);
      assert s[|t|..] == init[|t|..] + [s[|s| - 1]];
    }
  }

  /** What `trim` leaves is the line between a blank prefix and a blank suffix. */
  lemma TrimIsMiddle(s: string)
    ensures var t := Trim(s);
      exists i, j | 0 <= i <= j <= |s| :: t == s[i..j] && IsBlank(s[..i]) && IsBlank(s[j..])
  {
    var front := TrimStart(s);
    TrimStartShape(s);
    TrimEndShape(front);
    var t := Trim(s);
    var i := |s| - |front|;
    SliceOfSuffix(s, i, 0, |t|);
    SliceOfSuffix(s, i, |t|, |front|);
    assert t == s[i..i + |t|] && IsBlank(s[..i]) && IsBlank(s[i + |t|..]);
  }

  /** What `trim` leaves neither starts nor ends with whitespace. */
  lemma TrimEdges(s: string)
    ensures var t := Trim(s);
      t != [] ==> !IsWhitespace(t[0]) && !IsWhitespace(t[|t| - 1])
  {
    var front := TrimStart(s);
    TrimStartShape(s);
    TrimEndShape(front);
    var t := Trim(s);
    if t != [] {
      assert t[0] == front[0];
    }
  }

  /** `trim` leaves nothing exactly when the line is blank. */
  lemma TrimEmptyIffBlank(s: string)
    ensures Trim(s) == [] <==> IsBlank(s)
  {
    var front := TrimStart(s);
    TrimStartShape(s);
    TrimEndShape(front);
    var t := Trim(s);
    var i := |s| - |front|;
    if t == [] {
      assert front == front[|t|..];
      assert s == s[..i] + front;
    } else {
      TrimEdges(s);
      SliceOfSuffix(s, i, 0, 1);
      assert !IsWhitespace(s[i]);
    }
  }

  /**
   * `trim` removes a blank prefix and a blank suffix and nothing else: what is
   * left is a contiguous part of the line that, unless empty, neither starts
   * nor ends with whitespace, and it is empty exactly when the line is blank.
   */
  lemma TrimStripsBothEnds(s: string)
    ensures var t := Trim(s);
      && (exists i, j | 0 <= i <= j <= |s| :: t == s[i..j] && IsBlank(s[..i]) && IsBlank(s[j..]))
      && (t != [] ==> !IsWhitespace(t[0]) && !IsWhitespace(t[|t| - 1]))
      && (t == [] <==> IsBlank(s))
  {
    TrimIsMiddle(s);
    TrimEdges(s);
    TrimEmptyIffBlank(s);
  }

  /** A token followed by whitespace (or by nothing) is split off whole. */
  lemma TokensOfWord(w: string, rest: string)
    requires IsToken(w)
    requires rest == [] || IsWhitespace(rest[0])
    ensures Tokens(w + rest) == [w] + Tokens(rest)
  {
    WordLengthOfToken(w, rest);
    assert (w + rest)[..|w|] == w;
    assert (w + rest)[|w|..] == rest;
  }

  lemma {:induction false} WordLengthOfToken(w: string, rest: string)
    requires forall i | 0 <= i < |w| :: !IsWhitespace(w[i])
    requires rest == [] || IsWhitespace(rest[0])
    ensures WordLength(w + rest) == |w|
    decreases |w|
  {
    if w == [] {
      assert w + rest == rest;
    } else {
      assert (w + rest)[1..] == w[1..] + rest;
      WordLengthOfToken(w[1..], rest);
    }
  }

  /** The tokens joined by single spaces: the inverse of `Tokens`. */
  function Unwords(ts: seq<string>): string {
    if ts == [] then ""
    else if |ts| == 1 then ts[0]
    else ts[0] + " " + Unwords(ts[1..])
  }

  /** Splitting undoes joining: whitespace-free non-empty words come back in order. */
  lemma {:induction false} UnwordsRoundTrip(ts: seq<string>)
    requires forall k | 0 <= k < |ts| :: IsToken(ts[k])
    ensures Tokens(Unwords(ts)) == ts
  {
    if |ts| == 1 {
      TokensOfWord(ts[0], "");
      assert ts[0] + "" == ts[0];
    } else if |ts| > 1 {
      var tail := " " + Unwords(ts[1..]);
      assert Unwords(ts) == ts[0] + tail;
      TokensOfWord(ts[0], tail);
      assert tail == " " + Unwords(ts[1..]);
      BlankPrefixKeepsTokens(" ", Unwords(ts[1..]));
      UnwordsRoundTrip(ts[1..]);
      assert ts == [ts[0]] + ts[1..];
    }
  }

  /** The characters of `s` that are not whitespace, in order. */
  function NonWhitespace(s: string): string
    decreases |s|
  {
    if s == [] then "" else (if IsWhitespace(s[0]) then "" else [s[0]]) + NonWhitespace(s[1..])
  }

  /** The tokens concatenated, in order. */
  function Concat(ts: seq<string>): string {
    if ts == [] then "" else ts[0] + Concat(ts[1..])
  }

  /** Tokenising drops whitespace and only whitespace: no other character is lost, added or reordered. */
  lemma {:induction false} TokensKeepEveryOtherCharacter(s: string)
    ensures Concat(Tokens(s)) == NonWhitespace(s)
    decreases |s|
  {
    if s != [] {
      if IsWhitespace(s[0]) {
        TokensKeepEveryOtherCharacter(s[1..]);
      } else {
        var n := WordLength(s);
        TokensKeepEveryOtherCharacter(s[n..]);
        WordIsNonWhitespace(s, n);
        NonWhitespaceOfConcat(s[..n], s[n..]);
        assert s == s[..n] + s[n..];
      }
    }
  }

  lemma {:induction false} WordIsNonWhitespace(s: string, n: nat)
    requires n <= |s|
    requires forall i | 0 <= i < n :: !IsWhitespace(s[i])
    ensures NonWhitespace(s[..n]) == s[..n]
    decreases n
  {
    if n > 0 {
      assert s[..n][1..] == s[1..][..n - 1];
      WordIsNonWhitespace(s[1..], n - 1);
    }
  }

  lemma {:induction false} NonWhitespaceOfConcat(a: string, b: string)
    ensures NonWhitespace(a + b) == NonWhitespace(a) + NonWhitespace(b)
    decreases |a|
  {
    if a == [] {
      assert a + b == b;
    } else {
      assert (a + b)[1..] == a[1..] + b;
      NonWhitespaceOfConcat(a[1..], b);
    }
  }

  lemma ParseOfTokens(line: string, name: string, args: seq<string>)
    requires Tokens(line) == [name] + args
    ensures Parse(line) == Some(Invocation(name, args))
  {
    BlankIffNoTokens(line);
    var p := Parse(line);
    assert [p.value.name] + p.value.args == [name] + args;
    assert p.value.name == ([p.value.name] + p.value.args)[0];
    assert p.value.args == ([p.value.name] + p.value.args)[1..];
  }

  /** Three words with whitespace runs around and between them split into exactly those words. */
  lemma TokensOfThreeWords(p0: string, a: string, p1: string, b: string, p2: string, c: string, p3: string)
    requires IsBlank(p0) && IsBlank(p1) && IsBlank(p2) && IsBlank(p3)
    requires p1 != [] && p2 != []
    requires IsToken(a) && IsToken(b) && IsToken(c)
    ensures Tokens(p0 + (a + (p1 + (b + (p2 + (c + p3)))))) == [a, b, c]
  {
    BlankIffNoTokens(p3);
    TokensOfWord(c, p3);
    BlankPrefixKeepsTokens(p2, c + p3);
    TokensOfWord(b, p2 + (c + p3));
    BlankPrefixKeepsTokens(p1, b + (p2 + (c + p3)));
    TokensOfWord(a, p1 + (b + (p2 + (c + p3))));
    BlankPrefixKeepsTokens(p0, a + (p1 + (b + (p2 + (c + p3)))));
  }

  /** The worked example: leading, trailing and internal runs of spaces are collapsed. */
  lemma TokensExample(line: string)
    requires line == "  foo   bar  baz  "
    ensures Tokens(line) == ["foo", "bar", "baz"]
  {
    var two, three := "  ", "   ";
    assert IsBlank(two) && IsBlank(three);
    assert IsToken("foo") && IsToken("bar") && IsToken("baz");
    assert line == two + ("foo" + (three + ("bar" + (two + ("baz" + two)))));
    TokensOfThreeWords(two, "foo", three, "bar", two, "baz", two);
  }

  /** The same example through `Parse`: name `foo`, arguments `bar` and `baz`. */
  lemma ParseExample(line: string)
    requires line == "  foo   bar  baz  "
    ensures Parse(line) == Some(Invocation("foo", ["bar", "baz"]))
  {
    TokensExample(line);
    assert ["foo", "bar", "baz"] == ["foo"] + ["bar", "baz"];
    ParseOfTokens(line, "foo", ["bar", "baz"]);
  }
}
