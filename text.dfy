/** The Python string operations the modelled code relies on. */
module Text {

  // ----- str.split(sep) and sep.join(parts) -----

  /** Python's `s.split(sep)` for a one-character separator: the pieces
      between separators, in order; there is always at least one piece. */
  function Split(s: string, sep: char): (pieces: seq<string>)
    ensures |pieces| >= 1
    ensures forall p :: p in pieces ==> sep !in p
  {
    SplitFrom(s, sep, "")
  }

  /** `Split`, with `current` the part of the current piece read so far. */
  function SplitFrom(s: string, sep: char, current: string): (pieces: seq<string>)
    requires sep !in current
    ensures |pieces| >= 1
    ensures forall p :: p in pieces ==> sep !in p
    decreases |s|
  {
    if s == [] then [current]
    else if s[0] == sep then [current] + SplitFrom(s[1..], sep, "")
    else SplitFrom(s[1..], sep, current + [s[0]])
  }

  /** Python's `sep.join(parts)`. */
  function Join(parts: seq<string>, sep: string): string
  {
    if |parts| == 0 then ""
    else if |parts| == 1 then parts[0]
    else parts[0] + sep + Join(parts[1..], sep)
  }

  lemma {:induction false} JoinSplitFrom(s: string, sep: char, current: string)
    requires sep !in current
    ensures Join(SplitFrom(s, sep, current), [sep]) == current + s
    decreases |s|
  {
    if s == [] {
    } else if s[0] == sep {
      JoinSplitFrom(s[1..], sep, "");
      assert current + [sep] + s[1..] == current + s;
    } else {
      JoinSplitFrom(s[1..], sep, current + [s[0]]);
      assert current + [s[0]] + s[1..] == current + s;
    }
  }

  /** Joining the pieces with the separator gives the string back. */
  lemma JoinSplit(s: string, sep: char)
    ensures Join(Split(s, sep), [sep]) == s
  {
    JoinSplitFrom(s, sep, "");
  }

  lemma {:induction false} SplitFromAtFirst(head: string, sep: char, rest: string, current: string)
    requires sep !in head && sep !in current
    ensures SplitFrom(head + [sep] + rest, sep, current) == [current + head] + Split(rest, sep)
    decreases |head|
  {
    var s := head + [sep] + rest;
    if head == [] {
      assert s[0] == sep && s[1..] == rest;
      assert current + head == current;
    } else {
      assert s[0] == head[0] && head[0] in head;
      assert s[1..] == head[1..] + [sep] + rest;
      SplitFromAtFirst(head[1..], sep, rest, current + [head[0]]);
      assert current + [head[0]] + head[1..] == current + head;
    }
  }

  /** Splitting at a first separator yields the text before it, then the
      pieces of the text after it. */
  lemma SplitAtFirst(head: string, sep: char, rest: string)
    requires sep !in head
    ensures Split(head + [sep] + rest, sep) == [head] + Split(rest, sep)
  {
    SplitFromAtFirst(head, sep, rest, "");
    assert "" + head == head;
  }

  lemma {:induction false} SplitFromWithout(s: string, sep: char, current: string)
    requires sep !in s && sep !in current
    ensures SplitFrom(s, sep, current) == [current + s]
    decreases |s|
  {
    if s == [] {
      assert current + s == current;
    } else {
      assert s[0] in s && sep !in s[1..];
      SplitFromWithout(s[1..], sep, current + [s[0]]);
      assert current + [s[0]] + s[1..] == current + s;
    }
  }

  /** A string without the separator is a single piece. */
  lemma SplitWithout(s: string, sep: char)
    requires sep !in s
    ensures Split(s, sep) == [s]
  {
    SplitFromWithout(s, sep, "");
    assert "" + s == s;
  }

  lemma {:induction false} SplitFromHead(s: string, sep: char, current: string)
    requires sep !in current
    ensures var h := SplitFrom(s, sep, current)[0];
            current <= h && h[|current|..] <= s
            && (|h| - |current| < |s| ==> s[|h| - |current|] == sep)
    decreases |s|
  {
    if s != [] && s[0] != sep {
      SplitFromHead(s[1..], sep, current + [s[0]]);
    }
  }

  /** Python's `s.split(sep)[0]`: the text before the first separator. */
  function BeforeFirst(s: string, sep: char): (head: string)
    ensures head <= s && sep !in head
    ensures |head| < |s| ==> s[|head|] == sep
  {
    SplitFromHead(s, sep, "");
    assert Split(s, sep)[0] in Split(s, sep);
    Split(s, sep)[0]
  }

  // ----- str.replace(c, "") -----

  /** Python's `s.replace(c, "")` for a one-character `c`. */
  function RemoveChar(s: string, c: char): (r: string)
    ensures c !in r
    ensures |r| <= |s|
  {
    if s == [] then ""
    else if s[0] == c then RemoveChar(s[1..], c)
    else [s[0]] + RemoveChar(s[1..], c)
  }

  lemma {:induction false} RemoveCharSplitFrom(s: string, c: char, current: string)
    requires c !in current
    ensures current + RemoveChar(s, c) == Join(SplitFrom(s, c, current), "")
    decreases |s|
  {
    if s == [] {
    } else if s[0] == c {
      RemoveCharSplitFrom(s[1..], c, "");
    } else {
      RemoveCharSplitFrom(s[1..], c, current + [s[0]]);
      assert current + [s[0]] + RemoveChar(s[1..], c) == current + ([s[0]] + RemoveChar(s[1..], c));
    }
  }

  /** Removing every `c` is splitting at `c` and joining with nothing. */
  lemma RemoveCharIsSplitJoin(s: string, c: char)
    ensures RemoveChar(s, c) == Join(Split(s, c), "")
  {
    RemoveCharSplitFrom(s, c, "");
  }

  // ----- str.split() -----

  /** Python's `str.isspace` for one character. */
  predicate IsSpace(ch: char)
  {
    ch == ' ' || ch == '\t' || ch == '\n' || ch == '\r'
    || ch == '\U{0B}' || ch == '\U{0C}'
    || ('\U{1C}' <= ch <= '\U{1F}')
    || ch == '\U{85}' || ch == '\U{A0}' || ch == '\U{1680}'
    || ('\U{2000}' <= ch <= '\U{200A}')
    || ch == '\U{2028}' || ch == '\U{2029}' || ch == '\U{202F}'
    || ch == '\U{205F}' || ch == '\U{3000}'
  }

  /** Python's `s.split()`: the maximal runs of non-whitespace, in order. */
  function Tokens(s: string): seq<string>
  {
    TokensFrom(s, "")
  }

  /** `Tokens`, with `current` the part of the current token read so far. */
  function TokensFrom(s: string, current: string): seq<string>
    decreases |s|
  {
    if s == [] then (if current == [] then [] else [current])
    else if IsSpace(s[0]) then (if current == [] then [] else [current]) + TokensFrom(s[1..], "")
    else TokensFrom(s[1..], current + [s[0]])
  }

  /** The concatenation of a sequence of sequences (of strings, say). */
  function Concat<T>(parts: seq<seq<T>>): seq<T>
  {
    if parts == [] then [] else parts[0] + Concat(parts[1..])
  }

  lemma {:induction false} ConcatAppend<T>(a: seq<seq<T>>, b: seq<seq<T>>)
    ensures Concat(a + b) == Concat(a) + Concat(b)
    decreases |a|
  {
    if a == [] {
      assert a + b == b;
    } else {
      assert (a + b)[0] == a[0] && (a + b)[1..] == a[1..] + b;
      ConcatAppend(a[1..], b);
      assert a[0] + (Concat(a[1..]) + Concat(b)) == (a[0] + Concat(a[1..])) + Concat(b);
    }
  }

  /** `f` applied to each element, the results concatenated in order. */
  function ConcatMap<A, B>(f: A -> seq<B>, xs: seq<A>): seq<B>
  {
    if xs == [] then [] else ConcatMap(f, xs[..|xs| - 1]) + f(xs[|xs| - 1])
  }

  lemma {:induction false} ConcatMapAppend<A, B>(f: A -> seq<B>, a: seq<A>, b: seq<A>)
    ensures ConcatMap(f, a + b) == ConcatMap(f, a) + ConcatMap(f, b)
    decreases |b|
  {
    if b == [] {
      assert a + b == a;
    } else {
      var ab, init := a + b, b[..|b| - 1];
      assert ab[..|ab| - 1] == a + init && ab[|ab| - 1] == b[|b| - 1];
      ConcatMapAppend(f, a, init);
    }
  }

  /** The characters of `s` that are not whitespace, in order. */
  function NonSpace(s: string): string
  {
    if s == [] then "" else (if IsSpace(s[0]) then "" else [s[0]]) + NonSpace(s[1..])
  }

  predicate NoSpace(t: string)
  {
    forall k :: 0 <= k < |t| ==> !IsSpace(t[k])
  }

  lemma {:induction false} TokensFromShape(s: string, current: string)
    requires NoSpace(current)
    ensures forall t :: t in TokensFrom(s, current) ==> t != [] && NoSpace(t)
    ensures Concat(TokensFrom(s, current)) == current + NonSpace(s)
    decreases |s|
  {
    var prefix: seq<string> := if current == [] then [] else [current];
    assert Concat(prefix) == current by {
      if current != [] { assert Concat(prefix) == current + Concat([]); }
    }
    if s == [] {
    } else if IsSpace(s[0]) {
      TokensFromShape(s[1..], "");
      ConcatAppend(prefix, TokensFrom(s[1..], ""));
    } else {
      TokensFromShape(s[1..], current + [s[0]]);
      assert current + [s[0]] + NonSpace(s[1..]) == current + NonSpace(s);
    }
  }

  /** Every token is non-empty and holds no whitespace, and the tokens
      together hold exactly the non-whitespace characters of `s`, in order. */
  lemma TokensShape(s: string)
    ensures forall t :: t in Tokens(s) ==> t != [] && NoSpace(t)
    ensures Concat(Tokens(s)) == NonSpace(s)
  {
    TokensFromShape(s, "");
  }

  /** Leading whitespace is skipped. */
  lemma {:induction false} TokensFromSkipsSpace(w: string, s: string)
    requires forall k :: 0 <= k < |w| ==> IsSpace(w[k])
    ensures TokensFrom(w + s, "") == TokensFrom(s, "")
    decreases |w|
  {
    if w == [] {
      assert w + s == s;
    } else {
      assert (w + s)[0] == w[0] && (w + s)[1..] == w[1..] + s;
      TokensFromSkipsSpace(w[1..], s);
    }
  }

  /** A run without whitespace is read into the current token. */
  lemma {:induction false} TokensFromReadsWord(t: string, s: string, current: string)
    requires NoSpace(t)
    ensures TokensFrom(t + s, current) == TokensFrom(s, current + t)
    decreases |t|
  {
    if t == [] {
      assert t + s == s && current + t == current;
    } else {
      assert (t + s)[0] == t[0] && (t + s)[1..] == t[1..] + s;
      TokensFromReadsWord(t[1..], s, current + [t[0]]);
      assert current + [t[0]] + t[1..] == current + t;
    }
  }

  /** Tokens are the maximal runs of non-whitespace: after any whitespace,
      a run `t` that is ended by whitespace or by the end of the text is the
      next token, and the tokens of the rest follow it. */
  lemma TokensStep(w: string, t: string, rest: string)
    requires forall k :: 0 <= k < |w| ==> IsSpace(w[k])
    requires t != [] && NoSpace(t)
    requires rest == [] || IsSpace(rest[0])
    ensures Tokens(w + t + rest) == [t] + Tokens(rest)
  {
    assert w + t + rest == w + (t + rest);
    TokensFromSkipsSpace(w, t + rest);
    TokensFromReadsWord(t, rest, "");
    assert "" + t == t;
  }

  /** Text made only of whitespace (a blank line, say) has no tokens. */
  lemma BlankHasNoTokens(s: string)
    requires forall k :: 0 <= k < |s| ==> IsSpace(s[k])
    ensures Tokens(s) == []
  {
    BlankFromHasNoTokens(s);
  }

  lemma {:induction false} BlankFromHasNoTokens(s: string)
    requires forall k :: 0 <= k < |s| ==> IsSpace(s[k])
    ensures TokensFrom(s, "") == []
    decreases |s|
  {
    if s != [] {
      BlankFromHasNoTokens(s[1..]);
    }
  }

  // ----- counting -----

  /** How many times `c` occurs in `s`. */
  function Count(c: char, s: string): nat
  {
    if s == [] then 0 else (if s[0] == c then 1 else 0) + Count(c, s[1..])
  }

  lemma {:induction false} CountAppend(c: char, a: string, b: string)
    ensures Count(c, a + b) == Count(c, a) + Count(c, b)
    decreases |a|
  {
    if a == [] {
      assert a + b == b;
    } else {
      assert (a + b)[0] == a[0] && (a + b)[1..] == a[1..] + b;
      CountAppend(c, a[1..], b);
    }
  }

  lemma {:induction false} CountAbsent(c: char, s: string)
    requires c !in s
    ensures Count(c, s) == 0
    decreases |s|
  {
    if s != [] {
      CountAbsent(c, s[1..]);
    }
  }
}
