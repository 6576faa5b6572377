/**
 * escapeLike of src/db/database.ts against LIKE with backslash as the escape (PostgreSQL documentation,
 * section 9.7.1).
 */
module Like {

  const ESCAPE := '\\'

  predicate Special(c: char) {
    c == ESCAPE || c == '%' || c == '_'
  }

  function EscapeLike(term: string): string {
    if term == "" then ""
    else (if Special(term[0]) then [ESCAPE, term[0]] else [term[0]]) + EscapeLike(term[1..])
  }

  /** `s LIKE p ESCAPE '\'`: % is any text, _ any one character, an escaped character stands for itself. */
  predicate Matches(s: string, p: string)
    decreases |s| + |p|
  {
    if p == "" then s == ""
    else if p[0] == '%' then Matches(s, p[1..]) || (s != "" && Matches(s[1..], p))
    else if p[0] == '_' then s != "" && Matches(s[1..], p[1..])
    else if p[0] == ESCAPE then |p| > 1 && s != "" && s[0] == p[1] && Matches(s[1..], p[2..])
    else s != "" && s[0] == p[0] && Matches(s[1..], p[1..])
  }

  /** The pattern ends inside an escape, which PostgreSQL refuses to run. */
  predicate Dangling(p: string) {
    if p == "" then false
    else if p[0] == ESCAPE then |p| == 1 || Dangling(p[2..])
    else Dangling(p[1..])
  }

  predicate Splits(s: string, a: string, b: string, i: nat) {
    i <= |s| && Matches(s[..i], a) && Matches(s[i..], b)
  }

  /** A pattern is matched piece by piece: whatever follows a complete pattern matches what is left. */
  lemma {:induction false} MatchesConcat(s: string, a: string, b: string)
    requires !Dangling(a)
    ensures Matches(s, a + b) <==> exists i :: Splits(s, a, b, i)
    decreases |s| + |a|
  {
    if a == "" {
      assert a + b == b && s[0..] == s;
      assert Matches(s, b) ==> Splits(s, a, b, 0);
    } else if a[0] == '%' {
      assert (a + b)[1..] == a[1..] + b;
      MatchesConcat(s, a[1..], b);
      if s != "" {
        MatchesConcat(s[1..], a, b);
      }
      AnyTextSplits(s, a, b);
    } else if s != "" {
      var n := if a[0] == ESCAPE then 2 else 1;
      assert (a + b)[n..] == a[n..] + b;
      MatchesConcat(s[1..], a[n..], b);
      OneCharSplits(s, a, b, n);
    }
  }

  /** The pattern's first piece stands for one character, which c may be. */
  predicate FirstFits(a: string, n: nat, c: char)
    requires 0 < n <= |a|
  {
    a[0] == '_' || a[n - 1] == c
  }

  lemma OneCharShift(s: string, a: string, b: string, n: nat, i: nat)
    requires s != "" && a != "" && a[0] != '%' && !Dangling(a) && n == (if a[0] == ESCAPE then 2 else 1)
    ensures Splits(s, a, b, i + 1) <==> FirstFits(a, n, s[0]) && Splits(s[1..], a[n..], b, i)
    ensures !Splits(s, a, b, 0)
  {
    if i < |s| {
      assert s[..i + 1][1..] == s[1..][..i] && s[1..][i..] == s[i + 1..];
    }
  }

  lemma OneCharSplits(s: string, a: string, b: string, n: nat)
    requires s != "" && a != "" && a[0] != '%' && !Dangling(a) && n == (if a[0] == ESCAPE then 2 else 1)
    requires Matches(s[1..], a[n..] + b) <==> exists i :: Splits(s[1..], a[n..], b, i)
    ensures Matches(s, a + b) <==> exists i :: Splits(s, a, b, i)
  {
    assert (a + b)[n..] == a[n..] + b;
    assert Matches(s, a + b) <==> FirstFits(a, n, s[0]) && Matches(s[1..], a[n..] + b);
    if i: nat :| Splits(s, a, b, i) {
      OneCharShift(s, a, b, n, if i > 0 then i - 1 else 0);
    }
    if i: nat :| Splits(s[1..], a[n..], b, i) {
      OneCharShift(s, a, b, n, i);
    }
  }

  lemma AnyTextLonger(s: string, a: string, b: string, i: nat)
    requires s != "" && a != "" && a[0] == '%' && Splits(s[1..], a, b, i)
    ensures Splits(s, a, b, i + 1)
  {
    assert s[..i + 1][1..] == s[1..][..i] && s[1..][i..] == s[i + 1..];
  }

  lemma AnyTextShorter(s: string, a: string, b: string, i: nat)
    requires a != "" && a[0] == '%' && Splits(s, a, b, i)
    ensures Splits(s, a[1..], b, i) || (s != "" && i > 0 && Splits(s[1..], a, b, i - 1))
  {
    if !Matches(s[..i], a[1..]) {
      assert s[..i][1..] == s[1..][..i - 1] && s[1..][i - 1..] == s[i..];
    }
  }

  lemma AnyTextSplits(s: string, a: string, b: string)
    requires a != "" && a[0] == '%'
    requires Matches(s, a[1..] + b) <==> exists i :: Splits(s, a[1..], b, i)
    requires s != "" ==> (Matches(s[1..], a + b) <==> exists i :: Splits(s[1..], a, b, i))
    ensures Matches(s, a + b) <==> exists i :: Splits(s, a, b, i)
  {
    assert (a + b)[1..] == a[1..] + b;
    if i: nat :| Splits(s, a[1..], b, i) {
      assert Splits(s, a, b, i);
    }
    if s != "" {
      if i: nat :| Splits(s[1..], a, b, i) {
        AnyTextLonger(s, a, b, i);
      }
    }
    if i: nat :| Splits(s, a, b, i) {
      AnyTextShorter(s, a, b, i);
    }
  }

  /** The escaped term matches the term and nothing else. */
  lemma {:induction false} EscapedIsLiteral(s: string, t: string)
    ensures Matches(s, EscapeLike(t)) <==> s == t
  {
    if t != "" && s != "" {
      EscapedIsLiteral(s[1..], t[1..]);
      var n := if Special(t[0]) then 2 else 1;
      assert EscapeLike(t)[n..] == EscapeLike(t[1..]);
      assert s == t <==> s[0] == t[0] && s[1..] == t[1..] by {
        assert s == [s[0]] + s[1..] && t == [t[0]] + t[1..];
      }
    }
  }

  /** escapeLike never leaves a dangling escape, whatever pattern follows it. */
  lemma {:induction false} EscapedNeverDangles(t: string, b: string)
    ensures Dangling(EscapeLike(t) + b) <==> Dangling(b)
  {
    if t == "" {
      assert EscapeLike(t) + b == b;
    } else {
      EscapedNeverDangles(t[1..], b);
      var rest := EscapeLike(t[1..]) + b;
      if Special(t[0]) {
        EscapeSkipped(t[0], rest);
        assert EscapeLike(t) + b == [ESCAPE, t[0]] + rest;
      } else {
        assert EscapeLike(t) + b == [t[0]] + rest;
        assert ([t[0]] + rest)[1..] == rest;
      }
    }
  }

  lemma EscapeSkipped(c: char, rest: string)
    ensures Dangling([ESCAPE, c] + rest) <==> Dangling(rest)
  {
  }

  lemma {:induction false} AnyText(s: string)
    ensures Matches(s, "%")
  {
    if s != "" {
      AnyText(s[1..]);
    }
  }

  predicate SubstringAt(t: string, s: string, i: nat) {
    i + |t| <= |s| && s[i..i + |t|] == t
  }

  /** The search pattern of the verification list. */
  function Search(t: string): string {
    "%" + (EscapeLike(t) + "%")
  }

  /** A search finds exactly the texts that contain the term, wildcards and all, and is always a complete pattern. */
  lemma SearchIsLiteral(s: string, t: string)
    ensures Matches(s, Search(t)) <==> exists i :: SubstringAt(t, s, i)
    ensures !Dangling(Search(t))
  {
    var e := EscapeLike(t);
    EscapedNeverDangles(t, "");
    EscapedNeverDangles(t, "%");
    assert e + "" == e;
    assert Search(t)[1..] == e + "%";
    MatchesConcat(s, "%", e + "%");
    if i: nat :| Splits(s, "%", e + "%", i) {
      MatchesConcat(s[i..], e, "%");
      var j: nat :| Splits(s[i..], e, "%", j);
      EscapedIsLiteral(s[i..][..j], t);
      assert s[i..][..j] == s[i..i + |t|];
      assert SubstringAt(t, s, i);
    }
    if i: nat :| SubstringAt(t, s, i) {
      EscapedIsLiteral(t, t);
      AnyText(s[i..][|t|..]);
      assert s[i..][..|t|] == t;
      assert Splits(s[i..], e, "%", |t|);
      MatchesConcat(s[i..], e, "%");
      AnyText(s[..i]);
      assert Splits(s, "%", e + "%", i);
    }
  }

  /** An unescaped _ is any one character, and an unescaped % any text. */
  lemma Wildcards(s: string)
    ensures Matches(s, "_") <==> |s| == 1
    ensures Matches(s, "%")
  {
    AnyText(s);
  }

  /** Why the escape is needed: an unescaped % would match everything. */
  lemma UnescapedPercentMatchesAll(s: string)
    ensures Matches(s, "%" + "%" + "%")
  {
    var p := "%" + "%" + "%";
    assert p[1..] == "%" + "%" && (p[1..])[1..] == "%";
    AnyText(s);
  }
}
