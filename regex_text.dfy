// The string rewriting the acquisition format widgets do on regular
// expressions: QString::replace, QRegExp::escape, and the rewrite that turns
// a Qt pattern into a Python one by making every ".*" lazy.

module RegexText {
  import Text

  /**
   * QString::replace(pattern, replacement): occurrences are found left to
   * right, do not overlap, and the inserted text is not searched again.
   */
  function ReplaceAll(s: string, pattern: string, replacement: string): string
    requires |pattern| > 0
    decreases |s|
  {
    if |s| < |pattern| then s
    else if s[..|pattern|] == pattern then replacement + ReplaceAll(s[|pattern|..], pattern, replacement)
    else [s[0]] + ReplaceAll(s[1..], pattern, replacement)
  }

  lemma ReplaceMatchHead(t: string, pattern: string, replacement: string)
    requires |pattern| > 0
    ensures ReplaceAll(pattern + t, pattern, replacement) == replacement + ReplaceAll(t, pattern, replacement)
  {
    assert (pattern + t)[..|pattern|] == pattern;
    assert (pattern + t)[|pattern|..] == t;
  }

  lemma ReplaceNoMatchHead(s: string, pattern: string, replacement: string)
    requires |pattern| > 0 && |s| > 0
    requires !Text.StartsWith(s, pattern)
    ensures ReplaceAll(s, pattern, replacement) == [s[0]] + ReplaceAll(s[1..], pattern, replacement)
  {
    if |s| < |pattern| {
      assert s == [s[0]] + s[1..];
    }
  }

  /** When the replacement starts like the pattern, the first character survives. */
  lemma ReplaceKeepsHead(s: string, pattern: string, replacement: string)
    requires |pattern| > 0 && |replacement| > 0 && replacement[0] == pattern[0] && |s| > 0
    ensures |ReplaceAll(s, pattern, replacement)| > 0
    ensures ReplaceAll(s, pattern, replacement)[0] == s[0]
  {
    if !Text.StartsWith(s, pattern) {
      ReplaceNoMatchHead(s, pattern, replacement);
    }
  }

  // ---- "*" wildcards as the basic format widget expands them ----

  /** Every "*" of a user field written as `wildcard` (".*" for Qt, ".*?" for Python). */
  function Expand(field: string, wildcard: string): string
  {
    ReplaceAll(field, "*", wildcard)
  }

  lemma ExpandHead(field: string, wildcard: string)
    requires |field| > 0
    ensures field[0] == '*' ==> Expand(field, wildcard) == wildcard + Expand(field[1..], wildcard)
    ensures field[0] != '*' ==> Expand(field, wildcard) == [field[0]] + Expand(field[1..], wildcard)
  {
    if field[0] == '*' {
      assert field == "*" + field[1..];
      ReplaceMatchHead(field[1..], "*", wildcard);
    } else {
      ReplaceNoMatchHead(field, "*", wildcard);
    }
  }

  /** An expanded field starts with '.' or with the field's own first character, never with '*'. */
  lemma ExpandFirst(field: string, wildcard: string)
    requires |field| > 0 && |wildcard| > 0 && wildcard[0] == '.'
    ensures |Expand(field, wildcard)| > 0
    ensures Expand(field, wildcard)[0] == (if field[0] == '*' then '.' else field[0])
  {
    ExpandHead(field, wildcard);
  }

  /** Expansion loses nothing: writing each wildcard back as "*" restores the field. */
  lemma {:induction false} ExpandCollapse(field: string, wildcard: string)
    requires wildcard == ".*" || wildcard == ".*?"
    ensures ReplaceAll(Expand(field, wildcard), wildcard, "*") == field
    decreases |field|
  {
    if |field| > 0 {
      ExpandHead(field, wildcard);
      ExpandCollapse(field[1..], wildcard);
      var e := Expand(field[1..], wildcard);
      if field[0] == '*' {
        ReplaceMatchHead(e, wildcard, "*");
      } else {
        if |e| > 0 {
          ExpandFirst(field[1..], wildcard);
        }
        assert !Text.StartsWith([field[0]] + e, wildcard) by {
          if |e| > 0 {
            assert ([field[0]] + e)[1] == e[0] != '*';
          }
        }
        ReplaceNoMatchHead([field[0]] + e, wildcard, "*");
        assert ([field[0]] + e)[1..] == e;
        assert [field[0]] + field[1..] == field;
      }
    }
  }

  // ---- making ".*" lazy ----

  /** Every ".*" written ".*?". */
  function Lazy(s: string): string
  {
    ReplaceAll(s, ".*", ".*?")
  }

  /** Every ".*?" written ".*". */
  function Greedy(s: string): string
  {
    ReplaceAll(s, ".*?", ".*")
  }

  /** AdvancedFormatWidget::getPythonRegex: lazy ".*?" first made greedy, then every ".*" made lazy. */
  function PythonRegex(regex: string): string
  {
    Lazy(Greedy(regex))
  }

  /** Reference definition: each ".*", with or without a following "?", becomes ".*?". */
  function Lazified(s: string): (r: string)
    decreases |s|
  {
    if |s| >= 2 && s[0] == '.' && s[1] == '*' then
      ".*?" + Lazified(s[if |s| >= 3 && s[2] == '?' then 3 else 2..])
    else if |s| == 0 then ""
    else [s[0]] + Lazified(s[1..])
  }

  lemma {:induction false} LazifiedFirst(s: string)
    requires |s| > 0
    ensures |Lazified(s)| > 0 && Lazified(s)[0] == s[0]
  {
  }

  /** Lazy is Lazified on a string that has no ".*?" yet. */
  lemma LazyHead(s: string)
    requires |s| > 0 && !(|s| >= 2 && s[0] == '.' && s[1] == '*')
    ensures Lazy(s) == [s[0]] + Lazy(s[1..])
  {
    ReplaceNoMatchHead(s, ".*", ".*?");
  }

  /** The two replacements in getPythonRegex amount to the reference definition. */
  lemma {:induction false} PythonRegexIsLazified(s: string)
    ensures PythonRegex(s) == Lazified(s)
    decreases |s|
  {
    if |s| >= 2 && s[0] == '.' && s[1] == '*' {
      if |s| >= 3 && s[2] == '?' {
        var t := s[3..];
        assert s == ".*?" + t;
        ReplaceMatchHead(t, ".*?", ".*");
        ReplaceMatchHead(Greedy(t), ".*", ".*?");
        PythonRegexIsLazified(t);
      } else {
        var t := s[2..];
        assert s == ".*" + t;
        assert Greedy(s) == ".*" + Greedy(t) by {
          assert !Text.StartsWith(s, ".*?");
          ReplaceNoMatchHead(s, ".*?", ".*");
          assert !Text.StartsWith(s[1..], ".*?");
          ReplaceNoMatchHead(s[1..], ".*?", ".*");
          assert s[1..][1..] == t;
        }
        ReplaceMatchHead(Greedy(t), ".*", ".*?");
        PythonRegexIsLazified(t);
      }
    } else if |s| > 0 {
      var t := s[1..];
      ReplaceNoMatchHead(s, ".*?", ".*");
      var g := Greedy(t);
      if |t| > 0 {
        ReplaceKeepsHead(t, ".*?", ".*");
      }
      LazyHead([s[0]] + g);
      assert ([s[0]] + g)[1..] == g;
      PythonRegexIsLazified(t);
    }
  }

  /** Every ".*" of the result is followed by "?". */
  predicate AllLazy(t: string)
  {
    forall i :: 0 <= i && i + 1 < |t| && t[i] == '.' && t[i + 1] == '*' ==> i + 2 < |t| && t[i + 2] == '?'
  }

  /** No "??" anywhere. */
  predicate NoDoubleMark(t: string)
  {
    forall i :: 0 <= i && i + 1 < |t| ==> !(t[i] == '?' && t[i + 1] == '?')
  }

  lemma {:induction false} LazifiedAllLazy(s: string)
    ensures AllLazy(Lazified(s))
    decreases |s|
  {
    if |s| >= 2 && s[0] == '.' && s[1] == '*' {
      var t := s[if |s| >= 3 && s[2] == '?' then 3 else 2..];
      LazifiedAllLazy(t);
      assert Lazified(s) == ".*?" + Lazified(t);
      AllLazyAfterMarker(Lazified(t));
    } else if |s| > 0 {
      var t := s[1..];
      LazifiedAllLazy(t);
      assert Lazified(s) == [s[0]] + Lazified(t);
      if s[0] == '.' && |t| > 0 {
        LazifiedFirst(t);
      }
      AllLazyCons(s[0], Lazified(t));
    }
  }

  lemma AllLazyAfterMarker(r: string)
    requires AllLazy(r)
    ensures AllLazy(".*?" + r)
  {
    var t := ".*?" + r;
    forall i | 3 <= i && i + 1 < |t| && t[i] == '.' && t[i + 1] == '*'
      ensures i + 2 < |t| && t[i + 2] == '?'
    {
      assert r[i - 3] == '.' && r[i - 2] == '*';
    }
  }

  lemma AllLazyCons(c: char, r: string)
    requires AllLazy(r) && (c == '.' && |r| > 0 ==> r[0] != '*')
    ensures AllLazy([c] + r)
  {
    var t := [c] + r;
    forall i | 1 <= i && i + 1 < |t| && t[i] == '.' && t[i + 1] == '*'
      ensures i + 2 < |t| && t[i + 2] == '?'
    {
      assert r[i - 1] == '.' && r[i] == '*';
    }
  }

  lemma {:induction false} LazifiedNoDoubleMark(s: string)
    requires NoDoubleMark(s)
    ensures NoDoubleMark(Lazified(s))
    decreases |s|
  {
    if |s| >= 2 && s[0] == '.' && s[1] == '*' {
      var t := s[if |s| >= 3 && s[2] == '?' then 3 else 2..];
      assert NoDoubleMark(t) by {
        forall i | 0 <= i && i + 1 < |t|
          ensures !(t[i] == '?' && t[i + 1] == '?')
        {
          assert t[i] == s[i + |s| - |t|] && t[i + 1] == s[i + 1 + |s| - |t|];
        }
      }
      LazifiedNoDoubleMark(t);
      var r := Lazified(t);
      assert Lazified(s) == ".*?" + r;
      if |t| > 0 {
        LazifiedFirst(t);
        assert r[0] == t[0] == s[|s| - |t|];
      }
      forall i | 0 <= i && i + 1 < |Lazified(s)|
        ensures !(Lazified(s)[i] == '?' && Lazified(s)[i + 1] == '?')
      {
        if i >= 3 {
          assert Lazified(s)[i] == r[i - 3] && Lazified(s)[i + 1] == r[i - 2];
        }
      }
    } else if |s| > 0 {
      var t := s[1..];
      assert NoDoubleMark(t) by {
        forall i | 0 <= i && i + 1 < |t|
          ensures !(t[i] == '?' && t[i + 1] == '?')
        {
          assert t[i] == s[i + 1] && t[i + 1] == s[i + 2];
        }
      }
      LazifiedNoDoubleMark(t);
      var r := Lazified(t);
      assert Lazified(s) == [s[0]] + r;
      if |t| > 0 {
        LazifiedFirst(t);
      }
      forall i | 0 <= i && i + 1 < |Lazified(s)|
        ensures !(Lazified(s)[i] == '?' && Lazified(s)[i + 1] == '?')
      {
        if i >= 1 {
          assert Lazified(s)[i] == r[i - 1] && Lazified(s)[i + 1] == r[i];
        }
      }
    }
  }

  lemma {:induction false} LazifiedIdempotent(s: string)
    ensures Lazified(Lazified(s)) == Lazified(s)
    decreases |s|
  {
    if |s| >= 2 && s[0] == '.' && s[1] == '*' {
      var t := s[if |s| >= 3 && s[2] == '?' then 3 else 2..];
      LazifiedIdempotent(t);
      var r := Lazified(t);
      assert (".*?" + r)[3..] == r;
    } else if |s| > 0 {
      var t := s[1..];
      LazifiedIdempotent(t);
      var r := Lazified(t);
      if |t| > 0 {
        LazifiedFirst(t);
      }
      assert ([s[0]] + r)[1..] == r;
    }
  }

  /** getPythonRegex leaves every ".*" lazy, is idempotent, and adds no "??" to a pattern without one. */
  lemma PythonRegexSpec(regex: string)
    ensures AllLazy(PythonRegex(regex))
    ensures PythonRegex(PythonRegex(regex)) == PythonRegex(regex)
    ensures NoDoubleMark(regex) ==> NoDoubleMark(PythonRegex(regex))
  {
    PythonRegexIsLazified(regex);
    PythonRegexIsLazified(PythonRegex(regex));
    LazifiedAllLazy(regex);
    LazifiedIdempotent(regex);
    if NoDoubleMark(regex) {
      LazifiedNoDoubleMark(regex);
    }
  }

  /** An already doubled mark is kept: the rewrite does not repair ".*??". */
  lemma PythonRegexKeepsDoubleMark()
    ensures PythonRegex(".*??") == ".*??"
  {
    PythonRegexIsLazified(".*??");
    assert ".*??"[3..] == "?";
  }

  /** Text without a '*' has no ".*" to make lazy. */
  lemma {:induction false} LazyWithoutStar(s: string)
    requires Text.NotIn('*', s)
    ensures Lazy(s) == s
    decreases |s|
  {
    if |s| > 0 {
      LazyHead(s);
      LazyWithoutStar(s[1..]);
      assert [s[0]] + s[1..] == s;
    }
  }

  // ---- QRegExp::escape ----

  /** The characters QRegExp::escape puts a backslash in front of. */
  predicate IsSpecial(c: char)
  {
    c in "$()*+.?[\\]^{|}"
  }

  function Escape(s: string): (r: string)
    ensures |r| >= |s|
    decreases |s|
  {
    if |s| == 0 then ""
    else (if IsSpecial(s[0]) then ['\\', s[0]] else [s[0]]) + Escape(s[1..])
  }

  /** Reads an escaped string back: a backslash stands for the character after it. */
  function Unescape(s: string): string
    decreases |s|
  {
    if |s| >= 2 && s[0] == '\\' then [s[1]] + Unescape(s[2..])
    else if |s| == 0 then ""
    else [s[0]] + Unescape(s[1..])
  }

  lemma {:induction false} EscapeRoundTrip(s: string)
    ensures Unescape(Escape(s)) == s
    decreases |s|
  {
    if |s| > 0 {
      EscapeRoundTrip(s[1..]);
      var e := Escape(s[1..]);
      if IsSpecial(s[0]) {
        assert (['\\', s[0]] + e)[2..] == e;
      } else {
        assert s[0] != '\\';
        assert ([s[0]] + e)[1..] == e;
      }
      assert [s[0]] + s[1..] == s;
    }
  }

  /** An escaped string never starts with '*' and holds no ".*". */
  lemma {:induction false} EscapeHasNoWildcard(s: string)
    ensures |Escape(s)| > 0 ==> Escape(s)[0] != '*'
    ensures Lazy(Escape(s)) == Escape(s)
    decreases |s|
  {
    if |s| > 0 {
      EscapeHasNoWildcard(s[1..]);
      var e := Escape(s[1..]);
      if IsSpecial(s[0]) {
        var h: string := ['\\', s[0]];
        assert Escape(s) == h + e;
        LazyHead(h + e);
        assert (h + e)[1..] == [s[0]] + e;
        if s[0] == '.' && |e| > 0 {
          assert e[0] != '*';
        }
        LazyHead([s[0]] + e);
        assert ([s[0]] + e)[1..] == e;
      } else {
        assert Escape(s) == [s[0]] + e;
        LazyHead([s[0]] + e);
        assert ([s[0]] + e)[1..] == e;
      }
    }
  }

  // ---- lazy rewriting of a concatenation ----

  /** a + b has no ".*" straddling the seam. */
  predicate Seamless(a: string, b: string)
  {
    !(|a| > 0 && |b| > 0 && a[|a| - 1] == '.' && b[0] == '*')
  }

  lemma {:induction false} LazyConcat(a: string, b: string)
    requires Seamless(a, b)
    ensures Lazy(a + b) == Lazy(a) + Lazy(b)
    decreases |a|
  {
    if |a| == 0 {
      assert a + b == b;
    } else if |a| >= 2 && a[0] == '.' && a[1] == '*' {
      LazyConcatMatch(a, b);
    } else {
      LazyConcatPlain(a, b);
    }
  }

  lemma {:induction false} LazyConcatMatch(a: string, b: string)
    requires Seamless(a, b) && |a| >= 2 && a[0] == '.' && a[1] == '*'
    ensures Lazy(a + b) == Lazy(a) + Lazy(b)
    decreases |a|, 0
  {
    var t := a[2..];
    assert a == ".*" + t;
    assert a + b == ".*" + (t + b);
    ReplaceMatchHead(t, ".*", ".*?");
    ReplaceMatchHead(t + b, ".*", ".*?");
    assert Seamless(t, b);
    LazyConcat(t, b);
  }

  lemma {:induction false} LazyConcatPlain(a: string, b: string)
    requires Seamless(a, b) && |a| > 0 && !(|a| >= 2 && a[0] == '.' && a[1] == '*')
    ensures Lazy(a + b) == Lazy(a) + Lazy(b)
    decreases |a|, 0
  {
    var t := a[1..];
    var ab := a + b;
    assert ab[0] == a[0];
    assert |ab| >= 2 ==> ab[1] != '*' || a[0] != '.' by {
      if |a| >= 2 {
        assert ab[1] == a[1];
      } else if |b| > 0 {
        assert ab[1] == b[0];
      }
    }
    LazyHead(ab);
    LazyHead(a);
    assert ab[1..] == t + b;
    assert Seamless(t, b);
    LazyConcat(t, b);
  }

  /** Qt's expansion of a field, made lazy, is Python's expansion of it. */
  lemma {:induction false} LazyExpand(field: string)
    ensures Lazy(Expand(field, ".*")) == Expand(field, ".*?")
    decreases |field|
  {
    if |field| > 0 {
      ExpandHead(field, ".*");
      ExpandHead(field, ".*?");
      LazyExpand(field[1..]);
      var e := Expand(field[1..], ".*");
      if field[0] == '*' {
        ReplaceMatchHead(e, ".*", ".*?");
      } else {
        if |e| > 0 {
          ExpandFirst(field[1..], ".*");
        }
        LazyHead([field[0]] + e);
        assert ([field[0]] + e)[1..] == e;
      }
    }
  }

  /** An expanded field never starts with '*'. */
  lemma ExpandStart(field: string, wildcard: string)
    requires |wildcard| > 0 && wildcard[0] == '.'
    ensures |Expand(field, wildcard)| > 0 ==> Expand(field, wildcard)[0] != '*'
  {
    if |field| > 0 {
      ExpandFirst(field, wildcard);
    } else {
      assert Expand(field, wildcard) == "";
    }
  }
}
