/** The image filter of ListInstances: escaping user text into a LIKE pattern,
    and what SQLite's LIKE ... ESCAPE '\' then matches. */
module LikeFilter {

  function FoldChar(c: char): char {
    if 'A' <= c <= 'Z' then (c as int + 32) as char else c
  }

  /** LIKE compares ASCII letters without regard to case. */
  predicate SameChar(a: char, b: char) { FoldChar(a) == FoldChar(b) }

  predicate FoldPrefix(p: string, t: string) {
    |p| <= |t| && forall i :: 0 <= i < |p| ==> SameChar(p[i], t[i])
  }

  /** t contains f as a substring, up to ASCII case. */
  predicate ContainsFold(t: string, f: string) {
    exists i :: 0 <= i <= |t| && FoldPrefix(f, t[i..])
  }

  // ---- escaping ----

  /** strings.ReplaceAll of a single character. */
  function ReplaceChar(s: string, c: char, with: string): string {
    if s == "" then "" else (if s[0] == c then with else [s[0]]) + ReplaceChar(s[1..], c, with)
  }

  /** The three ReplaceAll calls, in the order they are made. */
  function Escaped(f: string): string {
    ReplaceChar(ReplaceChar(ReplaceChar(f, '\\', "\\\\"), '%', "\\%"), '_', "\\_")
  }

  /** One escape per character. */
  function EscapeChar(c: char): string {
    if c == '\\' || c == '%' || c == '_' then ['\\', c] else [c]
  }

  function EscapeEach(f: string): string {
    if f == "" then "" else EscapeChar(f[0]) + EscapeEach(f[1..])
  }

  lemma {:induction false} ReplaceConcat(a: string, b: string, c: char, with: string)
    ensures ReplaceChar(a + b, c, with) == ReplaceChar(a, c, with) + ReplaceChar(b, c, with)
  {
    if a == "" {
      assert a + b == b;
    } else {
      assert (a + b)[1..] == a[1..] + b;
      ReplaceConcat(a[1..], b, c, with);
    }
  }

  lemma ReplaceOne(x: char, c: char, with: string)
    ensures ReplaceChar([x], c, with) == if x == c then with else [x]
  {
    assert [x][1..] == "";
  }

  lemma ReplaceTwo(x: char, y: char, c: char, with: string)
    ensures ReplaceChar([x, y], c, with) == (if x == c then with else [x]) + (if y == c then with else [y])
  {
    assert [x, y] == [x] + [y];
    ReplaceConcat([x], [y], c, with);
    ReplaceOne(x, c, with);
    ReplaceOne(y, c, with);
  }

  lemma EscapedOne(x: char)
    ensures Escaped([x]) == EscapeChar(x)
  {
    ReplaceOne(x, '\\', "\\\\");
    if x == '\\' {
      assert ReplaceChar([x], '\\', "\\\\") == ['\\', '\\'];
      ReplaceTwo('\\', '\\', '%', "\\%");
      assert ReplaceChar(['\\', '\\'], '%', "\\%") == ['\\', '\\'];
      ReplaceTwo('\\', '\\', '_', "\\_");
    } else {
      ReplaceOne(x, '%', "\\%");
      if x == '%' {
        ReplaceTwo('\\', '%', '_', "\\_");
      } else {
        ReplaceOne(x, '_', "\\_");
      }
    }
  }

  /** The successive replacements never touch what an earlier one inserted. */
  lemma {:induction false} EscapedIsEscapeEach(f: string)
    ensures Escaped(f) == EscapeEach(f)
  {
    if f != "" {
      assert f == [f[0]] + f[1..];
      ReplaceConcat([f[0]], f[1..], '\\', "\\\\");
      ReplaceConcat(ReplaceChar([f[0]], '\\', "\\\\"), ReplaceChar(f[1..], '\\', "\\\\"), '%', "\\%");
      ReplaceConcat(ReplaceChar(ReplaceChar([f[0]], '\\', "\\\\"), '%', "\\%"),
                    ReplaceChar(ReplaceChar(f[1..], '\\', "\\\\"), '%', "\\%"), '_', "\\_");
      EscapedOne(f[0]);
      EscapedIsEscapeEach(f[1..]);
    }
  }

  // ---- matching ----

  /** LIKE with ESCAPE '\': % is any run, _ any one character, and the escape
      makes the next character literal; one at the very end matches nothing. */
  predicate Like(p: string, t: string)
    decreases |p| + |t|
  {
    if p == "" then t == ""
    else if p[0] == '%' then Like(p[1..], t) || (t != "" && Like(p, t[1..]))
    else if p[0] == '\\' then |p| > 1 && t != "" && SameChar(p[1], t[0]) && Like(p[2..], t[1..])
    else if p[0] == '_' then t != "" && Like(p[1..], t[1..])
    else t != "" && SameChar(p[0], t[0]) && Like(p[1..], t[1..])
  }

  lemma {:induction false} PercentMatchesAll(t: string)
    ensures Like("%", t)
  {
    if t == "" {
      assert "%"[1..] == "";
      assert Like("", t);
    } else {
      PercentMatchesAll(t[1..]);
    }
  }

  /** Escaped text followed by % matches exactly the texts that begin with it. */
  lemma {:induction false} EscapedMatchesPrefix(f: string, t: string)
    ensures Like(EscapeEach(f) + "%", t) <==> FoldPrefix(f, t)
  {
    var p := EscapeEach(f) + "%";
    if f == "" {
      assert p == "%";
      PercentMatchesAll(t);
    } else {
      var rest := EscapeEach(f[1..]) + "%";
      assert p == EscapeChar(f[0]) + rest;
      assert p[|EscapeChar(f[0])|..] == rest;
      if t != "" {
        EscapedMatchesPrefix(f[1..], t[1..]);
        assert FoldPrefix(f, t) <==> SameChar(f[0], t[0]) && FoldPrefix(f[1..], t[1..]) by {
          if SameChar(f[0], t[0]) && FoldPrefix(f[1..], t[1..]) {
            forall i | 0 <= i < |f| ensures SameChar(f[i], t[i]) {
              if i > 0 { assert SameChar(f[1..][i - 1], t[1..][i - 1]); }
            }
          }
          if FoldPrefix(f, t) {
            forall i | 0 <= i < |f[1..]| ensures SameChar(f[1..][i], t[1..][i]) {
              assert SameChar(f[i + 1], t[i + 1]);
            }
          }
        }
      }
    }
  }

  lemma {:induction false} LeadingPercent(p: string, t: string)
    ensures Like("%" + p, t) <==> exists i :: 0 <= i <= |t| && Like(p, t[i..])
    decreases |t|
  {
    var q := "%" + p;
    assert q[1..] == p;
    assert t[0..] == t;
    if t != "" {
      LeadingPercent(p, t[1..]);
      forall i | 1 <= i <= |t| ensures t[i..] == t[1..][i - 1..] {
      }
      if exists i :: 0 <= i <= |t[1..]| && Like(p, t[1..][i..]) {
        var i :| 0 <= i <= |t[1..]| && Like(p, t[1..][i..]);
        assert t[i + 1..] == t[1..][i..];
      }
    }
  }

  /** The pattern ListInstances builds matches an image exactly when the image
      contains the filter text, whatever characters that text holds. */
  lemma ImageFilterIsSubstring(f: string, t: string)
    ensures Like("%" + Escaped(f) + "%", t) <==> ContainsFold(t, f)
  {
    EscapedIsEscapeEach(f);
    assert "%" + Escaped(f) + "%" == "%" + (EscapeEach(f) + "%");
    LeadingPercent(EscapeEach(f) + "%", t);
    forall i | 0 <= i <= |t| ensures Like(EscapeEach(f) + "%", t[i..]) <==> FoldPrefix(f, t[i..]) {
      EscapedMatchesPrefix(f, t[i..]);
    }
  }

  /** Without the escaping a wildcard in the text matches more than itself. */
  lemma UnescapedMatchesTooMuch()
    ensures Like("%" + "a_c" + "%", "abc") && !ContainsFold("abc", "a_c")
  {
    var p := "%" + "a_c" + "%";
    assert p[1..] == "a_c%";
    assert "a_c%"[1..] == "_c%" && "_c%"[1..] == "c%" && "c%"[1..] == "%";
    assert "abc"[1..] == "bc" && "bc"[1..] == "c" && "c"[1..] == "";
    PercentMatchesAll("");
    assert Like("c%", "c");
    assert Like("_c%", "bc");
    assert Like("a_c%", "abc");
    forall i | 0 <= i <= 3 ensures !FoldPrefix("a_c", "abc"[i..]) {
      if i == 0 { assert !SameChar("a_c"[1], "abc"[0..][1]); }
    }
  }
}
