/**
 * The two PostgreSQL string operations the patient search relies on: pattern matching with
 * `ILIKE` (section 9.7.1 of the PostgreSQL manual: `%` matches any run of characters, `_` any
 * one character, a backslash makes the next character literal; `ILIKE` compares lower-cased
 * text) and the ordering of `ORDER BY name ASC`, taken here as code-point lexicographic order.
 */
module SqlMatch {
  import opened Text

  /** `s LIKE p`. A backslash at the very end of a pattern is read as a literal backslash. */
  predicate Like(s: string, p: string)
    decreases |s| + |p|
    ensures Literal(p) ==> (Like(s, p) <==> s == p)
  {
    assert Literal(p) && p != [] ==> !IsPatternChar(p[0]) && Literal(p[1..]);
    assert s != [] && p != [] ==> (s == p <==> s[0] == p[0] && s[1..] == p[1..]);
    if p == [] then s == []
    else if p[0] == '%' then Like(s, p[1..]) || (s != [] && Like(s[1..], p))
    else if p[0] == '_' then s != [] && Like(s[1..], p[1..])
    else if p[0] == '\\' && |p| >= 2 then s != [] && s[0] == p[1] && Like(s[1..], p[2..])
    else s != [] && s[0] == p[0] && Like(s[1..], p[1..])
  }

  /** `s ILIKE p`, with ASCII lower-casing standing for the database's case folding. */
  predicate ILike(s: string, p: string)
    ensures Literal(Lower(p)) ==> (ILike(s, p) <==> Lower(s) == Lower(p))
  {
    Like(Lower(s), Lower(p))
  }

  /** A pattern character with a meaning of its own. */
  predicate IsPatternChar(c: char) {
    c == '%' || c == '_' || c == '\\'
  }

  /** A term in which no character is special, so that it matches only itself. */
  predicate Literal(t: string) {
    forall i :: 0 <= i < |t| ==> !IsPatternChar(t[i])
  }

  /** Lower-casing a literal term keeps it literal. */
  lemma LowerLiteral(t: string)
    requires Literal(t)
    ensures Literal(Lower(t))
  {
  }

  /** `s LIKE t || '%'` for a literal `t` holds exactly when `t` is a prefix of `s`. */
  lemma {:induction false} LikePrefix(s: string, t: string)
    requires Literal(t)
    ensures Like(s, t + "%") <==> t <= s
    decreases |t|
  {
    if t == [] {
      assert t + "%" == "%";
      LikeAnything(s);
    } else {
      assert (t + "%")[0] == t[0] && (t + "%")[1..] == t[1..] + "%";
      assert !IsPatternChar(t[0]);
      if s != [] {
        LikePrefix(s[1..], t[1..]);
      }
    }
  }

  /** `%` alone matches every string. */
  lemma {:induction false} LikeAnything(s: string)
    ensures Like(s, "%")
    decreases |s|
  {
    if s != [] {
      LikeAnything(s[1..]);
    }
  }

  /** `s LIKE '%' || t || '%'` for a literal `t` holds exactly when `t` occurs in `s`. */
  lemma {:induction false} LikeContains(s: string, t: string)
    requires Literal(t)
    ensures Like(s, "%" + t + "%") <==> Contains(s, t)
    decreases |s|
  {
    var p := "%" + t + "%";
    assert p[0] == '%' && p[1..] == t + "%";
    LikePrefix(s, t);
    if s != [] {
      LikeContains(s[1..], t);
    }
  }

  /** Lower-casing the search pattern lower-cases the term and keeps the two `%`. */
  lemma LowerPattern(term: string)
    ensures Lower("%" + term + "%") == "%" + Lower(term) + "%"
  {
    LowerConcat("%" + term, "%");
    LowerConcat("%", term);
    assert Lower("%") == "%";
  }

  /** The search pattern of a literal term matches exactly the names that contain the term, ignoring case. */
  lemma SearchPatternOfLiteral(name: string, term: string)
    requires Literal(term)
    ensures ILike(name, "%" + term + "%") <==> Contains(Lower(name), Lower(term))
  {
    LowerPattern(term);
    LowerLiteral(term);
    LikeContains(Lower(name), Lower(term));
  }

  /** Wildcards in a term are not escaped: `_` stands for any character and `%` for any run. */
  lemma WildcardTerms(name: string)
    ensures ILike("Abc", "%" + "a_c" + "%")
    ensures !Contains(Lower("Abc"), Lower("a_c"))
    ensures ILike(name, "%" + "%" + "%")
  {
    assert Lower("Abc") == "abc";
    assert Lower("a_c") == "a_c";
    LowerPattern("a_c");
    assert "%" + "a_c" + "%" == "%a_c%";
    assert Like("", "");
    assert Like("", "%");
    assert Like("c", "c%");
    assert Like("bc", "_c%");
    assert Like("abc", "a_c%");
    assert Like("abc", "%a_c%");
    assert !("a_c" <= "abc") && !("a_c" <= "bc") && !("a_c" <= "c") && !("a_c" <= "");
    LowerPattern("%");
    assert Lower("%") == "%";
    assert "%" + "%" + "%" == "%%%";
    LikeAnything(Lower(name));
    assert Like(Lower(name), "%%");
  }

  // ------------------------------------------------------------------- ordering

  /** Lexicographic order by code point: a proper prefix sorts first. */
  predicate LexLeq(a: string, b: string)
    decreases |a|
  {
    a == [] || (b != [] && (a[0] < b[0] || (a[0] == b[0] && LexLeq(a[1..], b[1..]))))
  }

  lemma {:induction false} LexLeqTotal(a: string, b: string)
    ensures LexLeq(a, b) || LexLeq(b, a)
    decreases |a|
  {
    if a != [] && b != [] && a[0] == b[0] {
      LexLeqTotal(a[1..], b[1..]);
    }
  }

  lemma {:induction false} LexLeqAntisymmetric(a: string, b: string)
    requires LexLeq(a, b) && LexLeq(b, a)
    ensures a == b
    decreases |a|
  {
    if a != [] {
      LexLeqAntisymmetric(a[1..], b[1..]);
      assert a == [a[0]] + a[1..] && b == [b[0]] + b[1..];
    }
  }
}
