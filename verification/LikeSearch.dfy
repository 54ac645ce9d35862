/** The text search of the job list: escaping a query for LIKE, and what the escaped pattern matches. */
module LikeSearch {
  import opened Wrappers

  // LIKE ignores case for ASCII letters only.
  function Fold(c: char): char {
    if 'A' <= c <= 'Z' then (c as int + 32) as char else c
  }

  /** Two characters are the same to LIKE exactly if they are equal, or one ASCII letter in its two cases. */
  lemma FoldJoinsCases(c: char, d: char)
    ensures Fold(c) == Fold(d) <==>
      c == d || ('A' <= c <= 'Z' && d as int == c as int + 32) || ('A' <= d <= 'Z' && c as int == d as int + 32)
  {
  }

  predicate Same(a: string, b: string) {
    |a| == |b| && forall k :: 0 <= k < |a| ==> Fold(a[k]) == Fold(b[k])
  }

  // SQLite's LIKE with ESCAPE '\': percent stands for any text, underscore for one character, and the escape takes
  // the next character literally. A pattern that ends in the escape matches nothing.
  predicate Like(p: string, t: string)
    decreases |p| + |t|
  {
    if p == "" then t == ""
    else if p[0] == '%' then Like(p[1..], t) || (t != "" && Like(p, t[1..]))
    else if p[0] == '\\' then |p| >= 2 && t != "" && Fold(p[1]) == Fold(t[0]) && Like(p[2..], t[1..])
    else if p[0] == '_' then t != "" && Like(p[1..], t[1..])
    else t != "" && Fold(p[0]) == Fold(t[0]) && Like(p[1..], t[1..])
  }

  function EscapeChar(c: char): string {
    if c == '\\' then "\\\\" else if c == '%' then "\\%" else if c == '_' then "\\_" else [c]
  }

  // One pass from left to right, as the replacer makes it: nothing that was inserted is escaped again.
  function EscapeLike(q: string): string {
    if q == "" then "" else EscapeChar(q[0]) + EscapeLike(q[1..])
  }

  function Pattern(q: string): string { "%" + EscapeLike(q) + "%" }

  predicate StartsAt(q: string, t: string, i: nat) {
    i + |q| <= |t| && Same(q, t[i..i + |q|])
  }

  predicate Contains(q: string, t: string) { exists i: nat :: i <= |t| && StartsAt(q, t, i) }

  lemma {:induction false} PercentMatchesAll(t: string)
    ensures Like("%", t)
    decreases |t|
  {
    if t != "" {
      PercentMatchesAll(t[1..]);
    }
  }

  // An escaped character in front of a pattern stands for itself.
  lemma EscapedChar(c: char, p: string, t: string)
    ensures Like(EscapeChar(c) + p, t) <==> t != "" && Fold(c) == Fold(t[0]) && Like(p, t[1..])
  {
    var e := EscapeChar(c);
    assert (e + p)[|e|..] == p;
  }

  lemma {:induction false} PrefixMatch(q: string, t: string)
    ensures Like(EscapeLike(q) + "%", t) <==> StartsAt(q, t, 0)
    decreases |q|
  {
    if q == "" {
      PercentMatchesAll(t);
      assert EscapeLike(q) + "%" == "%";
    } else {
      EscapedChar(q[0], EscapeLike(q[1..]) + "%", t);
      assert EscapeLike(q) + "%" == EscapeChar(q[0]) + (EscapeLike(q[1..]) + "%");
      if t != "" {
        PrefixMatch(q[1..], t[1..]);
        HeadAndTail(q, t);
      }
    }
  }

  lemma HeadAndTail(q: string, t: string)
    requires q != "" && t != ""
    ensures StartsAt(q, t, 0) <==> Fold(q[0]) == Fold(t[0]) && StartsAt(q[1..], t[1..], 0)
  {
    if |q| <= |t| {
      var a, b, a', b' := q, t[0..|q|], q[1..], t[1..][0..|q| - 1];
      assert forall k :: 0 <= k < |a'| ==> a'[k] == a[k + 1] && b'[k] == b[k + 1];
      assert forall k :: 0 < k < |a| ==> a[k] == a'[k - 1] && b[k] == b'[k - 1];
    }
  }

  lemma ContainsTail(q: string, t: string)
    requires t != ""
    ensures Contains(q, t) <==> StartsAt(q, t, 0) || Contains(q, t[1..])
  {
    if i: nat :| i <= |t| && StartsAt(q, t, i) {
      if 0 < i {
        assert t[1..][i - 1..i - 1 + |q|] == t[i..i + |q|];
        assert StartsAt(q, t[1..], i - 1);
      }
    }
    if i: nat :| i <= |t[1..]| && StartsAt(q, t[1..], i) {
      assert t[1..][i..i + |q|] == t[i + 1..i + 1 + |q|];
      assert StartsAt(q, t, i + 1);
    }
  }

  /** The search is exact: the pattern of a query matches exactly the texts that contain the query, whatever
      wildcards and escapes the query itself holds. */
  lemma {:induction false} SearchIsExact(q: string, t: string)
    ensures Like(Pattern(q), t) <==> Contains(q, t)
    decreases |t|
  {
    assert Pattern(q)[1..] == EscapeLike(q) + "%";
    PrefixMatch(q, t);
    if t == "" {
      assert Contains(q, t) <==> StartsAt(q, t, 0);
    } else {
      SearchIsExact(q, t[1..]);
      ContainsTail(q, t);
    }
  }

  /** Escaping is what makes it exact: a bare percent sign as the query would match every text. */
  lemma UnescapedSearchIsNot(t: string)
    ensures Like("%" + "%" + "%", t)
    ensures !Like(Pattern("%"), "abc")
  {
    PercentMatchesAll(t);
    assert ("%" + "%" + "%")[1..] == "%" + "%" && ("%" + "%")[1..] == "%";
    SearchIsExact("%", "abc");
  }

  /** An underscore that is not escaped matches any one character, and an escaped one only itself. */
  lemma Underscore(t: string)
    ensures Like("_", t) <==> |t| == 1
    ensures Like(EscapeLike("_"), t) <==> t == "_"
  {
    assert EscapeLike("_") == "\\_" + EscapeLike("");
    if t != "" {
      assert "_"[1..] == "" && "\\_"[2..] == "";
      assert t[1..] == "" <==> |t| == 1;
    }
  }

  // A job with its work, if it has one: the condition that List adds for a query.
  predicate Listed(query: string, input: string, title: Option<string>, author: Option<string>) {
    query == "" || Like(Pattern(query), input)
    || (title.Some? && Like(Pattern(query), title.value)) || (author.Some? && Like(Pattern(query), author.value))
  }

  /** A job is listed exactly when the query is empty or occurs in its input, its title or its author's name. */
  lemma ListedIsExact(query: string, input: string, title: Option<string>, author: Option<string>)
    ensures Listed(query, input, title, author) <==>
      query == "" || Contains(query, input) || (title.Some? && Contains(query, title.value))
      || (author.Some? && Contains(query, author.value))
  {
    SearchIsExact(query, input);
    if title.Some? {
      SearchIsExact(query, title.value);
    }
    if author.Some? {
      SearchIsExact(query, author.value);
    }
  }
}
