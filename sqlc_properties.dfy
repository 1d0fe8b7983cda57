/** What the renderer promises about a statement: which lines appear, where
    a builder's change shows up in the text and in the arguments, and how
    the limit slot and the dialect flag behave. */
module SqlcProperties {
  import GoStrings
  import opened Sqlc

  /** A clause contributes exactly one line when it is present, and none
      otherwise; that line is its keyword followed by its fragments joined. */
  lemma LineIfPresentIsLine<A>(s: Statement<A>, k: Clause)
    ensures LineIfPresent(s, k) == if Present(s, k) then [Line(s, k)] else []
  {
    if k == LimitClause {
      assert Partials([s.limit]) == [s.limit.partial];
    }
  }

  /** The text's lines are the clauses' own lines in grammar order:
      SELECT, FROM, the joins, WHERE, GROUP BY, HAVING, ORDER BY, LIMIT. */
  lemma LinesInGrammarOrder<A>(s: Statement<A>)
    ensures Lines(s) == LineIfPresent(s, SelectClause) + LineIfPresent(s, FromClause) + LineIfPresent(s, JoinClause)
      + LineIfPresent(s, WhereClause) + LineIfPresent(s, GroupClause) + LineIfPresent(s, HavingClause)
      + LineIfPresent(s, OrderClause) + LineIfPresent(s, LimitClause)
  {
    assert LinesUpTo(s, 1) == LineIfPresent(s, SelectClause);
    assert LinesUpTo(s, 2) == LinesUpTo(s, 1) + LineIfPresent(s, FromClause);
    assert LinesUpTo(s, 3) == LinesUpTo(s, 2) + LineIfPresent(s, JoinClause);
    assert LinesUpTo(s, 4) == LinesUpTo(s, 3) + LineIfPresent(s, WhereClause);
    assert LinesUpTo(s, 5) == LinesUpTo(s, 4) + LineIfPresent(s, GroupClause);
    assert LinesUpTo(s, 6) == LinesUpTo(s, 5) + LineIfPresent(s, HavingClause);
    assert LinesUpTo(s, 7) == LinesUpTo(s, 6) + LineIfPresent(s, OrderClause);
    assert LinesUpTo(s, 8) == LinesUpTo(s, 7) + LineIfPresent(s, LimitClause);
  }

  /** The arguments are those of each clause's components, clause by clause
      in the same order, the limit's last. */
  lemma ArgsInClauseOrder<A>(s: Statement<A>)
    ensures OrderedArgs(s) == FlatArgs(s.selects) + FlatArgs(s.froms) + FlatArgs(s.joins) + FlatArgs(s.wheres)
      + FlatArgs(s.groups) + FlatArgs(s.havings) + FlatArgs(s.orders) + s.limit.args
  {
    assert ArgsUpTo(s, 1) == FlatArgs(s.selects);
    assert ArgsUpTo(s, 2) == ArgsUpTo(s, 1) + FlatArgs(s.froms);
    assert ArgsUpTo(s, 3) == ArgsUpTo(s, 2) + FlatArgs(s.joins);
    assert ArgsUpTo(s, 4) == ArgsUpTo(s, 3) + FlatArgs(s.wheres);
    assert ArgsUpTo(s, 5) == ArgsUpTo(s, 4) + FlatArgs(s.groups);
    assert ArgsUpTo(s, 6) == ArgsUpTo(s, 5) + FlatArgs(s.havings);
    assert ArgsUpTo(s, 7) == ArgsUpTo(s, 6) + FlatArgs(s.orders);
    assert FlatArgs([s.limit]) == FlatArgs([s.limit][..0]) + s.limit.args;
    assert ArgsUpTo(s, 8) == ArgsUpTo(s, 7) + s.limit.args;
  }

  /** The lines of clauses `n` to the last, in order. */
  function LinesFrom<A>(s: Statement<A>, n: nat): seq<string>
    requires n <= ClauseCount
    decreases ClauseCount - n
  {
    if n == ClauseCount then [] else LineIfPresent(s, ClauseAt(n)) + LinesFrom(s, n + 1)
  }

  /** The arguments of clauses `n` to the last, in order. */
  function ArgsFrom<A>(s: Statement<A>, n: nat): seq<A>
    requires n <= ClauseCount
    decreases ClauseCount - n
  {
    if n == ClauseCount then [] else FlatArgs(Items(s, ClauseAt(n))) + ArgsFrom(s, n + 1)
  }

  /** The rendered lines split at any clause position. The clause count is
      passed as `last` rather than written as `ClauseCount`: with the
      literal 8 in the statement the verifier unrolls `LinesUpTo` eight
      times on every use, which makes the proof several times dearer. */
  lemma {:induction false} SplitLines<A>(s: Statement<A>, n: nat, last: nat)
    requires n <= last == ClauseCount
    ensures LinesUpTo(s, last) == LinesUpTo(s, n) + LinesFrom(s, n)
    decreases last - n
  {
    if n < last {
      SplitLines(s, n + 1, last);
    }
  }

  /** The arguments split at any clause position; `last` stands for the
      clause count for the same reason as in `SplitLines`. */
  lemma {:induction false} SplitArgs<A>(s: Statement<A>, n: nat, last: nat)
    requires n <= last == ClauseCount
    ensures ArgsUpTo(s, last) == ArgsUpTo(s, n) + ArgsFrom(s, n)
    decreases last - n
  {
    if n < last {
      SplitArgs(s, n + 1, last);
    }
  }

  /** What a clause renders depends only on its own components. */
  lemma SameItemsSameLine<A>(s: Statement<A>, r: Statement<A>, k: Clause)
    requires Items(r, k) == Items(s, k)
    ensures LineIfPresent(r, k) == LineIfPresent(s, k)
  {
    if k == LimitClause {
      assert r.limit == Items(r, k)[0];
    }
  }

  /** One clause more: equal lines before clause `n - 1` and equal
      components in it give equal lines before clause `n`. */
  lemma UpToFrameLinesStep<A>(s: Statement<A>, r: Statement<A>, n: nat)
    requires 0 < n <= ClauseCount
    requires LinesUpTo(r, n - 1) == LinesUpTo(s, n - 1)
    requires Items(r, ClauseAt(n - 1)) == Items(s, ClauseAt(n - 1))
    ensures LinesUpTo(r, n) == LinesUpTo(s, n)
  {
    SameItemsSameLine(s, r, ClauseAt(n - 1));
  }

  /** Clauses before `n` with the same components render the same lines. */
  lemma {:induction false} UpToFrameLines<A>(s: Statement<A>, r: Statement<A>, n: nat)
    requires n <= ClauseCount
    requires forall i :: 0 <= i < n ==> Items(r, ClauseAt(i)) == Items(s, ClauseAt(i))
    ensures LinesUpTo(r, n) == LinesUpTo(s, n)
  {
    if n > 0 {
      UpToFrameLines(s, r, n - 1);
      assert Items(r, ClauseAt(n - 1)) == Items(s, ClauseAt(n - 1));
      UpToFrameLinesStep(s, r, n);
    }
  }

  /** Clauses before `n` with the same components give the same arguments. */
  lemma {:induction false} UpToFrameArgs<A>(s: Statement<A>, r: Statement<A>, n: nat)
    requires n <= ClauseCount
    requires forall i :: 0 <= i < n ==> Items(r, ClauseAt(i)) == Items(s, ClauseAt(i))
    ensures ArgsUpTo(r, n) == ArgsUpTo(s, n)
  {
    if n > 0 {
      var k := ClauseAt(n - 1);
      UpToFrameArgs(s, r, n - 1);
      assert Items(r, k) == Items(s, k);
      assert ArgsUpTo(r, n) == ArgsUpTo(r, n - 1) + FlatArgs(Items(r, k));
      assert ArgsUpTo(s, n) == ArgsUpTo(s, n - 1) + FlatArgs(Items(s, k));
    }
  }

  /** Clauses before `n` with the same components render the same lines and
      arguments. */
  lemma UpToFrame<A>(s: Statement<A>, r: Statement<A>, n: nat)
    requires n <= ClauseCount
    requires forall i :: 0 <= i < n ==> Items(r, ClauseAt(i)) == Items(s, ClauseAt(i))
    ensures LinesUpTo(r, n) == LinesUpTo(s, n)
    ensures ArgsUpTo(r, n) == ArgsUpTo(s, n)
  {
    UpToFrameLines(s, r, n);
    UpToFrameArgs(s, r, n);
  }

  /** Clauses from `n` on with the same components render the same lines
      and arguments. */
  lemma {:induction false} FromFrame<A>(s: Statement<A>, r: Statement<A>, n: nat)
    requires n <= ClauseCount
    requires forall i :: n <= i < ClauseCount ==> Items(r, ClauseAt(i)) == Items(s, ClauseAt(i))
    ensures LinesFrom(r, n) == LinesFrom(s, n)
    ensures ArgsFrom(r, n) == ArgsFrom(s, n)
    decreases ClauseCount - n
  {
    if n < ClauseCount {
      FromFrame(s, r, n + 1);
      SameItemsSameLine(s, r, ClauseAt(n));
    }
  }

  /** A change confined to one clause shows up in place: the lines and the
      arguments of every other clause are those of the old statement, in
      the same positions. Every builder's frame meets the requirement. */
  lemma RendersInPlace<A>(s: Statement<A>, r: Statement<A>, k: Clause)
    requires forall k' :: k' != k ==> Items(r, k') == Items(s, k')
    ensures Lines(r) == LinesUpTo(s, Rank(k)) + LineIfPresent(r, k) + LinesFrom(s, Rank(k) + 1)
    ensures OrderedArgs(r) == ArgsUpTo(s, Rank(k)) + FlatArgs(Items(r, k)) + ArgsFrom(s, Rank(k) + 1)
  {
    var i := Rank(k);
    forall j | 0 <= j < i
      ensures Items(r, ClauseAt(j)) == Items(s, ClauseAt(j))
    {
      assert ClauseAt(j) != k by { assert Rank(ClauseAt(j)) == j; }
    }
    forall j | i + 1 <= j < ClauseCount
      ensures Items(r, ClauseAt(j)) == Items(s, ClauseAt(j))
    {
      assert ClauseAt(j) != k by { assert Rank(ClauseAt(j)) == j; }
    }
    UpToFrame(s, r, i);
    FromFrame(s, r, i + 1);
    SplitLines(r, i + 1, ClauseCount);
    SplitArgs(r, i + 1, ClauseCount);
    assert LinesUpTo(r, i + 1) == LinesUpTo(r, i) + LineIfPresent(r, k);
    assert ArgsUpTo(r, i + 1) == ArgsUpTo(r, i) + FlatArgs(Items(r, k));
  }

  /** Adding a fragment to a clause that already has some extends its line
      by the clause's joiner and the new fragment; the first fragment opens
      the line after the keyword. Fragments keep the order they were added. */
  lemma StanzaAppend<A>(cs: seq<Component<A>>, c: Component<A>, keyword: string, joiner: string)
    ensures Stanza(cs + [c], keyword, joiner) ==
      [keyword + if cs == [] then c.partial else GoStrings.Join(Partials(cs), joiner) + joiner + c.partial]
  {
    assert Partials(cs + [c]) == Partials(cs) + [c.partial];
    GoStrings.JoinSnoc(Partials(cs), c.partial, joiner);
  }

  /** The first WHERE condition opens the line in parentheses; each
      further one is joined to it with " AND ", in its own parentheses.
    `RendersInPlace` says no other line changes. */
  lemma WhereAddsCondition<A>(s: Statement<A>, partial: string, args: seq<A>)
    ensures LineIfPresent(Where(s, partial, args), WhereClause) ==
      if s.wheres == [] then ["WHERE (" + partial + ")"]
      else [Line(s, WhereClause) + " AND (" + partial + ")"]
  {
    StanzaAppend(s.wheres, Component("(" + partial + ")", args), "WHERE ", " AND ");
    if s.wheres == [] {
      assert "WHERE " + ("(" + partial + ")") == "WHERE (" + partial + ")";
    } else {
      assert "WHERE " + (GoStrings.Join(Partials(s.wheres), " AND ") + " AND " + ("(" + partial + ")"))
          == Line(s, WhereClause) + " AND (" + partial + ")";
    }
  }

  /** The limit's arguments always close the argument list, even when its
      fragment is empty and no LIMIT line is rendered. */
  lemma LimitArgsAlwaysLast<A>(s: Statement<A>)
    ensures OrderedArgs(s) == ArgsUpTo(s, Rank(LimitClause)) + s.limit.args
    ensures Lines(s) == LinesUpTo(s, Rank(LimitClause)) +
      if s.limit.partial != "" then ["LIMIT " + s.limit.partial] else []
  {
    assert FlatArgs([s.limit]) == FlatArgs([s.limit][..0]) + s.limit.args;
  }

  /** Setting the limit twice keeps only the second setting. */
  lemma LimitLastWins<A>(s: Statement<A>, p1: string, a1: seq<A>, p2: string, a2: seq<A>)
    ensures Lines(Limit(Limit(s, p1, a1), p2, a2)) == Lines(Limit(s, p2, a2))
    ensures OrderedArgs(Limit(Limit(s, p1, a1), p2, a2)) == OrderedArgs(Limit(s, p2, a2))
  {
    var r, t := Limit(Limit(s, p1, a1), p2, a2), Limit(s, p2, a2);
    UpToFrame(t, r, ClauseCount);
  }

  /** The dialect flag changes neither the assembled lines nor the
      arguments; it only selects the placeholder rewrite. */
  lemma FlagOnlyRewrites<A>(s: Statement<A>, flag: bool)
    ensures Assembled(s.(postgreSQL := flag)) == Assembled(s)
    ensures OrderedArgs(s.(postgreSQL := flag)) == OrderedArgs(s)
  {
    UpToFrame(s, s.(postgreSQL := flag), ClauseCount);
  }

  /** No line is rendered exactly when no clause is present. */
  lemma NoLinesIffNothingPresent<A>(s: Statement<A>)
    ensures Lines(s) == [] <==> forall k :: !Present(s, k)
  {
    if forall k :: !Present(s, k) {
      forall k ensures LineIfPresent(s, k) == [] {
        LineIfPresentIsLine(s, k);
      }
      LinesInGrammarOrder(s);
    } else {
      var k :| Present(s, k);
      RendersInPlace(s, s, k);
      LineIfPresentIsLine(s, k);
    }
  }

  /** The zero statement renders the empty text and has no arguments. */
  lemma EmptyStatement<A>()
    ensures Assembled(Empty<A>()) == ""
    ensures OrderedArgs(Empty<A>()) == []
  {
    var e := Empty<A>();
    assert forall k :: !Present(e, k);
    NoLinesIffNothingPresent(e);
    EmptyArgsUpTo<A>(ClauseCount);
  }

  /** The zero statement has no arguments before any position. */
  lemma {:induction false} EmptyArgsUpTo<A>(n: nat)
    requires n <= ClauseCount
    ensures ArgsUpTo(Empty<A>(), n) == []
  {
    if n > 0 {
      EmptyArgsUpTo<A>(n - 1);
      var cs := Items(Empty<A>(), ClauseAt(n - 1));
      assert cs == [] || (cs == [Component("", [])] && cs[..0] == []);
    }
  }
}
