/** The promise that makes the builder usable: the arguments come in exactly
    the order their `?` markers appear in the text. Stated by binding: put
    the k-th argument in place of the k-th marker of the rendered text, and
    the result is the text the statement would render had every fragment
    been written with its own arguments in place of its own markers. In
    PostgreSQL mode the marker numbered `$j` stands for the j-th argument. */
module SqlcBinding {
  import GoStrings
  import opened Sqlc

  /** Binding arguments to a text: its k-th `?` (from 0) is replaced by the
      k-th argument as `show` writes it; a `?` beyond the last argument is
      kept. The text `show` writes is not scanned again. */
  function Bind<A>(t: string, args: seq<A>, show: A -> string): string
  {
    if t == [] then []
    else if t[0] == '?' && args != [] then show(args[0]) + Bind(t[1..], args[1..], show)
    else [t[0]] + Bind(t[1..], args, show)
  }

  /** Without arguments nothing is replaced. */
  lemma {:induction false} BindNothing<A>(t: string, show: A -> string)
    ensures Bind(t, [], show) == t
  {
    if t != [] {
      BindNothing(t[1..], show);
      assert [t[0]] + t[1..] == t;
    }
  }

  /** Binding distributes over concatenation when the first part has one
      marker per argument given to it. */
  lemma {:induction false} BindAppend<A>(a: string, b: string, xs: seq<A>, ys: seq<A>, show: A -> string)
    requires Holes(a) == |xs|
    ensures Bind(a + b, xs + ys, show) == Bind(a, xs, show) + Bind(b, ys, show)
  {
    if a == [] {
      assert a + b == b && xs + ys == ys;
    } else {
      ConsAppend(a, b);
      HolesCons(a);
      if a[0] == '?' {
        assert (xs + ys)[0] == xs[0] && (xs + ys)[1..] == xs[1..] + ys;
        BindAppend(a[1..], b, xs[1..], ys, show);
        ConcatAssoc(show(xs[0]), Bind(a[1..], xs[1..], show), Bind(b, ys, show));
      } else {
        BindAppend(a[1..], b, xs, ys, show);
        ConcatAssoc([a[0]], Bind(a[1..], xs, show), Bind(b, ys, show));
      }
    }
  }

  /** A marker-free prefix is copied as it is. */
  lemma BindSkip<A>(p: string, b: string, ys: seq<A>, show: A -> string)
    requires '?' !in p
    ensures Holes(p) == 0
    ensures Bind(p + b, ys, show) == p + Bind(b, ys, show)
  {
    assert '?' !in multiset(p);
    BindAppend(p, b, [], ys, show);
    BindNothing(p, show);
    assert [] + ys == ys;
  }

  /** A component is well formed when its fragment has one `?` per
      argument. */
  predicate WellFormed<A>(c: Component<A>)
  {
    Holes(c.partial) == |c.args|
  }

  /** Every component of every clause, the limit slot included, is well
      formed. */
  predicate AllWellFormed<A>(s: Statement<A>)
  {
    forall k, i | 0 <= i < |Items(s, k)| :: WellFormed(Items(s, k)[i])
  }

  /** A component with its own arguments written into its own fragment. */
  function BindComponent<A>(c: Component<A>, show: A -> string): Component<A>
  {
    Component(Bind(c.partial, c.args, show), [])
  }

  /** Every component with its own arguments written in. */
  function BindEach<A>(cs: seq<Component<A>>, show: A -> string): seq<Component<A>>
  {
    seq(|cs|, i requires 0 <= i < |cs| => BindComponent(cs[i], show))
  }

  /** The statement whose every fragment has its own arguments written in. */
  function BindAll<A>(s: Statement<A>, show: A -> string): Statement<A>
  {
    Statement(s.postgreSQL,
      BindEach(s.selects, show), BindEach(s.froms, show), BindEach(s.joins, show),
      BindEach(s.wheres, show), BindEach(s.groups, show), BindEach(s.havings, show),
      BindEach(s.orders, show), BindComponent(s.limit, show))
  }

  /** Binding the statement binds each clause's components. */
  lemma BindAllItems<A>(s: Statement<A>, show: A -> string, k: Clause)
    ensures Items(BindAll(s, show), k) == BindEach(Items(s, k), show)
  {
  }

  /** Markers add up over concatenation. */
  lemma HolesAppend(a: string, b: string)
    ensures Holes(a + b) == Holes(a) + Holes(b)
  {
    assert multiset(a + b) == multiset(a) + multiset(b);
  }

  /** Joining one more fragment across a marker-free joiner adds that
      fragment's markers. */
  lemma HolesJoinSnoc(ps: seq<string>, p: string, sep: string)
    requires '?' !in sep
    ensures Holes(GoStrings.Join(ps + [p], sep)) == Holes(GoStrings.Join(ps, sep)) + Holes(p)
  {
    GoStrings.JoinSnoc(ps, p, sep);
    if ps != [] {
      var j := GoStrings.Join(ps, sep);
      HolesAppend(j + sep, p);
      HolesAppend(j, sep);
      assert '?' !in multiset(sep);
    }
  }

  /** The fragments of well-formed components joined by a marker-free
      joiner hold one marker per argument. */
  lemma {:induction false} HolesJoined<A>(cs: seq<Component<A>>, sep: string)
    requires '?' !in sep
    requires forall i | 0 <= i < |cs| :: WellFormed(cs[i])
    ensures Holes(GoStrings.Join(Partials(cs), sep)) == |FlatArgs(cs)|
  {
    if cs != [] {
      var init, last := cs[..|cs| - 1], cs[|cs| - 1];
      HolesJoined(init, sep);
      PartialsSnoc(cs);
      HolesJoinSnoc(Partials(init), last.partial, sep);
      assert WellFormed(cs[|cs| - 1]);
    }
  }

  /** Binding across a marker-free separator: each side takes its own
      arguments. */
  lemma BindAround<A>(x: string, sep: string, y: string, xs: seq<A>, ys: seq<A>, show: A -> string)
    requires Holes(x) == |xs| && '?' !in sep
    ensures Bind(x + sep + y, xs + ys, show) == Bind(x, xs, show) + sep + Bind(y, ys, show)
  {
    BindSkip(sep, y, ys, show);
    ConcatAssoc(x, sep, y);
    BindAppend(x, sep + y, xs, ys, show);
    ConcatAssoc(Bind(x, xs, show), sep, Bind(y, ys, show));
  }

  /** The fragments of components with one more at the end. */
  lemma PartialsSnoc<A>(cs: seq<Component<A>>)
    requires cs != []
    ensures Partials(cs) == Partials(cs[..|cs| - 1]) + [cs[|cs| - 1].partial]
  {
  }

  /** The bound components of components with one more at the end. */
  lemma BindEachSnoc<A>(cs: seq<Component<A>>, show: A -> string)
    requires cs != []
    ensures BindEach(cs, show) == BindEach(cs[..|cs| - 1], show) + [BindComponent(cs[|cs| - 1], show)]
  {
  }

  /** Binding the arguments of well-formed components to their joined
      fragments joins the fragments that had their own arguments written
      in. */
  lemma {:induction false} BindJoined<A>(cs: seq<Component<A>>, sep: string, show: A -> string)
    requires '?' !in sep
    requires forall i | 0 <= i < |cs| :: WellFormed(cs[i])
    ensures Bind(GoStrings.Join(Partials(cs), sep), FlatArgs(cs), show) ==
      GoStrings.Join(Partials(BindEach(cs, show)), sep)
  {
    if cs != [] {
      var init, last := cs[..|cs| - 1], cs[|cs| - 1];
      BindJoined(init, sep, show);
      var bound := BindComponent(last, show).partial;
      PartialsSnoc(cs);
      BindEachSnoc(cs, show);
      PartialsSnoc(BindEach(cs, show));
      GoStrings.JoinSnoc(Partials(init), last.partial, sep);
      GoStrings.JoinSnoc(Partials(BindEach(init, show)), bound, sep);
      if init != [] {
        HolesJoined(init, sep);
        BindAround(GoStrings.Join(Partials(init), sep), sep, last.partial, FlatArgs(init), last.args, show);
      } else {
        assert FlatArgs(cs) == FlatArgs(init) + last.args == last.args;
        assert Partials(cs) == [last.partial];
        assert Partials(BindEach(cs, show)) == [bound];
      }
    }
  }

  /** Binding never empties a non-empty text when no argument is written
      as the empty string. */
  lemma BindNonEmpty<A>(t: string, args: seq<A>, show: A -> string)
    requires t != [] && forall x :: show(x) != ""
    ensures Bind(t, args, show) != []
  {
  }

  /** A list clause's line holds one marker per argument of the clause, and
      binding them gives the line of the bound components; a clause without
      components has neither a line nor arguments. */
  lemma BindStanza<A>(cs: seq<Component<A>>, keyword: string, joiner: string, show: A -> string)
    requires '?' !in keyword && '?' !in joiner
    requires forall i | 0 <= i < |cs| :: WellFormed(cs[i])
    ensures |Stanza(BindEach(cs, show), keyword, joiner)| == |Stanza(cs, keyword, joiner)| <= 1
    ensures Stanza(cs, keyword, joiner) == [] ==> FlatArgs(cs) == []
    ensures Stanza(cs, keyword, joiner) != [] ==>
      Holes(Stanza(cs, keyword, joiner)[0]) == |FlatArgs(cs)| &&
      Bind(Stanza(cs, keyword, joiner)[0], FlatArgs(cs), show) == Stanza(BindEach(cs, show), keyword, joiner)[0]
  {
    if cs != [] {
      var joined := GoStrings.Join(Partials(cs), joiner);
      HolesJoined(cs, joiner);
      BindJoined(cs, joiner, show);
      BindSkip(keyword, joined, FlatArgs(cs), show);
      HolesAppend(keyword, joined);
    }
  }

  /** The limit's line holds one marker per limit argument, and binding
      them gives the bound limit's line; with no line there are no
      arguments, and the bound limit has no line either. */
  lemma BindLimit<A>(s: Statement<A>, show: A -> string)
    requires WellFormed(s.limit) && forall x :: show(x) != ""
    ensures FlatArgs([s.limit]) == s.limit.args
    ensures s.limit.partial == "" ==> s.limit.args == [] && BindComponent(s.limit, show).partial == ""
    ensures s.limit.partial != "" ==>
      BindComponent(s.limit, show).partial != "" &&
      Holes("LIMIT " + s.limit.partial) == |s.limit.args| &&
      Bind("LIMIT " + s.limit.partial, s.limit.args, show) == "LIMIT " + BindComponent(s.limit, show).partial
  {
    assert [s.limit][..0] == [];
    if s.limit.partial != "" {
      BindNonEmpty(s.limit.partial, s.limit.args, show);
      BindSkip("LIMIT ", s.limit.partial, s.limit.args, show);
      HolesAppend("LIMIT ", s.limit.partial);
    }
  }

  /** What one clause renders holds one marker per argument of that clause,
      and binding them gives what the bound statement renders for it; a
      clause without a line has no arguments. */
  predicate ClauseBinds<A>(s: Statement<A>, k: Clause, show: A -> string)
  {
    && |LineIfPresent(BindAll(s, show), k)| == |LineIfPresent(s, k)| <= 1
    && (LineIfPresent(s, k) == [] ==> FlatArgs(Items(s, k)) == [])
    && (LineIfPresent(s, k) != [] ==>
          Holes(LineIfPresent(s, k)[0]) == |FlatArgs(Items(s, k))| &&
          Bind(LineIfPresent(s, k)[0], FlatArgs(Items(s, k)), show) == LineIfPresent(BindAll(s, show), k)[0])
  }

  /** A list clause of a well-formed statement binds to its bound line. */
  lemma BindListClause<A>(s: Statement<A>, k: Clause, show: A -> string)
    requires k != LimitClause
    requires AllWellFormed(s)
    ensures ClauseBinds(s, k, show)
  {
    var cs := Items(s, k);
    BindAllItems(s, show, k);
    assert forall i | 0 <= i < |cs| :: WellFormed(cs[i]);
    PrefixShape(k);
    JoinerShape(k);
    BindStanza(cs, Prefix(k), Joiner(k), show);
  }

  /** The limit slot of a well-formed statement binds to its bound line. */
  lemma BindLimitClause<A>(s: Statement<A>, show: A -> string)
    requires AllWellFormed(s) && forall x :: show(x) != ""
    ensures ClauseBinds(s, LimitClause, show)
  {
    assert WellFormed(Items(s, LimitClause)[0]);
    BindLimit(s, show);
  }

  /** Every clause of a well-formed statement binds to its bound line. */
  lemma BindClause<A>(s: Statement<A>, k: Clause, show: A -> string)
    requires AllWellFormed(s) && forall x :: show(x) != ""
    ensures ClauseBinds(s, k, show)
  {
    if k == LimitClause {
      BindLimitClause(s, show);
    } else {
      BindListClause(s, k, show);
    }
  }

  /** Binding `args` to the lines joined by line breaks gives the bound
      lines joined the same way, one bound line per line. */
  predicate TextBinds<A>(lines: seq<string>, boundLines: seq<string>, args: seq<A>, show: A -> string)
  {
    && |boundLines| == |lines|
    && Holes(GoStrings.Join(lines, "\n")) == |args|
    && Bind(GoStrings.Join(lines, "\n"), args, show) == GoStrings.Join(boundLines, "\n")
  }

  /** One more line: binding a line's own arguments after the text's
      carries over to the text with that line added. */
  lemma BindLinesSnoc<A>(lines: seq<string>, boundLines: seq<string>, line: string, boundLine: string,
                         args: seq<A>, more: seq<A>, show: A -> string)
    requires TextBinds(lines, boundLines, args, show)
    requires Holes(line) == |more| && Bind(line, more, show) == boundLine
    ensures TextBinds(lines + [line], boundLines + [boundLine], args + more, show)
  {
    var text := GoStrings.Join(lines, "\n");
    GoStrings.JoinSnoc(lines, line, "\n");
    GoStrings.JoinSnoc(boundLines, boundLine, "\n");
    if lines == [] {
      assert Holes(text) == 0 && args == [];
      assert args + more == more;
    } else {
      BindAround(text, "\n", line, args, more, show);
      HolesAppend(text + "\n", line);
      HolesAppend(text, "\n");
    }
  }

  /** One more clause, with a line or without. */
  lemma BindClauseSnoc<A>(lines: seq<string>, boundLines: seq<string>, extra: seq<string>, boundExtra: seq<string>,
                          args: seq<A>, more: seq<A>, show: A -> string)
    requires TextBinds(lines, boundLines, args, show)
    requires |boundExtra| == |extra| <= 1
    requires extra == [] ==> more == []
    requires extra != [] ==> Holes(extra[0]) == |more| && Bind(extra[0], more, show) == boundExtra[0]
    ensures TextBinds(lines + extra, boundLines + boundExtra, args + more, show)
  {
    if extra == [] {
      assert lines + extra == lines && boundLines + boundExtra == boundLines && args + more == args;
    } else {
      assert extra == [extra[0]] && boundExtra == [boundExtra[0]];
      BindLinesSnoc(lines, boundLines, extra[0], boundExtra[0], args, more, show);
    }
  }

  /** The clauses before `n` bind: their lines hold one marker per
      argument of those clauses, and binding the arguments gives the lines
      of the bound statement. */
  predicate BindsUpTo<A>(s: Statement<A>, n: nat, show: A -> string)
    requires n <= ClauseCount
  {
    TextBinds(LinesUpTo(s, n), LinesUpTo(BindAll(s, show), n), ArgsUpTo(s, n), show)
  }

  /** One clause more: if the clauses before `n - 1` bind and clause
      `n - 1` binds, the clauses before `n` bind. */
  lemma BindUpToStep<A>(s: Statement<A>, n: nat, show: A -> string)
    requires 0 < n <= ClauseCount
    requires BindsUpTo(s, n - 1, show)
    requires ClauseBinds(s, ClauseAt(n - 1), show)
    ensures BindsUpTo(s, n, show)
  {
    var k, b := ClauseAt(n - 1), BindAll(s, show);
    assert LinesUpTo(s, n) == LinesUpTo(s, n - 1) + LineIfPresent(s, k);
    assert LinesUpTo(b, n) == LinesUpTo(b, n - 1) + LineIfPresent(b, k);
    assert ArgsUpTo(s, n) == ArgsUpTo(s, n - 1) + FlatArgs(Items(s, k));
    BindClauseSnoc(LinesUpTo(s, n - 1), LinesUpTo(b, n - 1), LineIfPresent(s, k), LineIfPresent(b, k),
      ArgsUpTo(s, n - 1), FlatArgs(Items(s, k)), show);
  }

  /** Before the first clause there is nothing to bind. */
  lemma BindUpToNone<A>(s: Statement<A>, show: A -> string)
    ensures BindsUpTo(s, 0, show)
  {
    assert LinesUpTo(s, 0) == [] && ArgsUpTo(s, 0) == [];
  }

  /** The rendered text holds one marker per argument, and the k-th
      argument belongs to the k-th marker: binding the arguments in order
      gives the text rendered from the fragments with their own arguments
      written in. */
  lemma ArgsMatchMarkers<A>(s: Statement<A>, show: A -> string)
    requires AllWellFormed(s) && forall x :: show(x) != ""
    ensures Holes(Assembled(s)) == |OrderedArgs(s)|
    ensures Bind(Assembled(s), OrderedArgs(s), show) == Assembled(BindAll(s, show))
  {
    forall i | 0 <= i < ClauseCount ensures ClauseBinds(s, ClauseAt(i), show) {
      BindClause(s, ClauseAt(i), show);
    }
    // The statement has eight clauses: add them one at a time.
    BindUpToNone(s, show);
    BindUpToStep(s, 1, show);
    BindUpToStep(s, 2, show);
    BindUpToStep(s, 3, show);
    BindUpToStep(s, 4, show);
    BindUpToStep(s, 5, show);
    BindUpToStep(s, 6, show);
    BindUpToStep(s, 7, show);
    BindUpToStep(s, 8, show);
  }

  /** How PostgreSQL mode writes the number of a marker. */
  function Dollar(n: nat): string
  {
    "$" + GoStrings.Decimal(n)
  }

  /** The numbers `c`, `c + 1`, ..., `c + n - 1`. */
  function Range(c: nat, n: nat): (r: seq<nat>)
    ensures |r| == n
  {
    seq(n, i requires 0 <= i < n => c + i)
  }

  /** Numbering the markers from `c` binds the numbers `c`, `c + 1`, ...
      to them in order. */
  lemma {:induction false} NumberedIsBind(t: string, c: nat)
    ensures Numbered(t, c) == Bind(t, Range(c, Holes(t)), Dollar)
  {
    if t != [] {
      HolesCons(t);
      if t[0] == '?' {
        assert Range(c, Holes(t))[1..] == Range(c + 1, Holes(t[1..]));
        NumberedIsBind(t[1..], c + 1);
      } else {
        NumberedIsBind(t[1..], c);
      }
    }
  }

  /** In PostgreSQL mode the marker numbered `$j` stands for the j-th
      argument (from 1): the rewrite is binding the numbers 1, 2, ... in
      the order `Args` lists the arguments. */
  lemma PostgreSQLNumbersArgs<A>(s: Statement<A>)
    requires AllWellFormed(s)
    ensures Numbered(Assembled(s), 1) == Bind(Assembled(s), Range(1, |OrderedArgs(s)|), Dollar)
  {
    ArgsMatchMarkers(s, (x: A) => "x");
    NumberedIsBind(Assembled(s), 1);
  }
}
