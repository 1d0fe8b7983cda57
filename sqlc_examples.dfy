/** The scenarios of the library's own tests (sqlc_test.go), each written as
    a method that builds the statement with the same calls and asks `Args`
    and `SQL`, or only `SQL`, for the results the test expects. Arguments are strings here.
    The helper lemmas evaluate the rendering functions on the statements
    involved: first for any fragments, then for the tests' literals. */
module SqlcExamples {
  import GoStrings
  import opened Sqlc
  import SqlcProperties

  /** A list clause with one fragment renders its keyword and the fragment. */
  lemma OneFragment<A>(c: Component<A>, keyword: string, joiner: string)
    ensures Stanza([c], keyword, joiner) == [keyword + c.partial]
  {
    assert Partials([c]) == [c.partial];
  }

  /** A list clause with two fragments puts the joiner between them. */
  lemma TwoFragments<A>(c: Component<A>, d: Component<A>, keyword: string, joiner: string)
    ensures Stanza([c, d], keyword, joiner) == [keyword + (c.partial + joiner + d.partial)]
  {
    assert Partials([c, d]) == [c.partial] + [d.partial];
    GoStrings.JoinSnoc([c.partial], d.partial, joiner);
  }

  /** Eight lines joined by a separator. */
  lemma JoinEight(l: seq<string>, sep: string)
    requires |l| == 8
    ensures GoStrings.Join(l, sep) == l[0] + sep + l[1] + sep + l[2] + sep + l[3] + sep + l[4] + sep + l[5] + sep + l[6] + sep + l[7]
  {
    assert GoStrings.Join(l[..1], sep) == l[0];
    assert GoStrings.Join(l[..2], sep) == GoStrings.Join(l[..1], sep) + sep + l[1] by { assert l[..2][..1] == l[..1]; }
    assert GoStrings.Join(l[..3], sep) == GoStrings.Join(l[..2], sep) + sep + l[2] by { assert l[..3][..2] == l[..2]; }
    assert GoStrings.Join(l[..4], sep) == GoStrings.Join(l[..3], sep) + sep + l[3] by { assert l[..4][..3] == l[..3]; }
    assert GoStrings.Join(l[..5], sep) == GoStrings.Join(l[..4], sep) + sep + l[4] by { assert l[..5][..4] == l[..4]; }
    assert GoStrings.Join(l[..6], sep) == GoStrings.Join(l[..5], sep) + sep + l[5] by { assert l[..6][..5] == l[..5]; }
    assert GoStrings.Join(l[..7], sep) == GoStrings.Join(l[..6], sep) + sep + l[6] by { assert l[..7][..6] == l[..6]; }
    assert GoStrings.Join(l, sep) == GoStrings.Join(l[..7], sep) + sep + l[7];
  }

  // TestBasicComposition: every clause, the calls made out of order.

  /** The calls of the composition test, in the test's order. */
  function Scrambled(sel: string, tbl: string, j1: string, j2: string, w: string, g: string, h: string, o: string, l: string): Statement<string>
  {
    var s1 := Limit(Order(Group(Empty(), g, []), o, []), l, []);
    var s2 := Where(s1, w, []);
    var s3 := From(Select(s2, sel, []), tbl, []);
    var s4 := Having(s3, h, []);
    Join(Join(s4, j1, []), j2, [])
  }

  /** The statement those calls build, clause by clause. */
  function Filled(sel: string, tbl: string, j1: string, j2: string, w: string, g: string, h: string, o: string, l: string): Statement<string>
  {
    Statement(false, [Component(sel, [])], [Component(tbl, [])], [Component(j1, []), Component(j2, [])],
      [Component("(" + w + ")", [])], [Component(g, [])], [Component("(" + h + ")", [])], [Component(o, [])], Component(l, []))
  }

  /** The order of the calls does not show in the statement they build. */
  lemma ScrambledIsFilled(sel: string, tbl: string, j1: string, j2: string, w: string, g: string, h: string, o: string, l: string)
    ensures Scrambled(sel, tbl, j1, j2, w, g, h, o, l) == Filled(sel, tbl, j1, j2, w, g, h, o, l)
  {
  }

  /** Every clause of the filled statement renders one line, in grammar
      order, with the WHERE and HAVING conditions in parentheses. */
  lemma FilledLines(sel: string, tbl: string, j1: string, j2: string, w: string, g: string, h: string, o: string, l: string)
    requires l != ""
    ensures Lines(Filled(sel, tbl, j1, j2, w, g, h, o, l)) ==
      ["SELECT " + sel, "FROM " + tbl, j1 + " " + j2, "WHERE (" + w + ")", "GROUP BY " + g, "HAVING (" + h + ")", "ORDER BY " + o, "LIMIT " + l]
  {
    var none: seq<string> := [];
    SqlcProperties.LinesInGrammarOrder(Filled(sel, tbl, j1, j2, w, g, h, o, l));
    OneFragment(Component(sel, none), "SELECT ", ", ");
    OneFragment(Component(tbl, none), "FROM ", " ,");
    TwoFragments(Component(j1, none), Component(j2, none), "", " ");
    OneFragment(Component("(" + w + ")", none), "WHERE ", " AND ");
    OneFragment(Component(g, none), "GROUP BY ", " ,");
    OneFragment(Component("(" + h + ")", none), "HAVING ", " AND ");
    OneFragment(Component(o, none), "ORDER BY ", " ,");
    assert "WHERE " + ("(" + w + ")") == "WHERE (" + w + ")";
    assert "HAVING " + ("(" + h + ")") == "HAVING (" + h + ")";
    assert "" + (j1 + " " + j2) == j1 + " " + j2;
  }

  /** A statement built without arguments has none. */
  lemma FilledArgs(sel: string, tbl: string, j1: string, j2: string, w: string, g: string, h: string, o: string, l: string)
    ensures OrderedArgs(Filled(sel, tbl, j1, j2, w, g, h, o, l)) == []
  {
    var none: seq<string> := [];
    SqlcProperties.ArgsInClauseOrder(Filled(sel, tbl, j1, j2, w, g, h, o, l));
    assert FlatArgs([Component(j1, none), Component(j2, none)]) == FlatArgs([Component(j1, none)]) + none by {
      assert [Component(j1, none), Component(j2, none)][..1] == [Component(j1, none)];
    }
    forall c: Component<string> | c.args == [] ensures FlatArgs([c]) == [] {
      assert [c][..0] == [];
    }
  }

  /** The lines of the composition test, spelled out. */
  lemma MargeLines()
    ensures ["SELECT " + "*", "FROM " + "Employees", "LEFT JOIN Companies" + " " + "INNER JOIN Roles", "WHERE (" + "name = 'Marge'" + ")",
      "GROUP BY " + "role", "HAVING (" + "a=1" + ")", "ORDER BY " + "id", "LIMIT " + "30"] ==
      ["SELECT *", "FROM Employees", "LEFT JOIN Companies INNER JOIN Roles", "WHERE (name = 'Marge')",
       "GROUP BY role", "HAVING (a=1)", "ORDER BY id", "LIMIT 30"]
  {
    assert "SELECT " + "*" == "SELECT *";
    assert "FROM " + "Employees" == "FROM Employees";
    assert "LEFT JOIN Companies" + " " + "INNER JOIN Roles" == "LEFT JOIN Companies INNER JOIN Roles";
    assert "WHERE (" + "name = 'Marge'" + ")" == "WHERE (name = 'Marge')";
    assert "GROUP BY " + "role" == "GROUP BY role";
    assert "HAVING (" + "a=1" + ")" == "HAVING (a=1)";
    assert "ORDER BY " + "id" == "ORDER BY id";
    assert "LIMIT " + "30" == "LIMIT 30";
  }

  /** Stanzas added deliberately out of order come out in grammar order,
      one per line, and no arguments are collected. */
  method BasicComposition() returns (args: seq<string>, sql: string)
    ensures args == []
    ensures sql ==
      "SELECT *" + "\n" +
      "FROM Employees" + "\n" +
      "LEFT JOIN Companies INNER JOIN Roles" + "\n" +
      "WHERE (name = 'Marge')" + "\n" +
      "GROUP BY role" + "\n" +
      "HAVING (a=1)" + "\n" +
      "ORDER BY id" + "\n" +
      "LIMIT 30"
  {
    var s := Empty<string>();
    s := Limit(Order(Group(s, "role", []), "id", []), "30", []);
    s := Where(s, "name = 'Marge'", []);
    s := From(Select(s, "*", []), "Employees", []);
    s := Having(s, "a=1", []);
    s := Join(Join(s, "LEFT JOIN Companies", []), "INNER JOIN Roles", []);
    assert s == Scrambled("*", "Employees", "LEFT JOIN Companies", "INNER JOIN Roles", "name = 'Marge'", "role", "a=1", "id", "30");
    ScrambledIsFilled("*", "Employees", "LEFT JOIN Companies", "INNER JOIN Roles", "name = 'Marge'", "role", "a=1", "id", "30");
    FilledLines("*", "Employees", "LEFT JOIN Companies", "INNER JOIN Roles", "name = 'Marge'", "role", "a=1", "id", "30");
    FilledArgs("*", "Employees", "LEFT JOIN Companies", "INNER JOIN Roles", "name = 'Marge'", "role", "a=1", "id", "30");
    MargeLines();
    JoinEight(Lines(s), "\n");
    args := Args(s);
    sql := SQL(s);
  }

  // TestArgumentComposition: two WHERE conditions with arguments.

  /** The statement two WHERE calls build on the zero statement. */
  function TwoWheres<A>(a: string, xs: seq<A>, b: string, ys: seq<A>): Statement<A>
  {
    WheresOnly([Component("(" + a + ")", xs), Component("(" + b + ")", ys)])
  }

  /** A statement with WHERE conditions only. */
  function WheresOnly<A>(cs: seq<Component<A>>): Statement<A>
  {
    Statement(false, [], [], [], cs, [], [], [], Component("", []))
  }

  /** A statement with WHERE conditions only renders the WHERE line alone. */
  lemma WheresOnlyLines<A>(cs: seq<Component<A>>)
    ensures Lines(WheresOnly(cs)) == Stanza(cs, "WHERE ", " AND ")
  {
    var s := WheresOnly(cs);
    SqlcProperties.LinesInGrammarOrder(s);
    assert LineIfPresent(s, WhereClause) == Stanza(cs, "WHERE ", " AND ");
    assert LineIfPresent(s, SelectClause) == LineIfPresent(s, FromClause) == LineIfPresent(s, JoinClause) == [];
    assert LineIfPresent(s, GroupClause) == LineIfPresent(s, HavingClause) == LineIfPresent(s, OrderClause) == [];
    assert LineIfPresent(s, LimitClause) == [];
  }

  /** Each WHERE call adds its parenthesised condition, in call order. */
  lemma WhereTwice<A>(a: string, xs: seq<A>, b: string, ys: seq<A>)
    ensures Where(Where(Empty<A>(), a, xs), b, ys) == TwoWheres(a, xs, b, ys)
  {
  }

  /** The two conditions are joined with AND on one WHERE line. */
  lemma TwoWheresLines<A>(a: string, xs: seq<A>, b: string, ys: seq<A>)
    ensures Lines(TwoWheres(a, xs, b, ys)) == ["WHERE " + ("(" + a + ")" + " AND " + ("(" + b + ")"))]
  {
    WheresOnlyLines([Component("(" + a + ")", xs), Component("(" + b + ")", ys)]);
    TwoFragments(Component("(" + a + ")", xs), Component("(" + b + ")", ys), "WHERE ", " AND ");
  }

  /** The arguments follow the conditions in call order. */
  lemma TwoWheresArgs<A>(a: string, xs: seq<A>, b: string, ys: seq<A>)
    ensures OrderedArgs(TwoWheres(a, xs, b, ys)) == xs + ys
  {
    var none: seq<A> := [];
    var c, d := Component("(" + a + ")", xs), Component("(" + b + ")", ys);
    SqlcProperties.ArgsInClauseOrder(TwoWheres(a, xs, b, ys));
    assert FlatArgs([c, d]) == FlatArgs([c]) + ys by { assert [c, d][..1] == [c]; }
    assert FlatArgs([c]) == FlatArgs([c][..0]) + xs;
    assert FlatArgs([Component("", none)]) == FlatArgs([Component("", none)][..0]) + none;
  }

  /** A marker followed by text without markers: the marker is numbered
      and the text kept. */
  lemma NumberedStep(b: string, rest: string, c: nat)
    requires '?' !in b
    ensures Numbered("?" + (b + rest), c) == Mark('?', c) + (b + Numbered(rest, c + 1))
  {
    var t := "?" + (b + rest);
    assert t[0] == '?' && t[1..] == b + rest;
    NumberedSkip(b, rest, c + 1);
  }

  /** Three markers between marker-free texts become $1, $2 and $3. */
  lemma NumberedThree(a: string, b: string, c: string, d: string)
    requires '?' !in a && '?' !in b && '?' !in c && '?' !in d
    ensures Numbered(a + ("?" + (b + ("?" + (c + ("?" + d))))), 1) == a + ("$1" + (b + ("$2" + (c + ("$3" + d)))))
  {
    NumberedSkip(a, "?" + (b + ("?" + (c + ("?" + d)))), 1);
    NumberedStep(b, "?" + (c + ("?" + d)), 1);
    NumberedStep(c, "?" + d, 2);
    assert "?" + d == "?" + (d + []);
    NumberedStep(d, [], 3);
    assert Numbered([], 4) == [];
    assert d + [] == d;
    assert Mark('?', 1) == "$1" && Mark('?', 2) == "$2" && Mark('?', 3) == "$3";
  }

  /** The line of the argument test, spelled out: each condition in its
      parentheses, then the two joined, then the keyword. */
  lemma ConditionsLine()
    ensures "WHERE " + ("(" + "name = ? OR name = ?" + ")" + " AND " + ("(" + "role = ?" + ")")) == "WHERE (name = ? OR name = ?) AND (role = ?)"
  {
    FirstCondition();
    SecondCondition();
    BothConditions();
    WhereConditions();
  }

  // The steps of `ConditionsLine`, one literal equation each.

  lemma FirstCondition()
    ensures "(" + "name = ? OR name = ?" + ")" == "(name = ? OR name = ?)"
  {
  }

  lemma SecondCondition()
    ensures "(" + "role = ?" + ")" == "(role = ?)"
  {
  }

  lemma BothConditions()
    ensures "(name = ? OR name = ?)" + " AND " + "(role = ?)" == "(name = ? OR name = ?) AND (role = ?)"
  {
  }

  lemma WhereConditions()
    ensures "WHERE " + "(name = ? OR name = ?) AND (role = ?)" == "WHERE (name = ? OR name = ?) AND (role = ?)"
  {
  }

  /** The same line cut at its markers. */
  lemma ConditionsMarkers()
    ensures "WHERE (name = ? OR name = ?) AND (role = ?)" ==
      "WHERE (name = " + ("?" + (" OR name = " + ("?" + (") AND (role = " + ("?" + ")")))))
  {
  }

  /** The expected PostgreSQL text, cut at its numbered markers. */
  lemma ConditionsNumbered()
    ensures "WHERE (name = $1 OR name = $2) AND (role = $3)" ==
      "WHERE (name = " + ("$1" + (" OR name = " + ("$2" + (") AND (role = " + ("$3" + ")")))))
  {
  }

  /** The arguments come in marker order and the text is the two
      conditions on one WHERE line. */
  method ArgumentComposition() returns (args: seq<string>, sql: string)
    ensures args == ["Marge", "Alice", "Comptroller"]
    ensures sql == "WHERE (name = ? OR name = ?) AND (role = ?)"
  {
    var s := Empty<string>();
    s := Where(Where(s, "name = ? OR name = ?", ["Marge", "Alice"]), "role = ?", ["Comptroller"]);
    WhereTwice("name = ? OR name = ?", ["Marge", "Alice"], "role = ?", ["Comptroller"]);
    TwoWheresLines("name = ? OR name = ?", ["Marge", "Alice"], "role = ?", ["Comptroller"]);
    TwoWheresArgs("name = ? OR name = ?", ["Marge", "Alice"], "role = ?", ["Comptroller"]);
    ConditionsLine();
    assert ["Marge", "Alice"] + ["Comptroller"] == ["Marge", "Alice", "Comptroller"];
    args := Args(s);
    sql := SQL(s);
  }

  /** The same statement switched to PostgreSQL numbers its markers from 1
      in text order. */
  method PostgreSQLArgumentComposition() returns (sql: string)
    ensures sql == "WHERE (name = $1 OR name = $2) AND (role = $3)"
  {
    var s := Empty<string>();
    s := Where(Where(s, "name = ? OR name = ?", ["Marge", "Alice"]), "role = ?", ["Comptroller"]);
    WhereTwice("name = ? OR name = ?", ["Marge", "Alice"], "role = ?", ["Comptroller"]);
    TwoWheresLines("name = ? OR name = ?", ["Marge", "Alice"], "role = ?", ["Comptroller"]);
    ConditionsLine();
    ConditionsMarkers();
    ConditionsNumbered();
    NumberedThree("WHERE (name = ", " OR name = ", ") AND (role = ", ")");
    s := s.(postgreSQL := true);
    SqlcProperties.FlagOnlyRewrites(s, false);
    sql := SQL(s);
  }

  // TestImmutability: building on a statement leaves it as it was.

  /** The two SELECT lines of the immutability test, spelled out. */
  lemma ApplesLines()
    ensures "SELECT " + "apples" == "SELECT apples"
    ensures "SELECT " + ("apples" + ", " + "oranges") == "SELECT apples, oranges"
  {
  }

  /** A statement with SELECT fragments only. */
  function SelectsOnly<A>(cs: seq<Component<A>>): Statement<A>
  {
    Statement(false, cs, [], [], [], [], [], [], Component("", []))
  }

  /** A statement with SELECT fragments only renders the SELECT line alone. */
  lemma SelectsOnlyLines<A>(cs: seq<Component<A>>)
    ensures Lines(SelectsOnly(cs)) == Stanza(cs, "SELECT ", ", ")
  {
    var s := SelectsOnly(cs);
    SqlcProperties.LinesInGrammarOrder(s);
    assert LineIfPresent(s, SelectClause) == Stanza(cs, "SELECT ", ", ");
    assert LineIfPresent(s, FromClause) == LineIfPresent(s, JoinClause) == LineIfPresent(s, WhereClause) == [];
    assert LineIfPresent(s, GroupClause) == LineIfPresent(s, HavingClause) == LineIfPresent(s, OrderClause) == [];
    assert LineIfPresent(s, LimitClause) == [];
  }

  /** The statement one SELECT fragment builds renders that one line. */
  lemma SelectOnly<A>(c: Component<A>)
    ensures Lines(Select(Empty<A>(), c.partial, c.args)) == ["SELECT " + c.partial]
  {
    assert Select(Empty<A>(), c.partial, c.args) == SelectsOnly([c]);
    SelectsOnlyLines([c]);
    OneFragment(c, "SELECT ", ", ");
  }

  /** A second SELECT fragment joins the first on the same line. */
  lemma SelectTwice<A>(c: Component<A>, d: Component<A>)
    ensures Lines(Select(Select(Empty<A>(), c.partial, c.args), d.partial, d.args)) == ["SELECT " + (c.partial + ", " + d.partial)]
  {
    assert Select(Select(Empty<A>(), c.partial, c.args), d.partial, d.args) == SelectsOnly([c, d]);
    SelectsOnlyLines([c, d]);
    TwoFragments(c, d, "SELECT ", ", ");
  }

  /** Rendering the original again after building on it gives the same
      text as before. */
  method Immutability() returns (before: string, modifiedSQL: string, after: string)
    ensures before == "SELECT apples"
    ensures modifiedSQL == "SELECT apples, oranges"
    ensures after == before
  {
    var none: seq<string> := [];
    var orig := Empty<string>();
    orig := Select(orig, "apples", []);
    SelectOnly(Component("apples", none));
    ApplesLines();
    before := SQL(orig);

    var modified := Select(orig, "oranges", []);
    SelectTwice(Component("apples", none), Component("oranges", none));
    modifiedSQL := SQL(modified);

    after := SQL(orig);
  }
}
