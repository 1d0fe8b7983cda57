/** A SQL statement assembled from independently added stanzas (SELECT, FROM,
    joins, WHERE, GROUP BY, HAVING, ORDER BY, LIMIT), each a fragment of SQL
    text with the bind arguments of its `?` placeholders. Builders return a
    new statement; `SQL` renders the text in grammar order and `Args` lists
    the arguments in the same order. */
module Sqlc {
  import GoStrings

  /** One builder call's contribution: a fragment and its bind arguments.
      The arguments are opaque: they are only ordered and concatenated. */
  datatype Component<A> = Component(partial: string, args: seq<A>)

  /** A statement being built. `postgreSQL` asks for `?` to be rendered as
      `$1`, `$2`, ...; the limit is one slot whose empty fragment means
      "no LIMIT". */
  datatype Statement<A> = Statement(
    postgreSQL: bool,
    selects: seq<Component<A>>,
    froms: seq<Component<A>>,
    joins: seq<Component<A>>,
    wheres: seq<Component<A>>,
    groups: seq<Component<A>>,
    havings: seq<Component<A>>,
    orders: seq<Component<A>>,
    limit: Component<A>)

  /** The zero value `Statement{}`: MySQL mode, no clause holds a
      component, and the limit slot is the zero `component{}`. */
  function Empty<A>(): (e: Statement<A>)
    ensures !e.postgreSQL
    ensures forall k :: k != LimitClause ==> Items(e, k) == []
    ensures e.limit.partial == "" && e.limit.args == []
  {
    Statement(false, [], [], [], [], [], [], [], Component("", []))
  }

  /** The clause kinds, listed in the order they are rendered. */
  datatype Clause =
    SelectClause | FromClause | JoinClause | WhereClause | GroupClause | HavingClause | OrderClause | LimitClause

  /** The number of clause kinds. */
  const ClauseCount: nat := 8

  /** The clause rendered in position `i` (from 0). */
  function ClauseAt(i: nat): Clause
    requires i < ClauseCount
  {
    if i == 0 then SelectClause
    else if i == 1 then FromClause
    else if i == 2 then JoinClause
    else if i == 3 then WhereClause
    else if i == 4 then GroupClause
    else if i == 5 then HavingClause
    else if i == 6 then OrderClause
    else LimitClause
  }

  /** The position of a clause in the rendered text; the inverse of `ClauseAt`. */
  function Rank(k: Clause): (i: nat)
    ensures i < ClauseCount && ClauseAt(i) == k
  {
    match k
    case SelectClause => 0
    case FromClause => 1
    case JoinClause => 2
    case WhereClause => 3
    case GroupClause => 4
    case HavingClause => 5
    case OrderClause => 6
    case LimitClause => 7
  }

  /** The components of one clause; the limit slot is a list of one. */
  function Items<A>(s: Statement<A>, k: Clause): seq<Component<A>>
  {
    match k
    case SelectClause => s.selects
    case FromClause => s.froms
    case JoinClause => s.joins
    case WhereClause => s.wheres
    case GroupClause => s.groups
    case HavingClause => s.havings
    case OrderClause => s.orders
    case LimitClause => [s.limit]
  }

  /** The keyword that opens a clause's line; joins carry their own. */
  function Prefix(k: Clause): string
  {
    match k
    case SelectClause => "SELECT "
    case FromClause => "FROM "
    case JoinClause => ""
    case WhereClause => "WHERE "
    case GroupClause => "GROUP BY "
    case HavingClause => "HAVING "
    case OrderClause => "ORDER BY "
    case LimitClause => "LIMIT "
  }

  /** The text placed between two fragments of one clause. FROM, GROUP BY
      and ORDER BY use " ," as the source writes it; the limit slot never
      holds two fragments. */
  function Joiner(k: Clause): string
  {
    match k
    case SelectClause => ", "
    case FromClause => " ,"
    case JoinClause => " "
    case WhereClause => " AND "
    case GroupClause => " ,"
    case HavingClause => " AND "
    case OrderClause => " ,"
    case LimitClause => ""
  }

  /** Every keyword but the joins' (which carry their own) is non-empty
      and ends in a space, so it never runs into the first fragment; no
      keyword holds a `?` marker or a line break. */
  lemma PrefixShape(k: Clause)
    ensures Prefix(k) == "" <==> k == JoinClause
    ensures Prefix(k) != "" ==> Prefix(k)[|Prefix(k)| - 1] == ' '
    ensures '?' !in Prefix(k) && '\n' !in Prefix(k)
  {
  }

  /** Every list clause separates its fragments by a non-empty joiner;
      FROM, GROUP BY and ORDER BY are exactly the clauses joined by " ,".
      No joiner holds a `?` marker or a line break. */
  lemma JoinerShape(k: Clause)
    ensures k != LimitClause ==> Joiner(k) != ""
    ensures Joiner(k) == " ," <==> k == FromClause || k == GroupClause || k == OrderClause
    ensures '?' !in Joiner(k) && '\n' !in Joiner(k)
  {
  }

  // Builders. Each takes the receiver by value and returns the new statement.

  /** `Select` appends a SELECT stanza. */
  function Select<A>(s: Statement<A>, partial: string, args: seq<A>): (r: Statement<A>)
    ensures Items(r, SelectClause) == Items(s, SelectClause) + [Component(partial, args)]
    ensures forall k :: k != SelectClause ==> Items(r, k) == Items(s, k)
    ensures r.postgreSQL == s.postgreSQL
  {
    s.(selects := s.selects + [Component(partial, args)])
  }

  /** `From` appends a FROM stanza. */
  function From<A>(s: Statement<A>, partial: string, args: seq<A>): (r: Statement<A>)
    ensures Items(r, FromClause) == Items(s, FromClause) + [Component(partial, args)]
    ensures forall k :: k != FromClause ==> Items(r, k) == Items(s, k)
    ensures r.postgreSQL == s.postgreSQL
  {
    s.(froms := s.froms + [Component(partial, args)])
  }

  /** `Join` appends a join stanza; the caller writes the JOIN keyword. */
  function Join<A>(s: Statement<A>, partial: string, args: seq<A>): (r: Statement<A>)
    ensures Items(r, JoinClause) == Items(s, JoinClause) + [Component(partial, args)]
    ensures forall k :: k != JoinClause ==> Items(r, k) == Items(s, k)
    ensures r.postgreSQL == s.postgreSQL
  {
    s.(joins := s.joins + [Component(partial, args)])
  }

  /** `Where` appends a WHERE condition wrapped in parentheses. */
  function Where<A>(s: Statement<A>, partial: string, args: seq<A>): (r: Statement<A>)
    ensures Items(r, WhereClause) == Items(s, WhereClause) + [Component("(" + partial + ")", args)]
    ensures forall k :: k != WhereClause ==> Items(r, k) == Items(s, k)
    ensures r.postgreSQL == s.postgreSQL
  {
    s.(wheres := s.wheres + [Component("(" + partial + ")", args)])
  }

  /** `Having` appends a HAVING condition wrapped in parentheses. */
  function Having<A>(s: Statement<A>, partial: string, args: seq<A>): (r: Statement<A>)
    ensures Items(r, HavingClause) == Items(s, HavingClause) + [Component("(" + partial + ")", args)]
    ensures forall k :: k != HavingClause ==> Items(r, k) == Items(s, k)
    ensures r.postgreSQL == s.postgreSQL
  {
    s.(havings := s.havings + [Component("(" + partial + ")", args)])
  }

  /** `Group` appends a GROUP BY stanza. */
  function Group<A>(s: Statement<A>, partial: string, args: seq<A>): (r: Statement<A>)
    ensures Items(r, GroupClause) == Items(s, GroupClause) + [Component(partial, args)]
    ensures forall k :: k != GroupClause ==> Items(r, k) == Items(s, k)
    ensures r.postgreSQL == s.postgreSQL
  {
    s.(groups := s.groups + [Component(partial, args)])
  }

  /** `Order` appends an ORDER BY stanza. */
  function Order<A>(s: Statement<A>, partial: string, args: seq<A>): (r: Statement<A>)
    ensures Items(r, OrderClause) == Items(s, OrderClause) + [Component(partial, args)]
    ensures forall k :: k != OrderClause ==> Items(r, k) == Items(s, k)
    ensures r.postgreSQL == s.postgreSQL
  {
    s.(orders := s.orders + [Component(partial, args)])
  }

  /** `Limit` sets or overwrites the LIMIT slot. */
  function Limit<A>(s: Statement<A>, partial: string, args: seq<A>): (r: Statement<A>)
    ensures Items(r, LimitClause) == [Component(partial, args)]
    ensures forall k :: k != LimitClause ==> Items(r, k) == Items(s, k)
    ensures r.postgreSQL == s.postgreSQL
  {
    s.(limit := Component(partial, args))
  }

  // What the renderer produces, stated as functions.

  /** The fragments of some components, in order. */
  function Partials<A>(cs: seq<Component<A>>): (ps: seq<string>)
  {
    seq(|cs|, i requires 0 <= i < |cs| => cs[i].partial)
  }

  /** The arguments of some components, concatenated in order. */
  function FlatArgs<A>(cs: seq<Component<A>>): seq<A>
  {
    if cs == [] then [] else FlatArgs(cs[..|cs| - 1]) + cs[|cs| - 1].args
  }

  /** A clause gets a line when it has components; the limit when its
      fragment is not empty. */
  predicate Present<A>(s: Statement<A>, k: Clause)
  {
    if k == LimitClause then s.limit.partial != "" else Items(s, k) != []
  }

  /** The line of one clause: its keyword, then its fragments joined. */
  function Line<A>(s: Statement<A>, k: Clause): string
  {
    Prefix(k) + GoStrings.Join(Partials(Items(s, k)), Joiner(k))
  }

  /** What one list clause adds to the lines: nothing without components,
      otherwise its keyword followed by the fragments joined. */
  function Stanza<A>(components: seq<Component<A>>, keyword: string, joiner: string): seq<string>
  {
    if |components| > 0 then [keyword + GoStrings.Join(Partials(components), joiner)] else []
  }

  /** What a clause adds to the lines, as `SQL` builds them. */
  function LineIfPresent<A>(s: Statement<A>, k: Clause): seq<string>
  {
    if k == LimitClause then (if s.limit.partial != "" then ["LIMIT " + s.limit.partial] else [])
    else Stanza(Items(s, k), Prefix(k), Joiner(k))
  }

  /** The lines of the present clauses among the first `n`, in order. */
  function LinesUpTo<A>(s: Statement<A>, n: nat): seq<string>
    requires n <= ClauseCount
  {
    if n == 0 then [] else LinesUpTo(s, n - 1) + LineIfPresent(s, ClauseAt(n - 1))
  }

  /** The arguments of the first `n` clauses, in order. */
  function ArgsUpTo<A>(s: Statement<A>, n: nat): seq<A>
    requires n <= ClauseCount
  {
    if n == 0 then [] else ArgsUpTo(s, n - 1) + FlatArgs(Items(s, ClauseAt(n - 1)))
  }

  /** The lines of the whole statement, one per present clause. */
  function Lines<A>(s: Statement<A>): seq<string>
  {
    LinesUpTo(s, ClauseCount)
  }

  /** The rendered text before any placeholder rewriting. */
  function Assembled<A>(s: Statement<A>): string
  {
    GoStrings.Join(Lines(s), "\n")
  }

  /** The bind arguments of the whole statement. */
  function OrderedArgs<A>(s: Statement<A>): seq<A>
  {
    ArgsUpTo(s, ClauseCount)
  }

  // Placeholders.

  /** The number of `?` markers in a text. */
  function Holes(t: string): nat
  {
    multiset(t)['?']
  }

  /** What one character becomes when the text is numbered from `c`:
      a `?` becomes `$` and `c` in decimal, anything else stays. */
  function Mark(ch: char, c: nat): string
  {
    if ch == '?' then "$" + GoStrings.Decimal(c) else [ch]
  }

  /** The number the rest of the text is numbered from after `ch`. */
  function Next(ch: char, c: nat): nat
  {
    if ch == '?' then c + 1 else c
  }

  /** Reference definition of the PostgreSQL rewrite, read left to right:
      the k-th `?` (from 0) becomes `$` followed by `c + k` in decimal, and
      every other character is kept. */
  function Numbered(t: string, c: nat): string
  {
    if t == [] then [] else Mark(t[0], c) + Numbered(t[1..], Next(t[0], c))
  }

  /** Replacing the first `?` of a text by a `?`-free string removes one
      marker. */
  lemma {:induction false} ReplaceFirstHoles(t: string, arg: string)
    requires '?' !in arg
    ensures '?' in t ==> Holes(GoStrings.ReplaceFirst(t, '?', arg)) == Holes(t) - 1
  {
    if t == [] {
    } else if t[0] == '?' {
      HolesCons(t);
      assert multiset(arg + t[1..]) == multiset(arg) + multiset(t[1..]);
    } else {
      var rest := GoStrings.ReplaceFirst(t[1..], '?', arg);
      HolesCons(t);
      ReplaceFirstHoles(t[1..], arg);
      HolesCons([t[0]] + rest);
      assert ([t[0]] + rest)[1..] == rest;
    }
  }

  /** `replacePositionalArguments`: replace the first `?` by `$c`, and go on
      with `c + 1` while the text still changes. It ends because every step
      removes one `?` and `$c` holds none. */
  function ReplacePositional(sql: string, c: nat): (r: string)
    ensures '?' !in r
    ensures '?' !in sql ==> r == sql
    decreases Holes(sql)
  {
    var arg := "$" + GoStrings.Decimal(c);
    var newSql := GoStrings.ReplaceFirst(sql, '?', arg);
    ReplaceFirstHoles(sql, arg);
    if newSql != sql then ReplacePositional(newSql, c + 1) else newSql
  }

  // The imperative parts of the renderer.

  /** `joinParts`: gather the fragments in a loop, then join them. */
  method JoinParts<A>(components: seq<Component<A>>, joiner: string) returns (r: string)
    ensures r == GoStrings.Join(Partials(components), joiner)
  {
    var partials: seq<string> := [];
    for i := 0 to |components|
      invariant partials == Partials(components[..i])
    {
      assert components[..i + 1][..i] == components[..i];
      partials := partials + [components[i].partial];
    }
    assert components[..|components|] == components;
    r := GoStrings.Join(partials, joiner);
  }

  /** The `*[]interface{}` that `appendArgs` extends in place. */
  class ArgSlice<A> {
    var elems: seq<A>

    constructor ()
      ensures elems == []
    {
      elems := [];
    }
  }

  /** `appendArgs`: append the arguments of each component that has any. */
  method AppendArgs<A>(args: ArgSlice<A>, components: seq<Component<A>>)
    modifies args
    ensures args.elems == old(args.elems) + FlatArgs(components)
  {
    for i := 0 to |components|
      invariant args.elems == old(args.elems) + FlatArgs(components[..i])
    {
      assert components[..i + 1][..i] == components[..i];
      var component := components[i];
      if |component.args| > 0 {
        args.elems := args.elems + component.args;
      }
    }
    assert components[..|components|] == components;
  }

  /** `Args`: the arguments clause by clause in grammar order, the limit's
      last whether or not LIMIT is rendered. */
  method Args<A>(s: Statement<A>) returns (args: seq<A>)
    ensures args == OrderedArgs(s)
  {
    var buffer := new ArgSlice<A>();
    AppendArgs(buffer, s.selects);
    assert buffer.elems == ArgsUpTo(s, 1);
    AppendArgs(buffer, s.froms);
    assert buffer.elems == ArgsUpTo(s, 2);
    AppendArgs(buffer, s.joins);
    assert buffer.elems == ArgsUpTo(s, 3);
    AppendArgs(buffer, s.wheres);
    assert buffer.elems == ArgsUpTo(s, 4);
    AppendArgs(buffer, s.groups);
    assert buffer.elems == ArgsUpTo(s, 5);
    AppendArgs(buffer, s.havings);
    assert buffer.elems == ArgsUpTo(s, 6);
    AppendArgs(buffer, s.orders);
    assert buffer.elems == ArgsUpTo(s, 7);
    AppendArgs(buffer, [s.limit]);
    args := buffer.elems;
  }

  /** The step `SQL` repeats for every list clause: when the clause has
      components, append its keyword and its joined fragments. */
  method AppendStanza<A>(parts: seq<string>, components: seq<Component<A>>, keyword: string, joiner: string) returns (r: seq<string>)
    ensures r == parts + Stanza(components, keyword, joiner)
  {
    r := parts;
    if |components| > 0 {
      var joined := JoinParts(components, joiner);
      r := r + [keyword + joined];
    }
  }

  /** `SQL`: one line per present clause in grammar order, joined by line
      breaks; in PostgreSQL mode the `?` markers are then numbered. */
  method SQL<A>(s: Statement<A>) returns (sql: string)
    ensures sql == if s.postgreSQL then Numbered(Assembled(s), 1) else Assembled(s)
  {
    var parts: seq<string> := [];
    parts := AppendStanza(parts, s.selects, "SELECT ", ", ");
    assert parts == LinesUpTo(s, 1);
    parts := AppendStanza(parts, s.froms, "FROM ", " ,");
    assert parts == LinesUpTo(s, 2);
    parts := AppendStanza(parts, s.joins, "", " ");
    assert parts == LinesUpTo(s, 3);
    parts := AppendStanza(parts, s.wheres, "WHERE ", " AND ");
    assert parts == LinesUpTo(s, 4);
    parts := AppendStanza(parts, s.groups, "GROUP BY ", " ,");
    assert parts == LinesUpTo(s, 5);
    parts := AppendStanza(parts, s.havings, "HAVING ", " AND ");
    assert parts == LinesUpTo(s, 6);
    parts := AppendStanza(parts, s.orders, "ORDER BY ", " ,");
    assert parts == LinesUpTo(s, 7);
    if s.limit.partial != "" {
      parts := parts + ["LIMIT " + s.limit.partial];
    }
    assert parts == Lines(s);
    sql := GoStrings.Join(parts, "\n");
    if s.postgreSQL {
      ReplacePositionalIsNumbered(sql, 1);
      sql := ReplacePositional(sql, 1);
    }
  }

  /** Holes of a non-empty text: its first character's, then the rest's. */
  lemma HolesCons(t: string)
    requires t != []
    ensures Holes(t) == (if t[0] == '?' then 1 else 0) + Holes(t[1..])
  {
    assert t == [t[0]] + t[1..];
  }

  /** A numbered text holds no `?`. */
  lemma {:induction false} NumberedHoleFree(t: string, c: nat)
    ensures '?' !in Numbered(t, c)
  {
    if t != [] {
      NumberedHoleFree(t[1..], Next(t[0], c));
    }
  }

  /** Concatenation is associative. */
  lemma ConcatAssoc(x: string, y: string, z: string)
    ensures x + (y + z) == (x + y) + z
  {
  }

  /** A concatenation with a non-empty first part starts with that part's
      first character, and the rest is the first part's rest followed by
      the second part. */
  lemma ConsAppend(a: string, b: string)
    requires a != []
    ensures (a + b)[0] == a[0] && (a + b)[1..] == a[1..] + b
  {
  }

  /** A `?`-free prefix is copied as it is; with `q` empty, a `?`-free text
      is left unchanged. */
  lemma {:induction false} NumberedSkip(p: string, q: string, c: nat)
    requires '?' !in p
    ensures Numbered(p + q, c) == p + Numbered(q, c)
  {
    if p == [] {
      assert p + q == q;
    } else {
      ConsAppend(p, q);
      NumberedSkip(p[1..], q, c);
      ConcatAssoc(Mark(p[0], c), p[1..], Numbered(q, c));
      assert Mark(p[0], c) + p[1..] == p;
    }
  }

  /** Numbering distributes over concatenation: the second part's count
      starts after the first part's markers. */
  lemma {:induction false} NumberedAppend(a: string, b: string, c: nat)
    ensures Numbered(a + b, c) == Numbered(a, c) + Numbered(b, c + Holes(a))
  {
    if a == [] {
      assert a + b == b;
    } else {
      ConsAppend(a, b);
      HolesCons(a);
      var d := Next(a[0], c);
      NumberedAppend(a[1..], b, d);
      ConcatAssoc(Mark(a[0], c), Numbered(a[1..], d), Numbered(b, d + Holes(a[1..])));
    }
  }

  /** One step of the rewrite: with a `?` left, the first one becomes
      `$c`, one marker fewer is left, and the rewrite goes on from `c + 1`. */
  lemma ReplacePositionalStep(t: string, c: nat)
    requires '?' in t
    ensures var next := GoStrings.ReplaceFirst(t, '?', "$" + GoStrings.Decimal(c));
      Holes(next) < Holes(t) && ReplacePositional(t, c) == ReplacePositional(next, c + 1)
  {
    ReplaceFirstHoles(t, "$" + GoStrings.Decimal(c));
  }

  /** Writing `$c` over the first `?` and numbering the rest from `c + 1`
      numbers the whole text from `c`. */
  lemma {:induction false} ReplaceFirstNumbered(t: string, c: nat)
    requires '?' in t
    ensures Numbered(GoStrings.ReplaceFirst(t, '?', "$" + GoStrings.Decimal(c)), c + 1) == Numbered(t, c)
  {
    var arg := "$" + GoStrings.Decimal(c);
    if t[0] == '?' {
      NumberedSkip(arg, t[1..], c + 1);
    } else {
      var rest := GoStrings.ReplaceFirst(t[1..], '?', arg);
      assert ([t[0]] + rest)[0] == t[0] && ([t[0]] + rest)[1..] == rest;
      ReplaceFirstNumbered(t[1..], c);
    }
  }

  /** The recursive rewrite of the source agrees with the left-to-right
      reference definition. */
  lemma {:induction false} ReplacePositionalIsNumbered(t: string, c: nat)
    ensures ReplacePositional(t, c) == Numbered(t, c)
    decreases Holes(t)
  {
    if '?' in t {
      var next := GoStrings.ReplaceFirst(t, '?', "$" + GoStrings.Decimal(c));
      ReplacePositionalStep(t, c);
      ReplacePositionalIsNumbered(next, c + 1);
      ReplaceFirstNumbered(t, c);
    } else {
      NumberedSkip(t, [], c);
      assert t + [] == t;
    }
  }
}
