/** Statements built by a chain of builder calls. Each call lands in its own
    clause, so the calls on different clauses may be made in any order:
    only the order of the calls on each one clause matters, and for the
    limit only the last call. */
module SqlcCalls {
  import opened Sqlc

  /** One builder call: the clause it adds to, the fragment and its
      arguments. */
  datatype Call<A> = Call(clause: Clause, partial: string, args: seq<A>)

  /** The component a call stores: WHERE and HAVING conditions are wrapped
      in parentheses, everything else is kept as given. */
  function Stored<A>(c: Call<A>): Component<A>
  {
    if c.clause == WhereClause || c.clause == HavingClause then Component("(" + c.partial + ")", c.args)
    else Component(c.partial, c.args)
  }

  /** The builder a call names, applied to a statement: the stored component
      is appended to a list clause or replaces the limit, and nothing else
      changes. */
  function Apply<A>(s: Statement<A>, c: Call<A>): (r: Statement<A>)
    ensures Items(r, c.clause) == (if c.clause == LimitClause then [] else Items(s, c.clause)) + [Stored(c)]
    ensures forall k :: k != c.clause ==> Items(r, k) == Items(s, k)
    ensures r.postgreSQL == s.postgreSQL
  {
    match c.clause
    case SelectClause => Select(s, c.partial, c.args)
    case FromClause => From(s, c.partial, c.args)
    case JoinClause => Join(s, c.partial, c.args)
    case WhereClause => Where(s, c.partial, c.args)
    case GroupClause => Group(s, c.partial, c.args)
    case HavingClause => Having(s, c.partial, c.args)
    case OrderClause => Order(s, c.partial, c.args)
    case LimitClause => Limit(s, c.partial, c.args)
  }

  /** The calls made one after another, first to last. */
  function Chain<A>(s: Statement<A>, calls: seq<Call<A>>): Statement<A>
  {
    if calls == [] then s else Apply(Chain(s, calls[..|calls| - 1]), calls[|calls| - 1])
  }

  /** The components stored by the calls on clause `k`, in call order. */
  function Added<A>(calls: seq<Call<A>>, k: Clause): seq<Component<A>>
  {
    if calls == [] then []
    else
      var c := calls[|calls| - 1];
      Added(calls[..|calls| - 1], k) + if c.clause == k then [Stored(c)] else []
  }

  /** The last element of a non-empty sequence. */
  function Last<T>(xs: seq<T>): T
    requires xs != []
  {
    xs[|xs| - 1]
  }

  /** After a chain of calls, a list clause holds its old components and
      then those the calls stored on it, in call order. */
  lemma {:induction false} ChainItems<A>(s: Statement<A>, calls: seq<Call<A>>, k: Clause)
    requires k != LimitClause
    ensures Items(Chain(s, calls), k) == Items(s, k) + Added(calls, k)
  {
    if calls != [] {
      var init, c := calls[..|calls| - 1], calls[|calls| - 1];
      ChainItems(s, init, k);
      var t := Chain(s, init);
      if c.clause == k {
        assert Items(Apply(t, c), k) == Items(t, k) + [Stored(c)];
        assert Added(calls, k) == Added(init, k) + [Stored(c)];
      } else {
        assert Items(Apply(t, c), k) == Items(t, k);
        assert Added(calls, k) == Added(init, k) + [];
      }
    }
  }

  /** After a chain of calls, the limit slot holds the last limit a call
      stored, or the old one when no call set it; the dialect flag is
      unchanged. */
  lemma {:induction false} ChainLimit<A>(s: Statement<A>, calls: seq<Call<A>>)
    ensures Chain(s, calls).limit == Last([s.limit] + Added(calls, LimitClause))
    ensures Chain(s, calls).postgreSQL == s.postgreSQL
  {
    if calls != [] {
      var init, c := calls[..|calls| - 1], calls[|calls| - 1];
      ChainLimit(s, init);
      var t := Chain(s, init);
      assert Items(Apply(t, c), LimitClause) == [Apply(t, c).limit];
      if c.clause == LimitClause {
        assert Added(calls, LimitClause) == Added(init, LimitClause) + [Stored(c)];
      } else {
        assert Items(Apply(t, c), LimitClause) == Items(t, LimitClause);
        assert Added(calls, LimitClause) == Added(init, LimitClause) + [];
      }
    }
  }

  /** Order independence across clauses: two chains that make the same
      calls on each clause, in the same order per clause, build the same
      statement however they interleave. */
  lemma CallOrderIrrelevant<A>(s: Statement<A>, calls1: seq<Call<A>>, calls2: seq<Call<A>>)
    requires forall k :: Added(calls1, k) == Added(calls2, k)
    ensures Chain(s, calls1) == Chain(s, calls2)
  {
    var r1, r2 := Chain(s, calls1), Chain(s, calls2);
    forall k | k != LimitClause
      ensures Items(r1, k) == Items(r2, k)
    {
      ChainItems(s, calls1, k);
      ChainItems(s, calls2, k);
    }
    ChainLimit(s, calls1);
    ChainLimit(s, calls2);
    assert r1.selects == Items(r1, SelectClause);
    assert r1.froms == Items(r1, FromClause);
    assert r1.joins == Items(r1, JoinClause);
    assert r1.wheres == Items(r1, WhereClause);
    assert r1.groups == Items(r1, GroupClause);
    assert r1.havings == Items(r1, HavingClause);
    assert r1.orders == Items(r1, OrderClause);
  }

  /** Two calls on different clauses commute. */
  lemma DistinctClausesCommute<A>(s: Statement<A>, a: Call<A>, b: Call<A>)
    requires a.clause != b.clause
    ensures Apply(Apply(s, a), b) == Apply(Apply(s, b), a)
  {
    forall k ensures Added([a, b], k) == Added([b, a], k) {
      assert [a, b][..1] == [a] && [b, a][..1] == [b];
      assert [a][..0] == [] && [b][..0] == [];
    }
    CallOrderIrrelevant(s, [a, b], [b, a]);
    assert [a, b][..1] == [a] && [b, a][..1] == [b];
    assert [a][..0] == [] && [b][..0] == [];
  }
}
