/**
 * The query builder the models' scopes write into: a list of where-clauses, each joined to
 * the ones before it by `and` (`where`) or `or` (`orWhere`), a clause being either a test on
 * one record or a parenthesised group (`where(function ($query) { ... })`).
 */
module Query {

  datatype Conn = And | Or

  datatype Cond<!R> = Where(test: R -> bool) | Nested(group: seq<Clause<R>>)

  datatype Clause<!R> = Clause(conn: Conn, cond: Cond<R>)

  /**
   * The `$type` argument of a scope: the exact string "and" selects `where`, every other
   * string selects `orWhere`.
   */
  function ConnOf(kind: string): (c: Conn)
  {
    if kind == "and" then And else Or
  }

  lemma ConnOfOnlyExactAnd(kind: string)
    ensures ConnOf(kind) == And <==> kind == "and"
    ensures ConnOf("AND") == Or && ConnOf("or") == Or && ConnOf("") == Or
  {
  }

  /**
   * The state of a left-to-right reading in which AND binds tighter than OR: `done` says
   * whether some already closed AND-group held, `cur` whether the open AND-group holds so far.
   */
  datatype Groups = Groups(done: bool, cur: bool)

  function Holds<R>(c: Cond<R>, r: R): bool
    decreases c
  {
    match c
    case Where(test) => test(r)
    case Nested(g) => Eval(g, r)
  }

  /** Reading of `q`; the connector of the first clause is ignored, as the builder drops it. */
  function Scan<R>(q: seq<Clause<R>>, r: R): Groups
    decreases q, 0
  {
    if q == [] then Groups(false, true)
    else if |q| == 1 then
      var first := q[0];
      assert first in q && first.cond < first;
      Groups(false, Holds(first.cond, r))
    else
      var g := Scan(q[..|q| - 1], r);
      var last := q[|q| - 1];
      assert last in q && last.cond < last;
      match last.conn
      case And => Groups(g.done, g.cur && Holds(last.cond, r))
      case Or => Groups(g.done || g.cur, Holds(last.cond, r))
  }

  /** Whether record `r` satisfies the where-clauses `q` (an empty list keeps everything). */
  function Eval<R>(q: seq<Clause<R>>, r: R): bool
    decreases q, 1
  {
    var g := Scan(q, r);
    g.done || g.cur
  }

  /**
   * What a clause with truth value `p`, appended to `q` with connector `conn`, makes of the
   * whole list: an AND joins the last group, an OR opens a new one.
   */
  function Extended<R>(q: seq<Clause<R>>, conn: Conn, r: R, p: bool): bool
  {
    if q == [] then p
    else match conn
      case And => Scan(q, r).done || (Scan(q, r).cur && p)
      case Or => Eval(q, r) || p
  }

  lemma ScanSnoc<R>(q: seq<Clause<R>>, cl: Clause<R>, r: R)
    ensures q == [] ==> Scan(q + [cl], r) == Groups(false, Holds(cl.cond, r))
    ensures q != [] ==> Eval(q + [cl], r) == Extended(q, cl.conn, r, Holds(cl.cond, r))
  {
    assert (q + [cl])[..|q|] == q;
  }

  /** Appending to a non-empty list steps its reading by one clause. */
  lemma ScanSnocState<R>(q: seq<Clause<R>>, cl: Clause<R>, r: R)
    requires q != []
    ensures Scan(q + [cl], r) == match cl.conn
      case And => Groups(Scan(q, r).done, Scan(q, r).cur && Holds(cl.cond, r))
      case Or => Groups(Scan(q, r).done || Scan(q, r).cur, Holds(cl.cond, r))
  {
    assert (q + [cl])[..|q|] == q;
  }

  /** Repeating an AND-joined test changes nothing. */
  lemma AndRepeatIdempotent<R(!new)>(q: seq<Clause<R>>, test: R -> bool, r: R)
    ensures Eval(Append(Append(q, And, test), And, test), r) == Eval(Append(q, And, test), r)
  {
    var once := Append(q, And, test);
    if q != [] {
      ScanSnocState(q, Clause(And, Where(test)), r);
    } else {
      ScanSnoc(q, Clause(And, Where(test)), r);
    }
    assert once == q + [Clause(And, Where(test))];
  }

  /** `$query->where(...)` / `$query->orWhere(...)`: appends one clause. */
  function Push<R(!new)>(q: seq<Clause<R>>, conn: Conn, cond: Cond<R>): (res: seq<Clause<R>>)
    ensures |res| == |q| + 1 && res[..|q|] == q
    ensures forall r :: Eval(res, r) == Extended(q, conn, r, Holds(cond, r))
  {
    var res := q + [Clause(conn, cond)];
    forall r ensures Eval(res, r) == Extended(q, conn, r, Holds(cond, r)) {
      ScanSnoc(q, Clause(conn, cond), r);
    }
    res
  }

  /** Appends a test on one record. */
  function Append<R(!new)>(q: seq<Clause<R>>, conn: Conn, test: R -> bool): (res: seq<Clause<R>>)
    ensures |res| == |q| + 1 && res[..|q|] == q
    ensures forall r :: Eval(res, r) == Extended(q, conn, r, test(r))
  {
    Push(q, conn, Where(test))
  }

  /** Appends a parenthesised group. */
  function AppendGroup<R(!new)>(q: seq<Clause<R>>, conn: Conn, group: seq<Clause<R>>): (res: seq<Clause<R>>)
    ensures |res| == |q| + 1 && res[..|q|] == q
    ensures forall r :: Eval(res, r) == Extended(q, conn, r, Eval(group, r))
  {
    Push(q, conn, Nested(group))
  }

  /** Adding an AND clause can only narrow what the list keeps. */
  lemma AndNarrows<R>(q: seq<Clause<R>>, r: R, p: bool)
    ensures Extended(q, And, r, p) ==> Eval(q, r)
  {
  }

  /**
   * Adding an OR clause to a non-empty list can only widen what it keeps; on an empty list the
   * connector is dropped and the clause filters like an AND.
   */
  lemma OrWidens<R>(q: seq<Clause<R>>, r: R, p: bool)
    ensures q == [] ==> Extended(q, Or, r, p) == p
    ensures q != [] ==> Eval(q, r) ==> Extended(q, Or, r, p)
  {
  }

  /** Every clause after the first is joined with AND: the list is one conjunction. */
  predicate Conjunctive<R>(q: seq<Clause<R>>)
  {
    forall i :: 0 < i < |q| ==> q[i].conn == And
  }

  /** A conjunctive list holds exactly when all its clauses do. */
  lemma {:induction false} ConjunctiveEval<R>(q: seq<Clause<R>>, r: R)
    requires Conjunctive(q)
    ensures Eval(q, r) <==> forall i :: 0 <= i < |q| ==> Holds(q[i].cond, r)
    ensures q != [] ==> !Scan(q, r).done
  {
    if |q| > 1 {
      var p := q[..|q| - 1];
      assert q == p + [q[|q| - 1]];
      ConjunctiveEval(p, r);
      ScanSnoc(p, q[|q| - 1], r);
      assert forall i :: 0 <= i < |p| ==> p[i] == q[i];
    }
  }

  /** On a conjunctive list, an AND clause is plain conjunction. */
  lemma AndOnConjunctive<R>(q: seq<Clause<R>>, r: R, p: bool)
    requires Conjunctive(q)
    ensures Extended(q, And, r, p) == (Eval(q, r) && p)
  {
    if q != [] {
      ConjunctiveEval(q, r);
    }
  }

  // ---------------------------------------------------------------- local scopes

  /** Some clause of `q`, the first included, was added with `orWhere`. */
  predicate HasOr<R>(q: seq<Clause<R>>)
  {
    exists i :: 0 <= i < |q| && q[i].conn == Or
  }

  /**
   * What a local scope is applied to. When the clauses already on the query contain an
   * `orWhere`, Eloquent's scope call wraps all of them in one group (keeping the first
   * connector) before the scope adds its own, so the scope's clause cannot bind into the last
   * OR-branch; otherwise the clauses stay as they are.
   */
  function ScopeBase<R(!new)>(q: seq<Clause<R>>): (g: seq<Clause<R>>)
    ensures Conjunctive(g)
    ensures |g| <= |q| && (g == [] <==> q == [])
    ensures forall r :: Eval(g, r) == Eval(q, r)
  {
    if HasOr(q) then
      var g := [Clause(q[0].conn, Nested(q))];
      assert forall r :: Eval(g, r) == Holds(Nested(q), r);
      g
    else q
  }

  /** The meaning of a scope condition `p` applied with `conn` to the query `q`. */
  predicate Scoped<R>(q: seq<Clause<R>>, conn: Conn, r: R, p: bool)
  {
    if q == [] then p
    else match conn
      case And => Eval(q, r) && p
      case Or => Eval(q, r) || p
  }

  /**
   * A local scope adding one test with `where` (`conn` = And) or `orWhere` (`conn` = Or): the
   * result is the whole earlier query joined with the test, whatever the earlier ORs were.
   */
  function ApplyScope<R(!new)>(q: seq<Clause<R>>, conn: Conn, test: R -> bool): (res: seq<Clause<R>>)
    ensures res != []
    ensures forall r :: Eval(res, r) == Scoped(q, conn, r, test(r))
  {
    var g := ScopeBase(q);
    var res := Append(g, conn, test);
    forall r ensures Eval(res, r) == Scoped(q, conn, r, test(r)) {
      AndOnConjunctive(g, r, test(r));
    }
    res
  }

  /** A local scope adding one parenthesised group (`where(function ($query) { ... })`). */
  function ApplyScopeGroup<R(!new)>(q: seq<Clause<R>>, conn: Conn, group: seq<Clause<R>>): (res: seq<Clause<R>>)
    ensures res != []
    ensures forall r :: Eval(res, r) == Scoped(q, conn, r, Eval(group, r))
  {
    var g := ScopeBase(q);
    var res := AppendGroup(g, conn, group);
    forall r ensures Eval(res, r) == Scoped(q, conn, r, Eval(group, r)) {
      AndOnConjunctive(g, r, Eval(group, r));
    }
    res
  }

  /**
   * Without the regrouping the two would differ: `private('and')->public('or')->fromUser('and')`
   * reads `(private or public) and mine`, where appending the clauses would give
   * `private or (public and mine)`.
   */
  lemma ScopeRegroupingMatters<R(!new)>(priv: R -> bool, pub: R -> bool, mine: R -> bool, r: R)
    requires priv(r) && !pub(r) && !mine(r)
    ensures Eval(Append(Append(Append([], And, priv), Or, pub), And, mine), r)
    ensures !Eval(ApplyScope(ApplyScope(ApplyScope([], And, priv), Or, pub), And, mine), r)
  {
  }
}
