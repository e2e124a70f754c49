/** What the two services share: the response envelope and the left join of users to profiles. */
module Services {
  import opened Wrappers
  import opened Records
  import Seqs

  /** The error a service reports: the date it could not parse. */
  datatype ServiceError = DateParseError(input: string)

  /** The response envelope: success flag, message, data (null on failure) and errors. */
  datatype ServiceResponse<T> = ServiceResponse(success: bool, message: string, data: Option<T>, errors: Option<ServiceError>)

  /** A call that either returns or stops with an uncaught PHP error. */
  datatype Invocation<T> = Returned(value: T) | Crashed(error: string)

  /** The pairs one user contributes to the left join: one per profile it owns, or one without. */
  function JoinOne<P(!new)>(u: User, profiles: seq<P>, owner: P -> Id): (h: seq<(User, Option<P>)>)
    ensures h != []
    ensures forall x :: x in h ==> x.0 == u
    ensures forall x :: x in h && x.1.Some? ==> x.1.value in profiles && owner(x.1.value) == u.id
    ensures forall x :: x in h && x.1.None? ==> forall p :: p in profiles ==> owner(p) != u.id
    ensures forall p :: p in profiles && owner(p) == u.id ==> (u, Some(p)) in h
  {
    var own := Seqs.Filter(profiles, (p: P) => owner(p) == u.id);
    if own == [] then [(u, None)]
    else
      var h := seq(|own|, i requires 0 <= i < |own| => (u, Some(own[i])));
      assert forall i :: 0 <= i < |own| ==> h[i] == (u, Some(own[i]));
      h
  }

  /**
   * `leftJoin(profiles, users.id, profiles.user_id)`: one pair per (user, profile of that user),
   * and one pair with no profile for a user that has none.
   */
  function LeftJoin<P(!new)>(users: seq<User>, profiles: seq<P>, owner: P -> Id): (r: seq<(User, Option<P>)>)
    ensures forall x :: x in r ==> x.0 in users
    ensures forall x :: x in r && x.1.Some? ==> x.1.value in profiles && owner(x.1.value) == x.0.id
    ensures forall x :: x in r && x.1.None? ==> forall p :: p in profiles ==> owner(p) != x.0.id
    ensures forall u :: u in users ==> exists x :: x in r && x.0 == u
    ensures forall u, p :: u in users && p in profiles && owner(p) == u.id ==> (u, Some(p)) in r
  {
    if users == [] then []
    else
      var head := JoinOne(users[0], profiles, owner);
      var rest := LeftJoin(users[1..], profiles, owner);
      assert forall v :: v in users ==> v == users[0] || v in users[1..];
      assert forall v :: v in users[1..] ==> v in users;
      assert head[0] in head + rest && forall x :: x in rest ==> x in head + rest;
      head + rest
  }
}
