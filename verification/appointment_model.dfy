/** `App\Models\Appointment`: its global scopes and its local query scopes. */
module AppointmentModel {
  import opened Wrappers
  import opened Records
  import opened Query
  import opened Strings
  import opened Seqs

  type AppointmentQuery = seq<Clause<Appointment>>

  /** The global scopes every appointment query carries: `squad` and SoftDeletes. */
  predicate InScope(principal: Option<User>, a: Appointment)
  {
    InSquad(principal, a.squadId) && !Trashed(a.deletedAt)
  }

  /**
   * `->get()` on an appointment query: the stored appointments, in store order, that pass the
   * global scopes and the query's own clauses.
   */
  function Get(principal: Option<User>, q: AppointmentQuery, store: seq<Appointment>): (r: seq<Appointment>)
    ensures forall a :: a in r <==> a in store && InScope(principal, a) && Eval(q, a)
    ensures principal.Some? ==> forall a :: a in r ==> a.squadId == principal.value.squadId && a.deletedAt.None?
  {
    Filter(store, (a: Appointment) => InScope(principal, a) && Eval(q, a))
  }

  /** `'team' LIKE '%id%'` on the stored id list: some member id contains `me` as a substring. */
  predicate TeamLike(team: seq<Id>, me: Id)
  {
    exists m :: m in team && Contains(m, me)
  }

  /** `fromUser($type)`: `user_id` is the principal's id. */
  function FromUser(q: AppointmentQuery, me: Id, kind: string): (r: AppointmentQuery)
    ensures forall a :: Eval(r, a) == Scoped(q, ConnOf(kind), a, a.userId == me)
  {
    ApplyScope(q, ConnOf(kind), (a: Appointment) => a.userId == me)
  }

  /** `assignedToUser($type)`: `assigned_to` is the principal's id. */
  function AssignedToUser(q: AppointmentQuery, me: Id, kind: string): (r: AppointmentQuery)
    ensures forall a :: Eval(r, a) == Scoped(q, ConnOf(kind), a, a.assignedTo == Some(me))
  {
    ApplyScope(q, ConnOf(kind), (a: Appointment) => a.assignedTo == Some(me))
  }

  /** `forTeam($type)`: the team matches `'%id%'`. */
  function ForTeam(q: AppointmentQuery, me: Id, kind: string): (r: AppointmentQuery)
    ensures forall a :: Eval(r, a) == Scoped(q, ConnOf(kind), a, TeamLike(a.team, me))
  {
    ApplyScope(q, ConnOf(kind), (a: Appointment) => TeamLike(a.team, me))
  }

  /** `public($type)`: the appointment is public. */
  function Public(q: AppointmentQuery, kind: string): (r: AppointmentQuery)
    ensures forall a :: Eval(r, a) == Scoped(q, ConnOf(kind), a, a.isPublic)
  {
    ApplyScope(q, ConnOf(kind), (a: Appointment) => a.isPublic)
  }

  /** `private($type)`: the appointment is not public. */
  function Private(q: AppointmentQuery, kind: string): (r: AppointmentQuery)
    ensures forall a :: Eval(r, a) == Scoped(q, ConnOf(kind), a, !a.isPublic)
  {
    ApplyScope(q, ConnOf(kind), (a: Appointment) => !a.isPublic)
  }

  /** Owner, assignee or team member: the three relations `forUser` groups. */
  predicate RelatedTo(me: Id, a: Appointment)
  {
    a.userId == me || a.assignedTo == Some(me) || TeamLike(a.team, me)
  }

  /**
   * `forUser()`: one AND-joined group `(fromUser('and') or assignedToUser('or') or
   * forTeam('or'))`.
   */
  function ForUser(q: AppointmentQuery, me: Id): (r: AppointmentQuery)
    ensures forall a :: Eval(r, a) == Scoped(q, And, a, RelatedTo(me, a))
  {
    ApplyScopeGroup(q, And, ForTeam(AssignedToUser(FromUser([], me, "and"), me, "or"), me, "or"))
  }

  /** `search($term)`: one AND-joined group `(name LIKE '%t%' or description LIKE '%t%')`. */
  function Search(q: AppointmentQuery, term: string): (r: AppointmentQuery)
    ensures forall a :: Eval(r, a) == Scoped(q, And, a,
      (a.name.Some? && Contains(a.name.value, term)) || (a.description.Some? && Contains(a.description.value, term)))
  {
    var byName := Append([], And, (a: Appointment) => a.name.Some? && Contains(a.name.value, term));
    ApplyScopeGroup(q, And, Append(byName, Or, (a: Appointment) => a.description.Some? && Contains(a.description.value, term)))
  }

  // ------------------------------------------------------------------ properties

  /** An id that is a member of the team always matches the team test. */
  lemma MemberMatchesTeam(team: seq<Id>, me: Id)
    requires me in team
    ensures TeamLike(team, me)
  {
    ContainsSelf(me);
  }

  /** The team test is not membership: id "1" matches the team ["12"] it does not belong to. */
  lemma TeamMatchWithoutMembership()
    ensures TeamLike(["12"], "1") && "1" !in ["12"]
  {
    assert Contains("12", "1");
  }

  /** When every team id has the length of the principal's id, the team test is membership. */
  lemma TeamLikeIsMembershipForUniformIds(team: seq<Id>, me: Id)
    requires forall m :: m in team ==> |m| == |me|
    ensures TeamLike(team, me) <==> me in team
  {
    forall m | m in team
      ensures Contains(m, me) <==> m == me
    {
      SameLengthContainsIsEquality(m, me);
    }
  }

  /**
   * `public('and')` and `private('and')` split the result of any base query: every appointment
   * the base keeps passes exactly one of the two, and no other passes either. Scope regrouping
   * makes this hold even when the base ends in an OR-branch.
   */
  lemma PublicPrivatePartition(q: AppointmentQuery, a: Appointment)
    ensures Eval(Public(q, "and"), a) || Eval(Private(q, "and"), a) <==> Eval(q, a)
    ensures !(Eval(Public(q, "and"), a) && Eval(Private(q, "and"), a))
  {
  }

  /** The "visible to me" reading of the patient page: `forUser()->public('or')`. */
  function VisibleQuery(me: Id): (q: AppointmentQuery)
    ensures forall a :: Eval(q, a) == (RelatedTo(me, a) || a.isPublic)
  {
    Public(ForUser([], me), "or")
  }

  /** Adding the principal to the team makes the appointment visible, and never hides it. */
  lemma JoiningTeamMakesVisible(me: Id, a: Appointment)
    ensures Eval(VisibleQuery(me), a.(team := a.team + [me]))
  {
    MemberMatchesTeam(a.team + [me], me);
  }

  /** Making an appointment public makes it visible to everyone. */
  lemma PublishingMakesVisible(me: Id, a: Appointment)
    ensures Eval(VisibleQuery(me), a.(isPublic := true))
  {
  }

  /** Visibility is monotone: adding any id to the team or publishing never hides a visible appointment. */
  lemma VisibilityMonotone(me: Id, a: Appointment, other: Id)
    requires Eval(VisibleQuery(me), a)
    ensures Eval(VisibleQuery(me), a.(team := a.team + [other]))
    ensures Eval(VisibleQuery(me), a.(isPublic := true))
  {
    if TeamLike(a.team, me) {
      var m :| m in a.team && Contains(m, me);
      assert m in a.team + [other];
    }
  }
}
