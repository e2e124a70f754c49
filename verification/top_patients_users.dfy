/** `App\Http\Middleware\GetTopPatientsUsers`: the principal's starred patients and users, newest first. */
module TopPatientsUsers {
  import opened Wrappers
  import opened Records
  import opened Query
  import opened Seqs
  import PatientModel
  import UserModel

  /** `orderBy('updated_at', 'desc')` on patients. */
  predicate PatientNewerOrSame(a: Patient, b: Patient)
  {
    a.updatedAt >= b.updatedAt
  }

  /** `orderBy('updated_at', 'desc')` on users. */
  predicate UserNewerOrSame(a: User, b: User)
  {
    a.updatedAt >= b.updatedAt
  }

  /** `!$starred`: a missing list and an empty list both count as "nothing starred". */
  predicate NothingStarred(starred: Option<seq<Id>>)
  {
    starred.None? || starred.value == []
  }

  /** The patient query `whereIn('_id', ids)`. */
  function StarredPatientsQuery(ids: seq<Id>): (q: PatientModel.PatientQuery)
    ensures forall p :: Eval(q, p) <==> p.id in ids
  {
    Append([], And, (p: Patient) => p.id in ids)
  }

  /** The user query `whereIn('_id', ids)`. */
  function StarredUsersQuery(ids: seq<Id>): (q: UserModel.UserQuery)
    ensures forall u :: Eval(q, u) <==> u.id in ids
  {
    Append([], And, (u: User) => u.id in ids)
  }

  /**
   * `topPatients`: nothing when nothing is starred; otherwise the starred patients the global
   * scopes let through (the principal's squad, not deleted), most recently updated first.
   */
  function TopPatients(principal: User, store: seq<Patient>): (r: seq<Patient>)
    ensures NothingStarred(principal.starredPatients) ==> r == []
    ensures !NothingStarred(principal.starredPatients) ==>
      multiset(r) == multiset(PatientModel.Get(Some(principal), StarredPatientsQuery(principal.starredPatients.value), store))
    ensures forall p :: p in r <==>
      p in store && principal.starredPatients.Some? && p.id in principal.starredPatients.value
      && p.squadId == principal.squadId && p.deletedAt.None?
    ensures SortedBy(r, (a: Patient, b: Patient) => PatientNewerOrSame(a, b))
  {
    if NothingStarred(principal.starredPatients) then []
    else
      var found := PatientModel.Get(Some(principal), StarredPatientsQuery(principal.starredPatients.value), store);
      NewestFirstIsTotalPreorder();
      var r := SortBy(found, (a: Patient, b: Patient) => PatientNewerOrSame(a, b));
      StarredPatientsFound(principal, store);
      SameMultisetSameMembers(r, found);
      r
  }

  /**
   * `topUsers`: nothing when nothing is starred; otherwise the starred users that are not
   * deleted, from every squad (users carry no squad scope), most recently updated first.
   */
  function TopUsers(principal: User, store: seq<User>): (r: seq<User>)
    ensures NothingStarred(principal.starredUsers) ==> r == []
    ensures !NothingStarred(principal.starredUsers) ==>
      multiset(r) == multiset(UserModel.Get(StarredUsersQuery(principal.starredUsers.value), store))
    ensures forall u :: u in r <==>
      u in store && principal.starredUsers.Some? && u.id in principal.starredUsers.value && u.deletedAt.None?
    ensures SortedBy(r, (a: User, b: User) => UserNewerOrSame(a, b))
  {
    if NothingStarred(principal.starredUsers) then []
    else
      var found := UserModel.Get(StarredUsersQuery(principal.starredUsers.value), store);
      NewestFirstIsTotalPreorder();
      var r := SortBy(found, (a: User, b: User) => UserNewerOrSame(a, b));
      SameMultisetSameMembers(r, found);
      r
  }

  /** Ordering by `updated_at`, newest first, is a total preorder on patients and on users. */
  lemma NewestFirstIsTotalPreorder()
    ensures TotalPreorder((a: Patient, b: Patient) => PatientNewerOrSame(a, b))
    ensures TotalPreorder((a: User, b: User) => UserNewerOrSame(a, b))
  {
  }

  /** The starred-patient fetch, with both global scopes spelled out. */
  lemma StarredPatientsFound(principal: User, store: seq<Patient>)
    requires principal.starredPatients.Some?
    ensures forall p :: p in PatientModel.Get(Some(principal), StarredPatientsQuery(principal.starredPatients.value), store) <==>
      p in store && p.id in principal.starredPatients.value && p.squadId == principal.squadId && p.deletedAt.None?
  {
  }

  // ------------------------------------------------------------------ properties

  /**
   * When stored patients have distinct keys, the list never holds more patients than there
   * are distinct starred ids, however often an id was starred.
   */
  lemma TopPatientsBounded(principal: User, store: seq<Patient>)
    requires UniqueKeys(store, (p: Patient) => p.id)
    requires principal.starredPatients.Some?
    ensures |TopPatients(principal, store)| <= |set id | id in principal.starredPatients.value|
  {
    var ids := principal.starredPatients.value;
    var bound := set id | id in ids;
    if ids != [] {
      var q := StarredPatientsQuery(ids);
      var found := PatientModel.Get(Some(principal), q, store);
      FilterUniqueKeys(store, (p: Patient) => PatientModel.InScope(Some(principal), p) && Eval(q, p), (p: Patient) => p.id);
      UniqueKeysBound(found, (p: Patient) => p.id, bound);
      PermutationKeepsLength(TopPatients(principal, store), found);
    }
  }

  /** The same bound for users. */
  lemma TopUsersBounded(principal: User, store: seq<User>)
    requires UniqueKeys(store, (u: User) => u.id)
    requires principal.starredUsers.Some?
    ensures |TopUsers(principal, store)| <= |set id | id in principal.starredUsers.value|
  {
    var ids := principal.starredUsers.value;
    var bound := set id | id in ids;
    if ids != [] {
      var q := StarredUsersQuery(ids);
      var found := UserModel.Get(q, store);
      FilterUniqueKeys(store, (u: User) => UserModel.InScope(u) && Eval(q, u), (u: User) => u.id);
      UniqueKeysBound(found, (u: User) => u.id, bound);
      PermutationKeepsLength(TopUsers(principal, store), found);
    }
  }

  /** A starred user of another squad is still listed; a starred patient of another squad is not. */
  lemma TopUsersCrossSquads(principal: User, users: seq<User>, patients: seq<Patient>, u: User, p: Patient)
    requires principal.starredUsers.Some? && u in users && u.id in principal.starredUsers.value && u.deletedAt.None?
    requires principal.starredPatients.Some? && p in patients && p.id in principal.starredPatients.value
    requires p.squadId != principal.squadId
    ensures u in TopUsers(principal, users)
    ensures p !in TopPatients(principal, patients)
  {
  }
}
