/**
 * `App\Http\Middleware\GetAllPatientsUsersCategoriesLabels`: the lists shared with every
 * page: all patients and all squad users by name (deleted ones included), and the distinct
 * task categories and labels.
 */
module AllLists {
  import opened Wrappers
  import opened Records
  import opened Query
  import opened Strings
  import opened Seqs
  import PatientModel
  import UserModel

  predicate PatientNameLe(a: Patient, b: Patient)
  {
    LexLe(a.name, b.name)
  }

  predicate UserNameLe(a: User, b: User)
  {
    LexLe(a.name, b.name)
  }

  /** `orderBy('name', 'asc')` is a total preorder on patients and on users. */
  lemma NameOrderIsTotalPreorder()
    ensures forall a: Patient, b: Patient :: PatientNameLe(a, b) || PatientNameLe(b, a)
    ensures forall a: Patient, b: Patient, c: Patient :: PatientNameLe(a, b) && PatientNameLe(b, c) ==> PatientNameLe(a, c)
    ensures forall a: User, b: User :: UserNameLe(a, b) || UserNameLe(b, a)
    ensures forall a: User, b: User, c: User :: UserNameLe(a, b) && UserNameLe(b, c) ==> UserNameLe(a, c)
  {
    forall a: string, b: string ensures LexLe(a, b) || LexLe(b, a) {
      LexLeTotal(a, b);
    }
    forall a: string, b: string, c: string | LexLe(a, b) && LexLe(b, c) ensures LexLe(a, c) {
      LexLeTransitive(a, b, c);
    }
  }

  /**
   * `allPatients`: the principal's squad's patients, soft-deleted ones included, by name.
   * Every patient of the squad is listed exactly as often as it is stored.
   */
  function AllPatients(principal: User, store: seq<Patient>): (r: seq<Patient>)
    ensures multiset(r) == multiset(PatientModel.GetWithTrashed(Some(principal), [], store))
    ensures forall p :: p in r <==> p in store && p.squadId == principal.squadId
    ensures SortedBy(r, (a: Patient, b: Patient) => PatientNameLe(a, b))
  {
    NameOrderIsTotalPreorder();
    var found := PatientModel.GetWithTrashed(Some(principal), [], store);
    var r := SortBy(found, (a: Patient, b: Patient) => PatientNameLe(a, b));
    assert forall p :: p in r <==> p in multiset(found);
    r
  }

  /** The user query `where('squad_id', principal squad)`. */
  function SquadUsersQuery(squadId: Id): (q: UserModel.UserQuery)
    ensures forall u :: Eval(q, u) <==> u.squadId == squadId
  {
    Append([], And, (u: User) => u.squadId == squadId)
  }

  /**
   * `allUsers`: the users of the principal's squad, soft-deleted ones included, by name; the
   * squad test is explicit, users have no squad scope.
   */
  function AllUsers(principal: User, store: seq<User>): (r: seq<User>)
    ensures multiset(r) == multiset(UserModel.GetWithTrashed(SquadUsersQuery(principal.squadId), store))
    ensures forall u :: u in r <==> u in store && u.squadId == principal.squadId
    ensures SortedBy(r, (a: User, b: User) => UserNameLe(a, b))
  {
    NameOrderIsTotalPreorder();
    var found := UserModel.GetWithTrashed(SquadUsersQuery(principal.squadId), store);
    var r := SortBy(found, (a: User, b: User) => UserNameLe(a, b));
    assert forall u :: u in r <==> u in multiset(found);
    r
  }

  // ------------------------------------------------------------------ categories and labels

  /** A plucked task attribute: null, a string, or a (nested) list of them. */
  datatype Value = Null | Str(s: string) | List(items: seq<Value>)

  /** `flatten()` with unlimited depth: nested lists are spliced in place, nulls are kept. */
  function Flatten(vs: seq<Value>): (r: seq<Value>)
    ensures forall x :: x in r ==> !x.List?
    ensures forall v :: v in vs && !v.List? ==> v in r
    ensures forall x :: x in r ==> (x in vs && !x.List?) || exists v :: v in vs && v.List? && x in Flatten(v.items)
    decreases vs
  {
    if vs == [] then []
    else
      var r := FlattenOne(vs[0]) + Flatten(vs[1..]);
      assert forall v :: v in vs ==> v == vs[0] || v in vs[1..];
      assert forall v :: v in vs[1..] ==> v in vs;
      assert vs[0] in vs;
      r
  }

  function FlattenOne(v: Value): (r: seq<Value>)
    ensures forall x :: x in r ==> !x.List?
    ensures !v.List? ==> r == [v]
    decreases v
  {
    if v.List? then Flatten(v.items) else [v]
  }

  /** What a nested list contributes is kept by the flattening around it. */
  lemma {:induction false} FlattenKeepsNested(vs: seq<Value>, v: Value, x: Value)
    requires v in vs && v.List? && x in Flatten(v.items)
    ensures x in Flatten(vs)
    decreases vs
  {
    if vs[0] != v {
      FlattenKeepsNested(vs[1..], v, x);
    }
  }

  /** `->flatten()->unique()->reject(null)->values()`. */
  function DistinctNonNull(vs: seq<Value>): (r: seq<Value>)
    ensures NoDuplicates(r)
    ensures forall x :: x in r <==> x in Flatten(vs) && x.Str?
  {
    var d := Distinct(Flatten(vs));
    FilterNoDuplicates(d, (x: Value) => !x.Null?);
    Filter(d, (x: Value) => !x.Null?)
  }

  /** `allCategories`: the `category` attribute of every task. */
  function AllCategories(categories: seq<Value>): seq<Value>
  {
    DistinctNonNull(categories)
  }

  /** `allLabels`: the `labels` attribute of every task. */
  function AllLabels(labels: seq<Value>): seq<Value>
  {
    DistinctNonNull(labels)
  }

  /**
   * The shared category (or label) list holds every string that occurs anywhere in the
   * plucked values, nested or not, once, with no null, in order of first occurrence.
   */
  lemma DistinctNonNullSpec(vs: seq<Value>)
    ensures NoDuplicates(DistinctNonNull(vs))
    ensures forall x :: x in DistinctNonNull(vs) ==> x.Str?
    ensures forall v :: v in vs && v.Str? ==> v in DistinctNonNull(vs)
    ensures forall v, x :: v in vs && v.List? && x in Flatten(v.items) && x.Str? ==> x in DistinctNonNull(vs)
    ensures InFirstOccurrenceOrder(DistinctNonNull(vs), Flatten(vs))
  {
    forall v, x | v in vs && v.List? && x in Flatten(v.items) && x.Str? ensures x in DistinctNonNull(vs) {
      FlattenKeepsNested(vs, v, x);
    }
    var d := Distinct(Flatten(vs));
    DistinctInFirstOccurrenceOrder(Flatten(vs));
    FilterKeepsFirstOccurrenceOrder(d, (x: Value) => !x.Null?, Flatten(vs));
  }

  /** Categories and labels follow the same rule. */
  lemma CategoriesAndLabelsSpec(categories: seq<Value>, labels: seq<Value>)
    ensures NoDuplicates(AllCategories(categories)) && NoDuplicates(AllLabels(labels))
    ensures forall x :: x in AllCategories(categories) <==> x in Flatten(categories) && x.Str?
    ensures forall x :: x in AllLabels(labels) <==> x in Flatten(labels) && x.Str?
    ensures InFirstOccurrenceOrder(AllCategories(categories), Flatten(categories))
    ensures InFirstOccurrenceOrder(AllLabels(labels), Flatten(labels))
  {
    DistinctNonNullSpec(categories);
    DistinctNonNullSpec(labels);
  }
}
