/**
 * The user controller's own logic: the clean-up of the submitted fields in
 * `store` and `update`, the family-member list collapsed into an id-keyed map,
 * the choice of the `parents` or `childrens` relation by role, the replacement
 * of the branch and program sets, `removeMember`, and the defaults and grade
 * table of `show`.
 */
module UserController {
  import opened Php
  import opened Associations
  import GradeBook

  type Record = map<string, Value>

  /** The relation that holds a user's family: a student's family are its parents, anyone else's its children. */
  function FamilyRelation(role: Role): (rel: Relation)
    ensures rel == Parents <==> role == Student
    ensures rel == Childrens <==> role != Student
  {
    if role == Student then Parents else Childrens
  }

  /** `if (! empty($data['password'])) $data['password'] = bcrypt($data['password']);` with `hash` for `bcrypt`. */
  function HashPassword(data: Record, hash: Value -> Value): Record {
    if Filled(data, "password") then data["password" := hash(data["password"])] else data
  }

  /**
   * What `store` hands to `User::create`: every falsy field dropped, and the
   * password, when one is left, replaced by its hash.
   */
  function StoreData(request: Record, hash: Value -> Value): (data: Record)
    ensures forall k :: k in data <==> Filled(request, k)
    ensures forall k :: k in data && k != "password" ==> k in request && data[k] == request[k]
    ensures Filled(request, "password") ==> data["password"] == hash(request["password"])
  {
    HashPassword(ArrayFilter(request), hash)
  }

  /** The branch ids `store` syncs: each submitted value through `intval`, the set of the results. */
  function BranchIds(xs: seq<Value>): set<Value> {
    set x | x in xs :: Int(IntVal(x))
  }

  /** The loop of `store` that rewrites each submitted branch id, in place, as an integer. */
  method IntegerizeBranches(branches: array<Value>)
    modifies branches
    ensures forall k :: 0 <= k < branches.Length ==> branches[k] == Int(IntVal(old(branches[k])))
  {
    var index := 0;
    while index < branches.Length
      invariant 0 <= index <= branches.Length
      invariant forall k :: 0 <= k < index ==> branches[k] == Int(IntVal(old(branches[k])))
      invariant forall k :: index <= k < branches.Length ==> branches[k] == old(branches[k])
    {
      branches[index] := Int(IntVal(branches[index]));
      index := index + 1;
    }
  }

  /**
   * `store`: creates the user from the cleaned fields; when a non-empty branch
   * list was submitted, its ids become integers and the user's branches are
   * exactly those. A branch field that is not a list fails the `foreach`
   * before anything is created.
   */
  method Store(role: Role, request: Record, hash: Value -> Value) returns (r: Result<Account, Error>)
    ensures r.Failure? <==> Filled(request, "branches") && !request["branches"].List?
    ensures r.Failure? ==> r.error == NotIterable("branches")
    ensures r.Success? ==>
      && fresh(r.value) && r.value.role == role
      && r.value.attrs == StoreData(request, hash)
      && r.value.Linked(Branches) == (if Filled(request, "branches") then BranchIds(request["branches"].items) else {})
      && forall rel :: rel != Branches ==> r.value.Linked(rel) == {}
  {
    var data := ArrayFilter(request);
    var branches: Option<set<Value>> := None;
    if "branches" in data {
      if !data["branches"].List? {
        return Failure(NotIterable("branches"));
      }
      var xs := data["branches"].items;
      var converted := new Value[|xs|](k requires 0 <= k < |xs| => xs[k]);
      IntegerizeBranches(converted);
      assert forall k :: 0 <= k < |xs| ==> converted[..][k] == Int(IntVal(xs[k]));
      branches := Some(set b | b in converted[..]);
      assert branches.value == BranchIds(xs) by {
        forall x | x in xs
          ensures Int(IntVal(x)) in branches.value
        {
          var k :| 0 <= k < |xs| && xs[k] == x;
          assert converted[..][k] == Int(IntVal(x));
        }
      }
    }
    data := HashPassword(data, hash);
    var user := new Account(role, data);
    if branches.Some? {
      user.Sync(Branches, branches.value);
    }
    r := Success(user);
  }

  /** The array key a family member's id is stored under, or the failure of reading it. */
  function KeyOf(member: Record): Result<Key, Error> {
    if "id" in member then ArrayKey(member["id"]) else Failure(MissingKey("id"))
  }

  /**
   * `$users` after the loop of `update` that runs `$users[$member['id']] =
   * $member['id']` over the members in order: each id stored under its array
   * key, a later id overwriting an earlier one of the same key. The first
   * member without an id, or with an array as id, fails the loop.
   */
  function Collect(queue: seq<Record>): Result<map<Key, Value>, Error>
    decreases |queue|
  {
    if queue == [] then Success(map[])
    else
      var prev, member := Collect(queue[..|queue| - 1]), queue[|queue| - 1];
      if prev.Failure? then prev
      else match KeyOf(member)
        case Failure(e) => Failure(e)
        case Success(key) => Success(prev.value[key := member["id"]])
  }

  /** The ids `attach($users)` links: the values of the collected map, none when the loop fails. */
  function FamilyIds(members: seq<Record>): set<Value> {
    if Collect(members).Success? then Collect(members).value.Values else {}
  }

  /** Once a member fails, the rest of the list changes nothing. */
  lemma {:induction false} CollectFailureIsFinal(queue: seq<Record>, k: nat)
    requires k <= |queue|
    requires Collect(queue[..k]).Failure?
    ensures Collect(queue) == Collect(queue[..k])
    decreases |queue| - k
  {
    if k < |queue| {
      assert queue[..k + 1][..k] == queue[..k];
      CollectFailureIsFinal(queue, k + 1);
    } else {
      assert queue[..k] == queue;
    }
  }

  /** The member at `k` is the last one whose id has array key `key`. */
  predicate LastWithKey(queue: seq<Record>, key: Key, k: int) {
    && 0 <= k < |queue| && "id" in queue[k] && KeyOf(queue[k]) == Success(key)
    && forall n :: k < n < |queue| ==> KeyOf(queue[n]) != Success(key)
  }

  /**
   * The loop fails exactly when some member has no usable key, with the
   * failure of the first such member.
   */
  lemma {:induction false} CollectFails(queue: seq<Record>)
    ensures Collect(queue).Success? <==> forall k :: 0 <= k < |queue| ==> KeyOf(queue[k]).Success?
    ensures Collect(queue).Failure? ==>
      exists k :: 0 <= k < |queue| && KeyOf(queue[k]) == Failure(Collect(queue).error)
        && forall n :: 0 <= n < k ==> KeyOf(queue[n]).Success?
  {
    if queue != [] {
      var init, member := queue[..|queue| - 1], queue[|queue| - 1];
      CollectFails(init);
      assert forall k :: 0 <= k < |init| ==> queue[k] == init[k];
      var prev := Collect(init);
      if prev.Failure? {
        var k :| 0 <= k < |init| && KeyOf(init[k]) == Failure(prev.error) && forall n :: 0 <= n < k ==> KeyOf(init[n]).Success?;
        assert KeyOf(queue[k]) == Failure(Collect(queue).error);
      } else if KeyOf(member).Failure? {
        assert KeyOf(queue[|queue| - 1]) == Failure(Collect(queue).error);
      }
    }
  }

  /** The last step of a successful loop: every earlier step succeeded and the last id went in under its key. */
  lemma CollectStep(queue: seq<Record>)
    requires queue != [] && Collect(queue).Success?
    ensures var init, member := queue[..|queue| - 1], queue[|queue| - 1];
      && Collect(init).Success? && "id" in member && KeyOf(member).Success?
      && Collect(queue).value == Collect(init).value[KeyOf(member).value := member["id"]]
  {
  }

  /** A successful loop stores an entry under every member's array key. */
  lemma {:induction false} CollectKeys(queue: seq<Record>)
    requires Collect(queue).Success?
    ensures forall k :: 0 <= k < |queue| ==> KeyOf(queue[k]).Success? && KeyOf(queue[k]).value in Collect(queue).value
  {
    if queue != [] {
      var init := queue[..|queue| - 1];
      CollectStep(queue);
      CollectKeys(init);
      forall k | 0 <= k < |queue|
        ensures KeyOf(queue[k]).Success? && KeyOf(queue[k]).value in Collect(queue).value
      {
        if k < |init| {
          assert queue[k] == init[k];
        }
      }
    }
  }

  /** Ids with the same array key collapse, so the map has no more entries than there are members. */
  lemma {:induction false} CollectSize(queue: seq<Record>)
    requires Collect(queue).Success?
    ensures |Collect(queue).value| <= |queue|
  {
    if queue != [] {
      CollectStep(queue);
      CollectSize(queue[..|queue| - 1]);
    }
  }

  /** A later member with another key keeps the last member of `key` the last one. */
  lemma LastWithKeyExtends(queue: seq<Record>, member: Record, key: Key, k: int)
    requires LastWithKey(queue, key, k) && KeyOf(member) != Success(key)
    ensures LastWithKey(queue + [member], key, k)
  {
    var longer := queue + [member];
    assert forall n :: 0 <= n < |queue| ==> longer[n] == queue[n];
  }

  /** Each entry of a successful loop holds the id of the last member with that array key. */
  lemma {:induction false} CollectLastWins(queue: seq<Record>)
    requires Collect(queue).Success?
    ensures forall key :: key in Collect(queue).value ==> KeptLast(queue, key)
  {
    if queue != [] {
      CollectStep(queue);
      CollectLastWins(queue[..|queue| - 1]);
      forall key | key in Collect(queue).value
        ensures KeptLast(queue, key)
      {
        LastWinsStep(queue, key);
      }
    }
  }

  /** The entry of `key` holds the id of the last member with that array key. */
  predicate KeptLast(queue: seq<Record>, key: Key)
    requires Collect(queue).Success? && key in Collect(queue).value
  {
    exists k :: 0 <= k < |queue| && LastWithKey(queue, key, k) && Collect(queue).value[key] == queue[k]["id"]
  }

  /** One member more: its own key now holds its id, every other key keeps its last member. */
  lemma LastWinsStep(queue: seq<Record>, key: Key)
    requires queue != [] && Collect(queue).Success? && key in Collect(queue).value
    requires Collect(queue[..|queue| - 1]).Success?
    requires key in Collect(queue[..|queue| - 1]).value ==> KeptLast(queue[..|queue| - 1], key)
    ensures KeptLast(queue, key)
  {
    var init, member := queue[..|queue| - 1], queue[|queue| - 1];
    CollectStep(queue);
    if key == KeyOf(member).value {
      assert LastWithKey(queue, key, |queue| - 1);
    } else {
      var k :| LastWithKey(init, key, k) && Collect(init).value[key] == init[k]["id"];
      LastWithKeyExtends(init, member, key, k);
      assert init + [member] == queue;
    }
  }

  /** The ids `"5"` and `5` are one array key: the member listed later is the one kept. */
  lemma NumericStringIdsCollapse()
    ensures Collect([map["id" := Str("5")], map["id" := Int(5)]]) == Success(map[IntKey(5) := Int(5)])
  {
    NumericKeysCollapse(5);
    assert Render(5) == "5";
    var queue: seq<Record> := [map["id" := Str("5")], map["id" := Int(5)]];
    assert queue[..1] == [queue[0]] && queue[..1][..0] == [];
    assert queue[..|queue| - 1] == queue[..1];
    assert KeyOf(queue[0]) == Success(IntKey(5));
    assert Collect(queue[..1]) == Success(map[IntKey(5) := Str("5")]);
    assert KeyOf(queue[1]) == Success(IntKey(5));
    assert map[IntKey(5) := Str("5")][IntKey(5) := Int(5)] == map[IntKey(5) := Int(5)];
  }

  /** The loop of `update` that fills `$users`, proved to compute `Collect`. */
  method CollectMembers(queue: seq<Record>) returns (r: Result<map<Key, Value>, Error>)
    ensures r == Collect(queue)
  {
    var users: map<Key, Value> := map[];
    var k := 0;
    while k < |queue|
      invariant 0 <= k <= |queue|
      invariant Collect(queue[..k]) == Success(users)
    {
      var member := queue[k];
      assert queue[..k + 1][..k] == queue[..k];
      if "id" !in member {
        CollectFailureIsFinal(queue, k + 1);
        return Failure(MissingKey("id"));
      }
      var key := ArrayKey(member["id"]);
      if key.Failure? {
        CollectFailureIsFinal(queue, k + 1);
        return Failure(key.error);
      }
      users := users[key.value := member["id"]];
      k := k + 1;
    }
    assert queue[..k] == queue;
    r := Success(users);
  }

  /** `(array)` of a submitted relation field, as `sync` reads it. */
  function Items(v: Value): seq<Value> {
    match v
    case List(xs) => xs
    case Null => []
    case _ => [v]
  }

  /** The ids `update` syncs for a relation field: the submitted ones, or none when the field is not set. */
  function SubmittedIds(request: Record, key: string): (ids: set<Value>)
    ensures !IsSet(request, key) ==> ids == {}
    ensures IsSet(request, key) && request[key].List? ==> forall x :: x in ids <==> x in request[key].items
  {
    if IsSet(request, key) then set x | x in Items(request[key]) else {}
  }

  /**
   * What `update` hands to `$user->update`: every submitted field, falsy ones
   * included; the picture, when one was submitted, named by the stored file;
   * the password replaced by its hash only when it is not empty.
   */
  function UpdateData(request: Record, photoName: string, hash: Value -> Value): (data: Record)
    ensures data.Keys == request.Keys
    ensures forall k :: k in request && k != "password" && k != "profile_picture" ==> data[k] == request[k]
    ensures "profile_picture" in request ==>
      data["profile_picture"] == if Truthy(request["profile_picture"]) then Str(photoName) else request["profile_picture"]
    ensures "password" in request ==>
      data["password"] == if Truthy(request["password"]) then hash(request["password"]) else request["password"]
  {
    var data := if Filled(request, "profile_picture") then request["profile_picture" := Str(photoName)] else request;
    HashPassword(data, hash)
  }

  /**
   * The family part of `update`: when family members were submitted, collects
   * them and attaches the collected ids, all or none, through the relation the
   * user's role selects. Nothing else changes.
   */
  method JoinFamily(user: Account, joining: bool, members: seq<Record>) returns (r: Outcome<Error>)
    modifies user
    ensures r == if !joining then Pass
                 else if Collect(members).Failure? then Fail(Collect(members).error)
                 else if !(FamilyIds(members) !! old(user.Linked(FamilyRelation(user.role)))) then Fail(DuplicateLink)
                 else Pass
    ensures r.Fail? ==> user.links == old(user.links)
    ensures r.Pass? ==> user.Linked(FamilyRelation(user.role))
                        == old(user.Linked(FamilyRelation(user.role))) + (if joining then FamilyIds(members) else {})
    ensures forall rel :: rel != FamilyRelation(user.role) ==> user.Linked(rel) == old(user.Linked(rel))
    ensures user.attrs == old(user.attrs)
  {
    if !joining {
      return Pass;
    }
    var users := CollectMembers(members);
    if users.Failure? {
      return Fail(users.error);
    }
    var ok := user.Attach(FamilyRelation(user.role), users.value.Values);
    r := if ok then Pass else Fail(DuplicateLink);
  }

  /**
   * `update`: first the family members (the decoded `family_members` list is
   * `members`); a failure there stops the request before the attributes and
   * the branch and program sets change. Otherwise the attributes take the
   * update data and the branch and program sets become exactly the submitted
   * ones.
   */
  method Update(user: Account, request: Record, members: seq<Record>, photoName: string, hash: Value -> Value)
    returns (r: Outcome<Error>)
    modifies user
    ensures var family, joining := FamilyRelation(user.role), Filled(request, "family_members");
      r == if !joining then Pass
           else if Collect(members).Failure? then Fail(Collect(members).error)
           else if !(FamilyIds(members) !! old(user.Linked(family))) then Fail(DuplicateLink)
           else Pass
    ensures r.Fail? ==> user.attrs == old(user.attrs) && user.links == old(user.links)
    ensures var family, joining := FamilyRelation(user.role), Filled(request, "family_members");
      r.Pass? ==>
        && user.attrs == old(user.attrs) + UpdateData(request, photoName, hash)
        && user.Linked(Branches) == SubmittedIds(request, "branches")
        && user.Linked(Programs) == SubmittedIds(request, "programs")
        && user.Linked(family) == old(user.Linked(family)) + (if joining then FamilyIds(members) else {})
        && forall rel :: rel != Branches && rel != Programs && rel != family ==> user.Linked(rel) == old(user.Linked(rel))
  {
    var branches := SubmittedIds(request, "branches");
    var programs := SubmittedIds(request, "programs");
    r := JoinFamily(user, Filled(request, "family_members"), members);
    if r.Fail? {
      return;
    }
    ghost var joined := user.links;
    user.Fill(UpdateData(request, photoName, hash));
    user.Sync(Branches, branches);
    user.Sync(Programs, programs);
    assert forall rel :: rel != Branches && rel != Programs ==> user.Linked(rel) == (if rel in joined then joined[rel] else {});
  }

  /**
   * `removeMember`: finds the user by id (failing when there is none), then
   * detaches one id from the role's family relation; the other relations, the
   * attributes and every other user stay.
   */
  method RemoveMember(users: map<int, Account>, id: int, member: Value) returns (r: Outcome<Error>)
    modifies users.Values
    ensures r.Fail? <==> id !in users
    ensures r.Fail? ==> r.error == NotFound
    ensures id in users ==>
      var user := users[id];
      && user.Linked(FamilyRelation(user.role)) == old(user.Linked(FamilyRelation(user.role))) - {member}
      && (forall rel :: rel != FamilyRelation(user.role) ==> user.Linked(rel) == old(user.Linked(rel)))
      && user.attrs == old(user.attrs)
    ensures forall u :: u in users.Values && (id !in users || u != users[id]) ==> u.links == old(u.links) && u.attrs == old(u.attrs)
  {
    if id !in users {
      return Fail(NotFound);
    }
    var user := users[id];
    user.Detach(FamilyRelation(user.role), member);
    r := Pass;
  }

  /** What `show` passes on beyond the lookups: the request, and for a student the grade table. */
  datatype UserPage = UserPage(request: Record, grades: Option<map<int, seq<GradeBook.GradeRow>>>)

  /**
   * `show`: the `tab` field defaults to `account` when it is not set, every
   * other field stays; a student's page carries the grade table of its grade
   * rows, anyone else's none.
   */
  function Show(role: Role, request: Record, gradeRows: seq<GradeBook.GradeRow>): (page: UserPage)
    ensures "tab" in page.request
    ensures page.request["tab"] == if IsSet(request, "tab") then request["tab"] else Str("account")
    ensures forall k :: k != "tab" ==> (k in page.request <==> k in request)
    ensures forall k :: k != "tab" && k in request ==> page.request[k] == request[k]
    ensures page.grades.Some? <==> role == Student
    ensures page.grades.Some? ==> page.grades.value == GradeBook.StudentGrades(gradeRows)
  {
    var request' := if IsSet(request, "tab") then request else request["tab" := Str("account")];
    UserPage(request', if role == Student then Some(GradeBook.StudentGrades(gradeRows)) else None)
  }
}
