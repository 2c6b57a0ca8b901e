/**
 * A user row with its many-to-many relations, in place of Eloquent's
 * `belongsToMany` relations: one set of linked ids per relation name, and the
 * three operations the user controller calls on them.
 */
module Associations {
  import opened Php

  /** The relations of a user the controller touches (`branches`, `programs`, `parents`, `childrens`). */
  datatype Relation = Branches | Programs | Parents | Childrens

  /** The roles the controller distinguishes; `isStudent` is the only test the modelled code makes. */
  datatype Role = Student | Teacher | Staff

  class Account {
    const role: Role
    var attrs: map<string, Value>
    var links: map<Relation, set<Value>>

    /** The ids linked to this user through `rel`. */
    function Linked(rel: Relation): set<Value>
      reads this
    {
      if rel in links then links[rel] else {}
    }

    /** `User::create($data)`: a user with the given attributes and no links yet. */
    constructor (role: Role, attrs: map<string, Value>)
      ensures this.role == role && this.attrs == attrs
      ensures forall rel :: Linked(rel) == {}
    {
      this.role := role;
      this.attrs := attrs;
      links := map[];
    }

    /** `$user->update($data)`: the submitted attributes replace the stored ones of the same name. */
    method Fill(data: map<string, Value>)
      modifies this
      ensures attrs == old(attrs) + data
      ensures links == old(links)
    {
      attrs := attrs + data;
    }

    /** `sync`: the relation holds exactly the given ids afterwards; the other relations are untouched. */
    method Sync(rel: Relation, ids: set<Value>)
      modifies this
      ensures Linked(rel) == ids
      ensures forall other :: other != rel ==> Linked(other) == old(Linked(other))
      ensures attrs == old(attrs)
    {
      links := links[rel := ids];
    }

    /**
     * `attach`: one multi-row insert into the pivot table. It fails as a whole
     * when one of the ids is linked already (the pivot's unique key), and
     * otherwise adds them all.
     */
    method Attach(rel: Relation, ids: set<Value>) returns (ok: bool)
      modifies this
      ensures ok <==> ids !! old(Linked(rel))
      ensures ok ==> Linked(rel) == old(Linked(rel)) + ids
      ensures !ok ==> links == old(links)
      ensures forall other :: other != rel ==> Linked(other) == old(Linked(other))
      ensures attrs == old(attrs)
    {
      ok := ids !! Linked(rel);
      if ok {
        links := links[rel := Linked(rel) + ids];
      }
    }

    /** `detach`: removes one id from the relation, whether or not it was linked. */
    method Detach(rel: Relation, id: Value)
      modifies this
      ensures Linked(rel) == old(Linked(rel)) - {id}
      ensures forall other :: other != rel ==> Linked(other) == old(Linked(other))
      ensures attrs == old(attrs)
    {
      links := links[rel := Linked(rel) - {id}];
    }
  }
}
