/**
 Decoded JSON as Go holds it: maps and slices are mutable nodes that values refer to. `cloneJSONValue`
 rebuilds every node. DerivedClaims uses it on what a pointer selects in a Kratos session.
 */
module JsonHeap {
  import opened JsonValues

  datatype Ref = Leaf(value: JSON) | Object(object: JsonObject) | Array(array: JsonArray)

  class JsonObject {
    var members: map<string, Ref>

    constructor ()
      ensures members == map[]
    {
      members := map[];
    }
  }

  class JsonArray {
    var items: seq<Ref>

    constructor ()
      ensures items == []
    {
      items := [];
    }
  }

  /** `r` holds the value `v`, and all the mutable nodes it is made of are among `nodes`. */
  ghost predicate Holds(r: Ref, v: JSON, nodes: set<object>)
    reads nodes
    decreases v
  {
    match r
    case Leaf(value) => v == value && !v.Arr? && !v.Obj?
    case Object(o) =>
      && o in nodes && v.Obj? && o.members.Keys == v.members.Keys
      && forall k :: k in v.members ==> Holds(o.members[k], v.members[k], nodes)
    case Array(a) =>
      && a in nodes && v.Arr? && |a.items| == |v.items|
      && forall i :: 0 <= i < |v.items| ==> Holds(a.items[i], v.items[i], nodes)
  }

  lemma {:induction false} MoreNodes(r: Ref, v: JSON, nodes: set<object>, more: set<object>)
    requires nodes <= more && Holds(r, v, nodes)
    ensures Holds(r, v, more)
    decreases v
  {
    match r
    case Leaf(_) =>
    case Object(o) =>
      forall k | k in v.members
        ensures Holds(o.members[k], v.members[k], more)
      {
        MoreNodes(o.members[k], v.members[k], nodes, more);
      }
    case Array(a) =>
      forall i | 0 <= i < |v.items|
        ensures Holds(a.items[i], v.items[i], more)
      {
        MoreNodes(a.items[i], v.items[i], nodes, more);
      }
  }

  /** `cloneJSONValue`: an equal value made of new nodes only; the original is not touched. */
  method CloneJSONValue(r: Ref, ghost v: JSON, ghost nodes: set<object>) returns (c: Ref, ghost made: set<object>)
    requires Holds(r, v, nodes)
    ensures Holds(c, v, made)
    ensures fresh(made) && made !! nodes
    decreases v
  {
    match r
    case Leaf(_) =>
      c, made := r, {};
    case Object(o) =>
      c, made := CloneObject(o, v, nodes);
    case Array(a) =>
      c, made := CloneArray(a, v, nodes);
  }

  ghost predicate MembersHold(members: map<string, Ref>, values: map<string, JSON>, nodes: set<object>)
    reads nodes
  {
    forall k :: k in members ==> k in values && Holds(members[k], values[k], nodes)
  }

  lemma MembersMoreNodes(members: map<string, Ref>, values: map<string, JSON>, nodes: set<object>, more: set<object>)
    requires nodes <= more && MembersHold(members, values, nodes)
    ensures MembersHold(members, values, more)
  {
    forall k | k in members
      ensures k in values && Holds(members[k], values[k], more)
    {
      MoreNodes(members[k], values[k], nodes, more);
    }
  }

  method CloneObject(o: JsonObject, ghost v: JSON, ghost nodes: set<object>) returns (c: Ref, ghost made: set<object>)
    requires Holds(Object(o), v, nodes)
    ensures Holds(c, v, made)
    ensures fresh(made) && made !! nodes
    decreases v, 0
  {
    var cloned, nested := CloneMembers(o, v, nodes);
    made := nested + {cloned};
    MembersMoreNodes(cloned.members, v.members, nested, made);
    c := Object(cloned);
  }

  method CloneMembers(o: JsonObject, ghost v: JSON, ghost nodes: set<object>)
    returns (cloned: JsonObject, ghost made: set<object>)
    requires Holds(Object(o), v, nodes)
    ensures cloned.members.Keys == v.members.Keys && MembersHold(cloned.members, v.members, made)
    ensures fresh(cloned) && fresh(made) && made !! nodes && cloned !in nodes
    decreases v, 0, 0
  {
    var members: map<string, Ref> := map[];
    var todo := o.members.Keys;
    made := {};
    while todo != {}
      invariant todo <= v.members.Keys && members.Keys == v.members.Keys - todo
      invariant fresh(made) && made !! nodes
      invariant MembersHold(members, v.members, made)
    {
      var key :| key in todo;
      var nested, more := CloneJSONValue(o.members[key], v.members[key], nodes);
      MembersMoreNodes(members, v.members, made, made + more);
      MoreNodes(nested, v.members[key], more, made + more);
      made := made + more;
      members := members[key := nested];
      todo := todo - {key};
    }
    cloned := new JsonObject();
    cloned.members := members;
  }

  method CloneArray(a: JsonArray, ghost v: JSON, ghost nodes: set<object>) returns (c: Ref, ghost made: set<object>)
    requires Holds(Array(a), v, nodes)
    ensures Holds(c, v, made)
    ensures fresh(made) && made !! nodes
    decreases v, 0
  {
    var items: seq<Ref> := [];
    made := {};
    for index := 0 to |a.items|
      invariant |items| == index
      invariant fresh(made) && made !! nodes
      invariant forall i :: 0 <= i < index ==> Holds(items[i], v.items[i], made)
    {
      var nested, nodes' := CloneJSONValue(a.items[index], v.items[index], nodes);
      forall i | 0 <= i < index
        ensures Holds(items[i], v.items[i], made + nodes')
      {
        MoreNodes(items[i], v.items[i], made, made + nodes');
      }
      MoreNodes(nested, v.items[index], nodes', made + nodes');
      made := made + nodes';
      items := items + [nested];
    }
    var cloned := new JsonArray();
    cloned.items := items;
    forall i | 0 <= i < |items|
      ensures Holds(items[i], v.items[i], made + {cloned})
    {
      MoreNodes(items[i], v.items[i], made, made + {cloned});
    }
    c, made := Array(cloned), made + {cloned};
  }
}
