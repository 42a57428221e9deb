/** The part of Newtonsoft's JSON object model the flattener relies on. */
module Json {
  import opened Wrappers
  import opened Failures

  /** A JSON value. Numbers and booleans are kept as their literal text, since
      nothing in the flattener computes with them; dates are DateTime ticks. */
  datatype Json =
    | JNull
    | JString(s: string)
    | JScalar(text: string)
    | JDate(ticks: nat)
    | JArray(items: seq<Json>)
    | JObject(props: seq<Property>)

  datatype Property = Property(name: string, value: Json)

  function Names(props: seq<Property>): (ns: seq<string>)
    ensures |ns| == |props|
    ensures forall i :: 0 <= i < |props| ==> ns[i] == props[i].name
  {
    seq(|props|, i requires 0 <= i < |props| => props[i].name)
  }

  /** A JObject never holds two properties of the same name. */
  predicate DistinctNames(props: seq<Property>) {
    forall i, j :: 0 <= i < j < |props| ==> props[i].name != props[j].name
  }

  lemma DistinctNamesAppend(props: seq<Property>, p: Property)
    ensures DistinctNames(props + [p]) <==> DistinctNames(props) && p.name !in Names(props)
  {
    var ps := props + [p];
    if DistinctNames(props) && p.name !in Names(props) {
      forall i, j | 0 <= i < j < |ps| ensures ps[i].name != ps[j].name {
        if j == |props| {
          assert Names(props)[i] == ps[i].name;
        }
      }
    }
    if DistinctNames(ps) {
      assert forall i, j :: 0 <= i < j < |props| ==> props[i] == ps[i] && props[j] == ps[j];
      forall i | 0 <= i < |props| ensures Names(props)[i] != p.name {
        assert ps[i].name != ps[|props|].name;
      }
    }
  }

  /** JObject.Add(JProperty): appends the property, or throws when the object
      already has a property of that name (it never overwrites). */
  function AddProperty(props: seq<Property>, p: Property): (r: Result<seq<Property>, Error>)
    ensures r.Success? <==> p.name !in Names(props)
    ensures r.Success? ==> r.value == props + [p]
    ensures r.Failure? ==> r.error == DuplicateProperty(p.name)
    ensures r.Success? ==> (DistinctNames(r.value) <==> DistinctNames(props))
  {
    DistinctNamesAppend(props, p);
    if p.name in Names(props) then Failure(DuplicateProperty(p.name)) else Success(props + [p])
  }

  /** A mutable JObject: its property list, in insertion order. */
  class JsonObject {
    var props: seq<Property>

    ghost predicate Valid()
      reads this
    {
      DistinctNames(props)
    }

    /** new JObject() */
    constructor ()
      ensures Valid() && props == []
    {
      props := [];
    }

    /** JObject.Add; ok is false where the C# call throws. */
    method Add(p: Property) returns (ok: bool)
      modifies this
      ensures AddProperty(old(props), p) == if ok then Success(props) else Failure(DuplicateProperty(p.name))
      ensures !ok ==> props == old(props)
      ensures old(Valid()) ==> Valid()
    {
      ok := p.name !in Names(props);
      if ok {
        props := props + [p];
      }
    }

    /** DeepClone: a fresh object with the same properties; later changes to the
        copy cannot reach this object. */
    method DeepClone() returns (copy: JsonObject)
      ensures fresh(copy) && copy.props == props
      ensures Valid() ==> copy.Valid()
    {
      copy := new JsonObject();
      copy.props := props;
    }
  }
}
