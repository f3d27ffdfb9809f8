/** The schema provider's Resolve: the empty id and ids of no loaded type
    are rejected; otherwise the type's schema is built on the first request
    and served from the cache afterwards. A build that throws caches
    nothing, so the next request builds again. Both providers resolve this
    way. */
module SchemaCache {
  import opened Base
  import opened Guids
  import opened Schema
  import opened TypeModel
  import S = BinaryToJsonSerializer

  class SchemaProvider {
    /** TypeById: the loaded types that carry a type id. */
    const typeById: map<Guid, TypeDesc>
    /** BuildSchema, which may throw. */
    const buildSchema: (TypeDesc, Guid) -> Result<TypeSchema>
    /** TypeSchemaCache. */
    var cache: map<Guid, TypeSchema>
    /** The ids BuildSchema has built a schema for, in order. */
    ghost var builds: seq<Guid>

    /** Every cached schema is the one BuildSchema gives for a loaded type
        under a non-empty id, and BuildSchema built a schema exactly once for
        each cached id and for no other. */
    ghost predicate Valid()
      reads this
    {
      && Empty !in cache
      && (forall id | id in cache :: id in typeById && buildSchema(typeById[id], id) == Ok(cache[id]))
      && (forall i | 0 <= i < |builds| :: builds[i] in cache)
      && (forall id | id in cache :: id in builds)
      && (forall i, j | 0 <= i < j < |builds| :: builds[i] != builds[j])
    }

    /** The schema each id resolves to, cached or not: every loaded type
        whose build succeeds. */
    ghost function Schemas(): (m: map<Guid, TypeSchema>)
      reads this
      ensures forall id :: id in m <==> id in typeById && buildSchema(typeById[id], id).Ok?
      ensures forall id | id in m :: buildSchema(typeById[id], id) == Ok(m[id])
    {
      map id | id in typeById && buildSchema(typeById[id], id).Ok? :: buildSchema(typeById[id], id).value
    }

    constructor(typeById: map<Guid, TypeDesc>, buildSchema: (TypeDesc, Guid) -> Result<TypeSchema>)
      ensures Valid()
      ensures this.typeById == typeById && this.buildSchema == buildSchema
      ensures cache == map[] && builds == []
    {
      this.typeById := typeById;
      this.buildSchema := buildSchema;
      cache := map[];
      builds := [];
    }

    /** Resolve(typeId). A successful answer is the one the decoders assume
        of the provider; a build that throws is passed on and caches
        nothing; only a first successful request for an id builds a schema
        and adds it to the cache, and no other entry changes. */
    method Resolve(typeId: Guid) returns (r: Result<TypeSchema>)
      requires Valid()
      modifies this
      ensures Valid()
      ensures typeId == Empty ==> r == Err(EmptyTypeId)
      ensures typeId != Empty && typeId !in typeById ==> r == Err(UnknownTypeId)
      ensures typeId != Empty && typeId in typeById ==> r == buildSchema(typeById[typeId], typeId)
      ensures r.Ok? <==> S.Resolve(Schemas(), typeId).Ok?
      ensures r.Ok? ==> r == S.Resolve(Schemas(), typeId)
      ensures r.Ok? ==> cache == old(cache)[typeId := r.value]
      ensures r.Err? ==> cache == old(cache) && builds == old(builds)
      ensures typeId in old(cache) ==> cache == old(cache) && builds == old(builds) && r == Ok(old(cache)[typeId])
      ensures r.Ok? && typeId !in old(cache) ==> builds == old(builds) + [typeId]
    {
      if typeId == Empty {
        return Err(EmptyTypeId);
      }
      if typeId !in typeById {
        return Err(UnknownTypeId);
      }
      var t := typeById[typeId];
      if typeId in cache {
        r := Ok(cache[typeId]);
      } else {
        r := buildSchema(t, typeId);
        if r.Ok? {
          cache := cache[typeId := r.value];
          builds := builds + [typeId];
        }
      }
    }
  }

  /** While the provider is valid, BuildSchema has built a schema once per
      cached id and no more often. */
  lemma BuildsOncePerId(p: SchemaProvider)
    requires p.Valid()
    ensures |p.builds| == |p.cache|
  {
    BuildsAreKeys(p.builds, p.cache.Keys);
  }

  /** A repetition-free sequence listing exactly the members of a set is as
      long as the set is large. */
  lemma {:induction false} BuildsAreKeys(bs: seq<Guid>, keys: set<Guid>)
    requires forall i | 0 <= i < |bs| :: bs[i] in keys
    requires forall k | k in keys :: k in bs
    requires forall i, j | 0 <= i < j < |bs| :: bs[i] != bs[j]
    ensures |bs| == |keys|
  {
    if bs != [] {
      var last := bs[|bs| - 1];
      var init := bs[..|bs| - 1];
      forall k | k in keys - {last}
        ensures k in init
      {
        var i :| 0 <= i < |bs| && bs[i] == k;
        assert i < |bs| - 1;
        assert init[i] == k;
      }
      BuildsAreKeys(init, keys - {last});
    }
  }
}
