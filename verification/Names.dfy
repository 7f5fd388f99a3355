/** Unique names for containers, load balancers and volumes. */
module Names {
  import opened Prelude
  import opened AddressText

  ghost function Longest(keys: set<string>): (n: nat)
    ensures forall k :: k in keys ==> |k| <= n
  {
    if keys == {} then 0
    else
      var k :| k in keys;
      var rest := Longest(keys - {k});
      assert forall j :: j in keys ==> j == k || j in keys - {k};
      if |k| < rest then rest else |k|
  }

  class UniqueNameGenerator {
    var nameCount: map<string, nat>

    constructor ()
      ensures nameCount == map[]
    {
      nameCount := map[];
    }

    /** A name that nobody has and that starts with the prefix: the prefix itself
        if it is free. Each retry asks for a longer name, so it ends, also when a
        generated name had been asked for before. */
    method GetName(prefix: string) returns (name: string)
      modifies this
      ensures name !in old(nameCount) && nameCount.Keys == old(nameCount).Keys + {name}
      ensures prefix <= name && (name == prefix <==> prefix !in old(nameCount))
      ensures prefix in old(nameCount) ==>
                var next := prefix + Decimal(old(nameCount)[prefix] + 1);
                next <= name && (name == next <==> next !in old(nameCount))
      decreases Longest(nameCount.Keys) + 1 - |prefix|
    {
      if prefix !in nameCount {
        nameCount := nameCount[prefix := 1];
        return prefix;
      }
      nameCount := nameCount[prefix := nameCount[prefix] + 1];
      assert nameCount.Keys == old(nameCount).Keys;
      name := GetName(prefix + Decimal(nameCount[prefix]));
    }

    /** Over any sequence of calls no name comes out twice. */
    method GetNames(prefixes: seq<string>) returns (names: seq<string>)
      modifies this
      ensures |names| == |prefixes| && NoDuplicates(names)
      ensures forall i :: 0 <= i < |names| ==> prefixes[i] <= names[i] && names[i] !in old(nameCount)
      ensures nameCount.Keys == old(nameCount).Keys + Elements(names)
    {
      names := [];
      for n := 0 to |prefixes|
        invariant |names| == n && NoDuplicates(names)
        invariant forall i :: 0 <= i < n ==> prefixes[i] <= names[i] && names[i] !in old(nameCount)
        invariant nameCount.Keys == old(nameCount).Keys + Elements(names)
      {
        var name := GetName(prefixes[n]);
        names := names + [name];
      }
    }
  }
}
