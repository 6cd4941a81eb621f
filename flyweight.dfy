/**
 * The `flyweight` package's concrete creator: a cache from key to shared
 * product, filled on demand. A product only remembers the name (the key) it
 * was made for.
 */
module Flyweight {
  class FlyweightProduct {
    const name: string

    constructor (name: string)
      ensures this.name == name
    {
      this.name := name;
    }
  }

  class FlyweightCreator {
    var flyweights: map<string, FlyweightProduct>

    /** The kept invariant: each product is stored under its own key. */
    ghost predicate Valid()
      reads this, flyweights.Values
    {
      forall k | k in flyweights :: flyweights[k].name == k
    }

    constructor ()
      ensures flyweights == map[] && Valid()
    {
      flyweights := map[];
    }

    /**
     * `getFlyweight(key)`: on a miss, exactly one entry is added, a new
     * product for `key`; on a hit the map is unchanged. Either way the answer
     * is what the map now holds for `key`, so later calls return the same object.
     */
    method GetFlyweight(key: string) returns (p: FlyweightProduct)
      requires Valid()
      modifies this
      ensures Valid() && key in flyweights && p == flyweights[key] && p.name == key
      ensures key in old(flyweights) ==> flyweights == old(flyweights)
      ensures key !in old(flyweights) ==> fresh(p) && flyweights == old(flyweights)[key := p]
      ensures old(flyweights).Keys <= flyweights.Keys
    {
      if key !in flyweights {
        var made := new FlyweightProduct(key);
        flyweights := flyweights[key := made];
      }
      p := flyweights[key];
    }

    /** `listFlyweights()`: every key exactly once, in some order. */
    method ListFlyweights() returns (keys: seq<string>)
      ensures |keys| == |flyweights.Keys|
      ensures forall k :: k in keys <==> k in flyweights
      ensures forall i, j | 0 <= i < j < |keys| :: keys[i] != keys[j]
    {
      keys := [];
      var rest := flyweights.Keys;
      while rest != {}
        invariant rest <= flyweights.Keys
        invariant forall k :: k in keys <==> k in flyweights && k !in rest
        invariant forall i, j | 0 <= i < j < |keys| :: keys[i] != keys[j]
        invariant |keys| + |rest| == |flyweights.Keys|
        decreases |rest|
      {
        var k :| k in rest;
        keys := keys + [k];
        rest := rest - {k};
      }
    }
  }

  /** Two lookups of the same key, with any other lookups between, give the same object. */
  method SameObjectTwice(c: FlyweightCreator, key: string, other: string) returns (first: FlyweightProduct, second: FlyweightProduct)
    requires c.Valid()
    modifies c
    ensures first == second && first.name == key
  {
    first := c.GetFlyweight(key);
    var _ := c.GetFlyweight(other);
    second := c.GetFlyweight(key);
  }
}
