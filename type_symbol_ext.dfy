/**
  TypeSymbolExt.RecursiveBaseTypes: enumerate, for a type and each of its base
  types in turn, all the interfaces it implements, followed by its base type.
  The base-type chain of a type is finite and acyclic; it is given as a
  sequence whose element k + 1 is the base type of element k and whose last
  element has no base type.
 */
module TypeSymbolExt {
  import opened Host

  /** A type symbol: its name and `AllInterfaces`, inherited ones included. */
  datatype TypeSymbol = TypeSymbol(name: TypeId, allInterfaces: seq<TypeId>)

  /** Everything the enumeration yields for `chain`, in order: I0, B1, I1, B2, I2, ... */
  function RecursiveBases(chain: seq<TypeSymbol>): seq<TypeId>
  {
    if chain == [] then []
    else chain[0].allInterfaces + (if |chain| > 1 then [chain[1].name] else []) + RecursiveBases(chain[1..])
  }

  /**
    `RecursiveBaseTypes`: the loop walks `type` down the base-type chain (index
    `i`), yielding the current type's interfaces and then its base type, until
    the base type is null.
   */
  method RecursiveBaseTypes(chain: seq<TypeSymbol>) returns (yielded: seq<TypeId>)
    ensures yielded == RecursiveBases(chain)
  {
    yielded := [];
    var i := 0;
    while i < |chain|
      invariant 0 <= i <= |chain|
      invariant yielded + RecursiveBases(chain[i..]) == RecursiveBases(chain)
    {
      ghost var before := yielded;
      var interfaces := chain[i].allInterfaces;
      for j := 0 to |interfaces|
        invariant yielded == before + interfaces[..j]
      {
        yielded := yielded + [interfaces[j]];
      }
      assert interfaces[..|interfaces|] == interfaces;
      assert chain[i..][1..] == chain[i + 1..];

      i := i + 1;
      if i < |chain| {
        yielded := yielded + [chain[i].name];
      }
    }
  }

  /** The number of interfaces listed along the chain. */
  function InterfaceCount(chain: seq<TypeSymbol>): nat {
    if chain == [] then 0 else |chain[0].allInterfaces| + InterfaceCount(chain[1..])
  }

  /** Where the interfaces of `chain[k]` start in the enumeration. */
  function Start(chain: seq<TypeSymbol>, k: nat): nat
    requires k < |chain|
  {
    if k == 0 then 0 else |chain[0].allInterfaces| + 1 + Start(chain[1..], k - 1)
  }

  /** The enumeration yields every interface along the chain and each base type once: its length. */
  lemma {:induction false} Length(chain: seq<TypeSymbol>)
    requires chain != []
    ensures |RecursiveBases(chain)| == InterfaceCount(chain) + |chain| - 1
  {
    if |chain| > 1 {
      Length(chain[1..]);
    }
  }

  /**
    The layout of the enumeration: the interfaces of `chain[k]` occupy the
    positions from `Start(chain, k)` on, and for a base type (k >= 1) the type
    itself is yielded immediately before them.
   */
  lemma {:induction false} Layout(chain: seq<TypeSymbol>, k: nat)
    requires k < |chain|
    ensures var r := RecursiveBases(chain);
            && Start(chain, k) + |chain[k].allInterfaces| <= |r|
            && (forall j :: 0 <= j < |chain[k].allInterfaces| ==> r[Start(chain, k) + j] == chain[k].allInterfaces[j])
            && (k > 0 ==> r[Start(chain, k) - 1] == chain[k].name)
  {
    var r := RecursiveBases(chain);
    var head := chain[0].allInterfaces + (if |chain| > 1 then [chain[1].name] else []);
    assert r == head + RecursiveBases(chain[1..]);
    if k > 0 {
      Layout(chain[1..], k - 1);
      assert chain[1..][k - 1] == chain[k];
      var s := Start(chain[1..], k - 1);
      assert Start(chain, k) == |head| + s;
      if s == 0 {
        assert k == 1;
        assert r[Start(chain, k) - 1] == head[|head| - 1];
      } else {
        assert r[Start(chain, k) - 1] == RecursiveBases(chain[1..])[s - 1];
      }
    }
  }

  /**
    The interfaces of each type come right before its base type: base type
    `chain[k + 1]` follows the last interface of `chain[k]`.
   */
  lemma {:induction false} BaseFollowsInterfaces(chain: seq<TypeSymbol>, k: nat)
    requires k + 1 < |chain|
    ensures Start(chain, k + 1) == Start(chain, k) + |chain[k].allInterfaces| + 1
  {
    if k > 0 {
      BaseFollowsInterfaces(chain[1..], k - 1);
    }
  }

  /** Base types appear in chain order: a nearer base type is yielded before a farther one. */
  lemma {:induction false} BasesInChainOrder(chain: seq<TypeSymbol>, k: nat, l: nat)
    requires 0 < k < l < |chain|
    ensures var r := RecursiveBases(chain);
            && 0 < Start(chain, k) < Start(chain, l) <= |r|
            && r[Start(chain, k) - 1] == chain[k].name
            && r[Start(chain, l) - 1] == chain[l].name
  {
    StartsIncrease(chain, k, l);
    Layout(chain, k);
    Layout(chain, l);
  }

  /** The interfaces of a farther type start after those of a nearer one. */
  lemma {:induction false} StartsIncrease(chain: seq<TypeSymbol>, k: nat, l: nat)
    requires 0 < k < l < |chain|
    ensures 0 < Start(chain, k) < Start(chain, l)
    decreases l - k
  {
    BaseFollowsInterfaces(chain, l - 1);
    if k < l - 1 {
      StartsIncrease(chain, k, l - 1);
    }
  }

  /**
    What is yielded: exactly the interfaces along the chain and the base types;
    the starting type only if it is one of those.
   */
  lemma {:induction false} Members(chain: seq<TypeSymbol>, x: TypeId)
    ensures x in RecursiveBases(chain) <==>
              (exists k :: 1 <= k < |chain| && chain[k].name == x) ||
              (exists k :: 0 <= k < |chain| && x in chain[k].allInterfaces)
  {
    if chain != [] {
      var rest := chain[1..];
      Members(rest, x);
      var head := chain[0].allInterfaces + (if |chain| > 1 then [chain[1].name] else []);
      assert RecursiveBases(chain) == head + RecursiveBases(rest);
      if (exists k :: 1 <= k < |rest| && rest[k].name == x) {
        var k :| 1 <= k < |rest| && rest[k].name == x;
        assert chain[k + 1].name == x;
      }
      if (exists k :: 0 <= k < |rest| && x in rest[k].allInterfaces) {
        var k :| 0 <= k < |rest| && x in rest[k].allInterfaces;
        assert x in chain[k + 1].allInterfaces;
      }
      if (exists k :: 1 <= k < |chain| && chain[k].name == x) {
        var k :| 1 <= k < |chain| && chain[k].name == x;
        if k > 1 {
          assert rest[k - 1].name == x;
        }
      }
      if (exists k :: 0 <= k < |chain| && x in chain[k].allInterfaces) {
        var k :| 0 <= k < |chain| && x in chain[k].allInterfaces;
        if k > 0 {
          assert x in rest[k - 1].allInterfaces;
        }
      }
    }
  }

  /** A type that is neither a base type nor an interface along its chain is not yielded for itself. */
  lemma StartTypeIsNotYielded(chain: seq<TypeSymbol>)
    requires chain != []
    requires forall k :: 1 <= k < |chain| ==> chain[k].name != chain[0].name
    requires forall k :: 0 <= k < |chain| ==> chain[0].name !in chain[k].allInterfaces
    ensures chain[0].name !in RecursiveBases(chain)
  {
    Members(chain, chain[0].name);
  }
}
