/** `ExtractSuperClasses`: a map from each class (through a key function) to the keys
    of its direct parents. */
module SuperClasses {
  import opened Wrappers
  import opened Pytd

  /** The nodes the key function `_Key` is applied to. */
  datatype Node = ClassNode(cls: Class) | TypeNode(typ: PType)

  /** The base visitor's `_Key`: every node is its own key. */
  function IdentityKey(n: Node): Option<Node>
  {
    Some(n)
  }

  /** Reference definition: the keys of `parents`, in order, leaving out those whose key is `None`. */
  function ParentKeys<K>(parents: seq<PType>, key: Node -> Option<K>): seq<K>
  {
    if parents == [] then []
    else
      var rest := ParentKeys(parents[..|parents| - 1], key);
      match key(TypeNode(parents[|parents| - 1]))
      case Some(k) => rest + [k]
      case None => rest
  }

  /** The parent list holds the key of every parent that has one, in order, and nothing else. */
  lemma {:induction false} ParentKeysSpec<K>(parents: seq<PType>, key: Node -> Option<K>)
    ensures |ParentKeys(parents, key)| <= |parents|
    ensures forall k :: k in ParentKeys(parents, key) <==> exists p :: p in parents && key(TypeNode(p)) == Some(k)
    ensures (forall p :: p in parents ==> key(TypeNode(p)).Some?) ==>
              |ParentKeys(parents, key)| == |parents| &&
              forall i :: 0 <= i < |parents| ==> ParentKeys(parents, key)[i] == key(TypeNode(parents[i])).value
  {
    if parents != [] {
      var init := parents[..|parents| - 1];
      var last := parents[|parents| - 1];
      ParentKeysSpec(init, key);
      assert parents == init + [last];
      forall k ensures k in ParentKeys(parents, key) <==> exists p :: p in parents && key(TypeNode(p)) == Some(k) {
        if k in ParentKeys(parents, key) {
          if k !in ParentKeys(init, key) {
            assert key(TypeNode(last)) == Some(k);
          } else {
            var p :| p in init && key(TypeNode(p)) == Some(k);
            assert p in parents;
          }
        }
        if exists p :: p in parents && key(TypeNode(p)) == Some(k) {
          var p :| p in parents && key(TypeNode(p)) == Some(k);
          if p != last {
            assert p in init;
          }
        }
      }
      if forall p :: p in parents ==> key(TypeNode(p)).Some? {
        assert forall p :: p in init ==> p in parents;
      }
    }
  }

  /** With the identity key every parent is listed. */
  lemma IdentityKeyKeepsAll(parents: seq<PType>)
    ensures ParentKeys(parents, IdentityKey) == seq(|parents|, i requires 0 <= i < |parents| => TypeNode(parents[i]))
  {
    ParentKeysSpec(parents, IdentityKey);
  }

  class ExtractSuperClasses<K(==)> {
    const key: Node -> Option<K>
    var superclasses: map<Option<K>, seq<K>>

    constructor(key: Node -> Option<K>)
      ensures this.key == key && superclasses == map[]
    {
      this.key := key;
      superclasses := map[];
    }

    /** `EnterClass`: record the class's parent keys under the class's own key. */
    method EnterClass(cls: Class)
      modifies this
      ensures superclasses == old(superclasses)[key(ClassNode(cls)) := ParentKeys(cls.parents, key)]
    {
      var parents: seq<K> := [];
      var i := 0;
      while i < |cls.parents|
        invariant 0 <= i <= |cls.parents|
        invariant parents == ParentKeys(cls.parents[..i], key)
      {
        assert cls.parents[..i + 1][..i] == cls.parents[..i];
        var parent := key(TypeNode(cls.parents[i]));
        if parent.Some? {
          parents := parents + [parent.value];
        }
        i := i + 1;
      }
      assert cls.parents[..i] == cls.parents;
      superclasses := superclasses[key(ClassNode(cls)) := parents];
    }

    /** `VisitTypeDeclUnit`: the result of the pass is the collected map. */
    function VisitTypeDeclUnit(): map<Option<K>, seq<K>>
      reads this
    {
      superclasses
    }
  }
}
