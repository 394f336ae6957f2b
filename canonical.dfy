/** `CanonicalOrderingVisitor`: each hook rebuilds one node with its order-irrelevant
    collections sorted. The traversal calls the hooks bottom-up, so the children a hook
    sees are already canonical. */
module CanonicalOrdering {
  import opened Wrappers
  import opened Sorting
  import opened Pytd

  /** `xs` is a sorted permutation of `ys`. */
  ghost predicate SortedPermutation<T>(xs: seq<T>, ys: seq<T>, key: T -> string)
  {
    SortedBy(xs, key) && multiset(xs) == multiset(ys)
  }

  /** `sorted(xs)`, together with the facts about it. */
  function Sorted<T(==)>(xs: seq<T>, key: T -> string): (r: seq<T>)
    ensures SortedPermutation(r, xs, key)
    ensures SortedBy(xs, key) ==> r == xs
  {
    SortBySorted(xs, key);
    assert SortedBy(xs, key) ==> SortBy(xs, key) == xs by {
      if SortedBy(xs, key) { SortByOfSorted(xs, key); }
    }
    SortBy(xs, key)
  }

  /** Module level: constants, type parameters, functions, classes and aliases are sorted. */
  function VisitTypeDeclUnit(node: TypeDeclUnit): (r: TypeDeclUnit)
    ensures r.name == node.name
    ensures SortedPermutation(r.constants, node.constants, ConstantKey)
    ensures SortedPermutation(r.typeParams, node.typeParams, TypeParamKey)
    ensures SortedPermutation(r.functions, node.functions, FunctionKey)
    ensures SortedPermutation(r.classes, node.classes, ClassKey)
    ensures SortedPermutation(r.aliases, node.aliases, AliasKey)
  {
    TypeDeclUnit(
      name := node.name,
      constants := Sorted(node.constants, ConstantKey),
      typeParams := Sorted(node.typeParams, TypeParamKey),
      functions := Sorted(node.functions, FunctionKey),
      classes := Sorted(node.classes, ClassKey),
      aliases := Sorted(node.aliases, AliasKey))
  }

  /** Class level: methods, constants, decorators, nested classes and slots are sorted;
      name, metaclass, parents and template are kept, and so is a missing `__slots__`. */
  function VisitClass(node: Class): (r: Class)
    ensures r.name == node.name && r.metaclass == node.metaclass
    ensures r.parents == node.parents && r.template == node.template
    ensures SortedPermutation(r.methods, node.methods, FunctionKey)
    ensures SortedPermutation(r.constants, node.constants, ConstantKey)
    ensures SortedPermutation(r.decorators, node.decorators, AliasKey)
    ensures SortedPermutation(r.classes, node.classes, ClassKey)
    ensures r.slots.None? <==> node.slots.None?
    ensures node.slots.Some? ==> SortedPermutation(r.slots.value, node.slots.value, StringKey)
  {
    Class(
      name := node.name,
      metaclass := node.metaclass,
      parents := node.parents,
      methods := Sorted(node.methods, FunctionKey),
      constants := Sorted(node.constants, ConstantKey),
      decorators := Sorted(node.decorators, AliasKey),
      classes := Sorted(node.classes, ClassKey),
      slots := if node.slots.Some? then Some(Sorted(node.slots.value, StringKey)) else None,
      template := node.template)
  }

  /** Signatures keep their order (it is the overload lookup order) unless the caller
      asks for them to be sorted. */
  function VisitFunction(node: Function, sortSignatures: bool): (r: Function)
    ensures !sortSignatures ==> r == node
    ensures sortSignatures ==> r == node.(signatures := r.signatures)
    ensures sortSignatures ==> SortedPermutation(r.signatures, node.signatures, SignatureKey)
  {
    if sortSignatures then node.(signatures := Sorted(node.signatures, SignatureKey)) else node
  }

  /** Signature level: template and exceptions are sorted, everything else is kept. */
  function VisitSignature(node: Signature): (r: Signature)
    ensures r == node.(template := r.template, exceptions := r.exceptions)
    ensures SortedPermutation(r.template, node.template, TemplateKey)
    ensures SortedPermutation(r.exceptions, node.exceptions, TypeKey)
  {
    node.(template := Sorted(node.template, TemplateKey), exceptions := Sorted(node.exceptions, TypeKey))
  }

  /** A union's members are sorted. */
  function VisitUnionType(node: PType): (r: PType)
    requires node.UnionType?
    ensures r.UnionType?
    ensures SortedPermutation(r.typeList, node.typeList, TypeKey)
  {
    UnionType(Sorted(node.typeList, TypeKey))
  }

  /** Running a hook on its own output changes nothing more. */
  lemma HooksIdempotent(unit: TypeDeclUnit, cls: Class, fn: Function, sortSignatures: bool,
                        sig: Signature, union: PType)
    requires union.UnionType?
    ensures VisitTypeDeclUnit(VisitTypeDeclUnit(unit)) == VisitTypeDeclUnit(unit)
    ensures VisitClass(VisitClass(cls)) == VisitClass(cls)
    ensures VisitFunction(VisitFunction(fn, sortSignatures), sortSignatures) == VisitFunction(fn, sortSignatures)
    ensures VisitSignature(VisitSignature(sig)) == VisitSignature(sig)
    ensures VisitUnionType(VisitUnionType(union)) == VisitUnionType(union)
  {
  }
}
