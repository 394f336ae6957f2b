/** The pytd type-declaration tree: immutable value nodes for a module's classes,
    functions, constants, aliases and type expressions. */
module Pytd {
  import opened Wrappers
  import opened Text

  /** `pytd.GenericType` and its two subclasses `TupleType` and `CallableType`. */
  datatype GenericKind = PlainGeneric | TupleGeneric | CallableGeneric

  /** `pytd.TypeParameter`: a type variable with its scope, bound and constraints. */
  datatype TypeParam = TypeParam(name: string, scope: string, bound: Option<PType>, constraints: seq<PType>)

  /** Type expressions. */
  datatype PType =
    | NamedType(name: string)
    | ClassType(name: string)
    | GenericType(kind: GenericKind, baseType: PType, parameters: seq<PType>)
    | UnionType(typeList: seq<PType>)
    | IntersectionType(typeList: seq<PType>)
    | Literal(value: string)
    | TypeParameter(param: TypeParam)
    | AnythingType
    | NothingType

  /** The `name` attribute of a type node; `None` for the nodes that have none. A generic
      type's name is that of its base type. */
  function TypeName(t: PType): Option<string>
  {
    match t
    case NamedType(n) => Some(n)
    case ClassType(n) => Some(n)
    case GenericType(_, b, _) => TypeName(b)
    case TypeParameter(p) => Some(p.name)
    case _ => None
  }

  datatype TemplateItem = TemplateItem(typeParam: TypeParam)

  datatype Parameter = Parameter(name: string, typ: PType, kwonly: bool, optional: bool, mutatedType: Option<PType>)

  datatype Signature = Signature(
    params: seq<Parameter>,
    starargs: Option<Parameter>,
    starstarargs: Option<Parameter>,
    returnType: PType,
    exceptions: seq<PType>,
    template: seq<TemplateItem>)

  /** `pytd.MethodTypes`. */
  datatype MethodKind = Method | StaticMethod | ClassMethod | Property

  datatype Function = Function(name: string, signatures: seq<Signature>, kind: MethodKind, isAbstract: bool, isCoroutine: bool)

  datatype Constant = Constant(name: string, typ: PType)

  datatype Alias = Alias(name: string, typ: PType)

  datatype Class = Class(
    name: string,
    metaclass: Option<PType>,
    parents: seq<PType>,
    methods: seq<Function>,
    constants: seq<Constant>,
    classes: seq<Class>,
    decorators: seq<Alias>,
    slots: Option<seq<string>>,
    template: seq<TemplateItem>)

  datatype TypeDeclUnit = TypeDeclUnit(
    name: string,
    constants: seq<Constant>,
    typeParams: seq<TypeParam>,
    classes: seq<Class>,
    functions: seq<Function>,
    aliases: seq<Alias>)

  // ---------------------------------------------------------------------
  // Sort keys: the order `sorted` puts nodes in. Named nodes compare by name first;
  // type expressions by a rendering that starts with the node's class.

  function TypeKey(t: PType): string
  {
    match t
    case NamedType(n) => "NamedType(" + n + ")"
    case ClassType(n) => "ClassType(" + n + ")"
    case GenericType(k, b, ps) =>
      "GenericType(" + TypeKey(b) + ", " + Join(seq(|ps|, i requires 0 <= i < |ps| => TypeKey(ps[i])), ", ") + ")"
    case UnionType(ts) => "UnionType(" + Join(seq(|ts|, i requires 0 <= i < |ts| => TypeKey(ts[i])), ", ") + ")"
    case IntersectionType(ts) =>
      "IntersectionType(" + Join(seq(|ts|, i requires 0 <= i < |ts| => TypeKey(ts[i])), ", ") + ")"
    case Literal(v) => "Literal(" + v + ")"
    case TypeParameter(p) => "TypeParameter(" + p.name + ")"
    case AnythingType => "AnythingType()"
    case NothingType => "NothingType()"
  }

  function ConstantKey(c: Constant): string { c.name }
  function TypeParamKey(p: TypeParam): string { p.name }
  function FunctionKey(f: Function): string { f.name }
  function ClassKey(c: Class): string { c.name }
  function AliasKey(a: Alias): string { a.name }
  function TemplateKey(t: TemplateItem): string { t.typeParam.name }
  function StringKey(s: string): string { s }

  function SignatureKey(s: Signature): string
  {
    Join(seq(|s.params|, i requires 0 <= i < |s.params| => s.params[i].name + ": " + TypeKey(s.params[i].typ)), ", ")
    + " -> " + TypeKey(s.returnType)
  }
}
