/** The compiler-side values the inspection consumes. Kotlin type inference and
    `immediateSupertypes()` are external services; their answers are supplied
    here as plain data. */
module KotlinTypes {

  datatype Option<+T> = None | Some(value: T)

  /** A Kotlin type as the inspection sees it.
      `ctor` is what `type.constructor.toString()` yields (the bare name, such as
      `List`), `args` are the types of its type projections in declaration order,
      and `text` is the opaque `KotlinType.toString()` of the whole type. */
  datatype KType = KType(ctor: string, args: seq<KType>, text: string)

  /** The answer of type inference for one property: the inferred type and the
      ordered list of its immediate supertypes, as the compiler returns them. */
  datatype Inferred = Inferred(kType: KType, supertypes: seq<KType>)

  /** A `KtProperty` declaration. `typeReference` is the explicit type written
      in source, if any; `inference` is `property.type()` together with its
      supertypes, or `None` when inference failed. The inspection only reads it. */
  datatype Property = Property(name: string, typeReference: Option<string>, inference: Option<Inferred>)

  /** Kotlin's `toString()` on a nullable `KotlinType?`: the type's own text, or
      `"null"` when there is no type. */
  function InferredText(inference: Option<Inferred>): (r: string)
  {
    match inference
    case None => "null"
    case Some(inf) => inf.kType.text
  }
}
